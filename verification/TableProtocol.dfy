/**
 The publish protocol of one warehouse table, as a state machine over single
 object-store requests. A run may stop after any of them, and the next run
 then reuses its version number on top of whatever it left behind.

 One run at a time writes a table (LeasedPublish proves that of leased
 handlers). A GET fails only when the key is absent, and a request has no
 effect once the run that sent it is over.
 */
module TableProtocol {
  import opened Text
  import opened Paths
  import opened Manifest

  datatype Object = Parquet(data: Bytes) | ManifestDoc(manifest: TableManifest) | PointerDoc(version: nat)

  /** The objects under a table's prefix, by relative key. */
  type Store = map<string, Object>

  function ReadVersion(store: Store, version: nat): Result<TableManifest, string> {
    var key := ManifestKey(version);
    if key !in store then Err("GetObject failed")
    else match store[key]
         case ManifestDoc(m) => Ok(m)
         case _ => Err("not a manifest")
  }

  /** `read_current`: an absent pointer means a table never published. */
  function ReadCurrent(store: Store): Result<TableManifest, string> {
    if CURRENT_KEY !in store then Ok(EMPTY_MANIFEST)
    else match store[CURRENT_KEY]
         case PointerDoc(v) => ReadVersion(store, v)
         case _ => Err("not a version pointer")
  }

  // What a vacuum deletes

  function ManifestVersions(listing: seq<string>): seq<nat> {
    if listing == [] then []
    else
      (match ManifestVersion(listing[0]) case Some(v) => [v] case None => [])
      + ManifestVersions(listing[1..])
  }

  function Without(versions: seq<nat>, doomed: seq<nat>, current: nat): (r: seq<nat>)
    ensures forall v :: v in r <==> v in versions && v !in doomed && v <= current
  {
    if versions == [] then []
    else (if versions[0] !in doomed && versions[0] <= current then [versions[0]] else [])
         + Without(versions[1..], doomed, current)
  }

  /** The manifests of the retained versions; nothing if one is unreadable. */
  function ReadAll(store: Store, versions: seq<nat>): Option<seq<TableManifest>> {
    if versions == [] then Some([])
    else match (ReadVersion(store, versions[0]), ReadAll(store, versions[1..]))
         case (Ok(m), Some(ms)) => Some([m] + ms)
         case _ => None
  }

  function ManifestKeys(versions: seq<nat>): (keys: seq<string>)
    ensures |keys| == |versions|
  {
    seq(|versions|, i requires 0 <= i < |versions| => ManifestKey(versions[i]))
  }

  function Doomed(listing: seq<string>, current: nat): seq<nat> {
    VersionsToDrop(ManifestVersions(listing), current, RETAINED_VERSIONS)
  }

  function RetainedVersions(listing: seq<string>, current: nat): seq<nat> {
    Without(ManifestVersions(listing), Doomed(listing, current), current)
  }

  /** The keys a vacuum deletes, in order: orphans, then dropped manifests. */
  function VacuumTargets(store: Store, listing: seq<string>, current: nat): Option<seq<string>> {
    match ReadAll(store, RetainedVersions(listing, current))
    case None => None
    case Some(retained) => Some(UnreferencedKeys(retained, listing) + ManifestKeys(Doomed(listing, current)))
  }

  // Runs

  /** A version as it was when its manifest was written. */
  datatype Snapshot = Snapshot(manifest: TableManifest, content: map<string, Bytes>)

  /** Where a run is with this table. `done` holds the mappings whose output
      has been folded into `files`. */
  datatype Run =
    | Idle
    | Writing(version: nat, columns: seq<string>, files: seq<ManifestFile>, done: set<string>)
    | ManifestWritten(snapshot: Snapshot)
    | Flipped(current: nat)
    | Vacuuming(targets: seq<string>)

  /** `published[v - 1]` remembers version `v`; no code reads it. */
  datatype State = State(store: Store, published: seq<Snapshot>, run: Run)

  datatype Event =
    | Begin(columns: seq<string>, clean: bool)
    | Upload(cells: seq<Cell>, mapping: string, data: Bytes)
    | Accept(tuples: seq<seq<Cell>>, mapping: string)
    | PutManifest(createdAt: string)
    | FlipPointer
    | StartVacuum(listing: seq<string>)
    | Delete(ok: bool)
    | End

  /** A listing has every key of the store once, in some order. */
  ghost predicate Lists(listing: seq<string>, store: Store) {
    NoRepeats(listing) && forall k :: k in listing <==> k in store
  }

  predicate AllRenderable(columns: seq<string>, tuples: seq<seq<Cell>>) {
    forall i | 0 <= i < |tuples| :: Renderable(columns, tuples[i])
  }

  predicate HoldsData(store: Store, key: string) {
    key in store && store[key].Parquet?
  }

  predicate Uploaded(store: Store, run: Run, tuples: seq<seq<Cell>>, mapping: string)
    requires run.Writing? && AllRenderable(run.columns, tuples)
  {
    && (forall i | 0 <= i < |tuples| :: HoldsData(store, FileKey(run.version, run.columns, tuples[i], mapping)))
    && forall i, j | 0 <= i < j < |tuples| ::
         FileKey(run.version, run.columns, tuples[i], mapping) != FileKey(run.version, run.columns, tuples[j], mapping)
  }

  /** The entries `upload_partitions_async` returns for its uploads. */
  function Written(store: Store, run: Run, tuples: seq<seq<Cell>>, mapping: string): (w: seq<ManifestFile>)
    requires run.Writing? && AllRenderable(run.columns, tuples) && Uploaded(store, run, tuples, mapping)
    ensures |w| == |tuples|
    ensures forall i | 0 <= i < |w| ::
              w[i].key == FileKey(run.version, run.columns, tuples[i], mapping) && w[i].mapping == mapping
              && HoldsData(store, w[i].key) && w[i].bytes == |store[w[i].key].data|
  {
    seq(|tuples|, i requires 0 <= i < |tuples| =>
      var key := FileKey(run.version, run.columns, tuples[i], mapping);
      assert HoldsData(store, key);
      ManifestFile(key, mapping, |store[key].data|))
  }

  predicate FilesHeld(store: Store, files: seq<ManifestFile>) {
    forall f | f in files :: HoldsData(store, f.key)
  }

  function ContentOf(store: Store, files: seq<ManifestFile>): map<string, Bytes>
    requires FilesHeld(store, files)
  {
    map k | k in store && HasKey(files, k) && HoldsData(store, k) :: store[k].data
  }

  /** Whether a run can make this request now. Everything but what is needed
      to state the request comes from the code's own checks. */
  ghost predicate Enabled(s: State, e: Event) {
    match e
    case Begin(columns, clean) =>
      s.run.Idle? && ReadCurrent(s.store).Ok? && ReadCurrent(s.store).value.version < U64_MAX
    case Upload(cells, mapping, data) =>
      s.run.Writing? && Renderable(s.run.columns, cells) && mapping !in s.run.done
    case Accept(tuples, mapping) =>
      s.run.Writing? && AllRenderable(s.run.columns, tuples) && mapping !in s.run.done
      && Uploaded(s.store, s.run, tuples, mapping)
    case PutManifest(createdAt) => s.run.Writing? && s.run.done != {} && FilesHeld(s.store, s.run.files)
    case FlipPointer => s.run.ManifestWritten?
    case StartVacuum(listing) =>
      s.run.Flipped? && Lists(listing, s.store)
      && VacuumTargets(s.store, listing, s.run.current).Some?
    case Delete(ok) => s.run.Vacuuming? && s.run.targets != []
    case End => true
  }

  ghost function Next(s: State, e: Event): State
    requires Enabled(s, e)
  {
    match e
    case Begin(columns, clean) =>
      var m := ReadCurrent(s.store).value;
      s.(run := Writing(m.version + 1, columns, if clean then [] else m.files, {}))
    case Upload(cells, mapping, data) =>
      s.(store := s.store[FileKey(s.run.version, s.run.columns, cells, mapping) := Parquet(data)])
    case Accept(tuples, mapping) =>
      s.(run := s.run.(files := ApplyMappingWrites(s.run.files, mapping, Written(s.store, s.run, tuples, mapping)),
                       done := s.run.done + {mapping}))
    case PutManifest(createdAt) =>
      var m := TableManifest(s.run.version, createdAt, s.run.files);
      s.(store := s.store[ManifestKey(m.version) := ManifestDoc(m)],
         run := ManifestWritten(Snapshot(m, ContentOf(s.store, m.files))))
    case FlipPointer =>
      var version := s.run.snapshot.manifest.version;
      State(s.store[CURRENT_KEY := PointerDoc(version)], s.published + [s.run.snapshot], Flipped(version))
    case StartVacuum(listing) =>
      s.(run := Vacuuming(VacuumTargets(s.store, listing, s.run.current).value))
    case Delete(ok) =>
      s.(store := if ok then s.store - {s.run.targets[0]} else s.store, run := Vacuuming(s.run.targets[1..]))
    case End => s.(run := Idle)
  }

  ghost predicate Init(s: State) {
    s == State(map[], [], Idle)
  }
}
