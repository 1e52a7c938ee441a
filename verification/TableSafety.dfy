/**
 What every reachable state of a table keeps: `_current.json` is absent or gives
 a complete version, and the last ten versions stay byte for byte what they were.
 */
module TableSafety {
  import opened Text
  import opened Paths
  import opened Manifest
  import opened TableProtocol

  // The invariant

  function Current(s: State): nat {
    |s.published|
  }

  /** Version 1 is the first one published. */
  ghost function VersionOf(published: seq<Snapshot>, v: nat): Snapshot
    requires 1 <= v <= |published|
  {
    published[v - 1]
  }

  /** Versions still readable when `current` is: the last ten. */
  ghost predicate InWindow(v: nat, current: nat) {
    1 <= v <= current <= v + 9
  }

  /** The manifest and every file of a version, byte for byte. */
  ghost predicate Held(store: Store, snapshot: Snapshot) {
    var m := snapshot.manifest;
    && ManifestKey(m.version) in store && store[ManifestKey(m.version)] == ManifestDoc(m)
    && forall f | f in m.files :: f.key in snapshot.content && f.key in store
                                  && store[f.key] == Parquet(snapshot.content[f.key])
  }

  ghost predicate UpToVersion(key: string, version: nat) {
    KeyVersion(key).Some? && 1 <= KeyVersion(key).value <= version
  }

  ghost predicate WellMade(snapshot: Snapshot, version: nat) {
    var m := snapshot.manifest;
    && 1 <= m.version == version <= U64_MAX
    && StrictlySorted(m.files)
    && forall f | f in m.files :: UpToVersion(f.key, version)
                                  && f.key in snapshot.content && |snapshot.content[f.key]| == f.bytes
  }

  ghost predicate PointerOk(s: State) {
    if s.published == [] then CURRENT_KEY !in s.store
    else CURRENT_KEY in s.store && s.store[CURRENT_KEY] == PointerDoc(Current(s))
  }

  ghost predicate HistoryOk(s: State) {
    forall v | 1 <= v <= Current(s) :: WellMade(VersionOf(s.published, v), v)
  }

  ghost predicate WindowOk(s: State) {
    forall v | InWindow(v, Current(s)) :: Held(s.store, VersionOf(s.published, v))
  }

  ghost predicate KeyOk(store: Store, key: string, version: nat)
    requires key in store
  {
    || key == CURRENT_KEY
    || (ManifestVersion(key).Some? && 1 <= ManifestVersion(key).value <= version
        && key == ManifestKey(ManifestVersion(key).value))
    || (UpToVersion(key, version) && store[key].Parquet?)
  }

  ghost predicate KeysOk(store: Store, version: nat) {
    forall key | key in store :: KeyOk(store, key, version)
  }

  ghost predicate FromMapping(key: string, version: nat, columns: seq<string>, mapping: string) {
    exists cells :: Renderable(columns, cells) && key == FileKey(version, columns, cells, mapping)
  }

  ghost predicate FileOk(store: Store, run: Run, f: ManifestFile)
    requires run.Writing?
  {
    && UpToVersion(f.key, run.version) && HoldsData(store, f.key) && |store[f.key].data| == f.bytes
    && (KeyVersion(f.key).value == run.version ==>
          f.mapping in run.done && FromMapping(f.key, run.version, run.columns, f.mapping))
  }

  /** A key of the pointer, of a manifest in the window, or of a file one names. */
  ghost predicate Surviving(s: State, key: string) {
    key == CURRENT_KEY
    || exists v :: InWindow(v, Current(s)) && NamedBy(VersionOf(s.published, v), v, key)
  }

  ghost predicate NamedBy(snapshot: Snapshot, v: nat, key: string) {
    key == ManifestKey(v) || HasKey(snapshot.manifest.files, key)
  }

  ghost predicate RunOk(s: State) {
    match s.run
    case Idle => true
    case Writing(version, columns, files, done) =>
      version == Current(s) + 1 <= U64_MAX && StrictlySorted(files)
      && forall f | f in files :: FileOk(s.store, s.run, f)
    case ManifestWritten(snapshot) => WellMade(snapshot, Current(s) + 1) && Held(s.store, snapshot)
    case Flipped(current) => current == Current(s) && s.published != [] && KeysOk(s.store, current)
    case Vacuuming(targets) => forall key | key in targets :: !Surviving(s, key)
  }

  ghost predicate Inv(s: State) {
    PointerOk(s) && HistoryOk(s) && WindowOk(s) && KeysOk(s.store, Current(s) + 1) && RunOk(s)
  }

  // Frame facts about keys

  lemma ManifestKeyKind(v: nat)
    ensures ManifestKey(v) != CURRENT_KEY && KeyVersion(ManifestKey(v)).None?
    ensures StartsWith(ManifestKey(v), MANIFEST_PREFIX)
  {
    assert ManifestKey(v)[0] == '_' && ManifestKey(v)[1] == 'm';
    assert ManifestKey(v)[..|MANIFEST_PREFIX|] == MANIFEST_PREFIX;
  }

  lemma DataKeyKind(key: string)
    requires KeyVersion(key).Some?
    ensures key != CURRENT_KEY && !StartsWith(key, MANIFEST_PREFIX)
    ensures forall v {:trigger ManifestKey(v)} :: key != ManifestKey(v)
  {
    forall v ensures key != ManifestKey(v) { ManifestKeyKind(v); }
  }

  lemma HeldFrame(store: Store, snapshot: Snapshot, key: string, written: Object)
    requires Held(store, snapshot)
    requires key != ManifestKey(snapshot.manifest.version) && !HasKey(snapshot.manifest.files, key)
    ensures Held(store[key := written], snapshot) && Held(store - {key}, snapshot)
  {
  }

  lemma NotNamed(snapshot: Snapshot, version: nat, key: string)
    requires WellMade(snapshot, version)
    requires KeyVersion(key).Some? ==> KeyVersion(key).value > version
    ensures !HasKey(snapshot.manifest.files, key)
  {
  }

  /** Writing a key no version in the window uses leaves the window alone. */
  lemma WindowFrame(s: State, key: string, written: Object)
    requires HistoryOk(s) && WindowOk(s)
    requires KeyVersion(key).Some? ==> KeyVersion(key).value > Current(s)
    requires forall v | InWindow(v, Current(s)) :: key != ManifestKey(v)
    ensures WindowOk(s.(store := s.store[key := written]))
  {
    forall v | InWindow(v, Current(s)) ensures Held(s.store[key := written], VersionOf(s.published, v)) {
      assert WellMade(VersionOf(s.published, v), v);
      NotNamed(VersionOf(s.published, v), v, key);
      HeldFrame(s.store, VersionOf(s.published, v), key, written);
    }
  }

  // Every event keeps the invariant

  lemma ReadsCurrent(s: State)
    requires Inv(s)
    ensures ReadCurrent(s.store)
         == Ok(if s.published == [] then EMPTY_MANIFEST else VersionOf(s.published, Current(s)).manifest)
    ensures ReadCurrent(s.store).value.version == Current(s)
  {
    if s.published != [] {
      assert InWindow(Current(s), Current(s));
      assert WellMade(VersionOf(s.published, Current(s)), Current(s));
    }
  }

  lemma BeginKeeps(s: State, columns: seq<string>, clean: bool)
    requires Inv(s) && Enabled(s, Begin(columns, clean))
    ensures Inv(Next(s, Begin(columns, clean)))
  {
    ReadsCurrent(s);
    var t := Next(s, Begin(columns, clean));
    if s.published != [] {
      var snapshot := VersionOf(s.published, Current(s));
      assert InWindow(Current(s), Current(s)) && WellMade(snapshot, Current(s));
      forall f | f in t.run.files ensures FileOk(t.store, t.run, f) {
        assert f in snapshot.manifest.files;
      }
    }
  }

  lemma FileKeyVersion(version: nat, columns: seq<string>, cells: seq<Cell>, mapping: string)
    requires Renderable(columns, cells)
    ensures KeyVersion(FileKey(version, columns, cells, mapping)) == Some(version)
  {
    KeyVersionOf(version, HivePath(columns, cells) + (mapping + ".parquet"));
  }

  lemma UploadKeeps(s: State, cells: seq<Cell>, mapping: string, data: Bytes)
    requires Inv(s) && Enabled(s, Upload(cells, mapping, data))
    ensures Inv(Next(s, Upload(cells, mapping, data)))
  {
    var t := Next(s, Upload(cells, mapping, data));
    var key := FileKey(s.run.version, s.run.columns, cells, mapping);
    FileKeyVersion(s.run.version, s.run.columns, cells, mapping);
    DataKeyKind(key);
    WindowFrame(s, key, Parquet(data));
    KeysAfterWrite(s.store, Current(s) + 1, key, Parquet(data));
    forall f | f in t.run.files ensures FileOk(t.store, t.run, f) {
      assert FileOk(s.store, s.run, f);
      if f.key == key { NotOverwritten(s.run, f, cells, mapping); }
    }
  }

  /** Uploads of a mapping still to be folded in miss every listed file. */
  lemma NotOverwritten(run: Run, f: ManifestFile, cells: seq<Cell>, mapping: string)
    requires run.Writing? && Renderable(run.columns, cells) && mapping !in run.done
    requires f.mapping in run.done && FromMapping(f.key, run.version, run.columns, f.mapping)
    ensures f.key != FileKey(run.version, run.columns, cells, mapping)
  {
    var other :| Renderable(run.columns, other) && f.key == FileKey(run.version, run.columns, other, f.mapping);
    if f.key == FileKey(run.version, run.columns, cells, mapping) {
      FileKeyTellsMapping(run.version, run.columns, cells, other, mapping, f.mapping);
    }
  }

  lemma KeysAfterWrite(store: Store, version: nat, key: string, written: Object)
    requires KeysOk(store, version)
    requires KeyOk(store[key := written], key, version)
    ensures KeysOk(store[key := written], version)
  {
    var after := store[key := written];
    forall k | k in after ensures KeyOk(after, k, version) {
      if k != key { assert KeyOk(store, k, version); }
    }
  }

  lemma AcceptKeeps(s: State, tuples: seq<seq<Cell>>, mapping: string)
    requires Inv(s) && Enabled(s, Accept(tuples, mapping))
    ensures Inv(Next(s, Accept(tuples, mapping)))
  {
    var t := Next(s, Accept(tuples, mapping));
    var written := Written(s.store, s.run, tuples, mapping);
    forall i | 0 <= i < |written|
      ensures FileOk(s.store, t.run, written[i])
      ensures forall f | f in s.run.files && f.mapping != mapping :: f.key != written[i].key
    {
      FileKeyVersion(s.run.version, s.run.columns, tuples[i], mapping);
      assert FromMapping(written[i].key, s.run.version, s.run.columns, mapping);
      forall f | f in s.run.files && f.mapping != mapping ensures f.key != written[i].key {
        assert FileOk(s.store, s.run, f);
        if f.key == written[i].key { NotOverwritten(s.run, f, tuples[i], mapping); }
      }
    }
    AcceptedFiles(s.run.files, mapping, written);
    forall f | f in t.run.files ensures FileOk(t.store, t.run, f) {
      if f !in written { assert FileOk(s.store, s.run, f); }
    }
  }

  lemma AcceptedFiles(files: seq<ManifestFile>, mapping: string, written: seq<ManifestFile>)
    requires StrictlySorted(files) && DistinctKeys(written)
    requires forall i | 0 <= i < |written| ::
               forall f | f in files && f.mapping != mapping :: f.key != written[i].key
    ensures StrictlySorted(ApplyMappingWrites(files, mapping, written))
    ensures forall f :: f in ApplyMappingWrites(files, mapping, written)
                        <==> (f in files && f.mapping != mapping) || f in written
  {
    ApplyMappingWritesContent(files, mapping, written);
  }

  lemma PutManifestKeeps(s: State, createdAt: string)
    requires Inv(s) && Enabled(s, PutManifest(createdAt))
    ensures Inv(Next(s, PutManifest(createdAt)))
  {
    var t := Next(s, PutManifest(createdAt));
    var m := t.run.snapshot.manifest;
    var key := ManifestKey(m.version);
    ManifestKeyKind(m.version);
    forall v | InWindow(v, Current(s)) ensures key != ManifestKey(v) {
      if key == ManifestKey(v) { ManifestKeysDiffer(m.version, v); }
    }
    WindowFrame(s, key, ManifestDoc(m));
    ManifestVersionOf(m.version);
    KeysAfterWrite(s.store, Current(s) + 1, key, ManifestDoc(m));
    forall f | f in m.files
      ensures f.key in t.run.snapshot.content && t.run.snapshot.content[f.key] == s.store[f.key].data
      ensures HoldsData(s.store, f.key) && f.key != key && UpToVersion(f.key, m.version)
      ensures |s.store[f.key].data| == f.bytes
    {
      assert FileOk(s.store, s.run, f);
      DataKeyKind(f.key);
    }
  }

  lemma FlipHistory(s: State, v: nat)
    requires Inv(s) && Enabled(s, FlipPointer) && 1 <= v <= Current(s) + 1
    ensures var t := Next(s, FlipPointer);
            WellMade(VersionOf(t.published, v), v) && (InWindow(v, Current(t)) ==> Held(s.store, VersionOf(t.published, v)))
  {
    var t := Next(s, FlipPointer);
    if v <= Current(s) {
      assert VersionOf(t.published, v) == VersionOf(s.published, v);
      assert InWindow(v, Current(t)) ==> InWindow(v, Current(s));
    }
  }

  lemma FlipKeeps(s: State)
    requires Inv(s) && Enabled(s, FlipPointer)
    ensures Inv(Next(s, FlipPointer))
  {
    var t := Next(s, FlipPointer);
    assert Current(t) == Current(s) + 1;
    forall v | 1 <= v <= Current(t) ensures WellMade(VersionOf(t.published, v), v) { FlipHistory(s, v); }
    forall v | InWindow(v, Current(t)) ensures Held(t.store, VersionOf(t.published, v)) {
      var snapshot := VersionOf(t.published, v);
      FlipHistory(s, v);
      ManifestKeyKind(v);
      NotNamed(snapshot, v, CURRENT_KEY);
      HeldFrame(s.store, snapshot, CURRENT_KEY, PointerDoc(Current(t)));
    }
    KeysAfterWrite(s.store, Current(t), CURRENT_KEY, PointerDoc(Current(t)));
    forall k | k in t.store ensures KeyOk(t.store, k, Current(t) + 1) {
      assert KeyOk(t.store, k, Current(t));
    }
  }

  lemma DeleteKeeps(s: State, ok: bool)
    requires Inv(s) && Enabled(s, Delete(ok))
    ensures Inv(Next(s, Delete(ok)))
  {
    var t := Next(s, Delete(ok));
    var key := s.run.targets[0];
    assert key in s.run.targets;
    forall v | InWindow(v, Current(s)) ensures Held(t.store, VersionOf(t.published, v)) {
      assert !NamedBy(VersionOf(s.published, v), v, key);
      assert WellMade(VersionOf(s.published, v), v);
      HeldFrame(s.store, VersionOf(s.published, v), key, PointerDoc(0));
    }
    forall k | k in t.store ensures KeyOk(t.store, k, Current(t) + 1) {
      assert KeyOk(s.store, k, Current(s) + 1);
    }
    forall k | k in t.run.targets ensures !Surviving(t, k) {
      assert k in s.run.targets;
    }
  }
}
