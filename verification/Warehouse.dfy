/**
 The whole bucket. Tables are places in one flat space of keys: a job prefix and
 a table id. A run uploads where its partition keys say, and a vacuum lists and
 deletes by bare prefix, so tables can reach into one another. They do not, and
 each goes through a run of TableProtocol, exactly when no table id has a slash
 and no table's full prefix begins another's.

 At most one run at a time works on a table here; LeasedWarehouse has the queue.
 */
module Warehouse {
  import opened Text
  import opened Paths
  import opened Manifest
  import T = TableProtocol
  import opened TableShadow

  /** Where a table lives. Job prefixes end in a slash. */
  datatype Site = Site(prefix: string, table: string)

  function Root(site: Site): string {
    site.prefix + site.table + "/"
  }

  type Objects = map<string, T.Object>

  function Names(objects: Objects, root: string): (names: set<string>)
    ensures forall k :: k in names <==> root + k in objects
  {
    var names := set k | k in objects && StartsWith(k, root) :: k[|root|..];
    assert forall k | root + k in objects :: (root + k)[|root|..] == k;
    assert forall key | key in objects && StartsWith(key, root) :: root + key[|root|..] == key;
    names
  }

  /** What a listing by prefix shows, keys relative to it. */
  function Under(objects: Objects, root: string): T.Store {
    map k | k in Names(objects, root) :: objects[root + k]
  }

  /** What a run keeps in memory about its table. `sent` has the entries of the
      uploads it got a reply for, with their sizes. */
  datatype Run =
    | Idle
    | Writing(version: nat, columns: seq<string>, files: seq<ManifestFile>, done: set<string>, sent: map<string, nat>)
    | ManifestWritten(manifest: TableManifest)
    | Flipped(current: nat)
    | Vacuuming(targets: seq<string>)

  /** Where an upload goes, below the job prefix, and the key recorded for it. */
  function Target(site: Site, version: nat, columns: seq<string>, cells: seq<Cell>, mapping: string): (string, string)
    requires Renderable(columns, cells)
  {
    RecordedIs(site.table, version, columns, cells, mapping);
    UploadTarget(PartitionKey(site.table, columns, cells, mapping), version).value
  }

  function Recorded(site: Site, run: Run, cells: seq<Cell>, mapping: string): string
    requires run.Writing? && Renderable(run.columns, cells)
  {
    Target(site, run.version, run.columns, cells, mapping).1
  }

  predicate AllSent(site: Site, run: Run, tuples: seq<seq<Cell>>, mapping: string)
    requires run.Writing? && T.AllRenderable(run.columns, tuples)
  {
    && (forall i | 0 <= i < |tuples| :: Recorded(site, run, tuples[i], mapping) in run.sent)
    && forall i, j | 0 <= i < j < |tuples| ::
         Recorded(site, run, tuples[i], mapping) != Recorded(site, run, tuples[j], mapping)
  }

  function SentFiles(site: Site, run: Run, tuples: seq<seq<Cell>>, mapping: string): (w: seq<ManifestFile>)
    requires run.Writing? && T.AllRenderable(run.columns, tuples) && AllSent(site, run, tuples, mapping)
    ensures |w| == |tuples|
  {
    seq(|tuples|, i requires 0 <= i < |tuples| =>
      var key := Recorded(site, run, tuples[i], mapping);
      ManifestFile(key, mapping, run.sent[key]))
  }

  /** What the code itself checks before each request, and no more: the store is
      read only where the code reads it. */
  ghost predicate Can(objects: Objects, site: Site, run: Run, e: T.Event) {
    var store := Under(objects, Root(site));
    match e
    case Begin(columns, clean) =>
      run.Idle? && T.ReadCurrent(store).Ok? && T.ReadCurrent(store).value.version < U64_MAX
    case Upload(cells, mapping, data) => run.Writing? && Renderable(run.columns, cells) && mapping !in run.done
    case Accept(tuples, mapping) =>
      run.Writing? && T.AllRenderable(run.columns, tuples) && mapping !in run.done && AllSent(site, run, tuples, mapping)
    case PutManifest(createdAt) => run.Writing? && run.done != {}
    case FlipPointer => run.ManifestWritten?
    case StartVacuum(listing) =>
      run.Flipped? && T.Lists(listing, store) && T.VacuumTargets(store, listing, run.current).Some?
    case Delete(ok) => run.Vacuuming? && run.targets != []
    case End => true
  }

  ghost function ObjectsAfter(objects: Objects, site: Site, run: Run, e: T.Event): Objects
    requires Can(objects, site, run, e)
  {
    match e
    case Upload(cells, mapping, data) =>
      objects[site.prefix + Target(site, run.version, run.columns, cells, mapping).0 := T.Parquet(data)]
    case PutManifest(createdAt) =>
      objects[Root(site) + ManifestKey(run.version) := T.ManifestDoc(TableManifest(run.version, createdAt, run.files))]
    case FlipPointer => objects[Root(site) + CURRENT_KEY := T.PointerDoc(run.manifest.version)]
    case Delete(ok) => if ok then objects - {Root(site) + run.targets[0]} else objects
    case _ => objects
  }

  ghost function RunAfter(objects: Objects, site: Site, run: Run, e: T.Event): Run
    requires Can(objects, site, run, e)
  {
    match e
    case Begin(columns, clean) =>
      var m := T.ReadCurrent(Under(objects, Root(site))).value;
      Writing(m.version + 1, columns, if clean then [] else m.files, {}, map[])
    case Upload(cells, mapping, data) => run.(sent := run.sent[Recorded(site, run, cells, mapping) := |data|])
    case Accept(tuples, mapping) =>
      run.(files := ApplyMappingWrites(run.files, mapping, SentFiles(site, run, tuples, mapping)),
           done := run.done + {mapping})
    case PutManifest(createdAt) => ManifestWritten(TableManifest(run.version, createdAt, run.files))
    case FlipPointer => Flipped(run.manifest.version)
    case StartVacuum(listing) =>
      Vacuuming(T.VacuumTargets(Under(objects, Root(site)), listing, run.current).value)
    case Delete(ok) => Vacuuming(run.targets[1..])
    case End => Idle
  }

  // One table seen on its own

  /** `run` is the protocol's run, and what it has sent is there. */
  ghost predicate MirrorsRun(run: Run, table: T.State) {
    match run
    case Idle => table.run.Idle?
    case Writing(version, columns, files, done, sent) =>
      && table.run == T.Writing(version, columns, files, done)
      && forall k | k in sent :: T.HoldsData(table.store, k) && |table.store[k].data| == sent[k]
    case ManifestWritten(manifest) => table.run.ManifestWritten? && table.run.snapshot.manifest == manifest
    case Flipped(current) => table.run == T.Flipped(current)
    case Vacuuming(targets) => table.run == T.Vacuuming(targets)
  }

  ghost predicate Mirrors(objects: Objects, site: Site, run: Run, table: T.State) {
    table.store == Under(objects, Root(site)) && MirrorsRun(run, table)
  }

  lemma UnderPut(objects: Objects, root: string, k: string, v: T.Object)
    ensures Under(objects[root + k := v], root) == Under(objects, root)[k := v]
  {
    assert forall j :: root + j == root + k <==> j == k by {
      forall j ensures root + j == root + k <==> j == k { if root + j == root + k { assert (root + j)[|root|..] == j; } }
    }
  }

  lemma UnderRemoved(objects: Objects, root: string, k: string)
    ensures Under(objects - {root + k}, root) == Under(objects, root) - {k}
  {
    assert forall j :: root + j == root + k <==> j == k by {
      forall j ensures root + j == root + k <==> j == k { if root + j == root + k { assert (root + j)[|root|..] == j; } }
    }
  }

  lemma UnderElsewhere(objects: Objects, root: string, key: string, v: T.Object)
    requires !StartsWith(key, root)
    ensures Under(objects[key := v], root) == Under(objects, root)
    ensures Under(objects - {key}, root) == Under(objects, root)
  {
    assert forall k :: root + k != key;
  }

  /** Without a slash in the id, uploads land in the table, under the key recorded. */
  lemma TargetAt(site: Site, version: nat, columns: seq<string>, cells: seq<Cell>, mapping: string)
    requires Renderable(columns, cells) && '/' !in site.table
    ensures Target(site, version, columns, cells, mapping).1 == FileKey(version, columns, cells, mapping)
    ensures site.prefix + Target(site, version, columns, cells, mapping).0
         == Root(site) + FileKey(version, columns, cells, mapping)
  {
    SplitPartitionKey(site.table, columns, cells, mapping);
    var key := FileKey(version, columns, cells, mapping);
    assert site.prefix + (site.table + "/" + key) == (site.prefix + site.table + "/") + key;
  }

  lemma UploadMirrors(objects: Objects, site: Site, run: Run, cells: seq<Cell>, mapping: string, data: Bytes, table: T.State)
    requires '/' !in site.table && Mirrors(objects, site, run, table) && Can(objects, site, run, T.Upload(cells, mapping, data))
    ensures var e := T.Upload(cells, mapping, data);
            T.Enabled(table, e)
            && Mirrors(ObjectsAfter(objects, site, run, e), site, RunAfter(objects, site, run, e), T.Next(table, e))
  {
    TargetAt(site, run.version, run.columns, cells, mapping);
    UnderPut(objects, Root(site), FileKey(run.version, run.columns, cells, mapping), T.Parquet(data));
  }

  lemma SentIsUploaded(site: Site, run: Run, tuples: seq<seq<Cell>>, mapping: string, table: T.State)
    requires '/' !in site.table && run.Writing? && MirrorsRun(run, table) && T.AllRenderable(run.columns, tuples)
    requires AllSent(site, run, tuples, mapping)
    ensures T.Uploaded(table.store, table.run, tuples, mapping)
    ensures SentFiles(site, run, tuples, mapping) == T.Written(table.store, table.run, tuples, mapping)
  {
    forall i | 0 <= i < |tuples|
      ensures Recorded(site, run, tuples[i], mapping) == FileKey(run.version, run.columns, tuples[i], mapping)
    {
      TargetAt(site, run.version, run.columns, tuples[i], mapping);
    }
    var a, b := SentFiles(site, run, tuples, mapping), T.Written(table.store, table.run, tuples, mapping);
    assert forall i | 0 <= i < |tuples| :: a[i] == b[i];
  }

  lemma PutManifestMirrors(objects: Objects, site: Site, run: Run, createdAt: string, table: T.State)
    requires Mirrors(objects, site, run, table) && TableSafety.Inv(table)
    requires Can(objects, site, run, T.PutManifest(createdAt))
    ensures var e := T.PutManifest(createdAt);
            T.Enabled(table, e)
            && Mirrors(ObjectsAfter(objects, site, run, e), site, RunAfter(objects, site, run, e), T.Next(table, e))
  {
    forall f | f in table.run.files ensures T.HoldsData(table.store, f.key) {
      assert TableSafety.FileOk(table.store, table.run, f);
    }
    var m := TableManifest(run.version, createdAt, run.files);
    UnderPut(objects, Root(site), ManifestKey(run.version), T.ManifestDoc(m));
  }

  lemma DeleteMirrors(objects: Objects, site: Site, run: Run, ok: bool, table: T.State)
    requires Mirrors(objects, site, run, table) && Can(objects, site, run, T.Delete(ok))
    ensures var e := T.Delete(ok);
            T.Enabled(table, e)
            && Mirrors(ObjectsAfter(objects, site, run, e), site, RunAfter(objects, site, run, e), T.Next(table, e))
  {
    UnderRemoved(objects, Root(site), run.targets[0]);
  }

  lemma FlipMirrors(objects: Objects, site: Site, run: Run, table: T.State)
    requires Mirrors(objects, site, run, table) && Can(objects, site, run, T.FlipPointer)
    ensures T.Enabled(table, T.FlipPointer)
    ensures Mirrors(ObjectsAfter(objects, site, run, T.FlipPointer), site, RunAfter(objects, site, run, T.FlipPointer),
                    T.Next(table, T.FlipPointer))
  {
    UnderPut(objects, Root(site), CURRENT_KEY, T.PointerDoc(run.manifest.version));
  }

  lemma AcceptMirrors(objects: Objects, site: Site, run: Run, tuples: seq<seq<Cell>>, mapping: string, table: T.State)
    requires '/' !in site.table && Mirrors(objects, site, run, table) && Can(objects, site, run, T.Accept(tuples, mapping))
    ensures var e := T.Accept(tuples, mapping);
            T.Enabled(table, e)
            && Mirrors(ObjectsAfter(objects, site, run, e), site, RunAfter(objects, site, run, e), T.Next(table, e))
  {
    SentIsUploaded(site, run, tuples, mapping, table);
  }

  lemma VacuumMirrors(objects: Objects, site: Site, run: Run, listing: seq<string>, table: T.State)
    requires Mirrors(objects, site, run, table) && Can(objects, site, run, T.StartVacuum(listing))
    ensures var e := T.StartVacuum(listing);
            T.Enabled(table, e)
            && Mirrors(ObjectsAfter(objects, site, run, e), site, RunAfter(objects, site, run, e), T.Next(table, e))
  {
  }

  lemma CanBegin(objects: Objects, site: Site, run: Run, columns: seq<string>, clean: bool, table: T.State)
    requires Mirrors(objects, site, run, table) && Can(objects, site, run, T.Begin(columns, clean))
    ensures T.Enabled(table, T.Begin(columns, clean))
  {
  }

  lemma BeginMirrors(objects: Objects, site: Site, run: Run, columns: seq<string>, clean: bool, table: T.State)
    requires Mirrors(objects, site, run, table) && Can(objects, site, run, T.Begin(columns, clean))
    ensures var e := T.Begin(columns, clean);
            T.Enabled(table, e)
            && Mirrors(ObjectsAfter(objects, site, run, e), site, RunAfter(objects, site, run, e), T.Next(table, e))
  {
    CanBegin(objects, site, run, columns, clean, table);
  }

  lemma EndMirrors(objects: Objects, site: Site, run: Run, table: T.State)
    requires Mirrors(objects, site, run, table)
    ensures T.Enabled(table, T.End) && Can(objects, site, run, T.End)
    ensures Mirrors(ObjectsAfter(objects, site, run, T.End), site, RunAfter(objects, site, run, T.End), T.Next(table, T.End))
  {
  }

  /** Every request of a table without a slash in its id is a protocol step. */
  lemma RequestMirrors(objects: Objects, site: Site, run: Run, e: T.Event, table: T.State)
    requires '/' !in site.table && Mirrors(objects, site, run, table) && TableSafety.Inv(table)
    requires Can(objects, site, run, e)
    ensures T.Enabled(table, e)
    ensures Mirrors(ObjectsAfter(objects, site, run, e), site, RunAfter(objects, site, run, e), T.Next(table, e))
  {
    match e
    case Begin(columns, clean) => BeginMirrors(objects, site, run, columns, clean, table);
    case Upload(cells, mapping, data) => UploadMirrors(objects, site, run, cells, mapping, data, table);
    case Accept(tuples, mapping) => AcceptMirrors(objects, site, run, tuples, mapping, table);
    case PutManifest(createdAt) => PutManifestMirrors(objects, site, run, createdAt, table);
    case FlipPointer => FlipMirrors(objects, site, run, table);
    case Delete(ok) => DeleteMirrors(objects, site, run, ok, table);
    case StartVacuum(listing) => VacuumMirrors(objects, site, run, listing, table);
    case End => EndMirrors(objects, site, run, table);
  }

  /** A request touches keys of its own table only. */
  lemma OthersUntouched(objects: Objects, site: Site, run: Run, e: T.Event, root: string)
    requires '/' !in site.table && Can(objects, site, run, e)
    requires !StartsWith(Root(site), root) && !StartsWith(root, Root(site))
    ensures Under(ObjectsAfter(objects, site, run, e), root) == Under(objects, root)
  {
    match e
    case Upload(cells, mapping, data) =>
      TargetAt(site, run.version, run.columns, cells, mapping);
      NotUnder(root, Root(site), FileKey(run.version, run.columns, cells, mapping));
      UnderElsewhere(objects, root, Root(site) + FileKey(run.version, run.columns, cells, mapping), T.Parquet(data));
    case PutManifest(createdAt) =>
      NotUnder(root, Root(site), ManifestKey(run.version));
      UnderElsewhere(objects, root, Root(site) + ManifestKey(run.version),
                     T.ManifestDoc(TableManifest(run.version, createdAt, run.files)));
    case FlipPointer =>
      NotUnder(root, Root(site), CURRENT_KEY);
      UnderElsewhere(objects, root, Root(site) + CURRENT_KEY, T.PointerDoc(run.manifest.version));
    case Delete(ok) =>
      NotUnder(root, Root(site), run.targets[0]);
      UnderElsewhere(objects, root, Root(site) + run.targets[0], T.PointerDoc(0));
    case _ =>
  }

  lemma NotUnder(root: string, other: string, k: string)
    requires !StartsWith(other, root) && !StartsWith(root, other)
    ensures !StartsWith(other + k, root)
  {
    if StartsWith(other + k, root) { OneInOther(root, other, other + k); }
  }

  // Runs of the bucket

  datatype State = State(objects: Objects, runs: map<Site, Run>)

  datatype Event = On(site: Site, request: T.Event)

  function RunOf(s: State, site: Site): Run {
    if site in s.runs then s.runs[site] else Idle
  }

  ghost predicate Init(s: State) {
    s == State(map[], map[])
  }

  ghost predicate Enabled(sites: set<Site>, s: State, e: Event) {
    e.site in sites && Can(s.objects, e.site, RunOf(s, e.site), e.request)
  }

  ghost function Next(sites: set<Site>, s: State, e: Event): State
    requires Enabled(sites, s, e)
  {
    var run := RunOf(s, e.site);
    State(ObjectsAfter(s.objects, e.site, run, e.request), s.runs[e.site := RunAfter(s.objects, e.site, run, e.request)])
  }

  ghost predicate Step(sites: set<Site>, s: State, e: Event, t: State) {
    Enabled(sites, s, e) && t == Next(sites, s, e)
  }

  ghost predicate StepAt(sites: set<Site>, path: seq<State>, events: seq<Event>, i: nat)
    requires |path| == |events| + 1 && i < |events|
  {
    Step(sites, path[i], events[i], path[i + 1])
  }

  ghost predicate Behavior(sites: set<Site>, path: seq<State>, events: seq<Event>) {
    && |path| == |events| + 1
    && Init(path[0])
    && forall i | 0 <= i < |events| :: StepAt(sites, path, events, i)
  }

  /** What the tables' places must be: ids without a slash, and no full prefix
      that begins another. */
  ghost predicate Tidy(sites: set<Site>) {
    && (forall a | a in sites :: '/' !in a.table)
    && forall a, b | a in sites && b in sites && a != b :: !StartsWith(Root(b), Root(a))
  }

  /** A table's own requests, with pauses for the others'. */
  function RequestOf(e: Event, site: Site): Option<T.Event> {
    if e.site == site then Some(e.request) else None
  }

  function RequestsOf(events: seq<Event>, site: Site): (r: seq<Option<T.Event>>)
    ensures |r| == |events| && forall i | 0 <= i < |r| :: r[i] == RequestOf(events[i], site)
  {
    seq(|events|, i requires 0 <= i < |events| => RequestOf(events[i], site))
  }

  /** What is under the table's prefix goes through a run of the publish
      protocol, made of the table's own requests. */
  ghost predicate IsProtocolRun(path: seq<State>, events: seq<Event>, site: Site)
    requires |path| == |events| + 1
  {
    exists shadow: seq<T.State> :: Shadows(path, events, site, shadow)
  }

  ghost predicate Shadows(path: seq<State>, events: seq<Event>, site: Site, shadow: seq<T.State>)
    requires |path| == |events| + 1
  {
    && Follows(shadow, RequestsOf(events, site))
    && forall i | 0 <= i < |path| :: shadow[i].store == Under(path[i].objects, Root(site))
  }

  lemma UnderNothing(root: string)
    ensures Under(map[], root) == map[]
  {
  }

  /** The table makes its request, or pauses. */
  ghost predicate TableStep(table: T.State, request: Option<T.Event>, t: T.State) {
    match request
    case None => t == table
    case Some(e) => TableTheorems.Step(table, e, t)
  }

  lemma RequestSteps(objects: Objects, site: Site, run: Run, e: T.Event, table: T.State) returns (t: T.State)
    requires '/' !in site.table && Mirrors(objects, site, run, table) && TableSafety.Inv(table)
    requires Can(objects, site, run, e)
    ensures TableTheorems.Step(table, e, t)
    ensures Mirrors(ObjectsAfter(objects, site, run, e), site, RunAfter(objects, site, run, e), t)
  {
    RequestMirrors(objects, site, run, e, table);
    t := T.Next(table, e);
  }

  lemma PauseMirrors(objects: Objects, site: Site, run: Run, e: T.Event, other: Site, otherRun: Run, table: T.State)
    requires '/' !in site.table && Can(objects, site, run, e) && Mirrors(objects, other, otherRun, table)
    requires !StartsWith(Root(site), Root(other)) && !StartsWith(Root(other), Root(site))
    ensures Mirrors(ObjectsAfter(objects, site, run, e), other, otherRun, table)
  {
    OthersUntouched(objects, site, run, e, Root(other));
  }

  lemma NextOf(sites: set<Site>, s: State, e: Event)
    requires Enabled(sites, s, e)
    ensures Next(sites, s, e).objects == ObjectsAfter(s.objects, e.site, RunOf(s, e.site), e.request)
    ensures RunOf(Next(sites, s, e), e.site) == RunAfter(s.objects, e.site, RunOf(s, e.site), e.request)
    ensures forall site | site != e.site :: RunOf(Next(sites, s, e), site) == RunOf(s, site)
  {
  }

  /** One step of the bucket, for one table. */
  lemma StepMirrors(sites: set<Site>, s: State, e: Event, site: Site, table: T.State) returns (t: T.State)
    requires Tidy(sites) && site in sites && Enabled(sites, s, e)
    requires Mirrors(s.objects, site, RunOf(s, site), table) && TableSafety.Inv(table)
    ensures TableStep(table, RequestOf(e, site), t)
    ensures Mirrors(Next(sites, s, e).objects, site, RunOf(Next(sites, s, e), site), t)
  {
    NextOf(sites, s, e);
    if e.site == site {
      t := RequestSteps(s.objects, site, RunOf(s, site), e.request, table);
    } else {
      PauseMirrors(s.objects, e.site, RunOf(s, e.site), e.request, site, RunOf(s, site), table);
      t := table;
    }
  }

  ghost predicate MirrorsAt(path: seq<State>, site: Site, shadow: seq<T.State>, k: nat)
    requires k < |path| && k < |shadow|
  {
    Mirrors(path[k].objects, site, RunOf(path[k], site), shadow[k])
  }

  ghost predicate MirrorsTo(path: seq<State>, events: seq<Event>, site: Site, shadow: seq<T.State>,
                            requests: seq<Option<T.Event>>, i: nat)
    requires i < |path| == |events| + 1
  {
    && Follows(shadow, requests) && requests == RequestsOf(events[..i], site)
    && forall k | 0 <= k <= i :: MirrorsAt(path, site, shadow, k)
  }

  lemma ShadowGrows(path: seq<State>, events: seq<Event>, site: Site, i: nat, shadow: seq<T.State>,
                    requests: seq<Option<T.Event>>, t: T.State)
    requires i < |events| && |path| == |events| + 1 && MirrorsTo(path, events, site, shadow, requests, i)
    requires TableStep(shadow[i], RequestOf(events[i], site), t)
    requires Mirrors(path[i + 1].objects, site, RunOf(path[i + 1], site), t)
    ensures MirrorsTo(path, events, site, shadow + [t], requests + [RequestOf(events[i], site)], i + 1)
  {
    var longer := shadow + [t];
    FollowsOn(shadow, requests, RequestOf(events[i], site), t);
    assert requests + [RequestOf(events[i], site)] == RequestsOf(events[..i + 1], site);
    forall k | 0 <= k <= i + 1 ensures MirrorsAt(path, site, longer, k) {
      if k <= i { assert MirrorsAt(path, site, shadow, k); }
    }
  }

  lemma ShadowStep(sites: set<Site>, path: seq<State>, events: seq<Event>, site: Site, i: nat, shadow: seq<T.State>,
                   requests: seq<Option<T.Event>>) returns (t: T.State)
    requires Tidy(sites) && site in sites && i < |events| && |path| == |events| + 1 && StepAt(sites, path, events, i)
    requires MirrorsTo(path, events, site, shadow, requests, i)
    ensures TableStep(shadow[i], RequestOf(events[i], site), t)
    ensures Mirrors(path[i + 1].objects, site, RunOf(path[i + 1], site), t)
  {
    assert MirrorsAt(path, site, shadow, i);
    ShadowInv(shadow, requests, i);
    t := StepMirrors(sites, path[i], events[i], site, shadow[i]);
  }

  lemma {:induction false} BuildShadow(sites: set<Site>, path: seq<State>, events: seq<Event>, site: Site, i: nat)
      returns (shadow: seq<T.State>, requests: seq<Option<T.Event>>)
    requires Tidy(sites) && Behavior(sites, path, events) && site in sites && i < |path|
    ensures MirrorsTo(path, events, site, shadow, requests, i)
  {
    if i == 0 {
      UnderNothing(Root(site));
      shadow, requests := [T.State(map[], [], T.Idle)], [];
    } else {
      shadow, requests := BuildShadow(sites, path, events, site, i - 1);
      assert StepAt(sites, path, events, i - 1);
      var t := ShadowStep(sites, path, events, site, i - 1, shadow, requests);
      ShadowGrows(path, events, site, i - 1, shadow, requests, t);
      shadow, requests := shadow + [t], requests + [RequestOf(events[i - 1], site)];
    }
  }

  /** Refinement: in a tidy warehouse every table goes through a run of the
      protocol, and its run is the one the protocol knows. */
  lemma TableShadows(sites: set<Site>, path: seq<State>, events: seq<Event>, site: Site) returns (shadow: seq<T.State>)
    requires Tidy(sites) && Behavior(sites, path, events) && site in sites
    ensures Shadows(path, events, site, shadow)
    ensures forall k | 0 <= k < |path| :: MirrorsRun(RunOf(path[k], site), shadow[k])
  {
    var requests;
    shadow, requests := BuildShadow(sites, path, events, site, |events|);
    assert events[..|events|] == events;
    forall k | 0 <= k < |path|
      ensures shadow[k].store == Under(path[k].objects, Root(site)) && MirrorsRun(RunOf(path[k], site), shadow[k])
    {
      assert MirrorsAt(path, site, shadow, k);
    }
  }

  // The theorems, for every table of a tidy warehouse

  function CurrentOf(s: State, site: Site): Result<TableManifest, string> {
    T.ReadCurrent(Under(s.objects, Root(site)))
  }

  /** In every state the table has never published, or its current version can be read. */
  lemma TableReadable(sites: set<Site>, path: seq<State>, events: seq<Event>, site: Site, i: nat)
    requires Tidy(sites) && Behavior(sites, path, events) && site in sites && i < |path|
    ensures CurrentOf(path[i], site).Ok?
    ensures Root(site) + CURRENT_KEY !in path[i].objects <==> CurrentOf(path[i], site).value.version == 0
  {
    var shadow := TableShadows(sites, path, events, site);
    ShadowIsolation(shadow, RequestsOf(events, site), i);
  }

  /** Time travel: each of the last ten versions reads back as its run built it,
      whatever all the tables did since. */
  lemma TableTimeTravel(sites: set<Site>, path: seq<State>, events: seq<Event>, site: Site, i: nat, v: nat)
      returns (j: nat)
    requires Tidy(sites) && Behavior(sites, path, events) && site in sites && i < |path|
    requires CurrentOf(path[i], site).Ok? && TableSafety.InWindow(v, CurrentOf(path[i], site).value.version)
    ensures j < i && events[j].site == site && events[j].request.PutManifest?
    ensures RunOf(path[j], site).Writing? && RunOf(path[j], site).version == v
    ensures TableTheorems.SameAsBuilt(Under(path[j].objects, Root(site)), RunOf(path[j], site).files,
                                      Under(path[i].objects, Root(site)), v)
  {
    var shadow := TableShadows(sites, path, events, site);
    ShadowIsolation(shadow, RequestsOf(events, site), i);
    j := ShadowTimeTravel(shadow, RequestsOf(events, site), i, v);
    assert MirrorsRun(RunOf(path[j], site), shadow[j]);
  }

  /** The table makes no request from `i` to `k` but deletes, all of which succeed. */
  ghost predicate OnlyDeletesOf(events: seq<Event>, site: Site, i: nat, k: nat)
    requires i <= k <= |events|
  {
    forall n | i <= n < k && events[n].site == site :: events[n].request == T.Delete(true)
  }

  /** A vacuum whose deletes all succeed leaves, under the table's prefix, the
      pointer, the window's manifests, and the files they name; `at` is the table
      when it began. */
  lemma TableVacuum(sites: set<Site>, path: seq<State>, events: seq<Event>, site: Site, i: nat, k: nat,
                    listing: seq<string>) returns (at: T.State)
    requires Tidy(sites) && Behavior(sites, path, events) && site in sites && i < k < |path|
    requires events[i] == On(site, T.StartVacuum(listing)) && OnlyDeletesOf(events, site, i + 1, k)
    requires RunOf(path[k], site) == Vacuuming([])
    ensures at.store == Under(path[i].objects, Root(site)) && TableSafety.Inv(at)
    ensures forall key :: Root(site) + key in path[k].objects <==> TableSafety.Surviving(at, key)
  {
    var shadow := TableShadows(sites, path, events, site);
    var requests := RequestsOf(events, site);
    at := shadow[i];
    ShadowInv(shadow, requests, i);
    assert MirrorsRun(RunOf(path[k], site), shadow[k]);
    ShadowVacuum(shadow, requests, i, k, listing);
    assert shadow[k].store == Under(path[k].objects, Root(site));
  }

  lemma SameStep(sites: set<Site>, path: seq<State>, events: seq<Event>, longer: seq<State>, more: seq<Event>, i: nat)
    requires |path| == |events| + 1 && |longer| == |more| + 1 && i < |events| && i < |more|
    requires longer[i] == path[i] && longer[i + 1] == path[i + 1] && more[i] == events[i] && StepAt(sites, path, events, i)
    ensures StepAt(sites, longer, more, i)
  {
  }

  lemma StepsStay(sites: set<Site>, path: seq<State>, events: seq<Event>, longer: seq<State>, more: seq<Event>)
    requires Behavior(sites, path, events) && path <= longer && events <= more && |longer| == |more| + 1
    ensures Init(longer[0]) && forall i | 0 <= i < |events| :: StepAt(sites, longer, more, i)
  {
    forall i | 0 <= i < |events| ensures StepAt(sites, longer, more, i) {
      SameStep(sites, path, events, longer, more, i);
    }
  }

  lemma RunGrows(sites: set<Site>, path: seq<State>, events: seq<Event>, e: Event, t: State)
    requires Behavior(sites, path, events) && Step(sites, path[|events|], e, t)
    ensures Behavior(sites, path + [t], events + [e])
  {
    StepsStay(sites, path, events, path + [t], events + [e]);
    LastStep(sites, path, events, e, t);
  }

  lemma LastStep(sites: set<Site>, path: seq<State>, events: seq<Event>, e: Event, t: State)
    requires |path| == |events| + 1 && Step(sites, path[|events|], e, t)
    ensures StepAt(sites, path + [t], events + [e], |events|)
  {
    assert (path + [t])[|events|] == path[|events|] && (path + [t])[|events| + 1] == t && (events + [e])[|events|] == e;
  }
}
