/**
 The requests a run makes against one table of the warehouse bucket. Every
 request may fail, with or without having taken effect, and a caller may stop
 after any of them; what becomes of each is given, and every method says what
 it does for any answers. Each is proved to take only steps of TableProtocol,
 so TableTheorems speaks about every state the table passes through.
 */
module TableStore {
  import opened Text
  import opened Paths
  import opened Manifest
  import opened TableProtocol
  import opened TableSafety
  import opened VacuumSafety
  import opened TableTheorems
  import opened Replies

  ghost function FileKeys(version: nat, columns: seq<string>, tuples: seq<seq<Cell>>, mapping: string): (keys: seq<string>)
    requires AllRenderable(columns, tuples)
    ensures |keys| == |tuples|
    ensures forall i | 0 <= i < |keys| :: keys[i] == FileKey(version, columns, tuples[i], mapping)
  {
    seq(|tuples|, i requires 0 <= i < |tuples| => FileKey(version, columns, tuples[i], mapping))
  }

  lemma FileKeysDiffer(version: nat, columns: seq<string>, tuples: seq<seq<Cell>>, mapping: string)
    requires AllRenderable(columns, tuples)
    requires forall i, j | 0 <= i < j < |tuples| :: tuples[i] != tuples[j] && TypesOf(tuples[i]) == TypesOf(tuples[j])
    ensures NoRepeats(FileKeys(version, columns, tuples, mapping))
  {
    var keys := FileKeys(version, columns, tuples, mapping);
    forall i, j | 0 <= i < j < |keys| ensures keys[i] != keys[j] {
      if keys[i] == keys[j] { FileKeysDistinct(version, version, columns, tuples[i], tuples[j], mapping, mapping); }
    }
  }

  /** One version more: this manifest, with what the store had under its keys. */
  ghost predicate IsPublished(now: seq<Snapshot>, before: seq<Snapshot>, manifest: TableManifest, store: Store) {
    && before <= now && |now| == |before| + 1 == manifest.version
    && FilesHeld(store, manifest.files)
    && VersionOf(now, |now|) == Snapshot(manifest, ContentOf(store, manifest.files))
  }

  /** The manifest's PUT is confirmed, and the pointer's takes effect, confirmed or not. */
  predicate FlipArrives(answers: Answers, at: nat) {
    Answer(answers, at) == Done && Answer(answers, at + 1) != Failed(false)
  }

  /** Nothing changes but files of this mapping under this version. */
  ghost predicate KeepsOthers(before: Store, after: Store, version: nat, columns: seq<string>, mapping: string) {
    forall key | key in before && !FromMapping(key, version, columns, mapping) ::
      key in after && after[key] == before[key]
  }

  lemma KeepsStill(a: Store, b: Store, c: Store, version: nat, columns: seq<string>, mapping: string)
    requires KeepsOthers(a, b, version, columns, mapping) && KeepsOthers(b, c, version, columns, mapping)
    ensures KeepsOthers(a, c, version, columns, mapping)
  {
  }

  lemma PutKeeps(store: Store, version: nat, columns: seq<string>, cells: seq<Cell>, mapping: string, v: Object)
    requires Renderable(columns, cells)
    ensures KeepsOthers(store, store[FileKey(version, columns, cells, mapping) := v], version, columns, mapping)
  {
    assert FromMapping(FileKey(version, columns, cells, mapping), version, columns, mapping);
  }

  /** The first `n` outputs are uploaded and listed. */
  ghost predicate SoFar(store: Store, keys: seq<string>, mapping: string, outputs: seq<PartitionOutput>,
                        written: seq<ManifestFile>, n: nat)
    requires |keys| == |outputs|
  {
    && |written| == n <= |outputs|
    && forall i | 0 <= i < n ::
         written[i] == ManifestFile(keys[i], mapping, |outputs[i].data|)
         && keys[i] in store && store[keys[i]] == Parquet(outputs[i].data)
  }

  lemma OneSoFar(store: Store, keys: seq<string>, mapping: string, outputs: seq<PartitionOutput>,
                 written: seq<ManifestFile>, n: nat, version: nat, columns: seq<string>, tuples: seq<seq<Cell>>)
    requires AllRenderable(columns, tuples) && keys == FileKeys(version, columns, tuples, mapping)
    requires forall i, j | 0 <= i < j < |tuples| :: tuples[i] != tuples[j] && TypesOf(tuples[i]) == TypesOf(tuples[j])
    requires n < |keys| == |outputs| && SoFar(store, keys, mapping, outputs, written, n)
    ensures SoFar(store[keys[n] := Parquet(outputs[n].data)], keys, mapping, outputs,
                  written + [ManifestFile(keys[n], mapping, |outputs[n].data|)], n + 1)
  {
    FileKeysDiffer(version, columns, tuples, mapping);
  }

  lemma AllSoFar(store: Store, run: Run, keys: seq<string>, mapping: string, outputs: seq<PartitionOutput>,
                 written: seq<ManifestFile>, tuples: seq<seq<Cell>>)
    requires run.Writing? && AllRenderable(run.columns, tuples) && keys == FileKeys(run.version, run.columns, tuples, mapping)
    requires forall i, j | 0 <= i < j < |tuples| :: tuples[i] != tuples[j] && TypesOf(tuples[i]) == TypesOf(tuples[j])
    requires |keys| == |outputs| && SoFar(store, keys, mapping, outputs, written, |outputs|)
    ensures Uploaded(store, run, tuples, mapping) && written == Written(store, run, tuples, mapping)
    ensures forall i | 0 <= i < |outputs| :: store[written[i].key] == Parquet(outputs[i].data)
  {
    FileKeysDiffer(run.version, run.columns, tuples, mapping);
  }

  /** The requests of a vacuum's deletes, and which of them took effect. */
  ghost predicate Deleted(answers: Answers, from: nat, targets: seq<string>, key: string) {
    exists i | 0 <= i < |targets| :: targets[i] == key && Answer(answers, from + i) != Failed(false)
  }

  /** What is left of a store once these deletes have been sent. */
  ghost function AfterDeletes(store: Store, answers: Answers, from: nat, targets: seq<string>): Store {
    map k | k in store && !Deleted(answers, from, targets, k) :: store[k]
  }

  lemma DeletedMore(answers: Answers, from: nat, targets: seq<string>, key: string, n: nat)
    requires n < |targets|
    ensures Deleted(answers, from, targets[..n + 1], key)
       <==> Deleted(answers, from, targets[..n], key) || (targets[n] == key && Answer(answers, from + n).Effective())
  {
    if Deleted(answers, from, targets[..n], key) {
      var i :| 0 <= i < n && targets[..n][i] == key && Answer(answers, from + i).Effective();
      assert targets[..n + 1][i] == key;
    }
    if targets[n] == key && Answer(answers, from + n).Effective() { assert targets[..n + 1][n] == key; }
  }

  lemma DeletesMore(store: Store, answers: Answers, from: nat, targets: seq<string>, n: nat)
    requires n < |targets|
    ensures var before := AfterDeletes(store, answers, from, targets[..n]);
            AfterDeletes(store, answers, from, targets[..n + 1])
            == (if Answer(answers, from + n).Effective() then before - {targets[n]} else before)
  {
    forall k ensures Deleted(answers, from, targets[..n + 1], k)
                <==> Deleted(answers, from, targets[..n], k) || (targets[n] == k && Answer(answers, from + n).Effective())
    {
      DeletedMore(answers, from, targets, k, n);
    }
  }

  lemma DeletesDone(store: Store, answers: Answers, from: nat, targets: seq<string>)
    requires AllDone(answers, from, from + |targets|)
    ensures AfterDeletes(store, answers, from, targets) == Removed(store, targets)
  {
    forall k ensures Deleted(answers, from, targets, k) <==> k in targets {
      if i :| 0 <= i < |targets| && targets[i] == k { assert Answer(answers, from + i).Done?; }
    }
  }

  predicate ReadableAll(store: Store, versions: seq<nat>) {
    forall v | v in versions :: ReadVersion(store, v).Ok?
  }

  /** Whatever order a listing comes in, the manifests a vacuum keeps can be read. */
  ghost predicate Readable(store: Store, current: nat) {
    forall listing | Lists(listing, store) :: ReadableAll(store, RetainedVersions(listing, current))
  }

  /** How many requests it takes to find the current version: the pointer's
      GET fails only if there is none, so only the manifest's counts. */
  function StartRequests(published: seq<Snapshot>): nat {
    if published == [] then 0 else 1
  }

  class Table {
    const answers: Answers
    var asked: nat
    var objects: Store
    ghost var published: seq<Snapshot>
    ghost var run: Run
    ghost var path: seq<State>
    ghost var events: seq<Event>

    ghost function Now(): State
      reads `objects, `published, `run
    {
      State(objects, published, run)
    }

    /** The table got where it is by protocol steps alone. */
    ghost predicate Valid()
      reads `objects, `published, `run, `path, `events
    {
      Behavior(path, events) && Last(path) == Now()
    }

    constructor (answers: Answers)
      ensures Valid() && objects == map[] && published == [] && run == Idle
      ensures this.answers == answers && asked == 0
    {
      this.answers, asked := answers, 0;
      objects, published, run := map[], [], Idle;
      path, events := [State(map[], [], Idle)], [];
    }

    /** Note a step whose effect on the objects has already happened. */
    ghost method Log(e: Event)
      requires Behavior(path, events) && Enabled(Last(path), e)
      requires objects == Next(Last(path), e).store
      modifies this`path, this`events, this`run, this`published
      ensures Valid() && Now() == Next(old(Last(path)), e)
      ensures old(path) <= path && old(events) <= events
    {
      BehaviorGrows(path, events, e);
      var next := Next(Last(path), e);
      run, published := next.run, next.published;
      path, events := path + [next], events + [e];
    }

    /** The next request, and what becomes of it. */
    method Ask() returns (outcome: Outcome)
      modifies this`asked
      ensures asked == old(asked) + 1 && outcome == Answer(answers, old(asked))
      ensures outcome == if old(asked) < |answers| then answers[old(asked)] else Done
    {
      outcome := Answer(answers, asked);
      asked := asked + 1;
    }

    lemma Invariant()
      requires Valid()
      ensures Inv(Now())
    {
      Reachable(path, events, |path| - 1);
    }

    /** The run is over, by finishing or by dying. */
    ghost method EndRun()
      requires Valid()
      modifies this`path, this`events, this`run, this`published
      ensures Valid() && Now() == old(Now()).(run := Idle)
      ensures old(path) <= path && old(events) <= events
    {
      Log(End);
    }

    /** `read_current`. On a table only this worker has written, only a GET
        that goes unanswered can fail. */
    method ReadManifest() returns (r: Result<TableManifest, string>)
      requires Valid()
      modifies this`asked
      ensures asked == old(asked) + StartRequests(published)
      ensures r.Ok? <==> AllDone(answers, old(asked), asked)
      ensures r.Ok? ==> ReadCurrent(objects) == r && r.value.version == |published|
                        && r.value.files == if published == [] then [] else VersionOf(published, |published|).manifest.files
    {
      Invariant();
      ReadsCurrent(Now());
      if CURRENT_KEY in objects {
        var outcome := Ask();
        if !outcome.Done? { return Err("GetObject failed"); }
      }
      return ReadCurrent(objects);
    }

    /** The version and file list a run starts from. */
    method BeginRun(ghost columns: seq<string>, clean: bool) returns (r: Result<(nat, seq<ManifestFile>), string>)
      requires Valid() && run.Idle? && |published| < U64_MAX
      modifies this
      ensures Valid() && objects == old(objects) && published == old(published)
      ensures old(path) <= path && old(events) <= events
      ensures asked == old(asked) + StartRequests(published)
      ensures r.Ok? <==> AllDone(answers, old(asked), asked)
      ensures r.Err? ==> run == Idle
      ensures r.Ok? ==> run == Writing(r.value.0, columns, r.value.1, {})
      ensures r.Ok? ==> r.value.0 == |published| + 1
      ensures r.Ok? ==> r.value.1 == if clean || published == [] then []
                                     else VersionOf(published, |published|).manifest.files
    {
      var read := ReadManifest();
      if read.Err? { return Err(read.error); }
      var current := read.value;
      Log(Begin(columns, clean));
      return Ok((current.version + 1, if clean then [] else current.files));
    }

    /** PUT one partition under the run's version; the key recorded for it. */
    method PutPartition(table: string, version: nat, mapping: string, p: PartitionOutput, ghost cells: seq<Cell>)
      returns (done: bool, relative: string)
      requires Valid() && run.Writing? && run.version == version && mapping !in run.done
      requires '/' !in table && Renderable(run.columns, cells) && p.key == PartitionKey(table, run.columns, cells, mapping)
      modifies this
      ensures Valid() && run == old(run) && published == old(published)
      ensures old(path) <= path && old(events) <= events
      ensures relative == FileKey(version, run.columns, cells, mapping)
      ensures asked == old(asked) + 1 && (done <==> Answer(answers, old(asked)).Done?)
      ensures objects == if Answer(answers, old(asked)) != Failed(false) then old(objects)[relative := Parquet(p.data)] else old(objects)
      ensures KeepsOthers(old(objects), objects, version, run.columns, mapping)
    {
      PutKeeps(objects, version, run.columns, cells, mapping, Parquet(p.data));
      SplitPartitionKey(table, run.columns, cells, mapping);
      relative := UploadTarget(p.key, version).value.1;
      assert relative == FileKey(version, run.columns, cells, mapping);
      var outcome := Ask();
      if outcome.Effective() {
        objects := objects[relative := Parquet(p.data)];
        Log(Upload(cells, mapping, p.data));
      }
      return outcome.Done?, relative;
    }

    /** Upload the outputs of one mapping under the run's version. On success
        the entries can be folded into the file list; on failure some objects
        may be left behind, and nothing names them. */
    method UploadPartitions(table: string, version: nat, mapping: string, outputs: seq<PartitionOutput>,
                            ghost tuples: seq<seq<Cell>>)
      returns (r: Result<seq<ManifestFile>, string>)
      requires Valid() && run.Writing? && run.version == version && mapping !in run.done
      requires '/' !in table && AllRenderable(run.columns, tuples) && |tuples| == |outputs|
      requires forall i | 0 <= i < |outputs| :: outputs[i].key == PartitionKey(table, run.columns, tuples[i], mapping)
      requires forall i, j | 0 <= i < j < |tuples| :: tuples[i] != tuples[j] && TypesOf(tuples[i]) == TypesOf(tuples[j])
      modifies this
      ensures Valid() && run == old(run) && published == old(published)
      ensures old(path) <= path && old(events) <= events
      ensures KeepsOthers(old(objects), objects, version, run.columns, mapping)
      ensures asked == old(asked) + Sent(answers, old(asked), |outputs|)
      ensures r.Ok? <==> AllDone(answers, old(asked), old(asked) + |outputs|)
      ensures r.Ok? ==> Uploaded(objects, run, tuples, mapping)
                        && r.value == Written(objects, run, tuples, mapping)
                        && forall i | 0 <= i < |outputs| :: objects[r.value[i].key] == Parquet(outputs[i].data)
    {
      var written := [];
      ghost var keys := FileKeys(version, run.columns, tuples, mapping);
      for n := 0 to |outputs|
        invariant Valid() && run == old(run) && published == old(published)
        invariant old(path) <= path && old(events) <= events
        invariant KeepsOthers(old(objects), objects, version, run.columns, mapping)
        invariant SoFar(objects, keys, mapping, outputs, written, n)
        invariant asked == old(asked) + n && AllDone(answers, old(asked), asked)
      {
        var done;
        done, written := UploadNext(table, version, mapping, outputs, tuples, keys, written, old(objects));
        if !done {
          SentStops(answers, old(asked), |outputs|, n);
          return Err("S3 PutObject failed");
        }
      }
      SentAll(answers, old(asked), |outputs|);
      AllSoFar(objects, run, keys, mapping, outputs, written, tuples);
      return Ok(written);
    }

    /** The next of a mapping's outputs. */
    method UploadNext(table: string, version: nat, mapping: string, outputs: seq<PartitionOutput>,
                      ghost tuples: seq<seq<Cell>>, ghost keys: seq<string>, written: seq<ManifestFile>,
                      ghost start: Store)
      returns (done: bool, more: seq<ManifestFile>)
      requires Valid() && run.Writing? && run.version == version && mapping !in run.done
      requires '/' !in table && AllRenderable(run.columns, tuples) && |written| < |tuples| == |outputs|
      requires forall i | 0 <= i < |outputs| :: outputs[i].key == PartitionKey(table, run.columns, tuples[i], mapping)
      requires forall i, j | 0 <= i < j < |tuples| :: tuples[i] != tuples[j] && TypesOf(tuples[i]) == TypesOf(tuples[j])
      requires keys == FileKeys(version, run.columns, tuples, mapping)
      requires SoFar(objects, keys, mapping, outputs, written, |written|)
      requires KeepsOthers(start, objects, version, run.columns, mapping)
      modifies this
      ensures Valid() && run == old(run) && published == old(published)
      ensures old(path) <= path && old(events) <= events
      ensures KeepsOthers(start, objects, version, run.columns, mapping)
      ensures asked == old(asked) + 1 && (done <==> Answer(answers, old(asked)).Done?)
      ensures done ==> SoFar(objects, keys, mapping, outputs, more, |written| + 1)
    {
      ghost var before := objects;
      var relative;
      done, relative := PutPartition(table, version, mapping, outputs[|written|], tuples[|written|]);
      KeepsStill(start, before, objects, version, run.columns, mapping);
      more := written + [ManifestFile(relative, mapping, |outputs[|written|].data|)];
      if done { OneSoFar(before, keys, mapping, outputs, written, |written|, version, run.columns, tuples); }
    }

    /** Write the manifest, then flip the pointer. A failure leaves the table
        on its old version, or on the new one if the lost reply was the flip's. */
    method Publish(manifest: TableManifest) returns (ok: bool)
      requires Valid() && run.Writing? && run.done != {}
      requires manifest.version == run.version && manifest.files == run.files
      modifies this
      ensures Valid()
      ensures old(path) <= path && old(events) <= events
      ensures ok ==> run == Flipped(manifest.version) && IsPublished(published, old(published), manifest, old(objects))
                     && objects == old(objects)["_manifests/" + Dec(manifest.version) + ".json" := ManifestDoc(manifest)]
                                               ["_current.json" := PointerDoc(manifest.version)]
      ensures asked == old(asked) + Sent(answers, old(asked), 2)
      ensures ok <==> AllDone(answers, old(asked), old(asked) + 2)
      ensures if FlipArrives(answers, old(asked)) then IsPublished(published, old(published), manifest, old(objects))
              else published == old(published)
    {
      Invariant();
      forall f | f in run.files ensures HoldsData(objects, f.key) {
        assert FileOk(objects, run, f);
      }
      var outcome := Ask();
      if outcome.Effective() {
        objects := objects[ManifestKey(manifest.version) := ManifestDoc(manifest)];
        Log(PutManifest(manifest.createdAt));
      }
      if !outcome.Done? {
        SentStops(answers, old(asked), 2, 0);
        return false;
      }
      outcome := Ask();
      if outcome.Done? { SentAll(answers, old(asked), 2); } else { SentStops(answers, old(asked), 2, 1); }
      if outcome.Effective() {
        objects := objects[CURRENT_KEY := PointerDoc(manifest.version)];
        Log(FlipPointer);
      }
      return outcome.Done?;
    }

    /** List the keys of the table; the store decides the order. */
    method ListKeys() returns (r: Result<seq<string>, string>)
      modifies this`asked
      ensures asked == old(asked) + 1 && (r.Ok? <==> Answer(answers, old(asked)).Done?)
      ensures r.Ok? ==> Lists(r.value, objects)
    {
      var outcome := Ask();
      if !outcome.Done? { return Err("ListObjectsV2 failed"); }
      var keys := [];
      var left := objects.Keys;
      while left != {}
        invariant left <= objects.Keys
        invariant forall k :: k in objects.Keys <==> k in left || k in keys
        invariant forall k | k in keys :: k !in left
        invariant NoRepeats(keys)
      {
        var k :| k in left;
        keys := keys + [k];
        left := left - {k};
      }
      return Ok(keys);
    }

    /** Read the manifests a vacuum keeps; a GET that goes unanswered aborts it. */
    method ReadRetained(versions: seq<nat>) returns (r: Result<seq<TableManifest>, string>)
      requires ReadableAll(objects, versions)
      modifies this`asked
      ensures asked == old(asked) + Sent(answers, old(asked), |versions|)
      ensures r.Ok? <==> AllDone(answers, old(asked), old(asked) + |versions|)
      ensures r.Ok? ==> ReadAll(objects, versions) == Some(r.value)
    {
      var retained := [];
      for i := 0 to |versions|
        invariant ReadAll(objects, versions[..i]) == Some(retained)
        invariant asked == old(asked) + i && AllDone(answers, old(asked), asked)
      {
        assert versions[i] in versions;
        ReadAllSnoc(objects, versions[..i], versions[i]);
        assert versions[..i + 1] == versions[..i] + [versions[i]];
        var outcome := Ask();
        if !outcome.Done? {
          SentStops(answers, old(asked), |versions|, i);
          return Err("vacuum aborted");
        }
        retained := retained + [ReadVersion(objects, versions[i]).value];
      }
      assert versions[..|versions|] == versions;
      SentAll(answers, old(asked), |versions|);
      return Ok(retained);
    }

    /** One DELETE. */
    method DeleteNext(targets: seq<string>) returns (done: bool)
      requires Valid() && run == Vacuuming(targets) && targets != []
      modifies this
      ensures Valid() && run == Vacuuming(targets[1..]) && published == old(published)
      ensures old(path) <= path && old(events) <= events
      ensures asked == old(asked) + 1 && (done <==> Answer(answers, old(asked)).Done?)
      ensures objects == if Answer(answers, old(asked)) != Failed(false) then old(objects) - {targets[0]} else old(objects)
    {
      var outcome := Ask();
      if outcome.Effective() {
        objects := objects - {targets[0]};
      }
      Log(Delete(outcome.Effective()));
      return outcome.Done?;
    }

    /** The delete loop: a failed delete is logged and skipped. */
    method DeleteTargets(targets: seq<string>) returns (deleted: nat)
      requires Valid() && run == Vacuuming(targets)
      modifies this
      ensures Valid() && run == Vacuuming([]) && published == old(published)
      ensures old(path) <= path && old(events) <= events
      ensures asked == old(asked) + |targets| && deleted == Confirmed(answers, old(asked), |targets|)
      ensures objects == AfterDeletes(old(objects), answers, old(asked), targets)
    {
      deleted := 0;
      for i := 0 to |targets|
        invariant Valid() && run == Vacuuming(targets[i..]) && published == old(published)
        invariant old(path) <= path && old(events) <= events
        invariant asked == old(asked) + i && deleted == Confirmed(answers, old(asked), i)
        invariant objects == AfterDeletes(old(objects), answers, old(asked), targets[..i])
      {
        DeletesMore(old(objects), answers, old(asked), targets, i);
        var done := DeleteNext(targets[i..]);
        if done {
          deleted := deleted + 1;
        }
      }
      assert targets[..|targets|] == targets;
    }

    lemma AllReadable()
      requires Valid() && run.Flipped?
      ensures Readable(objects, run.current)
    {
      Invariant();
      forall listing | Lists(listing, objects) ensures ReadableAll(objects, RetainedVersions(listing, run.current)) {
        RetainedReadable(Now(), listing);
      }
    }

    /** List, and read the manifests a vacuum keeps. */
    method ListAndRead(current: nat) returns (r: Result<(seq<string>, seq<TableManifest>), string>)
      requires Readable(objects, current)
      modifies this`asked
      ensures LastDecides(answers, old(asked), asked, r.Ok?)
      ensures r.Ok? ==> Lists(r.value.0, objects)
                        && ReadAll(objects, RetainedVersions(r.value.0, current)) == Some(r.value.1)
    {
      var listed := ListKeys();
      if listed.Err? { return Err(listed.error); }
      var retained := ReadNext(RetainedVersions(listed.value, current));
      if retained.Err? { return Err(retained.error); }
      return Ok((listed.value, retained.value));
    }

    /** The manifests, after a request that was confirmed. */
    method ReadNext(versions: seq<nat>) returns (r: Result<seq<TableManifest>, string>)
      requires ReadableAll(objects, versions) && asked > 0 && Answer(answers, asked - 1).Done?
      modifies this`asked
      ensures LastDecides(answers, old(asked) - 1, asked, r.Ok?)
      ensures r.Ok? ==> ReadAll(objects, versions) == Some(r.value)
    {
      r := ReadRetained(versions);
      SentAfterOne(answers, old(asked) - 1, |versions|, asked);
    }

    /** Settle what to delete. */
    method PlanVacuum(current: nat) returns (r: Result<seq<string>, string>)
      requires Valid() && run == Flipped(current)
      modifies this
      ensures Valid() && published == old(published) && objects == old(objects)
      ensures old(path) <= path && old(events) <= events
      ensures LastDecides(answers, old(asked), asked, r.Ok?)
      ensures r.Err? ==> run == old(run)
      ensures r.Ok? ==> run == Vacuuming(r.value)
                        && forall key :: key in Removed(objects, r.value) <==> Surviving(Now(), key)
    {
      AllReadable();
      var found := ListAndRead(current);
      if found.Err? { return Err(found.error); }
      var (listing, retained) := found.value;
      var targets := UnreferencedKeys(retained, listing) + ManifestKeys(Doomed(listing, current));
      Invariant();
      VacuumPlanned(Now(), listing, targets);
      Log(StartVacuum(listing));
      return Ok(targets);
    }

    lemma SurvivorsHeld()
      requires Valid() && published != []
      ensures forall key :: Surviving(Now(), key) ==> key in objects
    {
      Invariant();
      forall key | Surviving(Now(), key) ensures key in objects { SurvivorsPresent(Now(), key); }
    }

    /** Delete what no version in the window names. When every request is
        answered, the pointer, the window's manifests and their files are all
        that is left. Without the listing or one of the manifests nothing is
        deleted; a failed delete is not. */
    method Vacuum(current: nat) returns (r: Result<nat, string>)
      requires Valid() && run == Flipped(current) && published != []
      modifies this
      ensures Valid() && published == old(published) && asked > old(asked)
      ensures old(path) <= path && old(events) <= events
      ensures r.Err? ==> objects == old(objects) && !Answer(answers, asked - 1).Done? && AllDone(answers, old(asked), asked - 1)
      ensures r.Ok? ==> exists from: nat, n: nat | from + n == asked && old(asked) < from ::
                          AllDone(answers, old(asked), from) && r.value == Confirmed(answers, from, n)
      ensures objects.Keys <= old(objects).Keys && forall key :: Surviving(Now(), key) ==> key in objects
      ensures AllDone(answers, old(asked), asked) ==> r.Ok? && forall key :: key in objects <==> Surviving(Now(), key)
    {
      var planned := PlanVacuum(current);
      SurvivorsHeld();
      if planned.Err? { return Err(planned.error); }
      ghost var from, before := asked, Now();
      var deleted := DeleteTargets(planned.value);
      SurvivorsHeld();
      assert AllDone(answers, old(asked), from) && deleted == Confirmed(answers, from, |planned.value|);
      if AllDone(answers, from, asked) { DeletesDone(before.store, answers, from, planned.value); }
      r := Ok(deleted);
    }
  }

  lemma VacuumPlanned(s: State, listing: seq<string>, targets: seq<string>)
    requires ReadyToVacuum(s, listing) && VacuumTargets(s.store, listing, s.run.current) == Some(targets)
    ensures Enabled(s, StartVacuum(listing)) && Next(s, StartVacuum(listing)) == s.(run := Vacuuming(targets))
    ensures forall key :: key in Removed(s.store, targets) <==> Surviving(s, key)
  {
    StartVacuumKeeps(s, listing);
    VacuumExact(s, listing);
  }

  lemma RetainedReadable(s: State, listing: seq<string>)
    requires ReadyToVacuum(s, listing)
    ensures forall v | v in RetainedVersions(listing, s.run.current) :: ReadVersion(s.store, v).Ok?
  {
    Plan(s, listing);
    forall v | InWindow(v, Current(s)) ensures ReadVersion(s.store, v).Ok? {
      assert Held(s.store, VersionOf(s.published, v)) && WellMade(VersionOf(s.published, v), v);
    }
  }

  lemma {:induction false} ReadAllSnoc(store: Store, versions: seq<nat>, v: nat)
    requires ReadVersion(store, v).Ok? && ReadAll(store, versions).Some?
    ensures ReadAll(store, versions + [v]) == Some(ReadAll(store, versions).value + [ReadVersion(store, v).value])
  {
    var longer := versions + [v];
    if versions == [] {
      assert longer[1..] == [];
      var m := ReadVersion(store, v).value;
      assert ReadAll(store, longer) == Some([m] + []);
      assert [m] + [] == [] + [m];
    } else {
      assert longer[1..] == versions[1..] + [v];
      ReadAllSnoc(store, versions[1..], v);
      var first, rest := ReadVersion(store, versions[0]).value, ReadAll(store, versions[1..]).value;
      var last := ReadVersion(store, v).value;
      assert ([first] + rest) + [last] == [first] + (rest + [last]);
    }
  }
}
