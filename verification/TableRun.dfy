/**
 One job's work on one table, request by request: start from the current
 version, upload each mapping's output and fold it in, publish, vacuum. Every
 request may fail and the run may be cancelled before any mapping. For any
 answers and any cancel flag this says which mappings win, whether a version is
 published, and what is in it; what the table goes through is a run of
 TableProtocol all the same.
 */
module TableRun {
  import opened Text
  import opened Paths
  import opened Manifest
  import opened TableProtocol
  import opened TableSafety
  import opened VacuumSafety
  import opened TableStore
  import opened Replies
  import opened JobRun

  datatype MappingOutput = MappingOutput(mapping: string, outputs: seq<PartitionOutput>)

  ghost predicate AllPartitioned(table: string, columns: seq<string>, work: seq<MappingOutput>,
                                 tuples: seq<seq<seq<Cell>>>)
  {
    && |tuples| == |work|
    && forall i | 0 <= i < |work| :: Partitioned(table, columns, work[i].mapping, work[i].outputs, tuples[i])
  }

  predicate DistinctWork(work: seq<MappingOutput>) {
    forall i, j | 0 <= i < j < |work| :: work[i].mapping != work[j].mapping
  }

  /** A run starts from files of earlier versions. */
  lemma StartsOld(s: State)
    requires Inv(s) && s.run.Writing? && s.run.done == {}
    ensures OldFiles(s.run.version, s.run.files)
  {
    forall f | f in s.run.files ensures KeyVersion(f.key).Some? && KeyVersion(f.key).value < s.run.version {
      assert FileOk(s.store, s.run, f);
    }
  }

  function DoneBy(wins: set<Win>): set<string> {
    set w | w in wins :: w.mapping
  }

  ghost predicate AllOwn(version: nat, columns: seq<string>, table: string, wins: set<Win>) {
    forall w | w in wins :: w.table == table && OwnFiles(version, columns, w)
  }

  // What a run's uploads are

  predicate AllSplittable(work: seq<MappingOutput>) {
    forall i | 0 <= i < |work| :: Splittable(work[i].outputs)
  }

  /** The entries for all of a mapping's outputs. */
  function WinAt(table: string, version: nat, item: MappingOutput): Win
    requires Splittable(item.outputs)
  {
    Win(item.mapping, table, WrittenFiles(version, item.mapping, item.outputs))
  }

  ghost function WinsOf(table: string, version: nat, work: seq<MappingOutput>, won: seq<bool>): set<Win>
    requires |won| <= |work| && AllSplittable(work)
  {
    set i | 0 <= i < |won| && won[i] :: WinAt(table, version, work[i])
  }

  /** Every output of the mapping, under its key. */
  ghost predicate Stored(store: Store, version: nat, item: MappingOutput)
    requires Splittable(item.outputs)
  {
    forall k | 0 <= k < |item.outputs| :: HoldsOutput(store, WrittenFiles(version, item.mapping, item.outputs)[k].key, item.outputs[k])
  }

  predicate HoldsOutput(store: Store, key: string, output: PartitionOutput) {
    key in store && store[key] == Parquet(output.data)
  }

  ghost predicate WinsStored(store: Store, version: nat, work: seq<MappingOutput>, won: seq<bool>)
    requires |won| <= |work| && AllSplittable(work)
  {
    forall i | 0 <= i < |won| && won[i] :: Stored(store, version, work[i])
  }

  lemma AllSplit(table: string, columns: seq<string>, work: seq<MappingOutput>, tuples: seq<seq<seq<Cell>>>)
    requires AllPartitioned(table, columns, work, tuples)
    ensures AllSplittable(work)
  {
    forall i | 0 <= i < |work| ensures Splittable(work[i].outputs) {
      PartitionedWins(table, columns, work[i].mapping, work[i].outputs, tuples[i], 0);
    }
  }

  /** The key of an output of a table without a slash in its id. */
  lemma OutputKey(table: string, version: nat, columns: seq<string>, item: MappingOutput, tuples: seq<seq<Cell>>, k: nat)
    requires '/' !in table && Partitioned(table, columns, item.mapping, item.outputs, tuples) && k < |item.outputs|
    requires Splittable(item.outputs)
    ensures WrittenFiles(version, item.mapping, item.outputs)[k].key == FileKey(version, columns, tuples[k], item.mapping)
    ensures FromMapping(FileKey(version, columns, tuples[k], item.mapping), version, columns, item.mapping)
  {
    RecordedIs(table, version, columns, tuples[k], item.mapping);
  }

  /** What the store returns for an upload is what the code records. */
  lemma UploadedWin(store: Store, run: Run, table: string, item: MappingOutput, tuples: seq<seq<Cell>>)
    requires '/' !in table && run.Writing? && Partitioned(table, run.columns, item.mapping, item.outputs, tuples)
    requires AllRenderable(run.columns, tuples) && Uploaded(store, run, tuples, item.mapping)
    requires var w := Written(store, run, tuples, item.mapping);
             forall k | 0 <= k < |w| :: store[w[k].key] == Parquet(item.outputs[k].data)
    ensures Splittable(item.outputs) && Stored(store, run.version, item)
    ensures Written(store, run, tuples, item.mapping) == WrittenFiles(run.version, item.mapping, item.outputs)
    ensures OwnFiles(run.version, run.columns, WinAt(table, run.version, item))
  {
    PartitionedWins(table, run.columns, item.mapping, item.outputs, tuples, run.version);
    var w, files := Written(store, run, tuples, item.mapping), WrittenFiles(run.version, item.mapping, item.outputs);
    forall k | 0 <= k < |w| ensures w[k] == files[k] && HoldsOutput(store, files[k].key, item.outputs[k]) {
      OutputKey(table, run.version, run.columns, item, tuples, k);
    }
  }

  /** Another mapping's upload leaves it in place. */
  lemma StaysStored(before: Store, after: Store, table: string, version: nat, columns: seq<string>, item: MappingOutput,
                    tuples: seq<seq<Cell>>, other: string)
    requires '/' !in table && Partitioned(table, columns, item.mapping, item.outputs, tuples) && item.mapping != other
    requires Splittable(item.outputs) && Stored(before, version, item)
    requires KeepsOthers(before, after, version, columns, other)
    ensures Stored(after, version, item)
  {
    forall k | 0 <= k < |item.outputs|
      ensures HoldsOutput(after, WrittenFiles(version, item.mapping, item.outputs)[k].key, item.outputs[k])
    {
      OutputKey(table, version, columns, item, tuples, k);
      NotFromOther(version, columns, tuples[k], item.mapping, other);
      assert HoldsOutput(before, FileKey(version, columns, tuples[k], item.mapping), item.outputs[k]);
    }
  }

  lemma NotFromOther(version: nat, columns: seq<string>, cells: seq<Cell>, mapping: string, other: string)
    requires Renderable(columns, cells) && mapping != other
    ensures !FromMapping(FileKey(version, columns, cells, mapping), version, columns, other)
  {
    if FromMapping(FileKey(version, columns, cells, mapping), version, columns, other) {
      var b :| Renderable(columns, b) && FileKey(version, columns, cells, mapping) == FileKey(version, columns, b, other);
      FileKeyTellsMapping(version, columns, cells, b, mapping, other);
    }
  }

  lemma AcceptWin(columns: seq<string>, start: seq<ManifestFile>, wins: set<Win>, version: nat,
                  files: seq<ManifestFile>, w: Win)
    requires OldFiles(version, start) && Content(start, wins, w.table, files)
    requires AllOwn(version, columns, w.table, wins) && OwnFiles(version, columns, w) && w.mapping !in DoneBy(wins)
    ensures Content(start, wins + {w}, w.table, ApplyMappingWrites(files, w.mapping, w.files))
    ensures AllOwn(version, columns, w.table, wins + {w}) && DoneBy(wins + {w}) == DoneBy(wins) + {w.mapping}
  {
    forall x | x in wins ensures x.mapping != w.mapping { assert x.mapping in DoneBy(wins); }
    WinFolds(version, columns, start, wins, files, w);
    forall m ensures m in DoneBy(wins + {w}) <==> m in DoneBy(wins) + {w.mapping} {
      if m == w.mapping { assert w in wins + {w}; }
    }
  }

  /** What the loop knows between mappings. */
  ghost predicate Folding(s: State, version: nat, columns: seq<string>, table: string, start: seq<ManifestFile>,
                          files: seq<ManifestFile>, wins: set<Win>)
  {
    && s.run == Writing(version, columns, files, DoneBy(wins))
    && OldFiles(version, start) && Content(start, wins, table, files) && AllOwn(version, columns, table, wins)
  }

  /** Upload one mapping's output and, if all of it went through, fold it in. */
  method UploadMapping(store: Table, table: string, version: nat, ghost columns: seq<string>,
                       ghost start: seq<ManifestFile>, files: seq<ManifestFile>, ghost wins: set<Win>,
                       item: MappingOutput, ghost tuples: seq<seq<Cell>>)
    returns (folded: seq<ManifestFile>, uploaded: bool)
    requires store.Valid() && Folding(store.Now(), version, columns, table, start, files, wins)
    requires '/' !in table && item.mapping !in DoneBy(wins)
    requires Partitioned(table, columns, item.mapping, item.outputs, tuples)
    modifies store
    ensures store.Valid() && store.published == old(store.published)
    ensures old(store.path) <= store.path && old(store.events) <= store.events
    ensures KeepsOthers(old(store.objects), store.objects, version, columns, item.mapping)
    ensures store.asked == old(store.asked) + Sent(store.answers, old(store.asked), |item.outputs|)
    ensures uploaded <==> AllDone(store.answers, old(store.asked), old(store.asked) + |item.outputs|)
    ensures Splittable(item.outputs) && (uploaded ==> Stored(store.objects, version, item))
    ensures Folding(store.Now(), version, columns, table, start, folded,
                    if uploaded then wins + {WinAt(table, version, item)} else wins)
  {
    PartitionedWins(table, columns, item.mapping, item.outputs, tuples, version);
    var r := store.UploadPartitions(table, version, item.mapping, item.outputs, tuples);
    if r.Err? {
      return files, false;
    }
    UploadedWin(store.objects, store.run, table, item, tuples);
    AcceptWin(columns, start, wins, version, files, WinAt(table, version, item));
    store.Log(Accept(tuples, item.mapping));
    return ApplyMappingWrites(files, item.mapping, r.value), true;
  }

  lemma WinsMore(table: string, version: nat, work: seq<MappingOutput>, won: seq<bool>, uploaded: bool)
    requires |won| < |work| && AllSplittable(work)
    ensures WinsOf(table, version, work, won + [uploaded])
         == WinsOf(table, version, work, won) + if uploaded then {WinAt(table, version, work[|won|])} else {}
  {
    var more, wins := won + [uploaded], WinsOf(table, version, work, won);
    forall w | w in wins + if uploaded then {WinAt(table, version, work[|won|])} else {}
      ensures w in WinsOf(table, version, work, more)
    {
      if w in wins {
        var i :| 0 <= i < |won| && won[i] && w == WinAt(table, version, work[i]);
        assert more[i];
      } else {
        assert more[|won|];
      }
    }
  }

  lemma StoredMore(before: Store, after: Store, table: string, version: nat, columns: seq<string>,
                   work: seq<MappingOutput>, tuples: seq<seq<seq<Cell>>>, won: seq<bool>, uploaded: bool)
    requires '/' !in table && AllPartitioned(table, columns, work, tuples) && DistinctWork(work) && AllSplittable(work)
    requires |won| < |work| && WinsStored(before, version, work, won)
    requires KeepsOthers(before, after, version, columns, work[|won|].mapping)
    requires uploaded ==> Stored(after, version, work[|won|])
    ensures WinsStored(after, version, work, won + [uploaded])
  {
    var more := won + [uploaded];
    forall i | 0 <= i < |more| && more[i] ensures Stored(after, version, work[i]) {
      if i < |won| { StaysStored(before, after, table, version, columns, work[i], tuples[i], work[|won|].mapping); }
    }
  }

  lemma NotDone(table: string, version: nat, work: seq<MappingOutput>, won: seq<bool>)
    requires |won| < |work| && AllSplittable(work) && DistinctWork(work)
    ensures work[|won|].mapping !in DoneBy(WinsOf(table, version, work, won))
  {
  }

  function Sizes(work: seq<MappingOutput>): (sizes: seq<nat>)
    ensures |sizes| == |work|
  {
    seq(|work|, i requires 0 <= i < |work| => |work[i].outputs|)
  }

  /** Of the mappings taken, those win whose PUTs are all confirmed. */
  ghost function Winning(answers: Answers, from: nat, work: seq<MappingOutput>, turns: nat): (won: seq<bool>)
    requires turns <= |work|
    ensures |won| == turns
  {
    Through(answers, from, Sizes(work)[..turns])
  }

  /** The number of the request that comes after those of the mappings taken. */
  ghost function AfterTurns(answers: Answers, from: nat, work: seq<MappingOutput>, turns: nat): nat
    requires turns <= |work|
  {
    After(answers, from, Sizes(work)[..turns])
  }

  /** The mappings of one table, in turn, until all are done or the run is
      cancelled; `won` says which uploaded everything. */
  method FoldMappings(store: Table, table: string, version: nat, ghost columns: seq<string>,
                      start: seq<ManifestFile>, work: seq<MappingOutput>, ghost tuples: seq<seq<seq<Cell>>>,
                      cancelAt: Option<nat>)
    returns (files: seq<ManifestFile>, touched: bool, cancelled: bool, ghost won: seq<bool>)
    requires store.Valid() && Folding(store.Now(), version, columns, table, start, start, {})
    requires '/' !in table && AllPartitioned(table, columns, work, tuples) && DistinctWork(work) && AllSplittable(work)
    modifies store
    ensures store.Valid() && store.published == old(store.published)
    ensures old(store.path) <= store.path && old(store.events) <= store.events
    ensures won == Winning(store.answers, old(store.asked), work, Taken(|work|, cancelAt))
    ensures (cancelled <==> |won| < |work|) && (touched <==> true in won)
    ensures store.asked == AfterTurns(store.answers, old(store.asked), work, |won|)
    ensures Folding(store.Now(), version, columns, table, start, files, WinsOf(table, version, work, won))
    ensures WinsStored(store.objects, version, work, won)
  {
    files, touched, cancelled, won := start, false, false, [];
    assert WinsOf(table, version, work, won) == {};
    for i := 0 to |work|
      invariant store.Valid() && store.published == old(store.published)
      invariant old(store.path) <= store.path && old(store.events) <= store.events
      invariant i <= Taken(|work|, cancelAt) && !cancelled && (touched <==> true in won)
      invariant won == Winning(store.answers, old(store.asked), work, i)
      invariant store.asked == AfterTurns(store.answers, old(store.asked), work, i)
      invariant Folding(store.Now(), version, columns, table, start, files, WinsOf(table, version, work, won))
      invariant WinsStored(store.objects, version, work, won)
    {
      cancelled := cancelAt.Some? && cancelAt.value <= i;
      if cancelled { return; }
      var uploaded;
      files, uploaded := FoldNext(store, table, version, columns, start, files, work, tuples, i, won, old(store.asked));
      touched, won := touched || uploaded, won + [uploaded];
    }
  }

  /** One mapping's turn. */
  method FoldNext(store: Table, table: string, version: nat, ghost columns: seq<string>, ghost start: seq<ManifestFile>,
                  files: seq<ManifestFile>, work: seq<MappingOutput>, ghost tuples: seq<seq<seq<Cell>>>, i: nat,
                  ghost won: seq<bool>, ghost from: nat)
    returns (folded: seq<ManifestFile>, uploaded: bool)
    requires store.Valid() && i < |work| && won == Winning(store.answers, from, work, i)
    requires store.asked == AfterTurns(store.answers, from, work, i)
    requires '/' !in table && AllPartitioned(table, columns, work, tuples) && DistinctWork(work) && AllSplittable(work)
    requires Folding(store.Now(), version, columns, table, start, files, WinsOf(table, version, work, won))
    requires WinsStored(store.objects, version, work, won)
    modifies store
    ensures store.Valid() && store.published == old(store.published)
    ensures old(store.path) <= store.path && old(store.events) <= store.events
    ensures store.asked == AfterTurns(store.answers, from, work, i + 1)
    ensures won + [uploaded] == Winning(store.answers, from, work, i + 1)
    ensures Folding(store.Now(), version, columns, table, start, folded, WinsOf(table, version, work, won + [uploaded]))
    ensures WinsStored(store.objects, version, work, won + [uploaded])
  {
    TurnMore(store.answers, from, work, i);
    NotDone(table, version, work, won);
    ghost var wins := WinsOf(table, version, work, won);
    folded, uploaded := UploadMapping(store, table, version, columns, start, files, wins, work[i], tuples[i]);
    WinsMore(table, version, work, won, uploaded);
    StoredMore(old(store.objects), store.objects, table, version, columns, work, tuples, won, uploaded);
  }

  lemma TurnMore(answers: Answers, from: nat, work: seq<MappingOutput>, i: nat)
    requires i < |work|
    ensures var at, n := AfterTurns(answers, from, work, i), |work[i].outputs|;
            && AfterTurns(answers, from, work, i + 1) == at + Sent(answers, at, n)
            && Winning(answers, from, work, i + 1) == Winning(answers, from, work, i) + [AllDone(answers, at, at + n)]
  {
    OneMore(answers, from, Sizes(work), i);
  }

  lemma NothingFolded(s: State, version: nat, columns: seq<string>, table: string, files: seq<ManifestFile>)
    requires Inv(s) && s.run == Writing(version, columns, files, {})
    ensures Folding(s, version, columns, table, files, files, {})
  {
    StartsOld(s);
  }

  lemma SomeDone(table: string, version: nat, work: seq<MappingOutput>, won: seq<bool>)
    requires |won| <= |work| && AllSplittable(work) && true in won
    ensures DoneBy(WinsOf(table, version, work, won)) != {}
  {
    var i :| 0 <= i < |won| && won[i];
    assert WinAt(table, version, work[i]) in WinsOf(table, version, work, won);
    assert work[i].mapping in DoneBy(WinsOf(table, version, work, won));
  }

  // What it publishes

  function StartFiles(published: seq<Snapshot>, clean: bool): seq<ManifestFile> {
    if clean || published == [] then [] else published[|published| - 1].manifest.files
  }

  /** Every output of the mapping, byte for byte. */
  ghost predicate Carries(content: map<string, Bytes>, version: nat, item: MappingOutput)
    requires Splittable(item.outputs)
  {
    forall k | 0 <= k < |item.outputs| ::
      var key := WrittenFiles(version, item.mapping, item.outputs)[k].key;
      key in content && content[key] == item.outputs[k].data
  }

  /** The files kept from the version before are what they were. */
  ghost predicate KeepsPrevious(snapshot: Snapshot, before: seq<Snapshot>, clean: bool) {
    forall f | f in snapshot.manifest.files && f in StartFiles(before, clean) ::
      && f.key in snapshot.content && f.key in VersionOf(before, |before|).content
      && snapshot.content[f.key] == VersionOf(before, |before|).content[f.key]
  }

  /** One version more, with exactly the files of the mappings that won and the
      previous files of the others, and the bytes both have. */
  ghost predicate RunPublished(now: seq<Snapshot>, before: seq<Snapshot>, clean: bool, table: string,
                               work: seq<MappingOutput>, won: seq<bool>)
    requires |won| <= |work| && AllSplittable(work)
  {
    && before <= now && |now| == |before| + 1
    && var snapshot := VersionOf(now, |now|);
    && Content(StartFiles(before, clean), WinsOf(table, |now|, work, won), table, snapshot.manifest.files)
    && (forall i | 0 <= i < |won| && won[i] :: Carries(snapshot.content, |now|, work[i]))
    && KeepsPrevious(snapshot, before, clean)
  }

  lemma CarriesWin(store: Store, table: string, version: nat, start: seq<ManifestFile>, files: seq<ManifestFile>,
                   work: seq<MappingOutput>, won: seq<bool>, i: nat)
    requires |won| <= |work| && AllSplittable(work) && WinsStored(store, version, work, won) && i < |won| && won[i]
    requires Content(start, WinsOf(table, version, work, won), table, files) && FilesHeld(store, files)
    ensures Carries(ContentOf(store, files), version, work[i])
  {
    var w := WinAt(table, version, work[i]);
    assert w in WinsOf(table, version, work, won) && Stored(store, version, work[i]);
    forall k | 0 <= k < |work[i].outputs| ensures w.files[k].key in ContentOf(store, files)
      && ContentOf(store, files)[w.files[k].key] == work[i].outputs[k].data
    {
      assert w.files[k] in w.files && HoldsOutput(store, w.files[k].key, work[i].outputs[k]);
      assert FromWin(WinsOf(table, version, work, won), table, w.files[k]);
      assert w.files[k] in files;
    }
  }

  lemma PreviousKept(s: State, clean: bool, files: seq<ManifestFile>, manifest: TableManifest)
    requires Inv(s) && FilesHeld(s.store, files) && manifest.files == files
    ensures KeepsPrevious(Snapshot(manifest, ContentOf(s.store, files)), s.published, clean)
  {
    if s.published != [] { CurrentHeld(s); }
  }

  lemma CurrentHeld(s: State)
    requires WindowOk(s) && s.published != []
    ensures Held(s.store, VersionOf(s.published, |s.published|))
  {
    assert InWindow(Current(s), Current(s));
  }

  lemma PublishesRun(s: State, now: seq<Snapshot>, clean: bool, table: string, columns: seq<string>, manifest: TableManifest,
                     work: seq<MappingOutput>, won: seq<bool>)
    requires Inv(s) && |won| <= |work| && AllSplittable(work) && WinsStored(s.store, manifest.version, work, won)
    requires Folding(s, manifest.version, columns, table, StartFiles(s.published, clean), manifest.files,
                     WinsOf(table, manifest.version, work, won))
    requires IsPublished(now, s.published, manifest, s.store)
    ensures RunPublished(now, s.published, clean, table, work, won)
  {
    var start := StartFiles(s.published, clean);
    forall i | 0 <= i < |won| && won[i] ensures Carries(VersionOf(now, |now|).content, |now|, work[i]) {
      CarriesWin(s.store, table, manifest.version, start, manifest.files, work, won, i);
    }
    PreviousKept(s, clean, manifest.files, manifest);
  }

  /** The run's first PUT, and its first request after the mappings. */
  ghost function PutsFrom(asked: nat, published: seq<Snapshot>): nat {
    asked + StartRequests(published)
  }

  /** Nothing is left but the pointer, the window's manifests and their files. */
  ghost predicate Tidied(s: State) {
    forall key :: key in s.store <==> Surviving(s, key)
  }

  /** What the table is like after a run that started with request `asked`:
      cancelled or without a win, it has its old version; otherwise it has the
      run's version iff manifest and pointer arrive, and `version` says so iff
      both are confirmed. */
  ghost predicate Ended(answers: Answers, from: nat, before: seq<Snapshot>, now: seq<Snapshot>, clean: bool, table: string,
                        work: seq<MappingOutput>, won: seq<bool>, version: Option<nat>)
    requires |won| <= |work| && AllSplittable(work)
  {
    if |won| < |work| || true !in won then version.None? && now == before
    else
      var at := AfterTurns(answers, from, work, |work|);
      && version == (if AllDone(answers, at, at + 2) then Some(|before| + 1) else None)
      && if FlipArrives(answers, at) then RunPublished(now, before, clean, table, work, won) else now == before
  }

  /** Everything won and was published. */
  ghost predicate Succeeded(before: seq<Snapshot>, now: seq<Snapshot>, clean: bool, table: string, work: seq<MappingOutput>,
                            won: seq<bool>, version: Option<nat>)
    requires AllSplittable(work)
  {
    && |won| == |work| && (forall i | 0 <= i < |work| :: won[i]) && version == Some(|before| + 1)
    && RunPublished(now, before, clean, table, work, won)
  }

  lemma AllWell(answers: Answers, from: nat, before: seq<Snapshot>, now: seq<Snapshot>, clean: bool, table: string,
                work: seq<MappingOutput>, won: seq<bool>, version: Option<nat>, to: nat)
    requires work != [] && AllSplittable(work) && won == Winning(answers, from, work, |work|)
    requires AllDone(answers, from, to) && AfterTurns(answers, from, work, |won|) <= to
    requires Ended(answers, from, before, now, clean, table, work, won, version)
    requires true in won ==> version.Some?
    ensures true in won && Succeeded(before, now, clean, table, work, won, version)
  {
    AllThrough(answers, from, Sizes(work)[..|work|], to);
    assert won[0];
    var at := AfterTurns(answers, from, work, |work|);
    assert AllDone(answers, at, at + 2);
    assert Answer(answers, at).Done? && Answer(answers, at + 1).Done?;
  }

  /** What a run does, for any answers and any cancel flag. A GET that goes
      unanswered stops it before it has done anything; a mapping wins iff all
      its PUTs are confirmed; and what it publishes has exactly the winners'
      files and the previous files of the rest. When every answer is a
      confirmation and nothing is cancelled, everything wins, is published, and
      the table is tidied. */
  method RunTable(store: Table, table: string, ghost columns: seq<string>, clean: bool, work: seq<MappingOutput>,
                  ghost tuples: seq<seq<seq<Cell>>>, createdAt: string, cancelAt: Option<nat>)
    returns (version: Option<nat>, cancelled: bool, ghost won: seq<bool>)
    requires store.Valid() && store.run.Idle? && |store.published| < U64_MAX && '/' !in table
    requires AllPartitioned(table, columns, work, tuples) && DistinctWork(work)
    modifies store
    ensures store.Valid() && store.run.Idle? && old(store.path) <= store.path && old(store.events) <= store.events
    ensures |won| <= |work| && AllSplittable(work)
    ensures var from := PutsFrom(old(store.asked), old(store.published));
            if AllDone(store.answers, old(store.asked), from)
            then won == Winning(store.answers, from, work, Taken(|work|, cancelAt))
                 && (cancelled <==> |won| < |work|)
                 && Ended(store.answers, from, old(store.published), store.published, clean, table, work, won, version)
            else store.objects == old(store.objects) && store.published == old(store.published)
                 && won == [] && !cancelled && version.None?
    ensures work != [] && cancelAt.None? && AllDone(store.answers, old(store.asked), store.asked) ==>
              Succeeded(old(store.published), store.published, clean, table, work, won, version) && Tidied(store.Now())
  {
    AllSplit(table, columns, work, tuples);
    ghost var from := PutsFrom(old(store.asked), old(store.published));
    var begun := StartTable(store, table, columns, clean);
    if begun.Err? {
      return None, false, [];
    }
    var (next, start) := begun.value;
    version, cancelled, won := WorkTable(store, table, next, columns, clean, start, work, tuples, createdAt, cancelAt);
    if work != [] && cancelAt.None? && AllDone(store.answers, old(store.asked), store.asked) {
      AllWell(store.answers, from, old(store.published), store.published, clean, table, work, won, version, store.asked);
    }
  }

  /** The run up to its first PUT. */
  method StartTable(store: Table, ghost table: string, ghost columns: seq<string>, clean: bool)
    returns (r: Result<(nat, seq<ManifestFile>), string>)
    requires store.Valid() && store.run.Idle? && |store.published| < U64_MAX
    modifies store
    ensures store.Valid() && old(store.path) <= store.path && old(store.events) <= store.events
    ensures store.objects == old(store.objects) && store.published == old(store.published)
    ensures store.asked == PutsFrom(old(store.asked), old(store.published))
    ensures r.Ok? <==> AllDone(store.answers, old(store.asked), store.asked)
    ensures r.Err? ==> store.run.Idle?
    ensures r.Ok? ==> r.value == (|store.published| + 1, StartFiles(store.published, clean))
                      && Folding(store.Now(), r.value.0, columns, table, r.value.1, r.value.1, {})
  {
    r := store.BeginRun(columns, clean);
    if r.Ok? {
      store.Invariant();
      NothingFolded(store.Now(), r.value.0, columns, table, r.value.1);
    }
  }

  /** The run from its first PUT on. */
  method WorkTable(store: Table, table: string, next: nat, ghost columns: seq<string>, clean: bool,
                   start: seq<ManifestFile>, work: seq<MappingOutput>, ghost tuples: seq<seq<seq<Cell>>>, createdAt: string,
                   cancelAt: Option<nat>)
    returns (version: Option<nat>, cancelled: bool, ghost won: seq<bool>)
    requires store.Valid() && Folding(store.Now(), next, columns, table, start, start, {}) && '/' !in table
    requires next == |store.published| + 1 && start == StartFiles(store.published, clean)
    requires AllPartitioned(table, columns, work, tuples) && DistinctWork(work) && AllSplittable(work)
    modifies store
    ensures store.Valid() && store.run.Idle? && old(store.path) <= store.path && old(store.events) <= store.events
    ensures won == Winning(store.answers, old(store.asked), work, Taken(|work|, cancelAt))
    ensures cancelled <==> |won| < |work|
    ensures store.asked >= AfterTurns(store.answers, old(store.asked), work, |won|)
    ensures Ended(store.answers, old(store.asked), old(store.published), store.published, clean, table, work, won, version)
    ensures |won| == |work| && true in won
            && AllDone(store.answers, AfterTurns(store.answers, old(store.asked), work, |won|), store.asked) ==>
              version.Some? && Tidied(store.Now())
  {
    var files, touched;
    files, touched, cancelled, won := FoldMappings(store, table, next, columns, start, work, tuples, cancelAt);
    if cancelled || !touched {
      store.EndRun();
      return None, cancelled, won;
    }
    var published := EndTable(store, table, columns, clean, TableManifest(next, createdAt, files), work, won);
    return if published then Some(next) else None, false, won;
  }

  /** The end of a run that has something to publish. */
  method EndTable(store: Table, table: string, ghost columns: seq<string>, clean: bool, manifest: TableManifest,
                  work: seq<MappingOutput>, ghost won: seq<bool>)
    returns (published: bool)
    requires store.Valid() && |won| <= |work| && AllSplittable(work) && true in won
    requires WinsStored(store.objects, manifest.version, work, won)
    requires Folding(store.Now(), manifest.version, columns, table, StartFiles(store.published, clean), manifest.files,
                     WinsOf(table, manifest.version, work, won))
    modifies store
    ensures store.Valid() && store.run.Idle? && old(store.path) <= store.path && old(store.events) <= store.events
    ensures store.asked >= old(store.asked) + 1
    ensures published <==> AllDone(store.answers, old(store.asked), old(store.asked) + 2)
    ensures published ==> |store.published| == |old(store.published)| + 1 == manifest.version
    ensures if FlipArrives(store.answers, old(store.asked))
            then RunPublished(store.published, old(store.published), clean, table, work, won)
            else store.published == old(store.published)
    ensures AllDone(store.answers, old(store.asked), store.asked) ==> published && Tidied(store.Now())
  {
    SomeDone(table, manifest.version, work, won);
    store.Invariant();
    ghost var before := store.Now();
    published := PublishAndVacuum(store, manifest);
    if FlipArrives(store.answers, old(store.asked)) {
      PublishesRun(before, store.published, clean, table, columns, manifest, work, won);
    }
  }

  /** Publish, then vacuum. A vacuum that fails is only logged. */
  method PublishAndVacuum(store: Table, manifest: TableManifest) returns (published: bool)
    requires store.Valid() && store.run.Writing? && store.run.done != {}
    requires manifest.version == store.run.version && manifest.files == store.run.files
    modifies store
    ensures store.Valid() && store.run.Idle? && old(store.path) <= store.path && old(store.events) <= store.events
    ensures store.asked >= old(store.asked) + 1
    ensures published <==> AllDone(store.answers, old(store.asked), old(store.asked) + 2)
    ensures if FlipArrives(store.answers, old(store.asked))
            then IsPublished(store.published, old(store.published), manifest, old(store.objects))
            else store.published == old(store.published)
    ensures AllDone(store.answers, old(store.asked), store.asked) ==> published && Tidied(store.Now())
  {
    published := store.Publish(manifest);
    if published {
      var vacuumed := store.Vacuum(manifest.version);
    }
    store.EndRun();
  }
}
