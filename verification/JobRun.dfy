/**
 The mapping loop of a job, and what each table's file list is after it: new
 files of the mappings that succeeded, previous files of all others, whatever
 the order of the mappings. Which PUTs are confirmed is given.
 */
module JobRun {
  import opened Text
  import opened Paths
  import opened Config
  import opened Manifest
  import opened Replies

  datatype TablePublish = TablePublish(version: nat, files: seq<ManifestFile>, touched: bool)

  /** What ingesting one mapping came to: no source or no files, an error, or
      partitions to upload. */
  datatype Stage = Skipped | Rejected(message: string) | Produced(outputs: seq<PartitionOutput>)

  datatype JobOutcome = JobOutcome(publishes: map<string, TablePublish>, partitions: nat, errors: seq<string>)

  datatype JobError = ConfigRead(message: string) | Cancelled

  /** A mapping that uploaded all its output, and the entries it got for it. */
  datatype Win = Win(mapping: string, table: string, files: seq<ManifestFile>)

  /** What became of one mapping. */
  datatype Turn = Passed | Lost(message: string) | Won(partitions: nat)

  // What a table's list holds

  ghost predicate FromWin(wins: set<Win>, table: string, f: ManifestFile) {
    exists w | w in wins :: w.table == table && f in w.files
  }

  ghost predicate Replaced(wins: set<Win>, table: string, mapping: string) {
    exists w | w in wins :: w.table == table && w.mapping == mapping
  }

  /** Exactly the wins' files and those of mappings that did not win, in order. */
  ghost predicate Content(start: seq<ManifestFile>, wins: set<Win>, table: string, files: seq<ManifestFile>) {
    && StrictlySorted(files)
    && forall f :: f in files <==> FromWin(wins, table, f) || (f in start && !Replaced(wins, table, f.mapping))
  }

  ghost predicate RecordedBy(key: string, version: nat, columns: seq<string>, table: string, mapping: string) {
    exists cells :: Renderable(columns, cells) && key == RecordedKey(table, version, columns, cells, mapping)
  }

  /** The entries of a win are its mapping's own, under the run's version. */
  ghost predicate OwnFiles(version: nat, columns: seq<string>, w: Win) {
    && DistinctKeys(w.files)
    && forall f | f in w.files :: f.mapping == w.mapping && RecordedBy(f.key, version, columns, w.table, w.mapping)
  }

  /** What a run starts from: files of earlier versions only. */
  ghost predicate OldFiles(version: nat, files: seq<ManifestFile>) {
    StrictlySorted(files) && forall f | f in files :: KeyVersion(f.key).Some? && KeyVersion(f.key).value < version
  }

  lemma FreshKeys(version: nat, columns: seq<string>, start: seq<ManifestFile>, wins: set<Win>, table: string,
                  files: seq<ManifestFile>, w: Win, f: ManifestFile, g: ManifestFile)
    requires OldFiles(version, start) && Content(start, wins, table, files)
    requires forall x | x in wins && x.table == table :: OwnFiles(version, columns, x)
    requires OwnFiles(version, columns, w) && w.table == table && f in files && f.mapping != w.mapping && g in w.files
    ensures f.key != g.key
  {
    var b :| Renderable(columns, b) && g.key == RecordedKey(table, version, columns, b, w.mapping);
    KeyVersionOf(version, Tail(table) + (HivePath(columns, b) + (w.mapping + ".parquet")));
    if FromWin(wins, table, f) {
      var x :| x in wins && x.table == table && f in x.files;
      var a :| Renderable(columns, a) && f.key == RecordedKey(table, version, columns, a, x.mapping);
      if f.key == g.key {
        SameRecorded(table, version, columns, a, b, x.mapping, w.mapping);
        FileKeyTellsMapping(version, columns, a, b, x.mapping, w.mapping);
      }
    }
  }

  /** Folding one more win in keeps the description exact. */
  lemma WinFolds(version: nat, columns: seq<string>, start: seq<ManifestFile>, wins: set<Win>,
                 files: seq<ManifestFile>, w: Win)
    requires OldFiles(version, start) && Content(start, wins, w.table, files)
    requires forall x | x in wins && x.table == w.table :: OwnFiles(version, columns, x) && x.mapping != w.mapping
    requires OwnFiles(version, columns, w)
    ensures Content(start, wins + {w}, w.table, ApplyMappingWrites(files, w.mapping, w.files))
  {
    var folded := ApplyMappingWrites(files, w.mapping, w.files);
    forall f, g | f in files && f.mapping != w.mapping && g in w.files ensures f.key != g.key {
      FreshKeys(version, columns, start, wins, w.table, files, w, f, g);
    }
    ApplyMappingWritesContent(files, w.mapping, w.files);
    forall f ensures f in folded <==> FromWin(wins + {w}, w.table, f)
                                      || (f in start && !Replaced(wins + {w}, w.table, f.mapping))
    {
      WinAdds(wins, w, f);
    }
  }

  lemma WinAdds(wins: set<Win>, w: Win, f: ManifestFile)
    ensures FromWin(wins + {w}, w.table, f) <==> FromWin(wins, w.table, f) || f in w.files
    ensures Replaced(wins + {w}, w.table, f.mapping) <==> Replaced(wins, w.table, f.mapping) || f.mapping == w.mapping
  {
    assert w in wins + {w};
  }

  /** The list is determined by what the run started from and by which mappings
      won: the order they ran in does not matter. */
  lemma OrderIrrelevant(start: seq<ManifestFile>, wins: set<Win>, table: string, a: seq<ManifestFile>,
                        b: seq<ManifestFile>)
    requires Content(start, wins, table, a) && Content(start, wins, table, b)
    ensures a == b
  {
    SortedUnique(a, b);
  }

  /** A table none of whose mappings won keeps its list. */
  lemma NoWinNoChange(start: seq<ManifestFile>, wins: set<Win>, table: string, files: seq<ManifestFile>)
    requires StrictlySorted(start) && Content(start, wins, table, files) && forall w | w in wins :: w.table != table
    ensures files == start
  {
    SortedUnique(files, start);
  }

  // Starting

  /** Every table's version and list to start from; an unreadable manifest stops
      the job before it has written anything. */
  method BeginPublishes(tables: seq<AnalyticTable>, read: string -> Result<TableManifest, string>, clean: bool)
    returns (r: Result<map<string, TablePublish>, JobError>)
    ensures r.Ok? <==> forall t | t in tables :: read(t.id).Ok?
    ensures r.Ok? ==> r.value.Keys == Declared(tables)
    ensures r.Ok? ==> forall id | id in r.value ::
              && read(id).Ok? && r.value[id].version == read(id).value.version + 1 && !r.value[id].touched
              && (clean ==> r.value[id].files == []) && (!clean ==> r.value[id].files == read(id).value.files)
    ensures r.Err? ==> exists t | t in tables :: read(t.id).Err? && r.error == ConfigRead(read(t.id).error)
  {
    var publishes: map<string, TablePublish> := map[];
    for i := 0 to |tables|
      invariant forall t | t in tables[..i] :: read(t.id).Ok?
      invariant publishes.Keys == Declared(tables[..i])
      invariant forall id | id in publishes ::
                  && read(id).Ok? && publishes[id].version == read(id).value.version + 1 && !publishes[id].touched
                  && (clean ==> publishes[id].files == []) && (!clean ==> publishes[id].files == read(id).value.files)
    {
      var id := tables[i].id;
      assert tables[..i + 1] == tables[..i] + [tables[i]];
      var current := read(id);
      if current.Err? {
        assert tables[i] in tables;
        return Err(ConfigRead(current.error));
      }
      publishes := publishes[id := TablePublish(current.value.version + 1, if clean then [] else current.value.files, false)];
    }
    assert tables[..|tables|] == tables;
    return Ok(publishes);
  }

  function Declared(tables: seq<AnalyticTable>): (ids: set<string>)
    ensures forall id :: id in ids <==> exists t | t in tables :: t.id == id
  {
    set t | t in tables :: t.id
  }

  // The mapping loop

  predicate Splittable(outputs: seq<PartitionOutput>) {
    forall i | 0 <= i < |outputs| :: UploadTarget(outputs[i].key, 0).Some?
  }

  /** The entries `upload_partitions_async` returns when every PUT succeeds. */
  function WrittenFiles(version: nat, mapping: string, outputs: seq<PartitionOutput>): (w: seq<ManifestFile>)
    requires Splittable(outputs)
    ensures |w| == |outputs|
  {
    seq(|outputs|, i requires 0 <= i < |outputs| =>
      assert UploadTarget(outputs[i].key, 0).Some?;
      ManifestFile(UploadTarget(outputs[i].key, version).value.1, mapping, |outputs[i].data|))
  }

  /** What `produce_partitions` gives: one output per partition tuple. */
  ghost predicate Partitioned(table: string, columns: seq<string>, mapping: string, outputs: seq<PartitionOutput>,
                              tuples: seq<seq<Cell>>)
  {
    && |tuples| == |outputs|
    && (forall i | 0 <= i < |outputs| ::
          Renderable(columns, tuples[i]) && outputs[i].key == PartitionKey(table, columns, tuples[i], mapping))
    && forall i, j | 0 <= i < j < |tuples| :: tuples[i] != tuples[j] && TypesOf(tuples[i]) == TypesOf(tuples[j])
  }

  lemma PartitionedWins(table: string, columns: seq<string>, mapping: string, outputs: seq<PartitionOutput>,
                        tuples: seq<seq<Cell>>, version: nat)
    requires Partitioned(table, columns, mapping, outputs, tuples)
    ensures Splittable(outputs)
    ensures OwnFiles(version, columns, Win(mapping, table, WrittenFiles(version, mapping, outputs)))
  {
    forall i | 0 <= i < |outputs|
      ensures UploadTarget(outputs[i].key, 0).Some?
      ensures UploadTarget(outputs[i].key, version).value.1 == RecordedKey(table, version, columns, tuples[i], mapping)
    {
      RecordedIs(table, 0, columns, tuples[i], mapping);
      RecordedIs(table, version, columns, tuples[i], mapping);
    }
    var w := WrittenFiles(version, mapping, outputs);
    forall i | 0 <= i < |w| ensures RecordedBy(w[i].key, version, columns, table, mapping) {
      assert w[i].key == RecordedKey(table, version, columns, tuples[i], mapping);
    }
    forall i, j | 0 <= i < j < |w| ensures w[i].key != w[j].key {
      if w[i].key == w[j].key {
        SameRecorded(table, version, columns, tuples[i], tuples[j], mapping, mapping);
        FileKeysDistinct(version, version, columns, tuples[i], tuples[j], mapping, mapping);
      }
    }
  }

  /** Everything the loop needs to know about one mapping's output. */
  ghost predicate StageOk(m: Mapping, stage: Stage, declared: set<string>, columns: map<string, seq<string>>) {
    stage.Produced? && m.tableId in declared ==>
      && m.tableId in columns
      && exists tuples :: Partitioned(m.tableId, columns[m.tableId], m.id, stage.outputs, tuples)
  }

  ghost predicate StagesOk(mappings: seq<Mapping>, stages: seq<Stage>, declared: set<string>,
                           columns: map<string, seq<string>>)
    requires |stages| == |mappings|
  {
    forall i | 0 <= i < |mappings| :: StageOk(mappings[i], stages[i], declared, columns)
  }

  function WinOf(m: Mapping, stage: Stage, start: map<string, TablePublish>): Win
    requires stage.Produced? && Splittable(stage.outputs) && m.tableId in start
  {
    Win(m.id, m.tableId, WrittenFiles(start[m.tableId].version, m.id, stage.outputs))
  }

  /** How far the loop has come: `won[i]` says whether mapping `i` won. */
  ghost predicate Progress(mappings: seq<Mapping>, stages: seq<Stage>, start: map<string, TablePublish>,
                           won: seq<bool>, wins: set<Win>)
    requires |won| <= |mappings| == |stages|
  {
    && (forall i | 0 <= i < |won| && won[i] ::
          stages[i].Produced? && mappings[i].tableId in start && Splittable(stages[i].outputs)
          && WinOf(mappings[i], stages[i], start) in wins)
    && forall w | w in wins :: exists i | 0 <= i < |won| && won[i] ::
         stages[i].Produced? && mappings[i].tableId in start && Splittable(stages[i].outputs)
         && w == WinOf(mappings[i], stages[i], start)
  }

  function Wins(won: seq<bool>): nat {
    if won == [] then 0 else Wins(won[..|won| - 1]) + if won[|won| - 1] then 1 else 0
  }

  function SkippedIn(stages: seq<Stage>): nat {
    if stages == [] then 0 else SkippedIn(stages[..|stages| - 1]) + if stages[|stages| - 1].Skipped? then 1 else 0
  }

  function Partitions(stages: seq<Stage>, won: seq<bool>): nat
    requires |won| <= |stages|
  {
    if won == [] then 0
    else
      var i := |won| - 1;
      Partitions(stages, won[..i]) + if won[i] && stages[i].Produced? then |stages[i].outputs| else 0
  }

  /** Every table's list is exact, and marked iff a mapping won it something. */
  ghost predicate TablesExact(start: map<string, TablePublish>, wins: set<Win>, publishes: map<string, TablePublish>) {
    && publishes.Keys == start.Keys
    && forall t | t in start :: TableExact(start[t], wins, t, publishes[t])
  }

  ghost predicate TableExact(start: TablePublish, wins: set<Win>, table: string, publish: TablePublish) {
    && publish.version == start.version
    && Content(start.files, wins, table, publish.files)
    && (publish.touched <==> exists w | w in wins :: w.table == table)
  }

  ghost predicate WinsOwn(start: map<string, TablePublish>, columns: map<string, seq<string>>, wins: set<Win>) {
    forall w | w in wins ::
      w.table in start && w.table in columns && OwnFiles(start[w.table].version, columns[w.table], w)
  }

  ghost predicate StartOk(start: map<string, TablePublish>) {
    forall t | t in start :: OldFiles(start[t].version, start[t].files) && !start[t].touched
  }

  lemma StartExact(start: map<string, TablePublish>)
    requires StartOk(start)
    ensures TablesExact(start, {}, start)
  {
  }

  lemma TablesFold(start: map<string, TablePublish>, columns: map<string, seq<string>>, wins: set<Win>,
                   publishes: map<string, TablePublish>, w: Win)
    requires StartOk(start) && TablesExact(start, wins, publishes) && WinsOwn(start, columns, wins + {w})
    requires forall x | x in wins :: x.mapping != w.mapping
    ensures w.table in publishes
    ensures var publish := publishes[w.table];
            TablesExact(start, wins + {w},
                        publishes[w.table := TablePublish(publish.version,
                                                          ApplyMappingWrites(publish.files, w.mapping, w.files), true)])
  {
    assert w in wins + {w};
    var t := w.table;
    assert TableExact(start[t], wins, t, publishes[t]);
    assert OldFiles(start[t].version, start[t].files);
    WinFolds(start[t].version, columns[t], start[t].files, wins, publishes[t].files, w);
    forall u | u in start && u != t ensures TableExact(start[u], wins + {w}, u, publishes[u]) {
      OtherTable(start[u], wins, u, publishes[u], w);
    }
  }

  lemma OtherTable(start: TablePublish, wins: set<Win>, table: string, publish: TablePublish, w: Win)
    requires TableExact(start, wins, table, publish) && w.table != table
    ensures TableExact(start, wins + {w}, table, publish)
  {
    forall f ensures FromWin(wins + {w}, table, f) <==> FromWin(wins, table, f) {}
    forall m ensures Replaced(wins + {w}, table, m) <==> Replaced(wins, table, m) {}
  }

  ghost predicate DistinctMappings(mappings: seq<Mapping>) {
    forall i, j | 0 <= i < j < |mappings| :: mappings[i].id != mappings[j].id
  }

  lemma ProgressMore(mappings: seq<Mapping>, stages: seq<Stage>, start: map<string, TablePublish>, won: seq<bool>,
                     wins: set<Win>, wins': set<Win>, wonToo: bool)
    requires |won| < |mappings| == |stages| && Progress(mappings, stages, start, won, wins)
    requires var m, stage := mappings[|won|], stages[|won|];
             if wonToo then stage.Produced? && m.tableId in start && Splittable(stage.outputs)
                            && wins' == wins + {WinOf(m, stage, start)}
             else wins' == wins
    ensures Progress(mappings, stages, start, won + [wonToo], wins')
  {
    var more := won + [wonToo];
    forall w | w in wins' ensures exists i | 0 <= i < |more| && more[i] ::
        stages[i].Produced? && mappings[i].tableId in start && Splittable(stages[i].outputs)
        && w == WinOf(mappings[i], stages[i], start)
    {
      if w in wins {
        var i :| 0 <= i < |won| && won[i] && stages[i].Produced? && mappings[i].tableId in start
                 && Splittable(stages[i].outputs) && w == WinOf(mappings[i], stages[i], start);
        assert more[i];
      } else {
        assert more[|won|];
      }
    }
  }

  lemma NewMapping(mappings: seq<Mapping>, stages: seq<Stage>, start: map<string, TablePublish>, won: seq<bool>,
                   wins: set<Win>)
    requires |won| < |mappings| == |stages| && Progress(mappings, stages, start, won, wins) && DistinctMappings(mappings)
    ensures forall w | w in wins :: w.mapping != mappings[|won|].id
  {
  }

  /** The job's counters: partitions of the winners, and an error for every
      mapping that neither won nor was skipped. */
  ghost predicate Tallied(stages: seq<Stage>, won: seq<bool>, partitions: nat, errors: nat)
    requires |won| <= |stages|
  {
    && partitions == Partitions(stages, won)
    && errors + Wins(won) + SkippedIn(stages[..|won|]) == |won|
  }

  lemma TallyMore(stages: seq<Stage>, won: seq<bool>, partitions: nat, errors: nat, turn: Turn)
    requires |won| < |stages| && Tallied(stages, won, partitions, errors)
    requires turn.Passed? <==> stages[|won|].Skipped?
    requires turn.Won? ==> stages[|won|].Produced? && turn.partitions == |stages[|won|].outputs|
    ensures Tallied(stages, won + [turn.Won?], if turn.Won? then partitions + turn.partitions else partitions,
                    if turn.Lost? then errors + 1 else errors)
  {
    assert (won + [turn.Won?])[..|won|] == won;
    assert stages[..|won| + 1][..|won|] == stages[..|won|];
  }

  /** What the loop keeps. */
  ghost predicate LoopOk(mappings: seq<Mapping>, stages: seq<Stage>, start: map<string, TablePublish>,
                         columns: map<string, seq<string>>, won: seq<bool>, wins: set<Win>,
                         publishes: map<string, TablePublish>)
    requires |won| <= |mappings| == |stages|
  {
    Progress(mappings, stages, start, won, wins) && TablesExact(start, wins, publishes) && WinsOwn(start, columns, wins)
  }

  lemma StageSplits(m: Mapping, stage: Stage, start: map<string, TablePublish>, columns: map<string, seq<string>>)
    requires StageOk(m, stage, start.Keys, columns) && stage.Produced? && m.tableId in start
    ensures Splittable(stage.outputs)
    ensures m.tableId in columns
    ensures OwnFiles(start[m.tableId].version, columns[m.tableId], WinOf(m, stage, start))
  {
    var tuples :| Partitioned(m.tableId, columns[m.tableId], m.id, stage.outputs, tuples);
    PartitionedWins(m.tableId, columns[m.tableId], m.id, stage.outputs, tuples, start[m.tableId].version);
  }

  /** The state after mapping `|won|` won. */
  function Folded(publishes: map<string, TablePublish>, w: Win): map<string, TablePublish>
    requires w.table in publishes
  {
    var publish := publishes[w.table];
    publishes[w.table := TablePublish(publish.version, ApplyMappingWrites(publish.files, w.mapping, w.files), true)]
  }

  lemma LoopWins(mappings: seq<Mapping>, stages: seq<Stage>, start: map<string, TablePublish>,
                 columns: map<string, seq<string>>, won: seq<bool>, wins: set<Win>,
                 publishes: map<string, TablePublish>, w: Win)
    requires |won| < |mappings| == |stages| && DistinctMappings(mappings) && StartOk(start)
    requires LoopOk(mappings, stages, start, columns, won, wins, publishes)
    requires var m, stage := mappings[|won|], stages[|won|];
             StageOk(m, stage, start.Keys, columns) && stage.Produced? && m.tableId in start && Splittable(stage.outputs)
             && w == WinOf(m, stage, start)
    ensures w.table in publishes
    ensures LoopOk(mappings, stages, start, columns, won + [true], wins + {w}, Folded(publishes, w))
  {
    StageSplits(mappings[|won|], stages[|won|], start, columns);
    NewMapping(mappings, stages, start, won, wins);
    TablesFold(start, columns, wins, publishes, w);
    ProgressMore(mappings, stages, start, won, wins, wins + {w}, true);
  }

  lemma LoopLoses(mappings: seq<Mapping>, stages: seq<Stage>, start: map<string, TablePublish>,
                  columns: map<string, seq<string>>, won: seq<bool>, wins: set<Win>,
                  publishes: map<string, TablePublish>)
    requires |won| < |mappings| == |stages|
    requires LoopOk(mappings, stages, start, columns, won, wins, publishes)
    ensures LoopOk(mappings, stages, start, columns, won + [false], wins, publishes)
  {
    ProgressMore(mappings, stages, start, won, wins, wins, false);
  }

  /** How many of `n` mappings are taken when the cancel flag is set before
      mapping `cancelAt`; once set, it stays set. */
  function Taken(n: nat, cancelAt: Option<nat>): (k: nat)
    ensures k <= n
  {
    if cancelAt.Some? && cancelAt.value < n then cancelAt.value else n
  }

  /** The PUTs each mapping makes when all of them are confirmed. */
  function PutsOf(mappings: seq<Mapping>, stages: seq<Stage>, declared: set<string>): (puts: seq<nat>)
    requires |mappings| == |stages|
    ensures |puts| == |mappings|
  {
    seq(|mappings|, i requires 0 <= i < |mappings| =>
      if Sends(mappings[i], stages[i], declared) then |stages[i].outputs| else 0)
  }

  predicate Sends(m: Mapping, stage: Stage, declared: set<string>) {
    stage.Produced? && m.tableId in declared
  }

  /** Which of the first `n` mappings have all their PUTs confirmed. */
  ghost function Confirmations(answers: Answers, from: nat, mappings: seq<Mapping>, stages: seq<Stage>,
                               declared: set<string>, n: nat): (through: seq<bool>)
    requires n <= |mappings| == |stages|
    ensures |through| == n
  {
    Through(answers, from, PutsOf(mappings, stages, declared)[..n])
  }

  lemma ConfirmedNext(answers: Answers, from: nat, mappings: seq<Mapping>, stages: seq<Stage>, declared: set<string>,
                      i: nat, at: nat) returns (done: bool)
    requires i < |mappings| == |stages| && at == After(answers, from, PutsOf(mappings, stages, declared)[..i])
    ensures var n := PutsOf(mappings, stages, declared)[i];
            && (done <==> AllDone(answers, at, at + n))
            && After(answers, from, PutsOf(mappings, stages, declared)[..i + 1]) == at + Sent(answers, at, n)
    ensures Confirmations(answers, from, mappings, stages, declared, i + 1)
         == Confirmations(answers, from, mappings, stages, declared, i) + [done]
  {
    var puts := PutsOf(mappings, stages, declared);
    OneMore(answers, from, puts, i);
    done := AllDone(answers, at, at + puts[i]);
  }

  /** The mappings that win are those with output for a declared table whose
      PUTs are all confirmed. */
  ghost predicate WonBy(through: seq<bool>, mappings: seq<Mapping>, stages: seq<Stage>, declared: set<string>,
                        won: seq<bool>)
  {
    && |won| == |through| <= |mappings| == |stages|
    && forall i | 0 <= i < |won| :: won[i] <==> Sends(mappings[i], stages[i], declared) && through[i]
  }

  lemma WonMore(through: seq<bool>, mappings: seq<Mapping>, stages: seq<Stage>, declared: set<string>, won: seq<bool>,
                done: bool, more: bool)
    requires |won| < |mappings| && WonBy(through, mappings, stages, declared, won)
    requires more <==> Sends(mappings[|won|], stages[|won|], declared) && done
    ensures WonBy(through + [done], mappings, stages, declared, won + [more])
  {
  }

  /** `upload_partitions_async`: one PUT after another, up to the first that fails. */
  method UploadOutputs(version: nat, mapping: string, outputs: seq<PartitionOutput>, answers: Answers, asked: nat)
    returns (r: Result<seq<ManifestFile>, string>, next: nat)
    requires Splittable(outputs)
    ensures next == asked + Sent(answers, asked, |outputs|)
    ensures r.Ok? <==> AllDone(answers, asked, asked + |outputs|)
    ensures r.Ok? ==> r.value == WrittenFiles(version, mapping, outputs)
  {
    var written: seq<ManifestFile> := [];
    for n := 0 to |outputs|
      invariant AllDone(answers, asked, asked + n) && written == WrittenFiles(version, mapping, outputs)[..n]
    {
      if !Answer(answers, asked + n).Done? {
        SentStops(answers, asked, |outputs|, n);
        return Err("S3 PutObject failed"), asked + n + 1;
      }
      assert UploadTarget(outputs[n].key, 0).Some?;
      var relative := UploadTarget(outputs[n].key, version).value.1;
      written := written + [ManifestFile(relative, mapping, |outputs[n].data|)];
    }
    SentAll(answers, asked, |outputs|);
    return Ok(written), asked + |outputs|;
  }

  /** One mapping whose output is ready: upload it, and fold it in if all of it
      went through. */
  method UploadStage(m: Mapping, outputs: seq<PartitionOutput>, publishes: map<string, TablePublish>, answers: Answers,
                     asked: nat)
    returns (r: Result<(nat, map<string, TablePublish>), string>, next: nat)
    requires m.tableId in publishes ==> Splittable(outputs)
    ensures next == asked + if m.tableId in publishes then Sent(answers, asked, |outputs|) else 0
    ensures r.Ok? <==> m.tableId in publishes && AllDone(answers, asked, asked + |outputs|)
    ensures r.Ok? ==> r.value.0 == |outputs|
                      && r.value.1 == Folded(publishes, Win(m.id, m.tableId,
                                                            WrittenFiles(publishes[m.tableId].version, m.id, outputs)))
  {
    if m.tableId !in publishes {
      return Err("table not declared"), asked;
    }
    var publish := publishes[m.tableId];
    var uploaded;
    uploaded, next := UploadOutputs(publish.version, m.id, outputs, answers, asked);
    if uploaded.Err? {
      return Err(uploaded.error), next;
    }
    var written := uploaded.value;
    return Ok((|written|, publishes[m.tableId := TablePublish(publish.version,
                                                              ApplyMappingWrites(publish.files, m.id, written), true)])), next;
  }

  /** One turn of the loop. */
  method RunMapping(mappings: seq<Mapping>, stages: seq<Stage>, start: map<string, TablePublish>,
                    ghost columns: map<string, seq<string>>, i: nat, publishes: map<string, TablePublish>,
                    ghost won: seq<bool>, ghost wins: set<Win>, answers: Answers, asked: nat)
    returns (turn: Turn, folded: map<string, TablePublish>, ghost wins': set<Win>, next: nat)
    requires |won| == i < |mappings| == |stages| && DistinctMappings(mappings) && StartOk(start)
    requires StageOk(mappings[i], stages[i], start.Keys, columns)
    requires LoopOk(mappings, stages, start, columns, won, wins, publishes)
    ensures LoopOk(mappings, stages, start, columns, won + [turn.Won?], wins', folded)
    ensures turn.Passed? <==> stages[i].Skipped?
    ensures stages[i].Rejected? ==> turn == Lost(stages[i].message)
    ensures turn.Won? <==> Sends(mappings[i], stages[i], start.Keys)
                           && AllDone(answers, asked, asked + PutsOf(mappings, stages, start.Keys)[i])
    ensures turn.Won? ==> stages[i].Produced? && turn.partitions == |stages[i].outputs|
    ensures next == asked + Sent(answers, asked, PutsOf(mappings, stages, start.Keys)[i])
  {
    var m, stage := mappings[i], stages[i];
    LoopLoses(mappings, stages, start, columns, won, wins, publishes);
    match stage
    case Skipped => return Passed, publishes, wins, asked;
    case Rejected(message) => return Lost(message), publishes, wins, asked;
    case Produced(outputs) =>
      if m.tableId in start { StageSplits(m, stage, start, columns); }
      var uploaded;
      uploaded, next := UploadStage(m, outputs, publishes, answers, asked);
      if uploaded.Err? {
        return Lost(uploaded.error), publishes, wins, next;
      }
      ghost var w := WinOf(m, stage, start);
      assert TableExact(start[m.tableId], wins, m.tableId, publishes[m.tableId]);
      LoopWins(mappings, stages, start, columns, won, wins, publishes, w);
      return Won(uploaded.value.0), uploaded.value.1, wins + {w}, next;
  }

  /** The loop over mappings; a lost lock may cancel the run before any of them. */
  method RunMappings(mappings: seq<Mapping>, stages: seq<Stage>, start: map<string, TablePublish>,
                     ghost columns: map<string, seq<string>>, answers: Answers, asked: nat, cancelAt: Option<nat>)
    returns (r: Result<JobOutcome, JobError>, ghost won: seq<bool>, ghost wins: set<Win>)
    requires |stages| == |mappings| && DistinctMappings(mappings) && StartOk(start)
    requires StagesOk(mappings, stages, start.Keys, columns)
    ensures WonBy(Confirmations(answers, asked, mappings, stages, start.Keys, Taken(|mappings|, cancelAt)),
                  mappings, stages, start.Keys, won)
    ensures if |won| < |mappings| then r == Err(Cancelled) else r.Ok?
    ensures r.Ok? ==> LoopOk(mappings, stages, start, columns, won, wins, r.value.publishes)
    ensures r.Ok? ==> Tallied(stages, won, r.value.partitions, |r.value.errors|)
    ensures r.Ok? ==> Reported(stages, |stages|, r.value.errors)
  {
    var publishes := start;
    var errors: seq<string> := [];
    var partitions: nat := 0;
    var at := asked;
    won, wins := [], {};
    StartExact(start);
    for i := 0 to |mappings|
      invariant |won| == i <= Taken(|mappings|, cancelAt)
      invariant LoopAt(mappings, stages, start, columns, answers, asked, won, wins, publishes, at, partitions, errors)
    {
      if cancelAt.Some? && cancelAt.value <= i { return Err(Cancelled), won, wins; }
      publishes, wins, won, at, partitions, errors :=
        NextMapping(mappings, stages, start, columns, i, publishes, won, wins, answers, asked, at, partitions, errors);
    }
    return Ok(JobOutcome(publishes, partitions, errors)), won, wins;
  }

  /** Every rejected stage among the first `n` has its message in the report. */
  predicate Reported(stages: seq<Stage>, n: nat, errors: seq<string>)
    requires n <= |stages|
  {
    forall i | 0 <= i < n && stages[i].Rejected? :: stages[i].message in errors
  }

  function ErrorsAfter(errors: seq<string>, turn: Turn): (r: seq<string>)
    ensures |r| == if turn.Lost? then |errors| + 1 else |errors|
  {
    if turn.Lost? then errors + [turn.message] else errors
  }

  lemma ReportMore(stages: seq<Stage>, n: nat, errors: seq<string>, turn: Turn)
    requires n < |stages| && Reported(stages, n, errors)
    requires stages[n].Rejected? ==> turn == Lost(stages[n].message)
    ensures Reported(stages, n + 1, ErrorsAfter(errors, turn))
  {
    forall i | 0 <= i < n + 1 && stages[i].Rejected? ensures stages[i].message in ErrorsAfter(errors, turn) {
      if i < n { assert stages[i].message in errors; }
    }
  }

  /** Where the loop is after the turns `won` tells of. */
  ghost predicate LoopAt(mappings: seq<Mapping>, stages: seq<Stage>, start: map<string, TablePublish>,
                         columns: map<string, seq<string>>, answers: Answers, from: nat, won: seq<bool>, wins: set<Win>,
                         publishes: map<string, TablePublish>, at: nat, partitions: nat, errors: seq<string>)
    requires |won| <= |mappings| == |stages|
  {
    && LoopOk(mappings, stages, start, columns, won, wins, publishes)
    && WonBy(Confirmations(answers, from, mappings, stages, start.Keys, |won|), mappings, stages, start.Keys, won)
    && at == After(answers, from, PutsOf(mappings, stages, start.Keys)[..|won|])
    && Tallied(stages, won, partitions, |errors|) && Reported(stages, |won|, errors)
  }

  /** One turn, and what is known after it. */
  method NextMapping(mappings: seq<Mapping>, stages: seq<Stage>, start: map<string, TablePublish>,
                     ghost columns: map<string, seq<string>>, i: nat, publishes: map<string, TablePublish>,
                     ghost won: seq<bool>, ghost wins: set<Win>, answers: Answers, ghost from: nat, at: nat,
                     partitions: nat, errors: seq<string>)
    returns (folded: map<string, TablePublish>, ghost wins': set<Win>, ghost won': seq<bool>, next: nat, partitions': nat,
             errors': seq<string>)
    requires |won| == i < |mappings| == |stages| && DistinctMappings(mappings) && StartOk(start)
    requires StageOk(mappings[i], stages[i], start.Keys, columns)
    requires LoopAt(mappings, stages, start, columns, answers, from, won, wins, publishes, at, partitions, errors)
    ensures |won'| == i + 1
    ensures LoopAt(mappings, stages, start, columns, answers, from, won', wins', folded, next, partitions', errors')
  {
    ghost var done := ConfirmedNext(answers, from, mappings, stages, start.Keys, i, at);
    var turn;
    turn, folded, wins', next := RunMapping(mappings, stages, start, columns, i, publishes, won, wins, answers, at);
    TallyMore(stages, won, partitions, |errors|, turn);
    WonMore(Confirmations(answers, from, mappings, stages, start.Keys, i), mappings, stages, start.Keys, won, done, turn.Won?);
    won' := won + [turn.Won?];
    partitions' := if turn.Won? then partitions + turn.partitions else partitions;
    errors' := ErrorsAfter(errors, turn);
    ReportMore(stages, i, errors, turn);
  }

  // From the manifests read to the lists published

  /** A mapping of this id won something for the table. */
  ghost predicate WonFor(mappings: seq<Mapping>, won: seq<bool>, table: string, mapping: string)
    requires |won| <= |mappings|
  {
    exists i | 0 <= i < |won| && won[i] :: mappings[i].tableId == table && mappings[i].id == mapping
  }

  /** An entry of the output of a mapping that won, under the version being written. */
  ghost predicate NewFile(mappings: seq<Mapping>, stages: seq<Stage>, won: seq<bool>, table: string, version: nat,
                          f: ManifestFile)
    requires |won| <= |mappings| == |stages|
  {
    exists i | 0 <= i < |won| && won[i] ::
      mappings[i].tableId == table && stages[i].Produced? && Splittable(stages[i].outputs)
      && f in WrittenFiles(version, mappings[i].id, stages[i].outputs)
  }

  /** What a table's next version is made of: the winners' new files, and,
      unless the run is a clean one, the last version's files of all others. */
  ghost predicate MadeFrom(previous: TableManifest, clean: bool, mappings: seq<Mapping>, stages: seq<Stage>, won: seq<bool>,
                           table: string, publish: TablePublish)
    requires |won| <= |mappings| == |stages|
  {
    && publish.version == previous.version + 1 && StrictlySorted(publish.files)
    && (forall f :: f in publish.files
                    <==> NewFile(mappings, stages, won, table, previous.version + 1, f)
                         || (!clean && f in previous.files && !WonFor(mappings, won, table, f.mapping)))
    && (publish.touched <==> exists i | 0 <= i < |won| && won[i] :: mappings[i].tableId == table)
    && (!publish.touched && !clean ==> publish.files == previous.files)
  }

  lemma TableMadeFrom(previous: TableManifest, clean: bool, mappings: seq<Mapping>, stages: seq<Stage>, won: seq<bool>,
                      start: map<string, TablePublish>, wins: set<Win>, table: string, publish: TablePublish)
    requires |won| == |mappings| == |stages| && Progress(mappings, stages, start, won, wins)
    requires table in start && TableExact(start[table], wins, table, publish)
    requires StrictlySorted(previous.files) && start[table].version == previous.version + 1
    requires start[table].files == if clean then [] else previous.files
    ensures MadeFrom(previous, clean, mappings, stages, won, table, publish)
  {
    forall f ensures FromWin(wins, table, f) <==> NewFile(mappings, stages, won, table, previous.version + 1, f) {
      WinFiles(mappings, stages, start, won, wins, table, f);
    }
    forall m ensures Replaced(wins, table, m) <==> WonFor(mappings, won, table, m) {
      WinMappings(mappings, stages, start, won, wins, table, m);
    }
    SomeoneWon(mappings, stages, start, won, wins, table);
    if !publish.touched && !clean { NoWinNoChange(start[table].files, wins, table, publish.files); }
  }

  lemma WinFiles(mappings: seq<Mapping>, stages: seq<Stage>, start: map<string, TablePublish>, won: seq<bool>,
                 wins: set<Win>, table: string, f: ManifestFile)
    requires |won| == |mappings| == |stages| && Progress(mappings, stages, start, won, wins) && table in start
    ensures FromWin(wins, table, f) <==> NewFile(mappings, stages, won, table, start[table].version, f)
  {
    if w :| w in wins && w.table == table && f in w.files {
      var i :| 0 <= i < |won| && won[i] && stages[i].Produced? && mappings[i].tableId in start
               && Splittable(stages[i].outputs) && w == WinOf(mappings[i], stages[i], start);
      assert mappings[i].tableId == table;
    }
    if i :| 0 <= i < |won| && won[i] && mappings[i].tableId == table && stages[i].Produced? && Splittable(stages[i].outputs)
            && f in WrittenFiles(start[table].version, mappings[i].id, stages[i].outputs)
    {
      assert WinOf(mappings[i], stages[i], start) in wins;
    }
  }

  lemma WinMappings(mappings: seq<Mapping>, stages: seq<Stage>, start: map<string, TablePublish>, won: seq<bool>,
                    wins: set<Win>, table: string, mapping: string)
    requires |won| == |mappings| == |stages| && Progress(mappings, stages, start, won, wins)
    ensures Replaced(wins, table, mapping) <==> WonFor(mappings, won, table, mapping)
  {
    if i :| 0 <= i < |won| && won[i] && mappings[i].tableId == table && mappings[i].id == mapping {
      assert WinOf(mappings[i], stages[i], start) in wins;
    }
    if w :| w in wins && w.table == table && w.mapping == mapping {
      var i :| 0 <= i < |won| && won[i] && stages[i].Produced? && mappings[i].tableId in start
               && Splittable(stages[i].outputs) && w == WinOf(mappings[i], stages[i], start);
      assert mappings[i].tableId == table && mappings[i].id == mapping;
    }
  }

  lemma SomeoneWon(mappings: seq<Mapping>, stages: seq<Stage>, start: map<string, TablePublish>, won: seq<bool>,
                   wins: set<Win>, table: string)
    requires |won| == |mappings| == |stages| && Progress(mappings, stages, start, won, wins)
    ensures (exists w | w in wins :: w.table == table)
       <==> exists i | 0 <= i < |won| && won[i] :: mappings[i].tableId == table
  {
    if i :| 0 <= i < |won| && won[i] && mappings[i].tableId == table {
      assert WinOf(mappings[i], stages[i], start) in wins;
    }
    if w :| w in wins && w.table == table {
      var i :| 0 <= i < |won| && won[i] && stages[i].Produced? && mappings[i].tableId in start
               && Splittable(stages[i].outputs) && w == WinOf(mappings[i], stages[i], start);
      assert mappings[i].tableId == table;
    }
  }

  /** The manifests a job reads: each lists files of its own and earlier versions, in order. */
  ghost predicate ReadsWell(tables: seq<AnalyticTable>, read: string -> Result<TableManifest, string>) {
    forall t | t in tables && read(t.id).Ok? :: OldFiles(read(t.id).value.version + 1, read(t.id).value.files)
  }

  /** A job from the manifests to its tables' next lists. */
  method RunJob(tables: seq<AnalyticTable>, read: string -> Result<TableManifest, string>, clean: bool,
                mappings: seq<Mapping>, stages: seq<Stage>, ghost columns: map<string, seq<string>>, answers: Answers,
                cancelAt: Option<nat>)
    returns (r: Result<JobOutcome, JobError>, ghost won: seq<bool>)
    requires |stages| == |mappings| && DistinctMappings(mappings) && ReadsWell(tables, read)
    requires StagesOk(mappings, stages, Declared(tables), columns)
    ensures |won| <= |mappings|
    ensures (exists t | t in tables :: read(t.id).Err?) ==>
              exists t | t in tables :: read(t.id).Err? && r == Err(ConfigRead(read(t.id).error))
    ensures (forall t | t in tables :: read(t.id).Ok?) ==>
              && WonBy(Confirmations(answers, 0, mappings, stages, Declared(tables), Taken(|mappings|, cancelAt)),
                       mappings, stages, Declared(tables), won)
              && if |won| < |mappings| then r == Err(Cancelled) else r.Ok?
    ensures r.Ok? ==> r.value.publishes.Keys == Declared(tables)
    ensures r.Ok? ==> forall id | id in r.value.publishes ::
              read(id).Ok? && MadeFrom(read(id).value, clean, mappings, stages, won, id, r.value.publishes[id])
  {
    won := [];
    var begun := BeginPublishes(tables, read, clean);
    if begun.Err? { return Err(begun.error), []; }
    var start := begun.value;
    StartsWell(tables, read, clean, start);
    ghost var wins;
    r, won, wins := RunMappings(mappings, stages, start, columns, answers, 0, cancelAt);
    if r.Ok? {
      forall id | id in r.value.publishes
        ensures MadeFrom(read(id).value, clean, mappings, stages, won, id, r.value.publishes[id])
      {
        assert TableExact(start[id], wins, id, r.value.publishes[id]);
        TableMadeFrom(read(id).value, clean, mappings, stages, won, start, wins, id, r.value.publishes[id]);
      }
    }
  }

  lemma StartsWell(tables: seq<AnalyticTable>, read: string -> Result<TableManifest, string>, clean: bool,
                   start: map<string, TablePublish>)
    requires ReadsWell(tables, read) && start.Keys == Declared(tables)
    requires forall id | id in start ::
               && read(id).Ok? && start[id].version == read(id).value.version + 1 && !start[id].touched
               && (clean ==> start[id].files == []) && (!clean ==> start[id].files == read(id).value.files)
    ensures StartOk(start)
    ensures forall id | id in start :: StrictlySorted(read(id).value.files)
  {
  }

  // The order of mappings

  /** `order` lists the positions of the first loop's mappings as the second takes them. */
  predicate Reorders(order: seq<nat>, n: nat) {
    |order| == n && (forall k | 0 <= k < n :: order[k] < n) && forall i | 0 <= i < n :: i in order
  }

  ghost predicate Reordered(order: seq<nat>, mappings: seq<Mapping>, stages: seq<Stage>, won: seq<bool>,
                            mappings': seq<Mapping>, stages': seq<Stage>, won': seq<bool>)
    requires |mappings| == |stages| == |won| && |mappings'| == |stages'| == |won'| == |mappings|
  {
    && Reorders(order, |mappings|)
    && forall k | 0 <= k < |mappings| ::
         mappings'[k] == mappings[order[k]] && stages'[k] == stages[order[k]] && won'[k] == won[order[k]]
  }

  lemma SameWins(order: seq<nat>, start: map<string, TablePublish>, mappings: seq<Mapping>, stages: seq<Stage>,
                 won: seq<bool>, wins: set<Win>, mappings': seq<Mapping>, stages': seq<Stage>, won': seq<bool>,
                 wins': set<Win>)
    requires |mappings| == |stages| == |won| && |mappings'| == |stages'| == |won'| == |mappings|
    requires Reordered(order, mappings, stages, won, mappings', stages', won')
    requires Progress(mappings, stages, start, won, wins) && Progress(mappings', stages', start, won', wins')
    ensures wins == wins'
  {
    forall w | w in wins ensures w in wins' {
      var i :| 0 <= i < |won| && won[i] && stages[i].Produced? && mappings[i].tableId in start
               && Splittable(stages[i].outputs) && w == WinOf(mappings[i], stages[i], start);
      assert i in order;
      var k :| 0 <= k < |order| && order[k] == i;
      assert won'[k] && w == WinOf(mappings'[k], stages'[k], start);
    }
    forall w | w in wins' ensures w in wins {
      var k :| 0 <= k < |won'| && won'[k] && stages'[k].Produced? && mappings'[k].tableId in start
               && Splittable(stages'[k].outputs) && w == WinOf(mappings'[k], stages'[k], start);
      assert won[order[k]] && w == WinOf(mappings[order[k]], stages[order[k]], start);
    }
  }

  /** Two loops over the same mappings in different orders, with the same ones
      winning, end with the same list and the same mark for every table. */
  lemma OrderOfMappings(order: seq<nat>, start: map<string, TablePublish>, mappings: seq<Mapping>, stages: seq<Stage>,
                        won: seq<bool>, wins: set<Win>, publishes: map<string, TablePublish>, mappings': seq<Mapping>,
                        stages': seq<Stage>, won': seq<bool>, wins': set<Win>, publishes': map<string, TablePublish>)
    requires |mappings| == |stages| == |won| && |mappings'| == |stages'| == |won'| == |mappings|
    requires Reordered(order, mappings, stages, won, mappings', stages', won')
    requires Progress(mappings, stages, start, won, wins) && TablesExact(start, wins, publishes)
    requires Progress(mappings', stages', start, won', wins') && TablesExact(start, wins', publishes')
    ensures publishes == publishes'
  {
    SameWins(order, start, mappings, stages, won, wins, mappings', stages', won', wins');
    forall t | t in start ensures publishes[t] == publishes'[t] {
      assert TableExact(start[t], wins, t, publishes[t]) && TableExact(start[t], wins, t, publishes'[t]);
      OrderIrrelevant(start[t].files, wins, t, publishes[t].files, publishes'[t].files);
    }
  }
}
