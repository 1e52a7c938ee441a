/**
 What validation says about table ids: that they are there and differ, and
 nothing more. A table of a valid config can take any unused id, one with a slash
 included, and what Warehouse asks of tables is left to whoever names them: ids
 without a slash, and job prefixes that do not begin one another.
 */
module TableIds {
  import opened Text
  import opened Config
  import opened Validation
  import opened Warehouse
  import opened Manifest
  import opened WarehouseLoss
  import Http

  function Rename(name: string, id: string, other: string): string {
    if name == id then other else name
  }

  function RenamedTables(tables: seq<AnalyticTable>, id: string, other: string): (r: seq<AnalyticTable>)
    ensures |r| == |tables| && forall i | 0 <= i < |r| :: r[i] == tables[i].(id := Rename(tables[i].id, id, other))
  {
    seq(|tables|, i requires 0 <= i < |tables| => tables[i].(id := Rename(tables[i].id, id, other)))
  }

  function RenamedMappings(mappings: seq<Mapping>, id: string, other: string): (r: seq<Mapping>)
    ensures |r| == |mappings|
    ensures forall i | 0 <= i < |r| :: r[i] == mappings[i].(tableId := Rename(mappings[i].tableId, id, other))
  {
    seq(|mappings|, i requires 0 <= i < |mappings| => mappings[i].(tableId := Rename(mappings[i].tableId, id, other)))
  }

  /** The config with table `id` called `other`, in the mappings that load it too. */
  function Renamed(cfg: PipelineConfig, id: string, other: string): PipelineConfig {
    cfg.(tables := RenamedTables(cfg.tables, id, other), mappings := RenamedMappings(cfg.mappings, id, other))
  }

  ghost predicate Unused(cfg: PipelineConfig, id: string) {
    id != "" && forall t | t in cfg.tables :: t.id != id
  }

  lemma {:induction false} FindRenamed(tables: seq<AnalyticTable>, id: string, other: string, name: string)
    requires name != other && forall t | t in tables :: t.id != other
    ensures FindTable(RenamedTables(tables, id, other), Rename(name, id, other))
         == match FindTable(tables, name)
            case None => None
            case Some(t) => Some(t.(id := Rename(t.id, id, other)))
  {
    if tables != [] {
      assert tables[0].id != other;
      assert RenamedTables(tables, id, other)[1..] == RenamedTables(tables[1..], id, other);
      FindRenamed(tables[1..], id, other, name);
    }
  }

  lemma RenamedItems(cfg: PipelineConfig, id: string, other: string, i: int, e: ConfigError)
    requires Valid(cfg) && Unused(cfg, other)
    ensures !IdProblem(TableItems(RenamedTables(cfg.tables, id, other)), "analytic_tables", "analytic_table", i, e)
  {
    var items := TableItems(cfg.tables);
    forall e, k ensures !IdProblem(items, "analytic_tables", "analytic_table", k, e) { assert !ConfigProblem(cfg, e); }
    if 0 <= i < |items| {
      var path := [Name("analytic_tables"), Index(i), Name("id")];
      assert !IdProblem(items, "analytic_tables", "analytic_table", i, MissingField(path, "id"));
      assert !IdProblem(items, "analytic_tables", "analytic_table", i, DuplicateId(path, "analytic_table", items[i].id));
      assert !IdProblem(items, "analytic_tables", "analytic_table", i, e);
      assert forall k | 0 <= k < |items| :: cfg.tables[k] in cfg.tables;
    }
  }

  /** No mapping of a valid config asks for a table that is not there. */
  lemma RenamedTarget(cfg: PipelineConfig, id: string, other: string, i: nat)
    requires Valid(cfg) && Unused(cfg, other) && i < |cfg.mappings|
    ensures cfg.mappings[i].tableId != other
  {
    var m := cfg.mappings[i];
    NoMappingProblem(cfg, i, DanglingReference(MappingAt(i, "analytic_table_id"), "analytic_table", m.tableId));
  }

  lemma RenamedReference(cfg: PipelineConfig, id: string, other: string, i: nat, e: ConfigError)
    requires Valid(cfg) && id != "" && Unused(cfg, other) && i < |cfg.mappings|
    ensures !ReferenceProblem(Renamed(cfg, id, other), i, e)
  {
    var m := cfg.mappings[i];
    RenamedTarget(cfg, id, other, i);
    FindRenamed(cfg.tables, id, other, m.tableId);
    var dangling := DanglingReference(MappingAt(i, "analytic_table_id"), "analytic_table", m.tableId);
    NoMappingProblem(cfg, i, dangling);
    NoMappingProblem(cfg, i, e);
  }

  lemma NoMappingProblem(cfg: PipelineConfig, i: nat, e: ConfigError)
    requires Valid(cfg) && i < |cfg.mappings|
    ensures !ReferenceProblem(cfg, i, e) && !FilterProblem(cfg, i, e)
    ensures forall j :: !ExpressionProblem(cfg, i, j, e) && !OutputProblem(cfg, i, j, e) && !OperandProblem(cfg, i, j, e)
  {
    assert !ConfigProblem(cfg, e);
    assert !MappingProblem(cfg, i, e);
  }

  lemma RenamedOutput(cfg: PipelineConfig, id: string, other: string, i: nat, j: int, e: ConfigError)
    requires Valid(cfg) && id != "" && Unused(cfg, other) && i < |cfg.mappings|
    ensures !OutputProblem(Renamed(cfg, id, other), i, j, e)
  {
    var m := cfg.mappings[i];
    RenamedTarget(cfg, id, other, i);
    FindRenamed(cfg.tables, id, other, m.tableId);
    assert Renamed(cfg, id, other).mappings[i] == m.(tableId := Rename(m.tableId, id, other));
    if 0 <= j < |m.columns| && FindTable(cfg.tables, m.tableId).Some? {
      var t := FindTable(cfg.tables, m.tableId).value;
      var undeclared := DanglingReference(ColumnAt(i, j, "name"), "analytic_table_column", t.id + "." + m.columns[j].name);
      NoMappingProblem(cfg, i, undeclared);
      assert !OutputProblem(cfg, i, j, undeclared);
    }
  }

  lemma RenamedMapping(cfg: PipelineConfig, id: string, other: string, i: int, e: ConfigError)
    requires Valid(cfg) && id != "" && Unused(cfg, other)
    ensures !MappingProblem(Renamed(cfg, id, other), i, e)
  {
    if 0 <= i < |cfg.mappings| {
      var renamed := Renamed(cfg, id, other);
      NoMappingProblem(cfg, i, e);
      RenamedReference(cfg, id, other, i, e);
      forall j
        ensures !ExpressionProblem(renamed, i, j, e) && !OutputProblem(renamed, i, j, e) && !OperandProblem(renamed, i, j, e)
      {
        assert !ExpressionProblem(cfg, i, j, e) && !OperandProblem(cfg, i, j, e);
        RenamedOutput(cfg, id, other, i, j, e);
      }
    }
  }

  lemma RenamedTable(cfg: PipelineConfig, id: string, other: string, i: int, e: ConfigError)
    requires Valid(cfg)
    ensures !TableProblem(Renamed(cfg, id, other), i, e)
  {
    assert !ConfigProblem(cfg, e);
    assert !TableProblem(cfg, i, e);
    if 0 <= i < |cfg.tables| {
      var table, renamed := cfg.tables[i], RenamedTables(cfg.tables, id, other)[i];
      assert forall path, k :: PartitionKeyProblem(renamed, path, k, e) == PartitionKeyProblem(table, path, k, e);
      assert forall path, k :: DedupKeyProblem(renamed, path, k, e) == DedupKeyProblem(table, path, k, e);
    }
  }

  /** Any unused id will do for a table: a slash in it is no problem to validation,
      whatever it does to the table. */
  lemma AnyIdIsValid(cfg: PipelineConfig, id: string, other: string)
    requires Valid(cfg) && id != "" && Unused(cfg, other)
    ensures Valid(Renamed(cfg, id, other))
  {
    var renamed := Renamed(cfg, id, other);
    assert MappingItems(renamed.mappings) == MappingItems(cfg.mappings);
    forall e ensures !ConfigProblem(renamed, e) {
      assert !ConfigProblem(cfg, e);
      forall i
        ensures !IdProblem(TableItems(renamed.tables), "analytic_tables", "analytic_table", i, e)
        ensures !MappingProblem(renamed, i, e) && !TableProblem(renamed, i, e)
      {
        RenamedItems(cfg, id, other, i, e);
        RenamedMapping(cfg, id, other, i, e);
        RenamedTable(cfg, id, other, i, e);
      }
    }
  }

  // What does keep a warehouse tidy

  function SitesOf(prefix: string, tables: seq<AnalyticTable>): set<Site> {
    set t | t in tables :: Site(prefix, t.id)
  }

  lemma SlashFreeRoots(a: Site, b: Site)
    requires a.prefix == b.prefix && '/' !in a.table && '/' !in b.table && StartsWith(Root(b), Root(a))
    ensures a == b
  {
    var at := |a.prefix + a.table|;
    assert Root(a)[at] == '/' && Root(b)[at] == '/';
    assert Root(b)[at] == (b.table + "/")[|a.table|];
    assert Root(a)[|a.prefix|..at] == a.table && Root(b)[|a.prefix|..at] == b.table;
  }

  /** The tables of one config under one job prefix are tidy iff no id has a slash. */
  lemma TidyIffSlashFree(prefix: string, tables: seq<AnalyticTable>)
    ensures Tidy(SitesOf(prefix, tables)) <==> forall t | t in tables :: '/' !in t.id
  {
    var sites := SitesOf(prefix, tables);
    if forall t | t in tables :: '/' !in t.id {
      forall a, b | a in sites && b in sites && a != b ensures !StartsWith(Root(b), Root(a)) {
        if StartsWith(Root(b), Root(a)) { SlashFreeRoots(a, b); }
      }
    } else {
      var t :| t in tables && '/' in t.id;
      assert Site(prefix, t.id) in sites;
    }
  }

  /** And tidy places stay tidy together when no job prefix begins another. */
  lemma TidyTogether(a: set<Site>, b: set<Site>)
    requires Tidy(a) && Tidy(b)
    requires forall x, y | x in a && y in b :: !StartsWith(x.prefix, y.prefix) && !StartsWith(y.prefix, x.prefix)
    ensures Tidy(a + b)
  {
    forall x, y | x in a && y in b ensures !StartsWith(Root(x), Root(y)) && !StartsWith(Root(y), Root(x)) {
      PrefixesApart(x, y);
      PrefixesApart(y, x);
    }
  }

  lemma PrefixesApart(x: Site, y: Site)
    requires !StartsWith(x.prefix, y.prefix) && !StartsWith(y.prefix, x.prefix)
    ensures !StartsWith(Root(x), Root(y))
  {
    if StartsWith(Root(x), Root(y)) {
      assert StartsWith(Root(y), y.prefix) && StartsWith(Root(x), x.prefix);
      OneInOther(x.prefix, y.prefix, Root(x));
    }
  }

  /** Of two tables of one config, `a` and `a/b`, the first one's vacuums reach the second. */
  lemma SlashReaches(prefix: string, table: string, rest: string)
    requires !StartsWith(rest + "/", MANIFEST_PREFIX)
    ensures Reaches(Site(prefix, table), Site(prefix, table + "/" + rest))
  {
    var a, b := Root(Site(prefix, table)), Root(Site(prefix, table + "/" + rest));
    assert b == a + (rest + "/");
    assert b[|a|..] == rest + "/";
    assert |b| > |a|;
  }

  // Job prefixes may begin one another

  lemma {:induction false} PathSnoc(segments: seq<string>, segment: string)
    ensures Http.Path(segments + [segment]) == Http.Path(segments) + segment + "/"
  {
    if segments == [] {
      assert Http.Path([segment]) == segment + ['/'] + "";
    } else {
      PathSnoc(segments[1..], segment);
      assert (segments + [segment])[1..] == segments[1..] + [segment];
    }
  }

  lemma LongerPath(prefix: string, segment: string)
    requires Http.IsPath(prefix) && Http.GoodSegment(segment)
    ensures Http.IsPath(prefix + segment + "/")
  {
    var segments: seq<string> :| segments != [] && Http.AllGood(segments) && prefix == Http.Path(segments);
    PathSnoc(segments, segment);
    assert segments + [segment] != [] && Http.AllGood(segments + [segment]);
  }

  /** A job prefix is accepted although it lies inside a table of another accepted
      one, whose vacuums reach every table under it. */
  lemma PrefixesNest(prefix: string, table: string, inner: string)
    requires Http.ValidPrefix(prefix) && Http.GoodSegment(table)
    requires Http.Utf8Length(prefix + table + "/") <= Http.MAX_PREFIX_LEN
    requires !StartsWith(inner + "/", MANIFEST_PREFIX)
    ensures Http.ValidPrefix(prefix + table + "/")
    ensures Reaches(Site(prefix, table), Site(prefix + table + "/", inner))
  {
    LongerPath(prefix, table);
    var a, b := Root(Site(prefix, table)), Root(Site(prefix + table + "/", inner));
    assert b == a + (inner + "/");
    assert b[|a|..] == inner + "/";
    assert |b| > |a|;
  }
}
