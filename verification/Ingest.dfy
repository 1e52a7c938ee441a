/**
 What a validated config guarantees downstream: expressions compile, with two
 exceptions validation does not look at, and every lake file is read once, by
 the source it was listed for.
 */
module Ingest {
  import opened Text
  import opened Config
  import opened Dimensions
  import opened Validation
  import opened Evaluator

  // The registry a job compiles against

  /** A reference file in the lake: its lines without the blank ones, or None
      when it could not be read. */
  datatype LakeFile = LakeFile(key: string, lines: Option<seq<string>>)

  datatype LoadError = BadDimension(error: DimensionError) | Unreadable(message: string)

  ghost predicate DistinctIds(dims: seq<Dimension>) {
    forall i, j | 0 <= i < j < |dims| :: dims[i].id != dims[j].id
  }

  type Lake = string -> Result<seq<LakeFile>, string>

  /** The rows of the CSV files among `files`, in order; None when one of them
      cannot be read or has no rows to give. */
  function FilesRows(dim: Dimension, files: seq<LakeFile>): Option<seq<Row>>
    requires dim.rows.File?
  {
    if files == [] then Some([])
    else
      var before, last := FilesRows(dim, files[..|files| - 1]), files[|files| - 1];
      if before.None? || !EndsWith(last.key, ".csv") then before
      else if last.lines.None? then None
      else
        match FileRows(dim.rows.key, dim.rows.values, dim.rows.priorityColumn, last.lines.value)
        case None => None
        case Some(more) => Some(before.value + more)
  }

  /** A file whose name does not end in `.csv` is passed over. */
  lemma OtherFilesPassed(dim: Dimension, files: seq<LakeFile>, file: LakeFile)
    requires dim.rows.File? && !HasSuffix(file.key, ".csv")
    ensures FilesRows(dim, files + [file]) == FilesRows(dim, files)
  {
    assert (files + [file])[..|files|] == files;
    SuffixIffEnds(file.key, ".csv");
  }

  /** One that does adds its rows behind the others', or spoils them. */
  lemma CsvFileAdds(dim: Dimension, files: seq<LakeFile>, stem: string, lines: Option<seq<string>>)
    requires dim.rows.File? && FilesRows(dim, files).Some?
    ensures FilesRows(dim, files + [LakeFile(stem + ".csv", lines)])
         == if lines.None? then None
            else match FileRows(dim.rows.key, dim.rows.values, dim.rows.priorityColumn, lines.value)
                 case None => None
                 case Some(more) => Some(FilesRows(dim, files).value + more)
  {
    var all := files + [LakeFile(stem + ".csv", lines)];
    assert all[..|files|] == files;
    assert (stem + ".csv")[|stem|..] == ".csv";
  }

  /** The rows a dimension is compiled from. */
  function RowsFor(lake: Lake, dim: Dimension): Option<seq<Row>> {
    match dim.rows
    case Inline(_, rows) => Some(InlineRows(rows))
    case File(prefix, _, _, _) => if lake(prefix).Err? then None else FilesRows(dim, lake(prefix).value)
  }

  /** The dimension's rows can be had, and compiled. */
  ghost predicate Loadable(lower: string -> string, lake: Lake, dim: Dimension) {
    RowsFor(lake, dim).Some? && Acceptable(lower, dim, RowsFor(lake, dim).value)
  }

  /** The dimension's matcher, made from its own rows. */
  ghost predicate MatcherFor(registry: Registry, lower: string -> string, lake: Lake, dim: Dimension) {
    && dim.id in registry && RowsFor(lake, dim).Some?
    && Compiled(registry[dim.id], lower, dim, RowsFor(lake, dim).value)
  }

  /** The CSV files of one file-backed dimension, read in turn. */
  method LoadRows(dim: Dimension, files: seq<LakeFile>) returns (r: Result<seq<Row>, LoadError>)
    requires dim.rows.File?
    ensures match FilesRows(dim, files) case Some(rows) => r == Ok(rows) case None => r.Err?
  {
    var rows := [];
    for i := 0 to |files|
      invariant FilesRows(dim, files[..i]) == Some(rows)
    {
      assert files[..i + 1][..i] == files[..i];
      if EndsWith(files[i].key, ".csv") {
        if files[i].lines.None? {
          NoRowsYet(dim, files, i + 1);
          return Err(Unreadable(files[i].key));
        }
        var more := RowsFromCsv(dim, dim.rows.key, dim.rows.values, dim.rows.priorityColumn, files[i].lines.value);
        if more.Err? {
          NoRowsYet(dim, files, i + 1);
          return Err(BadDimension(more.error));
        }
        rows := rows + more.value;
      }
    }
    assert files[..|files|] == files;
    return Ok(rows);
  }

  lemma {:induction false} NoRowsYet(dim: Dimension, files: seq<LakeFile>, n: nat)
    requires dim.rows.File? && n <= |files| && FilesRows(dim, files[..n]).None?
    ensures FilesRows(dim, files).None?
    decreases |files|
  {
    if n < |files| {
      assert files[..|files| - 1][..n] == files[..n];
      NoRowsYet(dim, files[..|files| - 1], n);
    } else {
      assert files[..n] == files;
    }
  }

  /** Inline dimensions first, then the file-backed ones from the lake. It
      succeeds iff all of them can be loaded, and then, if their ids are
      distinct, each has its matcher. */
  method LoadRegistry(lower: string -> string, dims: seq<Dimension>, lake: Lake)
    returns (r: Result<Registry, LoadError>)
    ensures r.Ok? <==> forall d | d in dims :: Loadable(lower, lake, d)
    ensures r.Ok? && DistinctIds(dims) ==> forall d | d in dims :: MatcherFor(r.value, lower, lake, d)
  {
    var inline := BuildInlineRegistry(lower, dims);
    if inline.Err? {
      InlineUnloadable(lower, dims, lake);
      return Err(BadDimension(inline.error));
    }
    var registry := inline.value;
    InlineMatchers(registry, lower, lake, dims);
    InlineLoadable(lower, dims, lake);
    for i := 0 to |dims|
      invariant DistinctIds(dims) ==> Loaded(registry, lower, lake, dims, i)
      invariant AllLoadable(lower, lake, dims, i)
    {
      var dim := dims[i];
      ghost var before := registry;
      if dim.rows.File? {
        var matcher := LoadMatcher(lower, dim, lake);
        if matcher.Err? {
          assert dim in dims;
          return Err(matcher.error);
        }
        registry := registry[dim.id := matcher.value];
      }
      LoadedMore(before, registry, lower, lake, dims, i);
    }
    return Ok(registry);
  }

  lemma InlineUnloadable(lower: string -> string, dims: seq<Dimension>, lake: Lake)
    requires !forall d | d in dims && d.rows.Inline? :: Acceptable(lower, d, InlineRows(d.rows.rows))
    ensures !forall d | d in dims :: Loadable(lower, lake, d)
  {
    var d :| d in dims && d.rows.Inline? && !Acceptable(lower, d, InlineRows(d.rows.rows));
    assert !Loadable(lower, lake, d);
  }

  /** One file-backed dimension: list, read, compile. */
  method LoadMatcher(lower: string -> string, dim: Dimension, lake: Lake) returns (r: Result<Matcher, LoadError>)
    requires dim.rows.File?
    ensures r.Ok? <==> Loadable(lower, lake, dim)
    ensures r.Ok? ==> Compiled(r.value, lower, dim, RowsFor(lake, dim).value)
  {
    var listing := lake(dim.rows.pathPrefix);
    if listing.Err? { return Err(Unreadable(listing.error)); }
    var rows := LoadRows(dim, listing.value);
    if rows.Err? { return Err(rows.error); }
    var matcher := New(lower, dim, rows.value);
    if matcher.Err? { return Err(BadDimension(matcher.error)); }
    return Ok(matcher.value);
  }

  /** All inline dimensions can be loaded, and the first `i` of the others. */
  ghost predicate AllLoadable(lower: string -> string, lake: Lake, dims: seq<Dimension>, i: nat) {
    forall k | 0 <= k < |dims| && (dims[k].rows.Inline? || k < i) :: Loadable(lower, lake, dims[k])
  }

  lemma InlineLoadable(lower: string -> string, dims: seq<Dimension>, lake: Lake)
    requires forall d | d in dims && d.rows.Inline? :: Acceptable(lower, d, InlineRows(d.rows.rows))
    ensures AllLoadable(lower, lake, dims, 0)
  {
  }

  /** All inline dimensions are in, and the first `i` of the others. */
  ghost predicate Loaded(registry: Registry, lower: string -> string, lake: Lake, dims: seq<Dimension>, i: nat) {
    forall k | 0 <= k < |dims| && (dims[k].rows.Inline? || k < i) :: MatcherFor(registry, lower, lake, dims[k])
  }

  lemma LoadedMore(before: Registry, after: Registry, lower: string -> string, lake: Lake, dims: seq<Dimension>, i: nat)
    requires i < |dims|
    requires if dims[i].rows.File?
             then dims[i].id in after && after == before[dims[i].id := after[dims[i].id]]
                  && MatcherFor(after, lower, lake, dims[i])
             else after == before
    ensures DistinctIds(dims) && Loaded(before, lower, lake, dims, i) ==> Loaded(after, lower, lake, dims, i + 1)
  {
    if DistinctIds(dims) && Loaded(before, lower, lake, dims, i) {
      forall k | 0 <= k < |dims| && (dims[k].rows.Inline? || k < i + 1) ensures MatcherFor(after, lower, lake, dims[k]) {
        if k != i { assert MatcherFor(before, lower, lake, dims[k]) && dims[k].id != dims[i].id; }
      }
    }
  }

  lemma InlineMatchers(registry: Registry, lower: string -> string, lake: Lake, dims: seq<Dimension>)
    requires Registers(registry, lower, dims)
    ensures DistinctIds(dims) ==> Loaded(registry, lower, lake, dims, 0)
  {
    if DistinctIds(dims) {
      forall k | 0 <= k < |dims| && dims[k].rows.Inline? ensures MatcherFor(registry, lower, lake, dims[k]) {
        assert Latest(dims, k);
      }
    }
  }

  /** The registry has every declared dimension, with its declared columns. */
  ghost predicate Complete(registry: Registry, dims: seq<Dimension>) {
    forall d | d in dims :: d.id in registry && registry[d.id].valueColumns == d.ValueColumns()
  }

  // Unique ids

  lemma ValidIds(items: seq<Item>, collection: string, kind: string, i: int, j: int)
    requires forall e, k :: !IdProblem(items, collection, kind, k, e)
    requires 0 <= i < j < |items|
    ensures items[i].id != items[j].id
  {
    var path := [Name(collection), Index(j), Name("id")];
    assert !IdProblem(items, collection, kind, j, MissingField(path, "id"));
    assert !IdProblem(items, collection, kind, j, DuplicateId(path, kind, items[j].id));
  }

  lemma ValidDimensionIds(cfg: PipelineConfig)
    requires Valid(cfg)
    ensures DistinctIds(cfg.dimensions)
  {
    var items := DimensionItems(cfg.dimensions);
    forall e, k ensures !IdProblem(items, "dimensions", "lookup_mapping", k, e) { assert !ConfigProblem(cfg, e); }
    forall i, j | 0 <= i < j < |cfg.dimensions| ensures cfg.dimensions[i].id != cfg.dimensions[j].id {
      ValidIds(items, "dimensions", "lookup_mapping", i, j);
    }
  }

  /** So a run folds each mapping's files in once. */
  lemma ValidMappingIds(cfg: PipelineConfig)
    requires Valid(cfg)
    ensures forall i, j | 0 <= i < j < |cfg.mappings| :: cfg.mappings[i].id != cfg.mappings[j].id
  {
    var items := MappingItems(cfg.mappings);
    forall e, k ensures !IdProblem(items, "mappings", "mapping", k, e) { assert !ConfigProblem(cfg, e); }
    forall i, j | 0 <= i < j < |cfg.mappings| ensures cfg.mappings[i].id != cfg.mappings[j].id {
      ValidIds(items, "mappings", "mapping", i, j);
    }
  }

  /** At most two partition keys, all different, each a column that holds no floats. */
  lemma ValidPartitionKeys(cfg: PipelineConfig, i: nat)
    requires Valid(cfg) && i < |cfg.tables|
    ensures var keys := cfg.tables[i].partitionKeys;
            && |keys| <= 2 && NoRepeats(keys)
            && forall k | k in keys ::
                 var kind := KindOf(cfg.tables[i].schema, k);
                 kind.Some? && kind.value != "float64" && kind.value != "number"
  {
    var table := cfg.tables[i];
    var keys, path := table.partitionKeys, TableAt(i, "partition_keys");
    assert !ConfigProblem(cfg, Schema(path, TooManyKeys(|keys|)));
    assert !TableProblem(cfg, i, Schema(path, TooManyKeys(|keys|)));
    forall k: nat | k < |keys|
      ensures keys[k] !in keys[..k] && KindOf(table.schema, keys[k]).Some?
      ensures KindOf(table.schema, keys[k]).value != "float64" && KindOf(table.schema, keys[k]).value != "number"
    {
      NoKeyProblem(cfg, i, k, Schema(path, DuplicatePartitionKey(keys[k])));
      NoKeyProblem(cfg, i, k, DanglingReference(path, "schema_column", keys[k]));
      NoKeyProblem(cfg, i, k, Schema(path, FloatCapable(keys[k])));
    }
    forall a, b | 0 <= a < b < |keys| ensures keys[a] != keys[b] { assert keys[..b][a] == keys[a]; }
  }

  lemma NoKeyProblem(cfg: PipelineConfig, i: nat, k: nat, e: ConfigError)
    requires Valid(cfg) && i < |cfg.tables|
    ensures !PartitionKeyProblem(cfg.tables[i], TableAt(i, "partition_keys"), k, e)
  {
    assert !ConfigProblem(cfg, e);
    assert !TableProblem(cfg, i, e);
  }

  /** A registry loaded for a valid config is complete. */
  lemma LoadedIsComplete(cfg: PipelineConfig, lower: string -> string, lake: Lake, registry: Registry)
    requires Valid(cfg)
    requires DistinctIds(cfg.dimensions) ==> forall d | d in cfg.dimensions :: MatcherFor(registry, lower, lake, d)
    ensures Complete(registry, cfg.dimensions)
  {
    ValidDimensionIds(cfg);
  }

  // Expressions

  lemma ValidMapping(cfg: PipelineConfig, i: nat, e: ConfigError)
    requires Valid(cfg) && i < |cfg.mappings|
    ensures !MappingProblem(cfg, i, e)
  {
    assert !ConfigProblem(cfg, e);
  }

  lemma ValidColumn(cfg: PipelineConfig, i: nat, j: nat, n: Ast, e: ConfigError)
    requires Valid(cfg) && i < |cfg.mappings| && j < |cfg.mappings[i].columns|
    requires n in Nodes(cfg.mappings[i].columns[j].expr)
    ensures !DimensionProblem(cfg.dimensions, ColumnAt(i, j, "expr"), n, e)
  {
    ValidMapping(cfg, i, e);
    assert !ExpressionProblem(cfg, i, j, e);
  }

  lemma ColumnsResolve(cfg: PipelineConfig, i: nat, j: nat, n: Ast)
    requires Valid(cfg) && i < |cfg.mappings| && j < |cfg.mappings[i].columns|
    requires n in Nodes(cfg.mappings[i].columns[j].expr) && n.DimRef?
    ensures var d := FindDimension(cfg.dimensions, n.dimId);
            d.Some? && (n.value.Some? ==> n.value.value in d.value.ValueColumns())
  {
    var path := ColumnAt(i, j, "expr");
    ValidColumn(cfg, i, j, n, DanglingReference(path, "dimension", n.dimId));
    ValidColumn(cfg, i, j, n, DanglingReference(path, "dimension_value", n.dimId + "." + Named(n.value)));
  }

  /** Every column expression of a valid config compiles, at any depth. */
  lemma ColumnsCompile(cfg: PipelineConfig, registry: Registry, i: nat, j: nat)
    requires Valid(cfg) && Complete(registry, cfg.dimensions) && i < |cfg.mappings| && j < |cfg.mappings[i].columns|
    ensures Compile(cfg.mappings[i].columns[j].expr, registry).None?
  {
    var expr := cfg.mappings[i].columns[j].expr;
    forall n | n in Nodes(expr) ensures Fault(n, registry).None? {
      if n.DimRef? {
        ColumnsResolve(cfg, i, j, n);
      }
    }
    CompilesIff(expr, registry);
  }

  lemma FilterResolves(cfg: PipelineConfig, i: nat, n: Ast)
    requires Valid(cfg) && i < |cfg.mappings| && cfg.mappings[i].filter.Some?
    requires n in Nodes(cfg.mappings[i].filter.value) && n.DimRef?
    ensures FindDimension(cfg.dimensions, n.dimId).Some?
  {
    var m := cfg.mappings[i];
    var e := DanglingReference(MappingAt(i, "where"), "dimension", n.dimId);
    ValidMapping(cfg, i, e);
    assert !FilterProblem(cfg, i, e);
    assert !WhereProblem(cfg.dimensions, OutputNames(m.columns), m.id, MappingAt(i, "where"), n, e);
  }

  /** Every value column a predicate names is one of its dimension's. */
  ghost predicate NamesValues(node: Ast, registry: Registry) {
    forall n | n in Nodes(node) && n.DimRef? && n.value.Some? && n.dimId in registry ::
      n.value.value in registry[n.dimId].valueColumns
  }

  /** A `where` predicate of a valid config compiles iff the value columns it
      names exist, which validation does not check; nothing else can fail. */
  lemma FilterCompilesIff(cfg: PipelineConfig, registry: Registry, i: nat)
    requires Valid(cfg) && Complete(registry, cfg.dimensions)
    requires i < |cfg.mappings| && cfg.mappings[i].filter.Some?
    ensures var filter := cfg.mappings[i].filter.value;
            && (Compile(filter, registry).None? <==> NamesValues(filter, registry))
            && (Compile(filter, registry).Some? ==> Compile(filter, registry).value.UnknownDimensionValue?)
  {
    var filter := cfg.mappings[i].filter.value;
    CompilesIff(filter, registry);
    forall n | n in Nodes(filter)
      ensures n.DimRef? ==> n.dimId in registry
      ensures Fault(n, registry).None? <==>
              (n.DimRef? && n.value.Some? ==> n.value.value in registry[n.dimId].valueColumns)
    {
      if n.DimRef? { FilterResolves(cfg, i, n); }
    }
  }

  // What validation does not look at

  const GEO := Dimension("geo", Exact, None, NullOut, Inline(["country"], []))
  const LOGS := SourceContainer("logs", "Logs", "raw/", Ndjson, [ColumnSchema("d", None, "string")],
                                Some(DimRef("gone", None, Null)))
  const FACTS := AnalyticTable("facts", "Facts", [ColumnSchema("c", None, "string")], [], [])
  const LOAD := Mapping("load", "logs", "facts", [MappingColumn("c", Col("d"))],
                        Some(DimRef("geo", Some("region"), Col("c"))))
  const GAPPED := PipelineConfig([LOGS], [GEO], [LOAD], [FACTS])

  lemma GappedNodes()
    ensures Nodes(Col("d")) == [Col("d")]
    ensures Nodes(LOAD.filter.value) == [LOAD.filter.value, Col("c")]
    ensures Nodes(LOGS.recordFilter.value) == [LOGS.recordFilter.value, Null]
  {
    assert Nodes(Col("c")) == [Col("c")] && Nodes(Null) == [Null];
  }

  lemma GappedPrefix()
    ensures WellFormedPrefix("raw/")
  {
    assert "raw/" == "raw" + ['/'] + "";
    IndexOfAppended("raw", '/', "");
    CutAfter("raw", '/', "");
    assert SplitOn("", '/') == [""];
    assert SplitOn("raw/", '/') == ["raw"] + [""];
  }

  lemma GappedMappingOk(e: ConfigError)
    ensures !exists i :: MappingProblem(GAPPED, i, e)
  {
    GappedNodes();
    assert FindDimension([GEO], "geo") == Some(GEO);
    assert FindSource([LOGS], "logs") == Some(LOGS) && FindTable([FACTS], "facts") == Some(FACTS);
    assert OutputNames(LOAD.columns) == {"c"} && ColumnNames(LOGS.schema) == {"d"} && ColumnNames(FACTS.schema) == {"c"};
    assert !MappingProblem(GAPPED, 0, e);
  }

  lemma OneItemOk(item: Item, collection: string, kind: string, e: ConfigError)
    requires item.id != "" && item.name != Some("")
    ensures !exists i :: IdProblem([item], collection, kind, i, e)
  {
  }

  lemma GappedIdsOk(e: ConfigError)
    ensures !exists i :: IdProblem(SourceItems(GAPPED.sources), "source_containers", "source_container", i, e)
    ensures !exists i :: IdProblem(DimensionItems(GAPPED.dimensions), "dimensions", "lookup_mapping", i, e)
    ensures !exists i :: IdProblem(MappingItems(GAPPED.mappings), "mappings", "mapping", i, e)
    ensures !exists i :: IdProblem(TableItems(GAPPED.tables), "analytic_tables", "analytic_table", i, e)
  {
    assert SourceItems(GAPPED.sources) == [Item("logs", Some("Logs"))];
    assert DimensionItems(GAPPED.dimensions) == [Item("geo", None)];
    assert MappingItems(GAPPED.mappings) == [Item("load", None)];
    assert TableItems(GAPPED.tables) == [Item("facts", Some("Facts"))];
    OneItemOk(Item("logs", Some("Logs")), "source_containers", "source_container", e);
    OneItemOk(Item("geo", None), "dimensions", "lookup_mapping", e);
    OneItemOk(Item("load", None), "mappings", "mapping", e);
    OneItemOk(Item("facts", Some("Facts")), "analytic_tables", "analytic_table", e);
  }

  lemma GappedRestOk(e: ConfigError)
    ensures !exists i :: TableProblem(GAPPED, i, e)
    ensures !exists i :: PrefixProblem(GAPPED.sources, i, e)
    ensures !exists i, j :: NestingProblem(GAPPED.sources, i, j, e)
  {
    GappedPrefix();
  }

  lemma GappedIsValid()
    ensures Valid(GAPPED)
  {
    forall e ensures !ConfigProblem(GAPPED, e) {
      GappedIdsOk(e);
      GappedMappingOk(e);
      GappedRestOk(e);
    }
  }

  lemma WhereFails(registry: Registry)
    requires Complete(registry, GAPPED.dimensions)
    ensures Compile(LOAD.filter.value, registry) == Some(UnknownDimensionValue("geo", "region"))
  {
    assert GEO in GAPPED.dimensions;
    assert ["country"][0] == "country" != "region";
  }

  /** A valid config whose `where` names a value column that does not exist, and
      whose record filter names a dimension that does not: both fail to compile. */
  lemma ValidationGaps(registry: Registry)
    requires Complete(registry, GAPPED.dimensions) && "gone" !in registry
    ensures Valid(GAPPED)
    ensures Compile(LOAD.filter.value, registry) == Some(UnknownDimensionValue("geo", "region"))
    ensures Compile(LOGS.recordFilter.value, registry) == Some(UnknownDimension("gone"))
  {
    GappedIsValid();
    WhereFails(registry);
  }

  // Compiling a mapping for a file

  /** The expressions `ingest_file` compiles, in order: the source's record
      filter if it is JSON, the columns, the predicate. The first error, if any. */
  function CompileMapping(source: SourceContainer, m: Mapping, registry: Registry): Option<EvalError> {
    OrElse(if source.format.Ndjson? && source.recordFilter.Some? then Compile(source.recordFilter.value, registry) else None,
           OrElse(CompileColumns(m.columns, registry),
                  if m.filter.Some? then Compile(m.filter.value, registry) else None))
  }

  function CompileColumns(columns: seq<MappingColumn>, registry: Registry): Option<EvalError> {
    if columns == [] then None else OrElse(Compile(columns[0].expr, registry), CompileColumns(columns[1..], registry))
  }

  lemma {:induction false} AllColumnsCompile(columns: seq<MappingColumn>, registry: Registry)
    requires forall c | c in columns :: Compile(c.expr, registry).None?
    ensures CompileColumns(columns, registry).None?
  {
    if columns != [] {
      assert columns[0] in columns;
      AllColumnsCompile(columns[1..], registry);
    }
  }

  /** A mapping of a valid config compiles for a source iff the source's record
      filter does and the predicate names only value columns that exist. */
  lemma MappingCompilesIff(cfg: PipelineConfig, registry: Registry, source: SourceContainer, i: nat)
    requires Valid(cfg) && Complete(registry, cfg.dimensions) && i < |cfg.mappings|
    ensures CompileMapping(source, cfg.mappings[i], registry).None? <==>
              && (source.format.Ndjson? && source.recordFilter.Some? ==>
                    forall n | n in Nodes(source.recordFilter.value) :: Fault(n, registry).None?)
              && (cfg.mappings[i].filter.Some? ==> NamesValues(cfg.mappings[i].filter.value, registry))
  {
    var m := cfg.mappings[i];
    forall c | c in m.columns ensures Compile(c.expr, registry).None? {
      var j :| 0 <= j < |m.columns| && m.columns[j] == c;
      ColumnsCompile(cfg, registry, i, j);
    }
    AllColumnsCompile(m.columns, registry);
    if m.filter.Some? { FilterCompilesIff(cfg, registry, i); }
    if source.recordFilter.Some? { CompilesIff(source.recordFilter.value, registry); }
  }
}
