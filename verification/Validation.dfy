/**
 `config::validate`: every problem of a config is reported, and nothing else is.
 A problem is stated for each check on its own, apart from the loops that look
 for it; the order of the report is not.
 */
module Validation {
  import opened Text
  import opened Config

  /** A JSON pointer, by its reference tokens (section 3 of RFC 6901). */
  datatype Token = Name(name: string) | Index(index: nat)

  type Pointer = seq<Token>

  datatype SchemaProblem =
    | TooManyKeys(keys: nat)
    | DuplicatePartitionKey(key: string)
    | FloatCapable(key: string)
    | DuplicateDedupKey(key: string)
    | MalformedPrefix(prefix: string)
    | NestedPrefix(inner: string, outer: string, source: string)

  datatype ConfigError =
    | DuplicateId(path: Pointer, kind: string, id: string)
    | DanglingReference(path: Pointer, kind: string, target: string)
    | Schema(path: Pointer, problem: SchemaProblem)
    | MissingField(path: Pointer, field: string)

  type Errors = seq<ConfigError>

  // Ids and names

  datatype Item = Item(id: string, name: Option<string>)

  ghost predicate IdProblem(items: seq<Item>, collection: string, kind: string, i: int, e: ConfigError) {
    && 0 <= i < |items|
    && (|| (items[i].id == "" && e == MissingField([Name(collection), Index(i), Name("id")], "id"))
        || (items[i].id != "" && (exists k | 0 <= k < i :: items[k].id == items[i].id)
            && e == DuplicateId([Name(collection), Index(i), Name("id")], kind, items[i].id))
        || (items[i].name == Some("") && e == MissingField([Name(collection), Index(i), Name("name")], "name")))
  }

  method CheckIds(items: seq<Item>, collection: string, kind: string, errors: Errors) returns (out: Errors)
    ensures forall e :: e in out <==> e in errors || exists i :: IdProblem(items, collection, kind, i, e)
  {
    out := errors;
    var seen: set<string> := {};
    for i := 0 to |items|
      invariant forall id :: id in seen <==> id != "" && exists k | 0 <= k < i :: items[k].id == id
      invariant forall e :: e in out <==>
                  e in errors || exists k :: 0 <= k < i && IdProblem(items, collection, kind, k, e)
    {
      ghost var before := out;
      var item := items[i];
      var path := [Name(collection), Index(i)];
      assert path + [Name("id")] == [Name(collection), Index(i), Name("id")];
      assert path + [Name("name")] == [Name(collection), Index(i), Name("name")];
      if item.id == "" {
        out := out + [MissingField(path + [Name("id")], "id")];
      } else if item.id in seen {
        out := out + [DuplicateId(path + [Name("id")], kind, item.id)];
      } else {
        seen := seen + {item.id};
      }
      if item.name == Some("") {
        out := out + [MissingField(path + [Name("name")], "name")];
      }
      assert forall e :: e in out <==> e in before || IdProblem(items, collection, kind, i, e);
    }
  }

  // Mappings

  /** `resolve_dimension`. */
  function FindDimension(dims: seq<Dimension>, id: string): (r: Option<Dimension>)
    ensures r.Some? ==> r.value in dims && r.value.id == id
    ensures r.None? ==> forall d | d in dims :: d.id != id
  {
    if dims == [] then None else if dims[0].id == id then Some(dims[0]) else FindDimension(dims[1..], id)
  }

  function FindSource(sources: seq<SourceContainer>, id: string): (r: Option<SourceContainer>)
    ensures r.Some? ==> r.value in sources && r.value.id == id
    ensures r.None? ==> forall s | s in sources :: s.id != id
  {
    if sources == [] then None else if sources[0].id == id then Some(sources[0]) else FindSource(sources[1..], id)
  }

  function FindTable(tables: seq<AnalyticTable>, id: string): (r: Option<AnalyticTable>)
    ensures r.Some? ==> r.value in tables && r.value.id == id
    ensures r.None? ==> forall t | t in tables :: t.id != id
  {
    if tables == [] then None else if tables[0].id == id then Some(tables[0]) else FindTable(tables[1..], id)
  }

  /** Of several with one id the first is meant. */
  lemma {:induction false} FirstDimensionFound(all: seq<Dimension>, i: nat)
    requires i < |all| && forall k | 0 <= k < i :: all[k].id != all[i].id
    ensures FindDimension(all, all[i].id) == Some(all[i])
  {
    if i > 0 { FirstDimensionFound(all[1..], i - 1); }
  }

  lemma {:induction false} FirstSourceFound(all: seq<SourceContainer>, i: nat)
    requires i < |all| && forall k | 0 <= k < i :: all[k].id != all[i].id
    ensures FindSource(all, all[i].id) == Some(all[i])
  {
    if i > 0 { FirstSourceFound(all[1..], i - 1); }
  }

  lemma {:induction false} FirstTableFound(all: seq<AnalyticTable>, i: nat)
    requires i < |all| && forall k | 0 <= k < i :: all[k].id != all[i].id
    ensures FindTable(all, all[i].id) == Some(all[i])
  {
    if i > 0 { FirstTableFound(all[1..], i - 1); }
  }

  function ColumnNames(schema: seq<ColumnSchema>): set<string> {
    set c | c in schema :: c.name
  }

  function OutputNames(columns: seq<MappingColumn>): set<string> {
    set c | c in columns :: c.name
  }

  function MappingAt(i: nat, field: string): Pointer {
    [Name("mappings"), Index(i), Name(field)]
  }

  function ColumnAt(i: nat, j: nat, field: string): Pointer {
    [Name("mappings"), Index(i), Name("columns"), Index(j), Name(field)]
  }

  ghost predicate ReferenceProblem(cfg: PipelineConfig, i: nat, e: ConfigError)
    requires i < |cfg.mappings|
  {
    var m := cfg.mappings[i];
    || (m.sourceId != "" && FindSource(cfg.sources, m.sourceId).None?
        && e == DanglingReference(MappingAt(i, "source_container_id"), "source_container", m.sourceId))
    || (m.tableId != "" && FindTable(cfg.tables, m.tableId).None?
        && e == DanglingReference(MappingAt(i, "analytic_table_id"), "analytic_table", m.tableId))
  }

  /** A dimension reference to a dimension or value column that is not declared. */
  predicate DimensionProblem(dims: seq<Dimension>, path: Pointer, n: Ast, e: ConfigError) {
    n.DimRef? &&
    match FindDimension(dims, n.dimId)
    case None => e == DanglingReference(path, "dimension", n.dimId)
    case Some(d) =>
      n.value.Some? && n.value.value !in d.ValueColumns()
      && e == DanglingReference(path, "dimension_value", n.dimId + "." + n.value.value)
  }

  method VisitDimensions(dims: seq<Dimension>, path: Pointer, nodes: seq<Ast>, errors: Errors) returns (out: Errors)
    ensures forall e :: e in out <==> e in errors || exists n | n in nodes :: DimensionProblem(dims, path, n, e)
  {
    out := errors;
    for i := 0 to |nodes|
      invariant forall e :: e in out <==>
                  e in errors || exists n | n in nodes[..i] :: DimensionProblem(dims, path, n, e)
    {
      var n := nodes[i];
      ghost var before := out;
      assert nodes[..i + 1] == nodes[..i] + [n];
      if n.DimRef? {
        match FindDimension(dims, n.dimId)
        case None => out := out + [DanglingReference(path, "dimension", n.dimId)];
        case Some(d) =>
          if n.value.Some? && n.value.value !in d.ValueColumns() {
            out := out + [DanglingReference(path, "dimension_value", n.dimId + "." + n.value.value)];
          }
      }
      assert forall e :: e in out <==> e in before || DimensionProblem(dims, path, n, e);
    }
    assert nodes[..|nodes|] == nodes;
  }

  /** The `where` visitor: it looks at output columns, and not at value columns. */
  predicate WhereProblem(dims: seq<Dimension>, known: set<string>, owner: string, path: Pointer, n: Ast, e: ConfigError) {
    || (n.DimRef? && FindDimension(dims, n.dimId).None? && e == DanglingReference(path, "dimension", n.dimId))
    || (n.Col? && n.name !in known && e == DanglingReference(path, "mapping_column", owner + "." + n.name))
  }

  method VisitWhere(dims: seq<Dimension>, known: set<string>, owner: string, path: Pointer, nodes: seq<Ast>,
                    errors: Errors) returns (out: Errors)
    ensures forall e :: e in out <==> e in errors || exists n | n in nodes :: WhereProblem(dims, known, owner, path, n, e)
  {
    out := errors;
    for i := 0 to |nodes|
      invariant forall e :: e in out <==>
                  e in errors || exists n | n in nodes[..i] :: WhereProblem(dims, known, owner, path, n, e)
    {
      var n := nodes[i];
      ghost var before := out;
      assert nodes[..i + 1] == nodes[..i] + [n];
      if n.DimRef? {
        if FindDimension(dims, n.dimId).None? {
          out := out + [DanglingReference(path, "dimension", n.dimId)];
        }
      } else if n.Col? {
        if n.name !in known {
          out := out + [DanglingReference(path, "mapping_column", owner + "." + n.name)];
        }
      }
      assert forall e :: e in out <==> e in before || WhereProblem(dims, known, owner, path, n, e);
    }
    assert nodes[..|nodes|] == nodes;
  }

  predicate SourceColumnProblem(known: set<string>, owner: string, path: Pointer, n: Ast, e: ConfigError) {
    n.Col? && n.name !in known && e == DanglingReference(path, "source_column", owner + "." + n.name)
  }

  method VisitColumns(known: set<string>, owner: string, path: Pointer, nodes: seq<Ast>, errors: Errors)
    returns (out: Errors)
    ensures forall e :: e in out <==> e in errors || exists n | n in nodes :: SourceColumnProblem(known, owner, path, n, e)
  {
    out := errors;
    for i := 0 to |nodes|
      invariant forall e :: e in out <==>
                  e in errors || exists n | n in nodes[..i] :: SourceColumnProblem(known, owner, path, n, e)
    {
      var n := nodes[i];
      ghost var before := out;
      assert nodes[..i + 1] == nodes[..i] + [n];
      if n.Col? && n.name !in known {
        out := out + [DanglingReference(path, "source_column", owner + "." + n.name)];
      }
      assert forall e :: e in out <==> e in before || SourceColumnProblem(known, owner, path, n, e);
    }
    assert nodes[..|nodes|] == nodes;
  }

  // Problems of column `j` of mapping `i`: its expression's dimensions, its name
  // in the table, and the source columns its expression reads.

  ghost predicate ExpressionProblem(cfg: PipelineConfig, i: nat, j: int, e: ConfigError)
    requires i < |cfg.mappings|
  {
    && 0 <= j < |cfg.mappings[i].columns|
    && exists n | n in Nodes(cfg.mappings[i].columns[j].expr) ::
         DimensionProblem(cfg.dimensions, ColumnAt(i, j, "expr"), n, e)
  }

  ghost predicate OutputProblem(cfg: PipelineConfig, i: nat, j: int, e: ConfigError)
    requires i < |cfg.mappings|
  {
    var m := cfg.mappings[i];
    0 <= j < |m.columns| &&
    match FindTable(cfg.tables, m.tableId)
    case None => false
    case Some(t) =>
      m.columns[j].name !in ColumnNames(t.schema)
      && e == DanglingReference(ColumnAt(i, j, "name"), "analytic_table_column", t.id + "." + m.columns[j].name)
  }

  ghost predicate OperandProblem(cfg: PipelineConfig, i: nat, j: int, e: ConfigError)
    requires i < |cfg.mappings|
  {
    var m := cfg.mappings[i];
    0 <= j < |m.columns| &&
    match FindSource(cfg.sources, m.sourceId)
    case None => false
    case Some(s) =>
      exists n | n in Nodes(m.columns[j].expr) ::
        SourceColumnProblem(ColumnNames(s.schema), s.id, ColumnAt(i, j, "expr"), n, e)
  }

  ghost predicate FilterProblem(cfg: PipelineConfig, i: nat, e: ConfigError)
    requires i < |cfg.mappings|
  {
    var m := cfg.mappings[i];
    m.filter.Some?
    && exists n | n in Nodes(m.filter.value) ::
         WhereProblem(cfg.dimensions, OutputNames(m.columns), m.id, MappingAt(i, "where"), n, e)
  }

  ghost predicate MappingProblem(cfg: PipelineConfig, i: int, e: ConfigError) {
    0 <= i < |cfg.mappings|
    && (|| ReferenceProblem(cfg, i, e)
        || (exists j :: ExpressionProblem(cfg, i, j, e))
        || FilterProblem(cfg, i, e)
        || (exists j :: OutputProblem(cfg, i, j, e))
        || (exists j :: OperandProblem(cfg, i, j, e)))
  }

  method CheckReferences(cfg: PipelineConfig, i: nat, errors: Errors) returns (out: Errors)
    requires i < |cfg.mappings|
    ensures forall e :: e in out <==> e in errors || ReferenceProblem(cfg, i, e)
  {
    out := errors;
    var m := cfg.mappings[i];
    if m.sourceId != "" && FindSource(cfg.sources, m.sourceId).None? {
      out := out + [DanglingReference(MappingAt(i, "source_container_id"), "source_container", m.sourceId)];
    }
    if m.tableId != "" && FindTable(cfg.tables, m.tableId).None? {
      out := out + [DanglingReference(MappingAt(i, "analytic_table_id"), "analytic_table", m.tableId)];
    }
  }

  method CheckExpressions(cfg: PipelineConfig, i: nat, errors: Errors) returns (out: Errors)
    requires i < |cfg.mappings|
    ensures forall e :: e in out <==> e in errors || exists j :: ExpressionProblem(cfg, i, j, e)
  {
    out := errors;
    var m := cfg.mappings[i];
    for j := 0 to |m.columns|
      invariant forall e :: e in out <==> e in errors || exists k :: 0 <= k < j && ExpressionProblem(cfg, i, k, e)
    {
      ghost var before := out;
      out := VisitDimensions(cfg.dimensions, ColumnAt(i, j, "expr"), Nodes(m.columns[j].expr), out);
      assert forall e :: e in out <==> e in before || ExpressionProblem(cfg, i, j, e);
    }
  }

  method CheckFilter(cfg: PipelineConfig, i: nat, errors: Errors) returns (out: Errors)
    requires i < |cfg.mappings|
    ensures forall e :: e in out <==> e in errors || FilterProblem(cfg, i, e)
  {
    out := errors;
    var m := cfg.mappings[i];
    if m.filter.Some? {
      out := VisitWhere(cfg.dimensions, OutputNames(m.columns), m.id, MappingAt(i, "where"), Nodes(m.filter.value), out);
    }
  }

  method CheckOutputs(cfg: PipelineConfig, i: nat, errors: Errors) returns (out: Errors)
    requires i < |cfg.mappings|
    ensures forall e :: e in out <==> e in errors || exists j :: OutputProblem(cfg, i, j, e)
  {
    out := errors;
    var m := cfg.mappings[i];
    var table := FindTable(cfg.tables, m.tableId);
    if table.Some? {
      for j := 0 to |m.columns|
        invariant forall e :: e in out <==> e in errors || exists k :: 0 <= k < j && OutputProblem(cfg, i, k, e)
      {
        ghost var before := out;
        var name := m.columns[j].name;
        if name !in ColumnNames(table.value.schema) {
          out := out + [DanglingReference(ColumnAt(i, j, "name"), "analytic_table_column", table.value.id + "." + name)];
        }
        assert forall e :: e in out <==> e in before || OutputProblem(cfg, i, j, e);
      }
    }
  }

  method CheckOperands(cfg: PipelineConfig, i: nat, errors: Errors) returns (out: Errors)
    requires i < |cfg.mappings|
    ensures forall e :: e in out <==> e in errors || exists j :: OperandProblem(cfg, i, j, e)
  {
    out := errors;
    var m := cfg.mappings[i];
    var source := FindSource(cfg.sources, m.sourceId);
    if source.Some? {
      var known := ColumnNames(source.value.schema);
      for j := 0 to |m.columns|
        invariant forall e :: e in out <==> e in errors || exists k :: 0 <= k < j && OperandProblem(cfg, i, k, e)
      {
        ghost var before := out;
        out := VisitColumns(known, source.value.id, ColumnAt(i, j, "expr"), Nodes(m.columns[j].expr), out);
        assert forall e :: e in out <==> e in before || OperandProblem(cfg, i, j, e);
      }
    }
  }

  method CheckMappings(cfg: PipelineConfig, errors: Errors) returns (out: Errors)
    ensures forall e :: e in out <==> e in errors || exists i :: MappingProblem(cfg, i, e)
  {
    out := errors;
    for i := 0 to |cfg.mappings|
      invariant forall e :: e in out <==> e in errors || exists k :: 0 <= k < i && MappingProblem(cfg, k, e)
    {
      ghost var before := out;
      out := CheckReferences(cfg, i, out);
      out := CheckExpressions(cfg, i, out);
      out := CheckFilter(cfg, i, out);
      out := CheckOutputs(cfg, i, out);
      out := CheckOperands(cfg, i, out);
      assert forall e :: e in out <==> e in before || MappingProblem(cfg, i, e);
    }
  }

  // Tables

  /** The type of a column; of two with one name, the later counts. */
  function KindOf(schema: seq<ColumnSchema>, name: string): (r: Option<string>)
    ensures r.None? <==> name !in ColumnNames(schema)
  {
    if schema == [] then None
    else
      var last := schema[|schema| - 1];
      if last.name == name then Some(last.kind) else KindOf(schema[..|schema| - 1], name)
  }

  function TableAt(i: nat, field: string): Pointer {
    [Name("analytic_tables"), Index(i), Name(field)]
  }

  ghost predicate PartitionKeyProblem(table: AnalyticTable, path: Pointer, k: int, e: ConfigError) {
    0 <= k < |table.partitionKeys| &&
    var key := table.partitionKeys[k];
    if key in table.partitionKeys[..k] then e == Schema(path, DuplicatePartitionKey(key))
    else match KindOf(table.schema, key)
         case None => e == DanglingReference(path, "schema_column", key)
         case Some(kind) => (kind == "float64" || kind == "number") && e == Schema(path, FloatCapable(key))
  }

  ghost predicate DedupKeyProblem(table: AnalyticTable, path: Pointer, k: int, e: ConfigError) {
    0 <= k < |table.dedupKeys| &&
    var key := table.dedupKeys[k];
    if key in table.dedupKeys[..k] then e == Schema(path, DuplicateDedupKey(key))
    else KindOf(table.schema, key).None? && e == DanglingReference(path, "schema_column", key)
  }

  ghost predicate TableProblem(cfg: PipelineConfig, i: int, e: ConfigError) {
    0 <= i < |cfg.tables| &&
    var table := cfg.tables[i];
    || (|table.partitionKeys| > 2
        && e == Schema(TableAt(i, "partition_keys"), TooManyKeys(|table.partitionKeys|)))
    || (exists k :: PartitionKeyProblem(table, TableAt(i, "partition_keys"), k, e))
    || (exists k :: DedupKeyProblem(table, TableAt(i, "dedup_keys"), k, e))
  }

  method CheckPartitionKeys(table: AnalyticTable, path: Pointer, errors: Errors) returns (out: Errors)
    ensures forall e :: e in out <==> e in errors || exists k :: PartitionKeyProblem(table, path, k, e)
  {
    out := errors;
    var seen: set<string> := {};
    for k := 0 to |table.partitionKeys|
      invariant forall key :: key in seen <==> key in table.partitionKeys[..k]
      invariant forall e :: e in out <==>
                  e in errors || exists n :: 0 <= n < k && PartitionKeyProblem(table, path, n, e)
    {
      ghost var before := out;
      var key := table.partitionKeys[k];
      assert table.partitionKeys[..k + 1] == table.partitionKeys[..k] + [key];
      if key in seen {
        out := out + [Schema(path, DuplicatePartitionKey(key))];
      } else {
        seen := seen + {key};
        match KindOf(table.schema, key)
        case None => out := out + [DanglingReference(path, "schema_column", key)];
        case Some(kind) =>
          if kind == "float64" || kind == "number" { out := out + [Schema(path, FloatCapable(key))]; }
      }
      assert forall e :: e in out <==> e in before || PartitionKeyProblem(table, path, k, e);
    }
  }

  method CheckDedupKeys(table: AnalyticTable, path: Pointer, errors: Errors) returns (out: Errors)
    ensures forall e :: e in out <==> e in errors || exists k :: DedupKeyProblem(table, path, k, e)
  {
    out := errors;
    var seen: set<string> := {};
    for k := 0 to |table.dedupKeys|
      invariant forall key :: key in seen <==> key in table.dedupKeys[..k]
      invariant forall e :: e in out <==> e in errors || exists n :: 0 <= n < k && DedupKeyProblem(table, path, n, e)
    {
      ghost var before := out;
      var key := table.dedupKeys[k];
      assert table.dedupKeys[..k + 1] == table.dedupKeys[..k] + [key];
      if key in seen {
        out := out + [Schema(path, DuplicateDedupKey(key))];
      } else {
        seen := seen + {key};
        if KindOf(table.schema, key).None? { out := out + [DanglingReference(path, "schema_column", key)]; }
      }
      assert forall e :: e in out <==> e in before || DedupKeyProblem(table, path, k, e);
    }
  }

  method CheckTables(cfg: PipelineConfig, errors: Errors) returns (out: Errors)
    ensures forall e :: e in out <==> e in errors || exists i :: TableProblem(cfg, i, e)
  {
    out := errors;
    for i := 0 to |cfg.tables|
      invariant forall e :: e in out <==> e in errors || exists k :: 0 <= k < i && TableProblem(cfg, k, e)
    {
      ghost var before := out;
      var table := cfg.tables[i];
      if |table.partitionKeys| > 2 {
        out := out + [Schema(TableAt(i, "partition_keys"), TooManyKeys(|table.partitionKeys|))];
      }
      out := CheckPartitionKeys(table, TableAt(i, "partition_keys"), out);
      out := CheckDedupKeys(table, TableAt(i, "dedup_keys"), out);
      assert forall e :: e in out <==> e in before || TableProblem(cfg, i, e);
    }
  }

  // Source prefixes

  function PrefixAt(i: nat): Pointer {
    [Name("source_containers"), Index(i), Name("path_prefix")]
  }

  predicate WellFormedPrefix(p: string) {
    !StartsWith(p, "/") && EndsWith(p, "/") && ".." !in SplitOn(p, '/')
  }

  ghost predicate PrefixProblem(sources: seq<SourceContainer>, i: int, e: ConfigError) {
    0 <= i < |sources| &&
    var p := sources[i].pathPrefix;
    if p == "" then e == MissingField(PrefixAt(i), "path_prefix")
    else !WellFormedPrefix(p) && e == Schema(PrefixAt(i), MalformedPrefix(p))
  }

  ghost predicate NestingProblem(sources: seq<SourceContainer>, i: int, j: int, e: ConfigError) {
    && 0 <= i < |sources| && 0 <= j < |sources| && i != j
    && sources[i].pathPrefix != "" && StartsWith(sources[j].pathPrefix, sources[i].pathPrefix)
    && e == Schema(PrefixAt(j), NestedPrefix(sources[j].pathPrefix, sources[i].pathPrefix, sources[i].id))
  }

  method CheckPrefixes(sources: seq<SourceContainer>, errors: Errors) returns (out: Errors)
    ensures forall e :: e in out <==> e in errors || exists i :: PrefixProblem(sources, i, e)
  {
    out := errors;
    for i := 0 to |sources|
      invariant forall e :: e in out <==> e in errors || exists k :: 0 <= k < i && PrefixProblem(sources, k, e)
    {
      ghost var before := out;
      var p := sources[i].pathPrefix;
      if p == "" {
        out := out + [MissingField(PrefixAt(i), "path_prefix")];
      } else if StartsWith(p, "/") || !EndsWith(p, "/") || ".." in SplitOn(p, '/') {
        out := out + [Schema(PrefixAt(i), MalformedPrefix(p))];
      }
      assert forall e :: e in out <==> e in before || PrefixProblem(sources, i, e);
    }
  }

  method CheckNesting(sources: seq<SourceContainer>, errors: Errors) returns (out: Errors)
    ensures forall e :: e in out <==> e in errors || exists i, j :: NestingProblem(sources, i, j, e)
  {
    out := errors;
    for i := 0 to |sources|
      invariant forall e :: e in out <==> e in errors || exists k, j :: 0 <= k < i && NestingProblem(sources, k, j, e)
    {
      ghost var before := out;
      for j := 0 to |sources|
        invariant forall e :: e in out <==> e in before || exists k :: 0 <= k < j && NestingProblem(sources, i, k, e)
      {
        ghost var sofar := out;
        var a, b := sources[i].pathPrefix, sources[j].pathPrefix;
        if i != j && a != "" && StartsWith(b, a) {
          out := out + [Schema(PrefixAt(j), NestedPrefix(b, a, sources[i].id))];
        }
        assert forall e :: e in out <==> e in sofar || NestingProblem(sources, i, j, e);
      }
      assert forall e :: e in out <==> e in before || exists j :: NestingProblem(sources, i, j, e);
    }
  }

  // The whole config

  function SourceItems(sources: seq<SourceContainer>): (r: seq<Item>)
    ensures |r| == |sources| && forall i | 0 <= i < |r| :: r[i] == Item(sources[i].id, Some(sources[i].name))
  {
    seq(|sources|, i requires 0 <= i < |sources| => Item(sources[i].id, Some(sources[i].name)))
  }

  function DimensionItems(dims: seq<Dimension>): (r: seq<Item>)
    ensures |r| == |dims| && forall i | 0 <= i < |r| :: r[i] == Item(dims[i].id, None)
  {
    seq(|dims|, i requires 0 <= i < |dims| => Item(dims[i].id, None))
  }

  function MappingItems(mappings: seq<Mapping>): (r: seq<Item>)
    ensures |r| == |mappings| && forall i | 0 <= i < |r| :: r[i] == Item(mappings[i].id, None)
  {
    seq(|mappings|, i requires 0 <= i < |mappings| => Item(mappings[i].id, None))
  }

  function TableItems(tables: seq<AnalyticTable>): (r: seq<Item>)
    ensures |r| == |tables| && forall i | 0 <= i < |r| :: r[i] == Item(tables[i].id, Some(tables[i].name))
  {
    seq(|tables|, i requires 0 <= i < |tables| => Item(tables[i].id, Some(tables[i].name)))
  }

  ghost predicate ConfigProblem(cfg: PipelineConfig, e: ConfigError) {
    || (exists i :: IdProblem(SourceItems(cfg.sources), "source_containers", "source_container", i, e))
    || (exists i :: IdProblem(DimensionItems(cfg.dimensions), "dimensions", "lookup_mapping", i, e))
    || (exists i :: IdProblem(MappingItems(cfg.mappings), "mappings", "mapping", i, e))
    || (exists i :: IdProblem(TableItems(cfg.tables), "analytic_tables", "analytic_table", i, e))
    || (exists i :: MappingProblem(cfg, i, e))
    || (exists i :: TableProblem(cfg, i, e))
    || (exists i :: PrefixProblem(cfg.sources, i, e))
    || (exists i, j :: NestingProblem(cfg.sources, i, j, e))
  }

  ghost predicate Valid(cfg: PipelineConfig) {
    forall e :: !ConfigProblem(cfg, e)
  }

  /** Success means no problem exists; failure reports all there are. */
  method Validate(cfg: PipelineConfig) returns (r: Result<(), Errors>)
    ensures r.Ok? <==> Valid(cfg)
    ensures r.Err? ==> forall e :: e in r.error <==> ConfigProblem(cfg, e)
  {
    var errors := CheckIds(SourceItems(cfg.sources), "source_containers", "source_container", []);
    errors := CheckIds(DimensionItems(cfg.dimensions), "dimensions", "lookup_mapping", errors);
    errors := CheckIds(MappingItems(cfg.mappings), "mappings", "mapping", errors);
    errors := CheckIds(TableItems(cfg.tables), "analytic_tables", "analytic_table", errors);
    errors := CheckMappings(cfg, errors);
    errors := CheckTables(cfg, errors);
    errors := CheckPrefixes(cfg.sources, errors);
    errors := CheckNesting(cfg.sources, errors);
    assert forall e :: e in errors <==> ConfigProblem(cfg, e);
    if errors == [] {
      return Ok(());
    }
    assert errors[0] in errors;
    return Err(errors);
  }
}
