/**
 What a config is that passes validation, said about the config itself: which
 ids, references, columns, keys and prefixes it may have. Nothing here looks at
 errors or at the checks that look for them.
 */
module SoundConfig {
  import opened Text
  import opened Config
  import opened Validation

  // Expressions

  /** The expressions an expression is made of. */
  function Children(node: Ast): (children: seq<Ast>)
    ensures forall c | c in children :: c < node
  {
    match node
    case Col(_) | Str(_) | Num(_) | Bool(_) | Null => []
    case Concat(_, _) | Coalesce(_) => node.args
    case Upper(_) | Lower(_) | Trim(_) | Substring(_, _, _) | FromUnix(_, _) | Not(_) | ParseDate(_, _)
       | DimRef(_, _, _) | Year(_) | Month(_) | Day(_) | Cast(_, _) => [node.input]
    case Contains(_, _) => [node.input, node.pattern]
    case If(_, _, _) => [node.cond, node.yes, node.no]
    case _ => [node.left, node.right]
  }

  /** `n` is the expression or somewhere in it, however deep. */
  ghost predicate Occurs(n: Ast, node: Ast)
    decreases node
  {
    n == node || exists c | c in Children(node) :: Occurs(n, c)
  }

  lemma {:induction false} NodesOfArgs(args: seq<Ast>, n: Ast)
    ensures n in NodesOf(args) <==> exists c | c in args :: n in Nodes(c)
  {
    if args != [] {
      NodesOfArgs(args[1..], n);
      if c :| c in args[1..] && n in Nodes(c) { assert c in args; }
      if c :| c in args && n in Nodes(c) && c != args[0] { assert c in args[1..]; }
    }
  }

  lemma NodesUnfold(node: Ast)
    ensures Nodes(node) == [node] + NodesOf(Children(node))
  {
    var arity := |Children(node)|;
    if node.Concat? || node.Coalesce? {
    } else if arity == 1 {
      NodesOfInput(node);
    } else if arity == 2 {
      if node.Contains? { NodesOfTwo(node.input, node.pattern); } else { NodesOfSides(node); }
    } else if arity == 3 {
      NodesOfThree(node.cond, node.yes, node.no);
    }
  }

  lemma NodesOfInput(node: Ast)
    requires |Children(node)| == 1 && !node.Concat? && !node.Coalesce?
    ensures Nodes(node) == [node] + NodesOf(Children(node))
  {
    NodesOfOne(Children(node)[0]);
  }

  lemma NodesOfSides(node: Ast)
    requires |Children(node)| == 2 && !node.Concat? && !node.Coalesce? && !node.Contains?
    ensures Nodes(node) == [node] + NodesOf(Children(node))
  {
    NodesOfTwo(node.left, node.right);
  }

  lemma NodesOfOne(a: Ast)
    ensures NodesOf([a]) == Nodes(a)
  {
    assert NodesOf([a]) == Nodes(a) + NodesOf([]);
  }

  lemma NodesOfThree(a: Ast, b: Ast, c: Ast)
    ensures NodesOf([a, b, c]) == Nodes(a) + Nodes(b) + Nodes(c)
  {
    assert [a, b, c][1..] == [b, c];
    NodesOfTwo(b, c);
  }

  lemma NodesOfTwo(a: Ast, b: Ast)
    ensures NodesOf([a, b]) == Nodes(a) + Nodes(b)
  {
    assert [a, b][1..] == [b] && [b][1..] == [];
    assert NodesOf([b]) == Nodes(b) + NodesOf([]);
  }

  /** The walk visits everything that occurs in an expression, and nothing else. */
  lemma {:induction false} NodesAre(node: Ast, n: Ast)
    ensures n in Nodes(node) <==> Occurs(n, node)
    decreases node
  {
    NodesUnfold(node);
    NodesOfArgs(Children(node), n);
    forall c | c in Children(node) ensures n in Nodes(c) <==> Occurs(n, c) { NodesAre(c, n); }
  }

  // Configs

  ghost predicate HasColumn(schema: seq<ColumnSchema>, name: string) {
    exists c | c in schema :: c.name == name
  }

  /** Every id is given and used once. */
  ghost predicate IdsSound(ids: seq<string>) {
    (forall i | 0 <= i < |ids| :: ids[i] != "") && forall i, j | 0 <= i < j < |ids| :: ids[i] != ids[j]
  }

  ghost predicate AllIdsSound(cfg: PipelineConfig) {
    && IdsSound(seq(|cfg.sources|, i requires 0 <= i < |cfg.sources| => cfg.sources[i].id))
    && IdsSound(seq(|cfg.dimensions|, i requires 0 <= i < |cfg.dimensions| => cfg.dimensions[i].id))
    && IdsSound(seq(|cfg.mappings|, i requires 0 <= i < |cfg.mappings| => cfg.mappings[i].id))
    && IdsSound(seq(|cfg.tables|, i requires 0 <= i < |cfg.tables| => cfg.tables[i].id))
    && (forall s | s in cfg.sources :: s.name != "")
    && (forall t | t in cfg.tables :: t.name != "")
  }

  /** The dimension is there, and has the value column asked for. */
  ghost predicate DimRefSound(dims: seq<Dimension>, n: Ast)
    requires n.DimRef?
  {
    exists d | d in dims :: d.id == n.dimId && (n.value.Some? ==> n.value.value in d.rows.values)
  }

  ghost predicate ReferencesSound(cfg: PipelineConfig, m: Mapping) {
    && (m.sourceId == "" || exists s | s in cfg.sources :: s.id == m.sourceId)
    && (m.tableId == "" || exists t | t in cfg.tables :: t.id == m.tableId)
  }

  /** What a column's expression refers to is there, at any depth. */
  ghost predicate ColumnSound(cfg: PipelineConfig, m: Mapping, column: MappingColumn) {
    && (forall n | Occurs(n, column.expr) && n.DimRef? :: DimRefSound(cfg.dimensions, n))
    && (forall t | t in cfg.tables && t.id == m.tableId :: HasColumn(t.schema, column.name))
    && (forall s | s in cfg.sources && s.id == m.sourceId ::
          forall n | Occurs(n, column.expr) && n.Col? :: HasColumn(s.schema, n.name))
  }

  /** A filter reads the mapping's own columns; its value columns are not looked at. */
  ghost predicate FilterSound(cfg: PipelineConfig, m: Mapping) {
    m.filter.Some? ==>
      forall n | Occurs(n, m.filter.value) ::
        && (n.DimRef? ==> exists d | d in cfg.dimensions :: d.id == n.dimId)
        && (n.Col? ==> exists c | c in m.columns :: c.name == n.name)
  }

  ghost predicate MappingSound(cfg: PipelineConfig, m: Mapping) {
    ReferencesSound(cfg, m) && FilterSound(cfg, m) && forall c | c in m.columns :: ColumnSound(cfg, m, c)
  }

  /** Of the columns of one name the last one has this kind. */
  ghost predicate HasKind(schema: seq<ColumnSchema>, name: string, kind: string) {
    exists i: nat :: i < |schema| && schema[i].name == name && schema[i].kind == kind
                     && forall j | i < j < |schema| :: schema[j].name != name
  }

  ghost predicate TableSound(t: AnalyticTable) {
    && |t.partitionKeys| <= 2
    && NoRepeats(t.partitionKeys) && NoRepeats(t.dedupKeys)
    && (forall key | key in t.dedupKeys :: HasColumn(t.schema, key))
    && (forall key | key in t.partitionKeys ::
          HasColumn(t.schema, key) && !HasKind(t.schema, key, "float64") && !HasKind(t.schema, key, "number"))
  }

  /** Relative, a folder, and nowhere going up. */
  ghost predicate PrefixSound(p: string) {
    p != "" && p[0] != '/' && p[|p| - 1] == '/' && !Text.Contains("/" + p, "/../")
  }

  ghost predicate PrefixesSound(sources: seq<SourceContainer>) {
    && (forall s | s in sources :: PrefixSound(s.pathPrefix))
    && forall i, j | 0 <= i < |sources| && 0 <= j < |sources| && i != j ::
         !(sources[i].pathPrefix <= sources[j].pathPrefix)
  }

  ghost predicate Sound(cfg: PipelineConfig) {
    && AllIdsSound(cfg)
    && (forall m | m in cfg.mappings :: MappingSound(cfg, m))
    && (forall t | t in cfg.tables :: TableSound(t))
    && PrefixesSound(cfg.sources)
  }

  // Each check, and what it leaves

  ghost predicate NoIdProblem(items: seq<Item>, collection: string, kind: string) {
    forall i: int, e: ConfigError :: !IdProblem(items, collection, kind, i, e)
  }

  lemma IdsIff(items: seq<Item>, collection: string, kind: string, ids: seq<string>)
    requires |ids| == |items| && forall i | 0 <= i < |items| :: ids[i] == items[i].id
    ensures NoIdProblem(items, collection, kind) <==> IdsSound(ids) && forall i | 0 <= i < |items| :: items[i].name != Some("")
  {
    if NoIdProblem(items, collection, kind) {
      forall i | 0 <= i < |items| ensures ids[i] != "" && items[i].name != Some("") {
        assert !IdProblem(items, collection, kind, i, MissingField([Name(collection), Index(i), Name("id")], "id"));
        assert !IdProblem(items, collection, kind, i, MissingField([Name(collection), Index(i), Name("name")], "name"));
      }
      forall i, j | 0 <= i < j < |ids| ensures ids[i] != ids[j] {
        assert !IdProblem(items, collection, kind, j, DuplicateId([Name(collection), Index(j), Name("id")], kind, items[j].id));
        assert items[i].id == ids[i];
      }
    }
  }

  lemma FoundDimension(dims: seq<Dimension>, ids: seq<string>, d: Dimension)
    requires d in dims && IdsSound(ids) && |ids| == |dims| && forall i | 0 <= i < |ids| :: ids[i] == dims[i].id
    ensures FindDimension(dims, d.id) == Some(d)
  {
    var found := FindDimension(dims, d.id);
    var i :| 0 <= i < |dims| && dims[i] == d;
    var k :| 0 <= k < |dims| && dims[k] == found.value;
    assert ids[i] == ids[k];
  }

  lemma FoundSource(sources: seq<SourceContainer>, ids: seq<string>, s: SourceContainer)
    requires s in sources && IdsSound(ids) && |ids| == |sources| && forall i | 0 <= i < |ids| :: ids[i] == sources[i].id
    ensures FindSource(sources, s.id) == Some(s)
  {
    var found := FindSource(sources, s.id);
    var i :| 0 <= i < |sources| && sources[i] == s;
    var k :| 0 <= k < |sources| && sources[k] == found.value;
    assert ids[i] == ids[k];
  }

  lemma FoundTable(tables: seq<AnalyticTable>, ids: seq<string>, t: AnalyticTable)
    requires t in tables && IdsSound(ids) && |ids| == |tables| && forall i | 0 <= i < |ids| :: ids[i] == tables[i].id
    ensures FindTable(tables, t.id) == Some(t)
  {
    var found := FindTable(tables, t.id);
    var i :| 0 <= i < |tables| && tables[i] == t;
    var k :| 0 <= k < |tables| && tables[k] == found.value;
    assert ids[i] == ids[k];
  }

  /** Looking an entity up by its id finds it: ids are unique. */
  ghost predicate Finds(cfg: PipelineConfig) {
    && (forall d | d in cfg.dimensions :: FindDimension(cfg.dimensions, d.id) == Some(d))
    && (forall s | s in cfg.sources :: FindSource(cfg.sources, s.id) == Some(s))
    && (forall t | t in cfg.tables :: FindTable(cfg.tables, t.id) == Some(t))
  }

  lemma SoundIdsFind(cfg: PipelineConfig)
    requires AllIdsSound(cfg)
    ensures Finds(cfg)
  {
    forall d | d in cfg.dimensions ensures FindDimension(cfg.dimensions, d.id) == Some(d) {
      FoundDimension(cfg.dimensions, seq(|cfg.dimensions|, i requires 0 <= i < |cfg.dimensions| => cfg.dimensions[i].id), d);
    }
    forall s | s in cfg.sources ensures FindSource(cfg.sources, s.id) == Some(s) {
      FoundSource(cfg.sources, seq(|cfg.sources|, i requires 0 <= i < |cfg.sources| => cfg.sources[i].id), s);
    }
    forall t | t in cfg.tables ensures FindTable(cfg.tables, t.id) == Some(t) {
      FoundTable(cfg.tables, seq(|cfg.tables|, i requires 0 <= i < |cfg.tables| => cfg.tables[i].id), t);
    }
  }

  lemma ReferencesIff(cfg: PipelineConfig, i: nat)
    requires i < |cfg.mappings|
    ensures (forall e :: !ReferenceProblem(cfg, i, e)) <==> ReferencesSound(cfg, cfg.mappings[i])
  {
    var m := cfg.mappings[i];
    if forall e :: !ReferenceProblem(cfg, i, e) {
      assert !ReferenceProblem(cfg, i, DanglingReference(MappingAt(i, "source_container_id"), "source_container", m.sourceId));
      assert !ReferenceProblem(cfg, i, DanglingReference(MappingAt(i, "analytic_table_id"), "analytic_table", m.tableId));
    }
  }

  lemma DimRefIff(cfg: PipelineConfig, path: Pointer, n: Ast)
    requires Finds(cfg)
    ensures (forall e :: !DimensionProblem(cfg.dimensions, path, n, e)) <==> (n.DimRef? ==> DimRefSound(cfg.dimensions, n))
  {
    if n.DimRef? && forall e :: !DimensionProblem(cfg.dimensions, path, n, e) {
      assert !DimensionProblem(cfg.dimensions, path, n, DanglingReference(path, "dimension", n.dimId));
      if n.value.Some? {
        assert !DimensionProblem(cfg.dimensions, path, n,
                                 DanglingReference(path, "dimension_value", n.dimId + "." + n.value.value));
      }
    }
  }

  ghost predicate DimRefsSound(cfg: PipelineConfig, expr: Ast) {
    forall n | Occurs(n, expr) && n.DimRef? :: DimRefSound(cfg.dimensions, n)
  }

  lemma ExpressionIff(cfg: PipelineConfig, i: nat, j: nat)
    requires Finds(cfg) && i < |cfg.mappings| && j < |cfg.mappings[i].columns|
    ensures (forall e :: !ExpressionProblem(cfg, i, j, e)) <==> DimRefsSound(cfg, cfg.mappings[i].columns[j].expr)
  {
    var expr, path := cfg.mappings[i].columns[j].expr, ColumnAt(i, j, "expr");
    forall n ensures n in Nodes(expr) <==> Occurs(n, expr) { NodesAre(expr, n); }
    if forall e :: !ExpressionProblem(cfg, i, j, e) {
      forall n | Occurs(n, expr) && n.DimRef? ensures DimRefSound(cfg.dimensions, n) {
        forall e ensures !DimensionProblem(cfg.dimensions, path, n, e) { assert !ExpressionProblem(cfg, i, j, e); }
        DimRefIff(cfg, path, n);
      }
    }
    if DimRefsSound(cfg, expr) {
      forall e ensures !ExpressionProblem(cfg, i, j, e) {
        forall n | n in Nodes(expr) ensures !DimensionProblem(cfg.dimensions, path, n, e) { DimRefIff(cfg, path, n); }
      }
    }
  }

  lemma OutputIff(cfg: PipelineConfig, i: nat, j: nat)
    requires Finds(cfg) && i < |cfg.mappings| && j < |cfg.mappings[i].columns|
    ensures var m := cfg.mappings[i];
            (forall e :: !OutputProblem(cfg, i, j, e)) <==>
            (forall t | t in cfg.tables && t.id == m.tableId :: HasColumn(t.schema, m.columns[j].name))
  {
    var m := cfg.mappings[i];
    var found := FindTable(cfg.tables, m.tableId);
    if found.Some? && forall e :: !OutputProblem(cfg, i, j, e) {
      assert !OutputProblem(cfg, i, j, DanglingReference(ColumnAt(i, j, "name"), "analytic_table_column",
                                                         found.value.id + "." + m.columns[j].name));
    }
  }

  ghost predicate ColsSound(cfg: PipelineConfig, sourceId: string, expr: Ast) {
    forall s | s in cfg.sources && s.id == sourceId :: ColsKnown(s.schema, expr)
  }

  ghost predicate ColsKnown(schema: seq<ColumnSchema>, expr: Ast) {
    forall n | Occurs(n, expr) && n.Col? :: HasColumn(schema, n.name)
  }

  lemma OperandIff(cfg: PipelineConfig, i: nat, j: nat)
    requires Finds(cfg) && i < |cfg.mappings| && j < |cfg.mappings[i].columns|
    ensures (forall e :: !OperandProblem(cfg, i, j, e))
            <==> ColsSound(cfg, cfg.mappings[i].sourceId, cfg.mappings[i].columns[j].expr)
  {
    var m := cfg.mappings[i];
    var found := FindSource(cfg.sources, m.sourceId);
    if found.Some? {
      OperandsOf(cfg, i, j, found.value);
    }
  }

  lemma OperandsOf(cfg: PipelineConfig, i: nat, j: nat, s: SourceContainer)
    requires i < |cfg.mappings| && j < |cfg.mappings[i].columns|
    requires FindSource(cfg.sources, cfg.mappings[i].sourceId) == Some(s)
    ensures (forall e :: !OperandProblem(cfg, i, j, e)) <==> ColsKnown(s.schema, cfg.mappings[i].columns[j].expr)
  {
    var expr, path := cfg.mappings[i].columns[j].expr, ColumnAt(i, j, "expr");
    forall n ensures n in Nodes(expr) <==> Occurs(n, expr) { NodesAre(expr, n); }
    if forall e :: !OperandProblem(cfg, i, j, e) {
      forall n | Occurs(n, expr) && n.Col? ensures HasColumn(s.schema, n.name) {
        var e := DanglingReference(path, "source_column", s.id + "." + n.name);
        assert !OperandProblem(cfg, i, j, e);
        assert !SourceColumnProblem(ColumnNames(s.schema), s.id, path, n, e);
      }
    }
  }

  lemma FilterIff(cfg: PipelineConfig, i: nat)
    requires Finds(cfg) && i < |cfg.mappings|
    ensures (forall e :: !FilterProblem(cfg, i, e)) <==> FilterSound(cfg, cfg.mappings[i])
  {
    var m := cfg.mappings[i];
    if m.filter.Some? {
      var path, known := MappingAt(i, "where"), OutputNames(m.columns);
      forall n ensures n in Nodes(m.filter.value) <==> Occurs(n, m.filter.value) { NodesAre(m.filter.value, n); }
      if forall e :: !FilterProblem(cfg, i, e) {
        forall n | Occurs(n, m.filter.value)
          ensures n.DimRef? ==> exists d | d in cfg.dimensions :: d.id == n.dimId
          ensures n.Col? ==> exists c | c in m.columns :: c.name == n.name
        {
          forall e ensures !WhereProblem(cfg.dimensions, known, m.id, path, n, e) { assert !FilterProblem(cfg, i, e); }
          WhereIff(cfg, m, path, n);
        }
      }
    }
  }

  lemma WhereIff(cfg: PipelineConfig, m: Mapping, path: Pointer, n: Ast)
    requires forall e :: !WhereProblem(cfg.dimensions, OutputNames(m.columns), m.id, path, n, e)
    ensures n.DimRef? ==> exists d | d in cfg.dimensions :: d.id == n.dimId
    ensures n.Col? ==> exists c | c in m.columns :: c.name == n.name
  {
    var known := OutputNames(m.columns);
    if n.DimRef? {
      assert !WhereProblem(cfg.dimensions, known, m.id, path, n, DanglingReference(path, "dimension", n.dimId));
    }
    if n.Col? {
      assert !WhereProblem(cfg.dimensions, known, m.id, path, n,
                           DanglingReference(path, "mapping_column", m.id + "." + n.name));
    }
  }

  lemma MappingIff(cfg: PipelineConfig, i: nat)
    requires Finds(cfg) && i < |cfg.mappings|
    ensures (forall e :: !MappingProblem(cfg, i, e)) <==> MappingSound(cfg, cfg.mappings[i])
  {
    var m := cfg.mappings[i];
    ReferencesIff(cfg, i);
    FilterIff(cfg, i);
    forall j: nat | j < |m.columns|
      ensures ColumnFine(cfg, i, j) <==> ColumnSound(cfg, m, m.columns[j])
    {
      ExpressionIff(cfg, i, j);
      OutputIff(cfg, i, j);
      OperandIff(cfg, i, j);
    }
    SplitMapping(cfg, i);
  }

  ghost predicate ColumnFine(cfg: PipelineConfig, i: nat, j: nat)
    requires i < |cfg.mappings|
  {
    && (forall e :: !ExpressionProblem(cfg, i, j, e))
    && (forall e :: !OutputProblem(cfg, i, j, e))
    && (forall e :: !OperandProblem(cfg, i, j, e))
  }

  lemma SplitMapping(cfg: PipelineConfig, i: nat)
    requires i < |cfg.mappings|
    ensures (forall e :: !MappingProblem(cfg, i, e)) <==>
            (forall e :: !ReferenceProblem(cfg, i, e)) && (forall e :: !FilterProblem(cfg, i, e))
            && forall j: nat | j < |cfg.mappings[i].columns| :: ColumnFine(cfg, i, j)
  {
    if forall e :: !MappingProblem(cfg, i, e) {
      forall j: nat | j < |cfg.mappings[i].columns| ensures ColumnFine(cfg, i, j) {
        forall e ensures !ExpressionProblem(cfg, i, j, e) && !OutputProblem(cfg, i, j, e) && !OperandProblem(cfg, i, j, e) {
          assert !MappingProblem(cfg, i, e);
        }
      }
      forall e ensures !ReferenceProblem(cfg, i, e) && !FilterProblem(cfg, i, e) { assert !MappingProblem(cfg, i, e); }
    } else {
      var e :| MappingProblem(cfg, i, e);
      if !ReferenceProblem(cfg, i, e) && !FilterProblem(cfg, i, e) {
        if j :| ExpressionProblem(cfg, i, j, e) { assert !ColumnFine(cfg, i, j); }
        else if j :| OutputProblem(cfg, i, j, e) { assert !ColumnFine(cfg, i, j); }
        else {
          var j :| OperandProblem(cfg, i, j, e);
          assert !ColumnFine(cfg, i, j);
        }
      }
    }
  }

  // Tables

  lemma {:induction false} KindIs(schema: seq<ColumnSchema>, name: string, kind: string)
    ensures KindOf(schema, name) == Some(kind) <==> HasKind(schema, name, kind)
  {
    if schema != [] {
      var n := |schema| - 1;
      KindIs(schema[..n], name, kind);
      if schema[n].name != name {
        if HasKind(schema[..n], name, kind) {
          var i: nat :| i < n && schema[..n][i].name == name && schema[..n][i].kind == kind
                        && forall j | i < j < n :: schema[..n][j].name != name;
          assert forall j | i < j < |schema| :: schema[j].name != name by {
            forall j | i < j < |schema| ensures schema[j].name != name { if j < n { assert schema[..n][j] == schema[j]; } }
          }
        }
      }
    }
  }

  lemma PartitionKeyIff(t: AnalyticTable, path: Pointer, k: nat)
    requires k < |t.partitionKeys|
    ensures var key := t.partitionKeys[k];
            (forall e :: !PartitionKeyProblem(t, path, k, e)) <==>
            key !in t.partitionKeys[..k] && HasColumn(t.schema, key)
            && !HasKind(t.schema, key, "float64") && !HasKind(t.schema, key, "number")
  {
    var key := t.partitionKeys[k];
    KindIs(t.schema, key, "float64");
    KindIs(t.schema, key, "number");
    if forall e :: !PartitionKeyProblem(t, path, k, e) {
      assert !PartitionKeyProblem(t, path, k, Schema(path, DuplicatePartitionKey(key)));
      assert !PartitionKeyProblem(t, path, k, DanglingReference(path, "schema_column", key));
      assert !PartitionKeyProblem(t, path, k, Schema(path, FloatCapable(key)));
    }
  }

  lemma DedupKeyIff(t: AnalyticTable, path: Pointer, k: nat)
    requires k < |t.dedupKeys|
    ensures var key := t.dedupKeys[k];
            (forall e :: !DedupKeyProblem(t, path, k, e)) <==> key !in t.dedupKeys[..k] && HasColumn(t.schema, key)
  {
    var key := t.dedupKeys[k];
    if forall e :: !DedupKeyProblem(t, path, k, e) {
      assert !DedupKeyProblem(t, path, k, Schema(path, DuplicateDedupKey(key)));
      assert !DedupKeyProblem(t, path, k, DanglingReference(path, "schema_column", key));
    }
  }

  /** Each one new among those before it: no two are the same. */
  lemma NewEachTime(keys: seq<string>)
    ensures NoRepeats(keys) <==> forall k: nat | k < |keys| :: keys[k] !in keys[..k]
  {
    if forall k: nat | k < |keys| :: keys[k] !in keys[..k] {
      forall i, j | 0 <= i < j < |keys| ensures keys[i] != keys[j] { assert keys[..j][i] == keys[i]; }
    }
  }

  ghost predicate KeyFine(t: AnalyticTable, key: string) {
    HasColumn(t.schema, key) && !HasKind(t.schema, key, "float64") && !HasKind(t.schema, key, "number")
  }

  lemma PartitionKeysIff(t: AnalyticTable, path: Pointer)
    ensures (forall k: int, e :: !PartitionKeyProblem(t, path, k, e)) <==>
            NoRepeats(t.partitionKeys) && forall key | key in t.partitionKeys :: KeyFine(t, key)
  {
    var keys := t.partitionKeys;
    NewEachTime(keys);
    forall k: nat | k < |keys|
      ensures (forall e :: !PartitionKeyProblem(t, path, k, e)) <==> keys[k] !in keys[..k] && KeyFine(t, keys[k])
    {
      PartitionKeyIff(t, path, k);
    }
    if forall k: int, e :: !PartitionKeyProblem(t, path, k, e) {
      forall k: nat | k < |keys| ensures keys[k] !in keys[..k] && KeyFine(t, keys[k]) {
        assert forall e :: !PartitionKeyProblem(t, path, k, e);
      }
    }
    if NoRepeats(keys) && forall key | key in keys :: KeyFine(t, key) {
      forall k: int, e ensures !PartitionKeyProblem(t, path, k, e) {
        if 0 <= k < |keys| { assert keys[k] in keys; }
      }
    }
  }

  lemma DedupKeysIff(t: AnalyticTable, path: Pointer)
    ensures (forall k: int, e :: !DedupKeyProblem(t, path, k, e)) <==>
            NoRepeats(t.dedupKeys) && forall key | key in t.dedupKeys :: HasColumn(t.schema, key)
  {
    var keys := t.dedupKeys;
    NewEachTime(keys);
    forall k: nat | k < |keys|
      ensures (forall e :: !DedupKeyProblem(t, path, k, e)) <==> keys[k] !in keys[..k] && HasColumn(t.schema, keys[k])
    {
      DedupKeyIff(t, path, k);
    }
    if forall k: int, e :: !DedupKeyProblem(t, path, k, e) {
      forall k: nat | k < |keys| ensures keys[k] !in keys[..k] && HasColumn(t.schema, keys[k]) {
        assert forall e :: !DedupKeyProblem(t, path, k, e);
      }
    }
    if NoRepeats(keys) && forall key | key in keys :: HasColumn(t.schema, key) {
      forall k: int, e ensures !DedupKeyProblem(t, path, k, e) {
        if 0 <= k < |keys| { assert keys[k] in keys; }
      }
    }
  }

  lemma TableIff(cfg: PipelineConfig, i: nat)
    requires i < |cfg.tables|
    ensures (forall e :: !TableProblem(cfg, i, e)) <==> TableSound(cfg.tables[i])
  {
    var t := cfg.tables[i];
    var path, other := TableAt(i, "partition_keys"), TableAt(i, "dedup_keys");
    PartitionKeysIff(t, path);
    DedupKeysIff(t, other);
    if forall e :: !TableProblem(cfg, i, e) {
      assert !TableProblem(cfg, i, Schema(path, TooManyKeys(|t.partitionKeys|)));
      forall k: int, e ensures !PartitionKeyProblem(t, path, k, e) && !DedupKeyProblem(t, other, k, e) {
        assert !TableProblem(cfg, i, e);
      }
      assert forall key | key in t.partitionKeys :: KeyFine(t, key);
    }
    if TableSound(t) {
      assert forall key | key in t.partitionKeys :: KeyFine(t, key);
    }
  }

  // Prefixes

  lemma NoSlashMore(p: string)
    requires p != "" && p[|p| - 1] == '/'
    ensures Text.Contains("/" + p + "/", "/../") <==> Text.Contains("/" + p, "/../")
  {
    var t, u := "/" + p + "/", "/" + p;
    if Text.Contains(t, "/../") {
      var i: nat :| i <= |t| && ContainsAt(t, "/../", i);
      assert t[|t| - 2] == '/' && t[i..i + 4][2] == '.';
      assert u[i..i + 4] == t[i..i + 4];
      assert ContainsAt(u, "/../", i);
    }
    if Text.Contains(u, "/../") {
      var i: nat :| i <= |u| && ContainsAt(u, "/../", i);
      assert t[i..i + 4] == u[i..i + 4];
      assert ContainsAt(t, "/../", i);
    }
  }

  lemma WellFormedIff(p: string)
    ensures PrefixSound(p) <==> p != "" && WellFormedPrefix(p)
  {
    if p != "" && p[|p| - 1] == '/' {
      SegmentsBetween(p, "..");
      NoSlashMore(p);
      assert "/" + ".." + "/" == "/../";
      assert p[|p| - 1..] == "/";
      assert ("/" <= p) <==> p[0] == '/';
    }
    if p != "" && EndsWith(p, "/") { assert p[|p| - 1..][0] == '/'; }
  }

  lemma PrefixIff(sources: seq<SourceContainer>, i: nat)
    requires i < |sources|
    ensures (forall e :: !PrefixProblem(sources, i, e)) <==> PrefixSound(sources[i].pathPrefix)
  {
    var p := sources[i].pathPrefix;
    WellFormedIff(p);
    if forall e :: !PrefixProblem(sources, i, e) {
      assert !PrefixProblem(sources, i, MissingField(PrefixAt(i), "path_prefix"));
      assert !PrefixProblem(sources, i, Schema(PrefixAt(i), MalformedPrefix(p)));
    }
  }

  lemma NestingIff(sources: seq<SourceContainer>, i: nat, j: nat)
    requires i < |sources| && j < |sources| && i != j && sources[i].pathPrefix != ""
    ensures (forall e :: !NestingProblem(sources, i, j, e)) <==> !(sources[i].pathPrefix <= sources[j].pathPrefix)
  {
    var e := Schema(PrefixAt(j), NestedPrefix(sources[j].pathPrefix, sources[i].pathPrefix, sources[i].id));
    if forall e :: !NestingProblem(sources, i, j, e) { assert !NestingProblem(sources, i, j, e); }
  }

  ghost predicate NoPrefixProblems(sources: seq<SourceContainer>) {
    (forall i: int, e :: !PrefixProblem(sources, i, e)) && forall i: int, j: int, e :: !NestingProblem(sources, i, j, e)
  }

  lemma PrefixesIff(sources: seq<SourceContainer>)
    ensures NoPrefixProblems(sources) <==> PrefixesSound(sources)
  {
    forall i: nat | i < |sources|
      ensures (forall e :: !PrefixProblem(sources, i, e)) <==> PrefixSound(sources[i].pathPrefix)
    {
      PrefixIff(sources, i);
    }
    forall i: nat, j: nat | i < |sources| && j < |sources| && i != j && sources[i].pathPrefix != ""
      ensures (forall e :: !NestingProblem(sources, i, j, e)) <==> !(sources[i].pathPrefix <= sources[j].pathPrefix)
    {
      NestingIff(sources, i, j);
    }
    if NoPrefixProblems(sources) {
      forall i | 0 <= i < |sources| ensures PrefixSound(sources[i].pathPrefix) {
        assert forall e :: !PrefixProblem(sources, i, e);
      }
      forall i, j | 0 <= i < |sources| && 0 <= j < |sources| && i != j
        ensures !(sources[i].pathPrefix <= sources[j].pathPrefix)
      {
        assert forall e :: !NestingProblem(sources, i, j, e);
      }
    }
  }

  // The whole config

  lemma AllIdsIff(cfg: PipelineConfig)
    ensures AllIdsSound(cfg) <==>
            && NoIdProblem(SourceItems(cfg.sources), "source_containers", "source_container")
            && NoIdProblem(DimensionItems(cfg.dimensions), "dimensions", "lookup_mapping")
            && NoIdProblem(MappingItems(cfg.mappings), "mappings", "mapping")
            && NoIdProblem(TableItems(cfg.tables), "analytic_tables", "analytic_table")
  {
    IdsIff(SourceItems(cfg.sources), "source_containers", "source_container",
           seq(|cfg.sources|, i requires 0 <= i < |cfg.sources| => cfg.sources[i].id));
    IdsIff(DimensionItems(cfg.dimensions), "dimensions", "lookup_mapping",
           seq(|cfg.dimensions|, i requires 0 <= i < |cfg.dimensions| => cfg.dimensions[i].id));
    IdsIff(MappingItems(cfg.mappings), "mappings", "mapping",
           seq(|cfg.mappings|, i requires 0 <= i < |cfg.mappings| => cfg.mappings[i].id));
    IdsIff(TableItems(cfg.tables), "analytic_tables", "analytic_table",
           seq(|cfg.tables|, i requires 0 <= i < |cfg.tables| => cfg.tables[i].id));
  }

  ghost predicate NoProblem(cfg: PipelineConfig) {
    && NoIdProblem(SourceItems(cfg.sources), "source_containers", "source_container")
    && NoIdProblem(DimensionItems(cfg.dimensions), "dimensions", "lookup_mapping")
    && NoIdProblem(MappingItems(cfg.mappings), "mappings", "mapping")
    && NoIdProblem(TableItems(cfg.tables), "analytic_tables", "analytic_table")
    && (forall i: int, e :: !MappingProblem(cfg, i, e))
    && (forall i: int, e :: !TableProblem(cfg, i, e))
    && NoPrefixProblems(cfg.sources)
  }

  lemma NoIdProblems(cfg: PipelineConfig)
    requires Valid(cfg)
    ensures NoIdProblem(SourceItems(cfg.sources), "source_containers", "source_container")
    ensures NoIdProblem(DimensionItems(cfg.dimensions), "dimensions", "lookup_mapping")
    ensures NoIdProblem(MappingItems(cfg.mappings), "mappings", "mapping")
    ensures NoIdProblem(TableItems(cfg.tables), "analytic_tables", "analytic_table")
  {
    forall i: int, e: ConfigError
      ensures !IdProblem(SourceItems(cfg.sources), "source_containers", "source_container", i, e)
      ensures !IdProblem(DimensionItems(cfg.dimensions), "dimensions", "lookup_mapping", i, e)
      ensures !IdProblem(MappingItems(cfg.mappings), "mappings", "mapping", i, e)
      ensures !IdProblem(TableItems(cfg.tables), "analytic_tables", "analytic_table", i, e)
    {
      assert !ConfigProblem(cfg, e);
    }
  }

  lemma NoProblemIff(cfg: PipelineConfig)
    ensures Valid(cfg) <==> NoProblem(cfg)
  {
    if Valid(cfg) {
      assert forall e :: !ConfigProblem(cfg, e);
      forall i: int, e ensures !PrefixProblem(cfg.sources, i, e) && !MappingProblem(cfg, i, e) && !TableProblem(cfg, i, e) {
        assert !ConfigProblem(cfg, e);
      }
      forall i: int, j: int, e ensures !NestingProblem(cfg.sources, i, j, e) { assert !ConfigProblem(cfg, e); }
      NoIdProblems(cfg);
    }
  }

  lemma MappingsIff(cfg: PipelineConfig)
    requires Finds(cfg)
    ensures (forall i: int, e :: !MappingProblem(cfg, i, e)) <==> forall m | m in cfg.mappings :: MappingSound(cfg, m)
  {
    forall i: nat | i < |cfg.mappings|
      ensures (forall e :: !MappingProblem(cfg, i, e)) <==> MappingSound(cfg, cfg.mappings[i])
    {
      MappingIff(cfg, i);
    }
    if forall i: int, e :: !MappingProblem(cfg, i, e) {
      forall m | m in cfg.mappings ensures MappingSound(cfg, m) {
        var i :| 0 <= i < |cfg.mappings| && cfg.mappings[i] == m;
        assert forall e :: !MappingProblem(cfg, i, e);
      }
    }
  }

  lemma TablesIff(cfg: PipelineConfig)
    ensures (forall i: int, e :: !TableProblem(cfg, i, e)) <==> forall t | t in cfg.tables :: TableSound(t)
  {
    forall i: nat | i < |cfg.tables|
      ensures (forall e :: !TableProblem(cfg, i, e)) <==> TableSound(cfg.tables[i])
    {
      TableIff(cfg, i);
    }
    if forall i: int, e :: !TableProblem(cfg, i, e) {
      forall t | t in cfg.tables ensures TableSound(t) {
        var i :| 0 <= i < |cfg.tables| && cfg.tables[i] == t;
        assert forall e :: !TableProblem(cfg, i, e);
      }
    }
  }

  /** Validation accepts exactly the sound configs. */
  lemma ValidIffSound(cfg: PipelineConfig)
    ensures Valid(cfg) <==> Sound(cfg)
  {
    NoProblemIff(cfg);
    AllIdsIff(cfg);
    if AllIdsSound(cfg) {
      SoundIdsFind(cfg);
      MappingsIff(cfg);
    }
    TablesIff(cfg);
    PrefixesIff(cfg.sources);
  }
}
