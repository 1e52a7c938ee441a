/**
 Pipeline configs: sources, dimensions, mappings with their expression trees,
 and analytic tables. The editor's layout and the assertions are left out.
 */
module Config {
  import opened Text

  datatype CastType = ToInt64 | ToFloat64 | ToString | ToDate

  datatype Ast =
    | Col(name: string)
    | Str(text: string)
    | Num(number: real)
    | Bool(truth: bool)
    | Null
    | Add(left: Ast, right: Ast)
    | Sub(left: Ast, right: Ast)
    | Mul(left: Ast, right: Ast)
    | Div(left: Ast, right: Ast)
    | Concat(sep: string, args: seq<Ast>)
    | Upper(input: Ast)
    | Lower(input: Ast)
    | Trim(input: Ast)
    | Substring(input: Ast, start: int, length: Option<int>)
    | Eq(left: Ast, right: Ast)
    | Ne(left: Ast, right: Ast)
    | Gt(left: Ast, right: Ast)
    | Lt(left: Ast, right: Ast)
    | Ge(left: Ast, right: Ast)
    | Le(left: Ast, right: Ast)
    | Contains(input: Ast, pattern: Ast)
    | FromUnix(input: Ast, unit: Option<string>)
    | And(left: Ast, right: Ast)
    | Or(left: Ast, right: Ast)
    | Not(input: Ast)
    | If(cond: Ast, yes: Ast, no: Ast)
    | Coalesce(args: seq<Ast>)
    | ParseDate(input: Ast, format: string)
    | DimRef(dimId: string, value: Option<string>, input: Ast)
    | Year(input: Ast)
    | Month(input: Ast)
    | Day(input: Ast)
    | Cast(input: Ast, to: CastType)

  /** `walk_ast`: every node of a tree, each before the ones below it, and
      siblings from left to right. */
  function Nodes(node: Ast): (nodes: seq<Ast>)
    decreases node
  {
    [node] +
    match node
    case Col(_) | Str(_) | Num(_) | Bool(_) | Null => []
    case Add(_, _) | Sub(_, _) | Mul(_, _) | Div(_, _) | Eq(_, _) | Ne(_, _) | Gt(_, _) | Lt(_, _) | Ge(_, _)
       | Le(_, _) | And(_, _) | Or(_, _) => Nodes(node.left) + Nodes(node.right)
    case Not(_) | FromUnix(_, _) => Nodes(node.input)
    case Concat(_, args) => NodesOf(args)
    case Coalesce(args) => NodesOf(args)
    case Upper(_) | Lower(_) | Trim(_) | Substring(_, _, _) | ParseDate(_, _) | Year(_) | Month(_) | Day(_)
       | DimRef(_, _, _) | Cast(_, _) => Nodes(node.input)
    case Contains(i, p) => Nodes(i) + Nodes(p)
    case If(c, y, n) => Nodes(c) + Nodes(y) + Nodes(n)
  }

  function NodesOf(args: seq<Ast>): seq<Ast>
    decreases args
  {
    if args == [] then [] else Nodes(args[0]) + NodesOf(args[1..])
  }

  datatype SourceFormat = Csv | Ndjson {
    function Extensions(): seq<string> {
      if Csv? then [".csv"] else [".json", ".jsonl", ".ndjson"]
    }
  }

  datatype ColumnSchema = ColumnSchema(name: string, path: Option<string>, kind: string)

  datatype SourceContainer = SourceContainer(id: string, name: string, pathPrefix: string, format: SourceFormat,
                                             schema: seq<ColumnSchema>, recordFilter: Option<Ast>)

  datatype MatchMode = Exact | KeywordSubstring

  datatype OnMiss = NullOut | Passthrough | Literal(text: string)

  datatype InlineRow = InlineRow(patterns: seq<string>, values: seq<string>, priority: int)

  datatype DimensionRows =
    | Inline(values: seq<string>, rows: seq<InlineRow>)
    | File(pathPrefix: string, key: string, values: seq<string>, priorityColumn: Option<string>)

  datatype Dimension = Dimension(id: string, mode: MatchMode, caseInsensitive: Option<bool>, onMiss: OnMiss,
                                 rows: DimensionRows)
  {
    /** Value column names, in declaration order. */
    function ValueColumns(): seq<string> {
      rows.values
    }
  }

  datatype MappingColumn = MappingColumn(name: string, expr: Ast)

  datatype Mapping = Mapping(id: string, sourceId: string, tableId: string, columns: seq<MappingColumn>,
                             filter: Option<Ast>)

  datatype AnalyticTable = AnalyticTable(id: string, name: string, schema: seq<ColumnSchema>,
                                         partitionKeys: seq<string>, dedupKeys: seq<string>)

  datatype PipelineConfig = PipelineConfig(sources: seq<SourceContainer>, dimensions: seq<Dimension>,
                                           mappings: seq<Mapping>, tables: seq<AnalyticTable>)
}
