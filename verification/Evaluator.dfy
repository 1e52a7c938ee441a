/**
 Compiling expressions: which ones fail, and with what error. What a compiled
 expression computes is up to Polars.
 */
module Evaluator {
  import opened Text
  import opened Config
  import opened Dimensions

  datatype EvalError = UnknownDimension(id: string) | UnknownDimensionValue(id: string, value: string)

  /** The `?` operator: the first error there is. */
  function OrElse(a: Option<EvalError>, b: Option<EvalError>): Option<EvalError> {
    if a.Some? then a else b
  }

  function Named(value: Option<string>): string {
    match value
    case Some(v) => v
    case None => ""
  }

  /** `compile`: its error, or None when the expression compiles. */
  function Compile(node: Ast, registry: Registry): Option<EvalError>
    decreases node
  {
    match node
    case Col(_) | Str(_) | Num(_) | Bool(_) | Null => None
    case Add(_, _) | Sub(_, _) | Mul(_, _) | Div(_, _) | Eq(_, _) | Ne(_, _) | Gt(_, _) | Lt(_, _) | Ge(_, _)
       | Le(_, _) | And(_, _) | Or(_, _) => OrElse(Compile(node.left, registry), Compile(node.right, registry))
    case Contains(input, pattern) => OrElse(Compile(input, registry), Compile(pattern, registry))
    case FromUnix(_, _) | Not(_) | Upper(_) | Lower(_) | Trim(_) | Substring(_, _, _) | Cast(_, _) | Year(_)
       | Month(_) | Day(_) | ParseDate(_, _) => Compile(node.input, registry)
    case Concat(_, args) => CompileAll(args, registry)
    case If(cond, yes, no) => OrElse(Compile(cond, registry), OrElse(Compile(yes, registry), Compile(no, registry)))
    case Coalesce(args) => if args == [] then None else CompileAll(args, registry)
    case DimRef(id, value, input) =>
      if id !in registry then Some(UnknownDimension(id))
      else if registry[id].ValueIndex(value).None? then Some(UnknownDimensionValue(id, Named(value)))
      else Compile(input, registry)
  }

  function CompileAll(args: seq<Ast>, registry: Registry): Option<EvalError>
    decreases args
  {
    if args == [] then None else OrElse(Compile(args[0], registry), CompileAll(args[1..], registry))
  }

  /** What is wrong with one node, whatever is below it: only a reference to a
      dimension, or to a value column, that is not there. */
  function Fault(node: Ast, registry: Registry): Option<EvalError> {
    if !node.DimRef? then None
    else if node.dimId !in registry then Some(UnknownDimension(node.dimId))
    else if node.value.Some? && node.value.value !in registry[node.dimId].valueColumns
    then Some(UnknownDimensionValue(node.dimId, node.value.value))
    else None
  }

  function FirstFault(nodes: seq<Ast>, registry: Registry): Option<EvalError> {
    if nodes == [] then None else OrElse(Fault(nodes[0], registry), FirstFault(nodes[1..], registry))
  }

  lemma {:induction false} FaultsOfBoth(a: seq<Ast>, b: seq<Ast>, registry: Registry)
    ensures FirstFault(a + b, registry) == OrElse(FirstFault(a, registry), FirstFault(b, registry))
  {
    if a == [] {
      assert a + b == b;
    } else {
      assert (a + b)[1..] == a[1..] + b;
      FaultsOfBoth(a[1..], b, registry);
    }
  }

  lemma FaultsOfOne(node: Ast, below: seq<Ast>, registry: Registry)
    ensures FirstFault([node] + below, registry) == OrElse(Fault(node, registry), FirstFault(below, registry))
  {
    assert ([node] + below)[1..] == below;
  }

  predicate TwoOperands(node: Ast) {
    match node
    case Add(_, _) | Sub(_, _) | Mul(_, _) | Div(_, _) | Eq(_, _) | Ne(_, _) | Gt(_, _) | Lt(_, _) | Ge(_, _)
       | Le(_, _) | And(_, _) | Or(_, _) => true
    case _ => false
  }

  predicate OneInput(node: Ast) {
    match node
    case FromUnix(_, _) | Not(_) | Upper(_) | Lower(_) | Trim(_) | Substring(_, _, _) | Cast(_, _) | Year(_)
       | Month(_) | Day(_) | ParseDate(_, _) | DimRef(_, _, _) => true
    case _ => false
  }

  lemma TwoFindFirst(node: Ast, registry: Registry)
    requires TwoOperands(node)
    requires Compile(node.left, registry) == FirstFault(Nodes(node.left), registry)
    requires Compile(node.right, registry) == FirstFault(Nodes(node.right), registry)
    ensures Compile(node, registry) == FirstFault(Nodes(node), registry)
  {
    var below := Nodes(node.left) + Nodes(node.right);
    FaultsOfOne(node, below, registry);
    FaultsOfBoth(Nodes(node.left), Nodes(node.right), registry);
    assert Nodes(node) == [node] + below;
  }

  lemma OneFindsFirst(node: Ast, registry: Registry)
    requires OneInput(node) && Compile(node.input, registry) == FirstFault(Nodes(node.input), registry)
    ensures Compile(node, registry) == FirstFault(Nodes(node), registry)
  {
    FaultsOfOne(node, Nodes(node.input), registry);
    assert Nodes(node) == [node] + Nodes(node.input);
  }

  /** Compilation fails iff the walk of the expression meets a faulty node, and
      with the error of the first one it meets. */
  lemma {:induction false} CompileFindsFirstFault(node: Ast, registry: Registry)
    ensures Compile(node, registry) == FirstFault(Nodes(node), registry)
    decreases node
  {
    if TwoOperands(node) {
      CompileFindsFirstFault(node.left, registry);
      CompileFindsFirstFault(node.right, registry);
      TwoFindFirst(node, registry);
    } else if OneInput(node) {
      CompileFindsFirstFault(node.input, registry);
      OneFindsFirst(node, registry);
    } else {
      FaultsOfOne(node, Nodes(node)[1..], registry);
      match node
      case Contains(input, pattern) =>
        CompileFindsFirstFault(input, registry);
        CompileFindsFirstFault(pattern, registry);
        FaultsOfBoth(Nodes(input), Nodes(pattern), registry);
      case Concat(_, args) => AllFindFirstFault(args, registry);
      case Coalesce(args) => AllFindFirstFault(args, registry);
      case If(cond, yes, no) =>
        CompileFindsFirstFault(cond, registry);
        CompileFindsFirstFault(yes, registry);
        CompileFindsFirstFault(no, registry);
        FaultsOfBoth(Nodes(cond) + Nodes(yes), Nodes(no), registry);
        FaultsOfBoth(Nodes(cond), Nodes(yes), registry);
      case _ =>
    }
  }

  lemma {:induction false} AllFindFirstFault(args: seq<Ast>, registry: Registry)
    ensures CompileAll(args, registry) == FirstFault(NodesOf(args), registry)
    decreases args
  {
    if args != [] {
      CompileFindsFirstFault(args[0], registry);
      AllFindFirstFault(args[1..], registry);
      FaultsOfBoth(Nodes(args[0]), NodesOf(args[1..]), registry);
    }
  }

  lemma {:induction false} NoFault(nodes: seq<Ast>, registry: Registry)
    ensures FirstFault(nodes, registry).None? <==> forall n | n in nodes :: Fault(n, registry).None?
    ensures FirstFault(nodes, registry).Some? ==>
              exists n :: n in nodes && Fault(n, registry) == FirstFault(nodes, registry)
  {
    if nodes != [] {
      NoFault(nodes[1..], registry);
      assert nodes == [nodes[0]] + nodes[1..];
    }
  }

  /** An expression compiles iff every dimension reference in it resolves. */
  lemma CompilesIff(node: Ast, registry: Registry)
    ensures Compile(node, registry).None? <==> forall n | n in Nodes(node) :: Fault(n, registry).None?
    ensures Compile(node, registry).Some? ==>
              exists n :: n in Nodes(node) && Fault(n, registry) == Compile(node, registry)
  {
    CompileFindsFirstFault(node, registry);
    NoFault(Nodes(node), registry);
  }
}
