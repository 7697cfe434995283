/**
 * The source expression tree handed to the visitor (System.Linq.Expressions, restricted to
 * the node kinds the core inspects), its static types, and a size measure.
 */
module ExpressionTrees {
  import opened Wrappers
  import opened ClrTypes

  /** A lambda parameter; parameters are compared by identity, modelled by name and type. */
  datatype Param = Param(name: string, paramType: ClrType)

  datatype Expr =
    | Constant(value: Value, constType: ClrType)
    | Parameter(param: Param)
    | Member(obj: Option<Expr>, memberName: string, memberType: ClrType)
    | Unary(unaryKind: UnaryKind, operand: Expr, unaryType: ClrType)
    | Binary(binaryKind: BinaryKind, left: Expr, right: Expr, binaryType: ClrType)
    | Call(callee: MethodKey, instance: Option<Expr>, args: seq<Expr>)
    | Lambda(params: seq<Param>, body: Expr, lambdaType: ClrType)
    | NewArray(arrayKind: NewArrayKind, elements: seq<Expr>, arrayType: ClrType)
    | New(ctor: Option<CtorKey>, ctorArgs: seq<Expr>, newType: ClrType)

  /** Expression.Type */
  function TypeOf(e: Expr): ClrType {
    match e
    case Constant(_, t) => t
    case Parameter(p) => p.paramType
    case Member(_, _, t) => t
    case Unary(_, _, t) => t
    case Binary(_, _, _, t) => t
    case Call(m, _, _) => m.returnType
    case Lambda(_, _, t) => t
    case NewArray(_, _, t) => t
    case New(_, _, t) => t
  }

  /**
   * What Expression.New checks when a tree is built: a constructor node carries exactly as many
   * arguments as its constructor has parameters. Every tree the visitor receives satisfies it.
   */
  ghost predicate WellTyped(e: Expr)
    decreases e
  {
    match e
    case Constant(_, _) => true
    case Parameter(_) => true
    case Member(o, _, _) => o.Some? ==> WellTyped(o.value)
    case Unary(_, x, _) => WellTyped(x)
    case Binary(_, l, r, _) => WellTyped(l) && WellTyped(r)
    case Call(_, o, args) => (o.Some? ==> WellTyped(o.value)) && AllWellTyped(args)
    case Lambda(_, b, _) => WellTyped(b)
    case NewArray(_, es, _) => AllWellTyped(es)
    case New(c, args, _) => (c.Some? ==> |args| == |c.value.params|) && AllWellTyped(args)
  }

  ghost predicate AllWellTyped(es: seq<Expr>)
    decreases es
  {
    forall i :: 0 <= i < |es| ==> WellTyped(es[i])
  }

  /** Number of nodes; the visitor's recursion, including its re-visit of a rewritten call, decreases it. */
  function Size(e: Expr): (n: nat)
    ensures n >= 1
  {
    match e
    case Constant(_, _) => 1
    case Parameter(_) => 1
    case Member(o, _, _) => 1 + SizeOpt(o)
    case Unary(_, x, _) => 1 + Size(x)
    case Binary(_, l, r, _) => 1 + Size(l) + Size(r)
    case Call(_, o, args) => 1 + SizeOpt(o) + SizeSeq(args)
    case Lambda(_, b, _) => 1 + Size(b)
    case NewArray(_, es, _) => 1 + SizeSeq(es)
    case New(_, args, _) => 1 + SizeSeq(args)
  }

  function SizeOpt(o: Option<Expr>): nat {
    match o
    case None => 0
    case Some(x) => Size(x)
  }

  function SizeSeq(es: seq<Expr>): nat {
    if es == [] then 0 else Size(es[0]) + SizeSeq(es[1..])
  }

  lemma {:induction false} SizeSeqElement(es: seq<Expr>, i: nat)
    requires i < |es|
    ensures Size(es[i]) <= SizeSeq(es)
  {
    if i > 0 {
      SizeSeqElement(es[1..], i - 1);
    }
  }

  lemma SizeSeqFirstTwo(es: seq<Expr>)
    requires |es| >= 2
    ensures Size(es[0]) + Size(es[1]) <= SizeSeq(es)
  {
    assert SizeSeq(es) == Size(es[0]) + SizeSeq(es[1..]);
    assert SizeSeq(es[1..]) == Size(es[1]) + SizeSeq(es[2..]);
  }

  lemma SizeSeqPair(a: Expr, b: Expr)
    ensures SizeSeq([a, b]) == Size(a) + Size(b)
  {
    assert [a, b][1..] == [b];
    assert [b][1..] == [];
    assert SizeSeq([b]) == Size(b) + SizeSeq([]);
  }
}
