/**
 * The SQL the visitor builds keeps the factory's nullability invariant, given that the
 * collaborators keep it.
 *  - For every well-typed tree, every function argument has a flag (FlagsCover).
 *  - For every well-typed tree without a seven-argument DateTime constructor of constant kind,
 *    every function has exactly one flag per argument (WellFormed). That constructor's vectors, as
 *    written, are one flag too long; the corrected call keeps the exact invariant.
 */
module VisitorWellFormedness {
  import opened Wrappers
  import opened ClrTypes
  import opened SqlAst
  import opened ExpressionTrees
  import opened SqlTranslatingVisitor

  predicate SqlFlagsFit(exact: bool, r: Visited) {
    r.Sql? ==> FlagsFit(exact, r.sql)
  }

  /**
   * The opaque collaborators keep the invariant. Those given SQL return fitting SQL whenever they
   * are given fitting SQL. The base visitor and the LTree translator are given expression trees,
   * which they may visit through this visitor; they return fitting SQL for admitted trees.
   */
  ghost predicate CollaboratorsKeep(v: Visitor, exact: bool) {
    (forall e :: Admitted(exact, e) ==> SqlFlagsFit(exact, v.base(e)))
    && (forall s :: FlagsFit(exact, s) && v.jsonArrayLength(s).Some? ==> FlagsFit(exact, v.jsonArrayLength(s).value))
    && (forall a, b, t :: FlagsFit(exact, a) && FlagsFit(exact, b) && v.jsonMemberAccess(a, b, t).Some?
          ==> FlagsFit(exact, v.jsonMemberAccess(a, b, t).value))
    && (forall m, args :: AllAdmitted(exact, args) && v.ltreeArrayMethodCall(m, args).Handled?
          ==> SqlFlagsFit(exact, v.ltreeArrayMethodCall(m, args).result))
    && (forall k, a, b, tm :: FlagsFit(exact, a) && FlagsFit(exact, b) ==> FlagsFit(exact, v.makeBinary(k, a, b, tm)))
    && (forall s :: FlagsFit(exact, s) ==> FlagsFit(exact, v.oneBasedIndex(s)))
  }

  /**
   * The trees the invariant is proved for: well typed (a constructor node has as many arguments as
   * its constructor has parameters) and, when `exact`, with no seven-argument DateTime constructor
   * whose kind is a constant anywhere in the tree.
   */
  ghost predicate Admitted(exact: bool, e: Expr)
    decreases e
  {
    match e
    case Constant(_, _) => true
    case Parameter(_) => true
    case Member(o, _, _) => o.Some? ==> Admitted(exact, o.value)
    case Unary(_, x, _) => Admitted(exact, x)
    case Binary(_, l, r, _) => Admitted(exact, l) && Admitted(exact, r)
    case Call(_, o, args) => (o.Some? ==> Admitted(exact, o.value)) && AllAdmitted(exact, args)
    case Lambda(_, b, _) => Admitted(exact, b)
    case NewArray(_, es, _) => AllAdmitted(exact, es)
    case New(c, args, _) =>
      (c.Some? ==> |args| == |c.value.params|) && AllAdmitted(exact, args)
      && (exact ==> !(c == Some(DateTimeCtor3) && HasConstantKind(e)))
  }

  ghost predicate AllAdmitted(exact: bool, es: seq<Expr>)
    decreases es
  {
    forall i :: 0 <= i < |es| ==> Admitted(exact, es[i])
  }

  /** Every well-typed tree is admitted for the covering invariant. */
  lemma {:induction false} WellTypedIsAdmitted(e: Expr)
    requires WellTyped(e)
    ensures Admitted(false, e)
    decreases e
  {
    match e
    case Constant(_, _) =>
    case Parameter(_) =>
    case Member(o, _, _) => if o.Some? { WellTypedIsAdmitted(o.value); }
    case Unary(_, x, _) => WellTypedIsAdmitted(x);
    case Binary(_, l, r, _) => WellTypedIsAdmitted(l); WellTypedIsAdmitted(r);
    case Call(_, o, args) =>
      if o.Some? { WellTypedIsAdmitted(o.value); }
      forall i | 0 <= i < |args| ensures Admitted(false, args[i]) { WellTypedIsAdmitted(args[i]); }
    case Lambda(_, b, _) => WellTypedIsAdmitted(b);
    case NewArray(_, es, _) =>
      forall i | 0 <= i < |es| ensures Admitted(false, es[i]) { WellTypedIsAdmitted(es[i]); }
    case New(_, args, _) =>
      forall i | 0 <= i < |args| ensures Admitted(false, args[i]) { WellTypedIsAdmitted(args[i]); }
  }

  /** Every function argument in the visitor's SQL has a nullability flag, for every well-typed tree. */
  lemma VisitKeepsFlagsCover(v: Visitor, e: Expr)
    requires CollaboratorsKeep(v, false) && WellTyped(e)
    ensures Visit(v, e).Sql? ==> FlagsCover(Visit(v, e).sql)
  {
    WellTypedIsAdmitted(e);
    VisitKeepsFlagsFit(v, false, e);
  }

  /**
   * Exactly one flag per function argument, the factory's invariant, for every well-typed tree
   * without a seven-argument DateTime constructor of constant kind.
   */
  lemma VisitKeepsWellFormed(v: Visitor, e: Expr)
    requires CollaboratorsKeep(v, true) && Admitted(true, e)
    ensures Visit(v, e).Sql? ==> WellFormed(Visit(v, e).sql)
  {
    VisitKeepsFlagsFit(v, true, e);
  }

  /**
   * The mutual induction over Visit and its overrides, for both invariants at once: the SQL built
   * from an admitted tree fits, exactly or by covering as `exact` says.
   */
  lemma {:induction false} VisitKeepsFlagsFit(v: Visitor, exact: bool, e: Expr)
    requires CollaboratorsKeep(v, exact) && Admitted(exact, e)
    ensures SqlFlagsFit(exact, Visit(v, e))
    decreases Size(e), 5
  {
    match e
    case Unary(_, _, _) => UnaryKeepsFlagsFit(v, exact, e);
    case Binary(_, _, _, _) => BinaryKeepsFlagsFit(v, exact, e);
    case Call(_, _, _) => MethodCallKeepsFlagsFit(v, exact, e);
    case NewArray(_, _, _) => NewArrayKeepsFlagsFit(v, exact, e);
    case New(_, _, _) => NewKeepsFlagsFit(v, exact, e);
    case _ =>
  }

  lemma {:induction false} UnaryKeepsFlagsFit(v: Visitor, exact: bool, e: Expr)
    requires CollaboratorsKeep(v, exact) && Admitted(exact, e) && e.Unary?
    ensures SqlFlagsFit(exact, VisitUnary(v, e))
    decreases Size(e), 4
  {
    VisitKeepsFlagsFit(v, exact, e.operand);
    if e.unaryKind == ArrayLength && Visit(v, e.operand).Sql? {
      var op := Visit(v, e.operand).sql;
      assert [op][0] == op;
    }
  }

  /** Stripping implicit converts keeps a tree admitted. */
  lemma {:induction false} StrippedIsAdmitted(exact: bool, e: Expr)
    requires Admitted(exact, e)
    ensures Admitted(exact, TryRemoveImplicitConvert(e))
  {
    if IsImplicitConvert(e) {
      StrippedIsAdmitted(exact, e.operand);
    }
  }

  lemma {:induction false} OperandsKeepFlagsFit(v: Visitor, exact: bool, e: Expr)
    requires CollaboratorsKeep(v, exact) && Admitted(exact, e) && e.Binary?
    ensures TranslateOperands(v, e).Some? ==>
              FlagsFit(exact, TranslateOperands(v, e).value.0) && FlagsFit(exact, TranslateOperands(v, e).value.1)
    decreases Size(e), 3
  {
    StrippedIsAdmitted(exact, e.left);
    StrippedIsAdmitted(exact, e.right);
    VisitKeepsFlagsFit(v, exact, TryRemoveImplicitConvert(e.left));
    VisitKeepsFlagsFit(v, exact, TryRemoveImplicitConvert(e.right));
  }

  lemma {:induction false} BinaryKeepsFlagsFit(v: Visitor, exact: bool, e: Expr)
    requires CollaboratorsKeep(v, exact) && Admitted(exact, e) && e.Binary?
    ensures SqlFlagsFit(exact, VisitBinary(v, e))
    decreases Size(e), 4
  {
    OperandsKeepFlagsFit(v, exact, e);
    if TranslateOperands(v, e).Some? {
      var (l, r) := TranslateOperands(v, e).value;
      PairFlagsFit(exact, l, r);
      var subtraction := v.makeBinary(Subtract, l, r, v.findMapping(Int32));
      assert [subtraction][0] == subtraction;
    }
  }

  lemma {:induction false} MethodCallKeepsFlagsFit(v: Visitor, exact: bool, e: Expr)
    requires CollaboratorsKeep(v, exact) && Admitted(exact, e) && e.Call?
    ensures SqlFlagsFit(exact, VisitMethodCall(v, e))
    decreases Size(e), 4
  {
    if |e.args| > 0 && IsArrayOrGenericList(TypeOf(e.args[0])) {
      ArrayMethodCallKeepsFlagsFit(v, exact, e.callee, e.args);
    }
  }

  lemma {:induction false} ArrayMethodCallKeepsFlagsFit(v: Visitor, exact: bool, m: MethodKey, arguments: seq<Expr>)
    requires CollaboratorsKeep(v, exact) && AllAdmitted(exact, arguments) && |arguments| > 0
    ensures VisitArrayMethodCall(v, m, arguments).Handled? ==> SqlFlagsFit(exact, VisitArrayMethodCall(v, m, arguments).result)
    decreases 1 + SizeSeq(arguments), 3
  {
    if IsClosedFormOf(m, AnyWithPredicate) && |arguments| > 1 && arguments[1].Lambda? {
      AnyKeepsFlagsFit(v, exact, m, arguments);
    }
    if IsClosedFormOf(m, AllMethod) && |arguments| > 1 && arguments[1].Lambda? {
      AllKeepsFlagsFit(v, exact, arguments);
    }
  }

  lemma {:induction false} AnyKeepsFlagsFit(v: Visitor, exact: bool, m: MethodKey, arguments: seq<Expr>)
    requires CollaboratorsKeep(v, exact) && AllAdmitted(exact, arguments)
    requires |arguments| > 1 && arguments[1].Lambda? && |m.genericArgs| == 1
    ensures var r := AnyPredicateTranslation(v, m, arguments);
            r.Some? && r.value.Handled? ==> SqlFlagsFit(exact, r.value.result)
    decreases 1 + SizeSeq(arguments), 2
  {
    var wherePredicate := arguments[1];
    assert Admitted(exact, wherePredicate);
    if |wherePredicate.params| > 0 {
      var p := Parameter(wherePredicate.params[0]);
      if wherePredicate.body.Call? {
        PredicateCallKeepsFlagsFit(v, exact, AnyQuantifier, arguments, p, wherePredicate.body);
      }
      var equality := TryMatchEquality(wherePredicate.body);
      if equality.Some? && (equality.value.left == Some(p) || equality.value.right == p) {
        var item :=
          if equality.value.left == Some(p) then Some(equality.value.right)
          else if equality.value.right == p then equality.value.left
          else None;
        if item.Some? {
          var body := wherePredicate.body;
          assert Admitted(exact, item.value) by {
            assert Admitted(exact, body);
            if body.Call? {
              assert AllAdmitted(exact, body.args);
              assert |body.args| > 0 ==> Admitted(exact, body.args[0]);
              assert |body.args| > 1 ==> Admitted(exact, body.args[1]);
            }
          }
          var contains := Call(ContainsMethod(m.genericArgs[0]), None, [arguments[0], item.value]);
          assert AllAdmitted(exact, [arguments[0], item.value]) by {
            assert Admitted(exact, arguments[0]);
            assert [arguments[0], item.value][0] == arguments[0];
            assert [arguments[0], item.value][1] == item.value;
          }
          assert Size(item.value) < Size(wherePredicate.body);
          SizeSeqFirstTwo(arguments);
          SizeSeqPair(arguments[0], item.value);
          assert Size(contains) == 1 + Size(arguments[0]) + Size(item.value);
          VisitKeepsFlagsFit(v, exact, contains);
        }
      }
    }
  }

  lemma {:induction false} AllKeepsFlagsFit(v: Visitor, exact: bool, arguments: seq<Expr>)
    requires CollaboratorsKeep(v, exact) && AllAdmitted(exact, arguments)
    requires |arguments| > 1 && arguments[1].Lambda?
    ensures var r := AllPredicateTranslation(v, arguments); r.Some? ==> SqlFlagsFit(exact, r.value)
    decreases 1 + SizeSeq(arguments), 2
  {
    var wherePredicate := arguments[1];
    if wherePredicate.body.Call? && |wherePredicate.params| > 0 {
      PredicateCallKeepsFlagsFit(v, exact, AllQuantifier, arguments, Parameter(wherePredicate.params[0]), wherePredicate.body);
    }
  }

  lemma {:induction false} PredicateCallKeepsFlagsFit(v: Visitor, exact: bool, q: Quantifier, arguments: seq<Expr>, p: Expr, call: Expr)
    requires CollaboratorsKeep(v, exact) && AllAdmitted(exact, arguments)
    requires |arguments| > 1 && arguments[1].Lambda? && call == arguments[1].body && call.Call?
    ensures var r := PredicateCallTranslation(v, q, arguments, p, call); r.Some? ==> SqlFlagsFit(exact, r.value)
    decreases 1 + SizeSeq(arguments), 1
  {
    SubExpressionsSmaller(arguments, call);
    assert Admitted(exact, arguments[0]) && Admitted(exact, arguments[1]);
    assert Admitted(exact, call);
    assert AllAdmitted(exact, call.args);
    VisitKeepsFlagsFit(v, exact, arguments[0]);
    if |call.args| > 0 {
      VisitKeepsFlagsFit(v, exact, call.args[0]);
    }
    if |call.args| > 1 {
      VisitKeepsFlagsFit(v, exact, call.args[1]);
    }
    if call.instance.Some? {
      VisitKeepsFlagsFit(v, exact, call.instance.value);
    }
  }

  lemma {:induction false} TranslateAllKeepsFlagsFit(v: Visitor, exact: bool, es: seq<Expr>)
    requires CollaboratorsKeep(v, exact) && AllAdmitted(exact, es)
    ensures TranslateAll(v, es).Some? ==> AllFlagsFit(exact, TranslateAll(v, es).value)
    decreases SizeSeq(es), 6
  {
    if es != [] {
      VisitKeepsFlagsFit(v, exact, es[0]);
      assert AllAdmitted(exact, es[1..]) by {
        forall i | 0 <= i < |es[1..]| ensures Admitted(exact, es[1..][i]) {
          assert es[1..][i] == es[i + 1];
        }
      }
      TranslateAllKeepsFlagsFit(v, exact, es[1..]);
      if TranslateAll(v, es).Some? {
        var xs := TranslateAll(v, es[1..]).value;
        var ys := TranslateAll(v, es).value;
        assert ys == [Visit(v, es[0]).sql] + xs;
        forall i | 0 <= i < |ys| ensures FlagsFit(exact, ys[i]) {
          if i > 0 { assert ys[i] == xs[i - 1]; }
        }
      }
    }
  }

  lemma {:induction false} NewArrayKeepsFlagsFit(v: Visitor, exact: bool, e: Expr)
    requires CollaboratorsKeep(v, exact) && Admitted(exact, e) && e.NewArray?
    ensures SqlFlagsFit(exact, NewArrayTranslation(v, e))
    decreases Size(e), 4
  {
    TranslateAllKeepsFlagsFit(v, exact, e.elements);
  }

  lemma {:induction false} NewKeepsFlagsFit(v: Visitor, exact: bool, e: Expr)
    requires CollaboratorsKeep(v, exact) && Admitted(exact, e) && e.New?
    ensures SqlFlagsFit(exact, NewTranslation(v, e))
    decreases Size(e), 4
  {
    TranslateAllKeepsFlagsFit(v, exact, e.ctorArgs);
    TranslateAllResult(v, e.ctorArgs);
    var xs := TranslateAll(v, e.ctorArgs);
    if xs.Some? && e.ctor == Some(DateTimeCtor2) && |e.ctorArgs| == 6 {
      var ys := xs.value[5 := ToDouble(xs.value[5])];
      assert AllFlagsFit(exact, ys) by {
        forall i | 0 <= i < |ys| ensures FlagsFit(exact, ys[i]) {
          if i != 5 { assert ys[i] == xs.value[i]; }
        }
      }
    }
    if !exact && xs.Some? && e.ctor == Some(DateTimeCtor3) && HasConstantKind(e) {
      KindConstructorCallAsWrittenFlagsCover(v, xs.value, e.ctorArgs[6].value.kind);
    }
  }

  // ---------------------------------------------------------------------------------------
  // The seven-argument nullability vectors

  /** As written, the vector is one flag longer than the argument list, for either kind. */
  lemma AsWrittenKindVectorIsOneTooLong(v: Visitor, xs: seq<SqlExpr>, kind: DateTimeKind)
    requires |xs| == 7
    ensures var f := KindConstructorCallAsWritten(v, xs, kind);
            |f.propagates| == |f.args| + 1 && !WellFormed(f)
  {
  }

  /** As written, the call still has a flag for every argument, so no flag read is missing. */
  lemma KindConstructorCallAsWrittenFlagsCover(v: Visitor, xs: seq<SqlExpr>, kind: DateTimeKind)
    requires |xs| == 7 && AllFlagsFit(false, xs)
    ensures var f := KindConstructorCallAsWritten(v, xs, kind);
            |f.propagates| > |f.args| && FlagsCover(f)
  {
    var f := KindConstructorCallAsWritten(v, xs, kind);
    forall i | 0 <= i < |f.args| ensures FlagsCover(f.args[i]) {
      if i < 5 { assert f.args[i] == xs[i]; }
    }
  }

  /** Corrected, the call keeps the factory's invariant whenever its arguments do. */
  lemma KindConstructorCallWellFormed(v: Visitor, xs: seq<SqlExpr>, kind: DateTimeKind)
    requires |xs| == 7 && AllWellFormed(xs)
    ensures var f := KindConstructorCall(v, xs, kind);
            |f.propagates| == |f.args| && WellFormed(f)
  {
    var f := KindConstructorCall(v, xs, kind);
    forall i | 0 <= i < |f.args| ensures WellFormed(f.args[i]) {
      if i < 5 { assert f.args[i] == xs[i]; }
    }
  }
}
