/**
 * What the visitor's overrides promise, stated over `Visit` for each node shape they handle.
 */
module VisitorProperties {
  import opened Wrappers
  import opened ClrTypes
  import opened SqlAst
  import opened ExpressionTrees
  import opened SqlTranslatingVisitor

  // ---------------------------------------------------------------------------------------
  // TryRemoveImplicitConvert

  /** The result never starts with a removable Convert layer. */
  lemma {:induction false} StrippedIsNotImplicitConvert(e: Expr)
    ensures !IsImplicitConvert(TryRemoveImplicitConvert(e))
  {
    if IsImplicitConvert(e) {
      StrippedIsNotImplicitConvert(e.operand);
    }
  }

  lemma {:induction false} TryRemoveImplicitConvertIdempotent(e: Expr)
    ensures TryRemoveImplicitConvert(TryRemoveImplicitConvert(e)) == TryRemoveImplicitConvert(e)
  {
    StrippedIsNotImplicitConvert(e);
  }

  /** `r` is reached from `e` by peeling removable Convert layers only. */
  ghost predicate PeelsTo(e: Expr, r: Expr)
    decreases e
  {
    e == r || (IsImplicitConvert(e) && PeelsTo(e.operand, r))
  }

  lemma {:induction false} TryRemoveImplicitConvertPeelsOnlyImplicitLayers(e: Expr)
    ensures PeelsTo(e, TryRemoveImplicitConvert(e))
  {
    if IsImplicitConvert(e) {
      TryRemoveImplicitConvertPeelsOnlyImplicitLayers(e.operand);
    }
  }

  /** The operand's type as TryRemoveImplicitConvert compares it: nullable unwrapped, enum taken to its underlying type. */
  function ComparedType(x: Expr): ClrType {
    var inner := UnwrapNullable(TypeOf(x));
    if inner.EnumOf? then inner.underlying else inner
  }

  /** A Convert or ConvertChecked to the operand's own type (up to nullability and enums) is removed. */
  lemma SameTypeConvertIsRemoved(x: Expr, kind: UnaryKind, target: ClrType)
    requires kind == Convert || kind == ConvertChecked
    requires ComparedType(x) == UnwrapNullable(target)
    ensures TryRemoveImplicitConvert(Unary(kind, x, target)) == TryRemoveImplicitConvert(x)
  {
    assert IsImplicitConvert(Unary(kind, x, target));
  }

  /** Widening byte, sbyte, char, short or ushort to int is removed. */
  lemma WideningToIntIsRemoved(x: Expr, kind: UnaryKind, target: ClrType)
    requires kind == Convert || kind == ConvertChecked
    requires UnwrapNullable(target) == Int32 && ComparedType(x) in {Byte, SByte, Char, Int16, UInt16}
    ensures TryRemoveImplicitConvert(Unary(kind, x, target)) == TryRemoveImplicitConvert(x)
  {
    assert IsImplicitConvert(Unary(kind, x, target));
  }

  /** Any other conversion, and any other node, is kept as it is. */
  lemma OtherNodesAreKept(e: Expr)
    requires !(e.Unary? && (e.unaryKind == Convert || e.unaryKind == ConvertChecked))
             || (ComparedType(e.operand) != UnwrapNullable(e.unaryType)
                 && !(UnwrapNullable(e.unaryType) == Int32 && ComparedType(e.operand) in {Byte, SByte, Char, Int16, UInt16}))
    ensures TryRemoveImplicitConvert(e) == e
  {
    assert !IsImplicitConvert(e);
  }

  // ---------------------------------------------------------------------------------------
  // VisitUnary

  lemma ArrayLengthCases(v: Visitor, operand: Expr, t: ClrType)
    ensures var r := Visit(v, Unary(ArrayLength, operand, t));
            var x := Visit(v, operand);
            (!x.Sql? ==> r == NotTranslated)
            && (x.Sql? && IsByteaOperand(x.sql) ==>
                  r.Sql? && r.sql.SqlFunction? && r.sql.name == "length" && r.sql.args == [x.sql]
                  && r.sql.propagates == [true] && r.sql.funcType == Int32)
            && (x.Sql? && !IsByteaOperand(x.sql) && v.jsonArrayLength(x.sql).Some? ==>
                  r == Sql(v.jsonArrayLength(x.sql).value))
            && (x.Sql? && !IsByteaOperand(x.sql) && v.jsonArrayLength(x.sql).None? ==>
                  r.Sql? && r.sql.SqlFunction? && r.sql.name == "cardinality" && r.sql.args == [x.sql]
                  && r.sql.propagates == [true] && r.sql.funcType == Int32)
  {
  }

  /** A cast up to ITuple (an artifact of row-value comparison calls) is transparent. */
  lemma ConvertToITupleIsTransparent(v: Visitor, operand: Expr)
    requires IsAssignableToITuple(TypeOf(operand))
    ensures Visit(v, Unary(Convert, operand, ITupleType)) == Visit(v, operand)
  {
  }

  // ---------------------------------------------------------------------------------------
  // VisitMethodCall / VisitArrayMethodCall

  /** `source.Any(p => body)` and `source.All(p => body)` for a one-parameter lambda. */
  function AnyCall(t: ClrType, source: Expr, p: Param, body: Expr): Expr {
    Call(AnyWithPredicate(t), None, [source, Lambda([p], body, FuncOf([t], Boolean))])
  }

  function AllCall(t: ClrType, source: Expr, p: Param, body: Expr): Expr {
    Call(AllMethod(t), None, [source, Lambda([p], body, FuncOf([t], Boolean))])
  }

  /** `EF.Functions.Like(dbFunctions, matchExpression, p)` or its ILike twin. */
  function LikeBody(kind: PatternKind, dbFunctions: Expr, matchExpression: Expr, p: Param): Expr {
    Call(if kind == Like then Like2Method else ILike2Method, None, [dbFunctions, matchExpression, Parameter(p)])
  }

  /** The three shapes of `column.Contains(p)`: Enumerable.Contains, List<T>.Contains, HashSet<T>.Contains. */
  datatype ContainsForm = EnumerableForm | ListForm | HashSetForm

  function ContainsBody(form: ContainsForm, u: ClrType, column: Expr, p: Param): Expr {
    match form
    case EnumerableForm => Call(ContainsMethod(u), None, [column, Parameter(p)])
    case ListForm => Call(ListContains(u), Some(column), [Parameter(p)])
    case HashSetForm => Call(HashSetContains(u), Some(column), [Parameter(p)])
  }

  /** An Any call whose Any block returns an expression is translated to that expression. */
  lemma AnyCallHandled(v: Visitor, t: ClrType, source: Expr, p: Param, body: Expr, r: Visited)
    requires IsArrayOrGenericList(TypeOf(source))
    requires var e := AnyCall(t, source, p, body); AnyPredicateTranslation(v, e.callee, e.args) == Some(Handled(r))
    ensures Visit(v, AnyCall(t, source, p, body)) == r
  {
    var e := AnyCall(t, source, p, body);
    assert IsClosedFormOf(e.callee, AnyWithPredicate);
    assert VisitArrayMethodCall(v, e.callee, e.args) == Handled(r);
    assert Visit(v, e) == VisitMethodCall(v, e);
  }

  /** An All call whose All block returns an expression is translated to that expression. */
  lemma AllCallHandled(v: Visitor, t: ClrType, source: Expr, p: Param, body: Expr, r: Visited)
    requires IsArrayOrGenericList(TypeOf(source))
    requires var e := AllCall(t, source, p, body); AllPredicateTranslation(v, e.args) == Some(r)
    ensures Visit(v, AllCall(t, source, p, body)) == r
  {
    var e := AllCall(t, source, p, body);
    assert !IsClosedFormOf(e.callee, AnyWithPredicate);
    assert IsClosedFormOf(e.callee, AllMethod);
    assert VisitArrayMethodCall(v, e.callee, e.args) == Handled(r);
    assert Visit(v, e) == VisitMethodCall(v, e);
  }

  lemma AnyLike(v: Visitor, t: ClrType, source: Expr, p: Param, kind: PatternKind, dbFunctions: Expr, matchExpression: Expr)
    requires IsArrayOrGenericList(TypeOf(source))
    ensures var r := Visit(v, AnyCall(t, source, p, LikeBody(kind, dbFunctions, matchExpression, p)));
            var x := Visit(v, matchExpression);
            var a := Visit(v, source);
            (x.Sql? && a.Sql? ==> r == Sql(SqlAny(x.sql, a.sql, kind)))
            && (!(x.Sql? && a.Sql?) ==> r == NotTranslated)
  {
    var body := LikeBody(kind, dbFunctions, matchExpression, p);
    var e := AnyCall(t, source, p, body);
    var result := PatternMatch(AnyQuantifier, Visit(v, matchExpression), Visit(v, source), kind);
    assert PredicateCallTranslation(v, AnyQuantifier, e.args, Parameter(p), body) == Some(result);
    AnyCallHandled(v, t, source, p, body, result);
  }

  lemma AllLike(v: Visitor, t: ClrType, source: Expr, p: Param, kind: PatternKind, dbFunctions: Expr, matchExpression: Expr)
    requires IsArrayOrGenericList(TypeOf(source))
    ensures var r := Visit(v, AllCall(t, source, p, LikeBody(kind, dbFunctions, matchExpression, p)));
            var x := Visit(v, matchExpression);
            var a := Visit(v, source);
            (x.Sql? && a.Sql? ==> r == Sql(SqlAll(x.sql, a.sql, kind)))
            && (!(x.Sql? && a.Sql?) ==> r == NotTranslated)
  {
    var body := LikeBody(kind, dbFunctions, matchExpression, p);
    var e := AllCall(t, source, p, body);
    var result := PatternMatch(AllQuantifier, Visit(v, matchExpression), Visit(v, source), kind);
    assert PredicateCallTranslation(v, AllQuantifier, e.args, Parameter(p), body) == Some(result);
    AllCallHandled(v, t, source, p, body, result);
  }

  /** Swapping Like for ILike changes the match kind and nothing else. */
  lemma LikeAndILikeDifferOnlyInKind(v: Visitor, t: ClrType, source: Expr, p: Param, dbFunctions: Expr, matchExpression: Expr)
    requires IsArrayOrGenericList(TypeOf(source))
    ensures var like := Visit(v, AnyCall(t, source, p, LikeBody(Like, dbFunctions, matchExpression, p)));
            var ilike := Visit(v, AnyCall(t, source, p, LikeBody(ILike, dbFunctions, matchExpression, p)));
            (like.Sql? <==> ilike.Sql?)
            && (like.Sql? ==> like.sql.SqlAny? && like.sql.anyKind == Like && ilike.sql == like.sql.(anyKind := ILike))
    ensures var like := Visit(v, AllCall(t, source, p, LikeBody(Like, dbFunctions, matchExpression, p)));
            var ilike := Visit(v, AllCall(t, source, p, LikeBody(ILike, dbFunctions, matchExpression, p)));
            (like.Sql? <==> ilike.Sql?)
            && (like.Sql? ==> like.sql.SqlAll? && like.sql.allKind == Like && ilike.sql == like.sql.(allKind := ILike))
  {
    AnyLike(v, t, source, p, Like, dbFunctions, matchExpression);
    AnyLike(v, t, source, p, ILike, dbFunctions, matchExpression);
    AllLike(v, t, source, p, Like, dbFunctions, matchExpression);
    AllLike(v, t, source, p, ILike, dbFunctions, matchExpression);
  }

  /** `source.Any(p => column.Contains(p))` is the overlap `source && column`, for all three Contains shapes. */
  lemma AnyContainsIsOverlap(v: Visitor, t: ClrType, u: ClrType, form: ContainsForm, source: Expr, p: Param, column: Expr)
    requires IsArrayOrGenericList(TypeOf(source))
    requires form == EnumerableForm ==> IsArrayOrGenericList(TypeOf(column))
    ensures var r := Visit(v, AnyCall(t, source, p, ContainsBody(form, u, column, p)));
            var a := Visit(v, source);
            var c := Visit(v, column);
            (a.Sql? && c.Sql? ==> r == Sql(SqlOverlaps(a.sql, c.sql)))
            && (!(a.Sql? && c.Sql?) ==> r == NotTranslated)
  {
    var body := ContainsBody(form, u, column, p);
    var e := AnyCall(t, source, p, body);
    var result := Containment(AnyQuantifier, Visit(v, source), Visit(v, column));
    assert PredicateCallTranslation(v, AnyQuantifier, e.args, Parameter(p), body) == Some(result);
    AnyCallHandled(v, t, source, p, body, result);
  }

  /** `source.All(p => column.Contains(p))` is the containment `source <@ column`, for all three shapes. */
  lemma AllContainsIsContainedBy(v: Visitor, t: ClrType, u: ClrType, form: ContainsForm, source: Expr, p: Param, column: Expr)
    requires IsArrayOrGenericList(TypeOf(source))
    requires form == EnumerableForm ==> IsArrayOrGenericList(TypeOf(column))
    ensures var r := Visit(v, AllCall(t, source, p, ContainsBody(form, u, column, p)));
            var a := Visit(v, source);
            var c := Visit(v, column);
            (a.Sql? && c.Sql? ==> r == Sql(SqlContainedBy(a.sql, c.sql)))
            && (!(a.Sql? && c.Sql?) ==> r == NotTranslated)
  {
    var body := ContainsBody(form, u, column, p);
    var e := AllCall(t, source, p, body);
    var result := Containment(AllQuantifier, Visit(v, source), Visit(v, column));
    assert PredicateCallTranslation(v, AllQuantifier, e.args, Parameter(p), body) == Some(result);
    AllCallHandled(v, t, source, p, body, result);
  }

  /**
   * `source.Any(p => l op r)` with the parameter on one side is re-translated as
   * `source.Contains(other side)`, whatever the binary operator is, when the other side's type is
   * assignable to T (otherwise see AnyEqualityItemNotAssignable).
   */
  lemma AnyBinaryBecomesContains(v: Visitor, t: ClrType, source: Expr, p: Param, body: Expr)
    requires IsArrayOrGenericList(TypeOf(source))
    requires body.Binary? && (body.left == Parameter(p) || body.right == Parameter(p))
    requires IsReferenceAssignable(t, TypeOf(if body.left == Parameter(p) then body.right else body.left))
    ensures var item := if body.left == Parameter(p) then body.right else body.left;
            Visit(v, AnyCall(t, source, p, body)) == Visit(v, Call(ContainsMethod(t), None, [source, item]))
  {
    var e := AnyCall(t, source, p, body);
    var item := if body.left == Parameter(p) then body.right else body.left;
    assert TryMatchEquality(body) == Some(Operands(Some(body.left), body.right));
    assert AnyPredicateTranslation(v, e.callee, e.args)
        == Some(Handled(Visit(v, Call(ContainsMethod(t), None, [source, item]))));
    AnyCallHandled(v, t, source, p, body, Visit(v, Call(ContainsMethod(t), None, [source, item])));
  }

  /** The same for the static object.Equals(a, b). */
  lemma AnyObjectEqualsBecomesContains(v: Visitor, t: ClrType, source: Expr, p: Param, a: Expr, b: Expr)
    requires IsArrayOrGenericList(TypeOf(source))
    requires a == Parameter(p) || b == Parameter(p)
    requires IsReferenceAssignable(t, TypeOf(if a == Parameter(p) then b else a))
    ensures var item := if a == Parameter(p) then b else a;
            Visit(v, AnyCall(t, source, p, Call(ObjectEqualsMethod, None, [a, b])))
            == Visit(v, Call(ContainsMethod(t), None, [source, item]))
  {
    var body := Call(ObjectEqualsMethod, None, [a, b]);
    var e := AnyCall(t, source, p, body);
    var item := if a == Parameter(p) then b else a;
    assert PredicateCallTranslation(v, AnyQuantifier, e.args, Parameter(p), body) == None;
    assert TryMatchEquality(body) == Some(Operands(Some(a), b));
    assert AnyPredicateTranslation(v, e.callee, e.args)
        == Some(Handled(Visit(v, Call(ContainsMethod(t), None, [source, item]))));
    AnyCallHandled(v, t, source, p, body, Visit(v, Call(ContainsMethod(t), None, [source, item])));
  }

  /** The same for any one-argument method named Equals on an instance. */
  lemma AnyInstanceEqualsBecomesContains(v: Visitor, t: ClrType, source: Expr, p: Param, m: MethodKey, instance: Expr, argument: Expr)
    requires IsArrayOrGenericList(TypeOf(source))
    requires m.name == "Equals"
    requires instance == Parameter(p) || argument == Parameter(p)
    requires IsReferenceAssignable(t, TypeOf(if instance == Parameter(p) then argument else instance))
    ensures var item := if instance == Parameter(p) then argument else instance;
            Visit(v, AnyCall(t, source, p, Call(m, Some(instance), [argument])))
            == Visit(v, Call(ContainsMethod(t), None, [source, item]))
  {
    var body := Call(m, Some(instance), [argument]);
    var e := AnyCall(t, source, p, body);
    var item := if instance == Parameter(p) then argument else instance;
    assert PredicateCallTranslation(v, AnyQuantifier, e.args, Parameter(p), body) == None;
    assert TryMatchEquality(body) == Some(Operands(Some(instance), argument));
    assert AnyPredicateTranslation(v, e.callee, e.args)
        == Some(Handled(Visit(v, Call(ContainsMethod(t), None, [source, item]))));
    AnyCallHandled(v, t, source, p, body, Visit(v, Call(ContainsMethod(t), None, [source, item])));
  }

  /**
   * When the other side of an equality body is not assignable to T, building `Contains<T>` fails
   * (Expression.Call throws), and the Any call is NotTranslated: it never reaches the base visitor.
   */
  lemma AnyEqualityItemNotAssignable(v: Visitor, t: ClrType, source: Expr, p: Param, body: Expr, item: Expr)
    requires IsArrayOrGenericList(TypeOf(source))
    requires TryMatchEquality(body) == Some(Operands(Some(Parameter(p)), item))
             || TryMatchEquality(body) == Some(Operands(Some(item), Parameter(p)))
    requires !body.Call? || (body.callee != Like2Method && body.callee != ILike2Method && body.callee.name == "Equals")
    requires !IsReferenceAssignable(t, TypeOf(item))
    ensures Visit(v, AnyCall(t, source, p, body)) == NotTranslated
  {
    var e := AnyCall(t, source, p, body);
    if body.Call? {
      assert PredicateCallTranslation(v, AnyQuantifier, e.args, Parameter(p), body) == None;
    }
    assert AnyPredicateTranslation(v, e.callee, e.args) == Some(Handled(NotTranslated));
    AnyCallHandled(v, t, source, p, body, NotTranslated);
  }

  /**
   * All has no equality fallback: a body TryMatchEquality would accept (any binary node, the static
   * object.Equals, a one-argument Equals) goes on to the LTree translator and then to the base visitor.
   */
  lemma AllEqualityIsNotRewritten(v: Visitor, t: ClrType, source: Expr, p: Param, body: Expr)
    requires IsArrayOrGenericList(TypeOf(source))
    requires TryMatchEquality(body).Some?
    ensures var e := AllCall(t, source, p, body);
            Visit(v, e) == match v.ltreeArrayMethodCall(e.callee, e.args)
                           case Handled(r) => r
                           case Declined => v.base(e)
  {
    var e := AllCall(t, source, p, body);
    assert !IsClosedFormOf(e.callee, AnyWithPredicate);
    assert AllPredicateTranslation(v, e.args) == None;
    assert VisitArrayMethodCall(v, e.callee, e.args) == v.ltreeArrayMethodCall(e.callee, e.args);
    assert Visit(v, e) == VisitMethodCall(v, e);
  }

  /** A call whose first argument is not an array or list never reaches the lambda-inspecting rewrites. */
  lemma NonArrayCallGoesToBase(v: Visitor, e: Expr)
    requires e.Call? && (|e.args| == 0 || !IsArrayOrGenericList(TypeOf(e.args[0])))
    ensures Visit(v, e) == v.base(e)
  {
  }

  // ---------------------------------------------------------------------------------------
  // VisitNewArray

  lemma NewArrayCases(v: Visitor, kind: NewArrayKind, elements: seq<Expr>, t: ClrType)
    ensures var e := NewArray(kind, elements, t);
            var r := Visit(v, e);
            (v.base(e).Sql? ==> r == v.base(e))
            && (!v.base(e).Sql? && kind == NewArrayInit && (forall i :: 0 <= i < |elements| ==> Visit(v, elements[i]).Sql?)
                ==> r.Sql? && r.sql.SqlNewArray? && r.sql.arrayType == t && |r.sql.elements| == |elements|
                    && (forall i :: 0 <= i < |elements| ==> Sql(r.sql.elements[i]) == Visit(v, elements[i]))
                    && r.sql.arrayMapping == v.newArrayMapping(r.sql.elements, t))
            && (!v.base(e).Sql? && (kind != NewArrayInit || exists i :: 0 <= i < |elements| && !Visit(v, elements[i]).Sql?)
                ==> r == NotTranslated)
  {
    TranslateAllResult(v, elements);
  }

  // ---------------------------------------------------------------------------------------
  // VisitBinary

  lemma LocalDateSubtraction(v: Visitor, left: Expr, right: Expr, t: ClrType)
    requires UnwrapNullable(TypeOf(left)) == LocalDateType && UnwrapNullable(TypeOf(right)) == LocalDateType
    ensures var r := Visit(v, Binary(Subtract, left, right, t));
            var l := Visit(v, TryRemoveImplicitConvert(left));
            var rt := Visit(v, TryRemoveImplicitConvert(right));
            (!(l.Sql? && rt.Sql?) ==> r == NotTranslated)
            && (l.Sql? && rt.Sql? ==>
                  r.Sql? && r.sql.SqlFunction? && r.sql.name == "make_interval"
                  && r.sql.args == [v.makeBinary(Subtract, l.sql, rt.sql, v.findMapping(Int32))]
                  && r.sql.argNames == ["days"] && r.sql.propagates == [true] && r.sql.funcType == PeriodType)
  {
    var e := Binary(Subtract, left, right, t);
    assert Visit(v, e) == VisitBinary(v, e);
    OperandsTranslation(v, e);
  }

  /** TranslateOperands succeeds exactly when both stripped operands translate, and gives their SQL. */
  lemma OperandsTranslation(v: Visitor, e: Expr)
    requires e.Binary?
    ensures var l := Visit(v, TryRemoveImplicitConvert(e.left));
            var r := Visit(v, TryRemoveImplicitConvert(e.right));
            (l.Sql? && r.Sql? ==> TranslateOperands(v, e) == Some((l.sql, r.sql)))
            && (!(l.Sql? && r.Sql?) ==> TranslateOperands(v, e) == None)
  {
  }

  lemma ArrayIndexCases(v: Visitor, left: Expr, right: Expr, t: ClrType)
    ensures var r := Visit(v, Binary(ArrayIndex, left, right, t));
            var l := Visit(v, TryRemoveImplicitConvert(left));
            var i := Visit(v, TryRemoveImplicitConvert(right));
            (!(l.Sql? && i.Sql?) ==> r == NotTranslated)
            && (l.Sql? && i.Sql? && TypeOf(left) == ByteArray ==>
                  r.Sql? && r.sql.SqlFunction? && r.sql.name == "get_byte" && r.sql.args == [l.sql, i.sql]
                  && r.sql.propagates == [true, true] && r.sql.funcType == Byte)
            && (l.Sql? && i.Sql? && TypeOf(left) != ByteArray && v.jsonMemberAccess(l.sql, i.sql, t).Some? ==>
                  r == Sql(v.jsonMemberAccess(l.sql, i.sql, t).value))
            && (l.Sql? && i.Sql? && TypeOf(left) != ByteArray && v.jsonMemberAccess(l.sql, i.sql, t).None? ==>
                  r == Sql(SqlArrayIndex(l.sql, v.oneBasedIndex(i.sql), v.arrayIndexMapping(l.sql, v.oneBasedIndex(i.sql)))))
  {
    var e := Binary(ArrayIndex, left, right, t);
    assert Visit(v, e) == VisitBinary(v, e);
    OperandsTranslation(v, e);
  }

  // ---------------------------------------------------------------------------------------
  // VisitNew

  /** Every argument translates; `Sqls` collects their translations. */
  predicate AllTranslate(v: Visitor, args: seq<Expr>) {
    forall i :: 0 <= i < |args| ==> Visit(v, args[i]).Sql?
  }

  function Sqls(v: Visitor, args: seq<Expr>): (xs: seq<SqlExpr>)
    requires AllTranslate(v, args)
    ensures |xs| == |args| && forall i :: 0 <= i < |args| ==> Visit(v, args[i]) == Sql(xs[i])
  {
    seq(|args|, i requires 0 <= i < |args| => Visit(v, args[i]).sql)
  }

  lemma TupleIsRowValue(v: Visitor, c: Option<CtorKey>, args: seq<Expr>, t: ClrType)
    requires IsAssignableToITuple(t) && v.base(New(c, args, t)) == NotTranslated
    ensures var r := Visit(v, New(c, args, t));
            (AllTranslate(v, args) ==> r == Sql(SqlRowValue(Sqls(v, args), t)))
            && (!AllTranslate(v, args) ==> r == NotTranslated)
  {
    TranslateAllResult(v, args);
    if AllTranslate(v, args) {
      TranslateAllSucceeds(v, args, Sqls(v, args));
    }
  }

  /** new DateTime(y, m, d): make_date(y, m, d) with the timestamp mapping. */
  lemma DateTimeThreeArguments(v: Visitor, args: seq<Expr>)
    requires |args| == 3 && v.base(New(Some(DateTimeCtor1), args, DateTimeType)) == NotTranslated
    ensures var r := Visit(v, New(Some(DateTimeCtor1), args, DateTimeType));
            (!AllTranslate(v, args) ==> r == NotTranslated)
            && (AllTranslate(v, args) ==>
                  r.Sql? && r.sql.SqlFunction? && r.sql.name == "make_date" && r.sql.args == Sqls(v, args)
                  && r.sql.propagates == [true, true, true] && r.sql.funcType == DateTimeType
                  && r.sql.funcMapping == Some(v.timestampMapping))
  {
    var e := New(Some(DateTimeCtor1), args, DateTimeType);
    assert Visit(v, e) == NewTranslation(v, e);
    TranslateAllResult(v, args);
    if AllTranslate(v, args) {
      TranslateAllSucceeds(v, args, Sqls(v, args));
      assert DateTimeConstruction(v, e)
          == Some(Sql(Function("make_date", Sqls(v, args), true, TrueArray(3), DateTimeType, Some(v.timestampMapping))));
    } else {
      assert DateTimeConstruction(v, e) == Some(NotTranslated);
    }
  }

  /** new DateOnly(y, m, d): make_date(y, m, d) as well, with no mapping of its own. */
  lemma DateOnlyConstructor(v: Visitor, args: seq<Expr>)
    requires |args| == 3 && v.base(New(Some(DateOnlyCtor), args, DateOnlyType)) == NotTranslated
    ensures var r := Visit(v, New(Some(DateOnlyCtor), args, DateOnlyType));
            (!AllTranslate(v, args) ==> r == NotTranslated)
            && (AllTranslate(v, args) ==>
                  r.Sql? && r.sql.SqlFunction? && r.sql.name == "make_date" && r.sql.args == Sqls(v, args)
                  && r.sql.propagates == [true, true, true] && r.sql.funcType == DateOnlyType
                  && r.sql.funcMapping.None?)
  {
    var e := New(Some(DateOnlyCtor), args, DateOnlyType);
    assert Visit(v, e) == NewTranslation(v, e);
    TranslateAllResult(v, args);
    if AllTranslate(v, args) {
      TranslateAllSucceeds(v, args, Sqls(v, args));
    }
  }

  /** new DateTime(y, m, d, h, mi, s): make_timestamp with the seconds converted to double. */
  lemma DateTimeSixArguments(v: Visitor, args: seq<Expr>)
    requires |args| == 6 && v.base(New(Some(DateTimeCtor2), args, DateTimeType)) == NotTranslated
    ensures var r := Visit(v, New(Some(DateTimeCtor2), args, DateTimeType));
            (!AllTranslate(v, args) ==> r == NotTranslated)
            && (AllTranslate(v, args) ==>
                  var xs := Sqls(v, args);
                  r.Sql? && r.sql.SqlFunction? && r.sql.name == "make_timestamp" && |r.sql.args| == 6
                  && r.sql.args[..5] == xs[..5] && r.sql.args[5] == SqlConvert(xs[5], Double, None)
                  && r.sql.propagates == TrueArray(6) && r.sql.funcType == DateTimeType
                  && r.sql.funcMapping == Some(v.timestampMapping))
  {
    var e := New(Some(DateTimeCtor2), args, DateTimeType);
    assert Visit(v, e) == NewTranslation(v, e);
    TranslateAllResult(v, args);
    if AllTranslate(v, args) {
      var xs := Sqls(v, args);
      TranslateAllSucceeds(v, args, xs);
      var ys := xs[5 := ToDouble(xs[5])];
      assert DateTimeConstruction(v, e)
          == Some(Sql(Function("make_timestamp", ys, true, TrueArray(6), DateTimeType, Some(v.timestampMapping))));
      assert ys[..5] == xs[..5];
    } else {
      assert DateTimeConstruction(v, e) == Some(NotTranslated);
    }
  }

  /**
   * new DateTime(y, m, d, h, mi, s, kind) with a constant kind: make_timestamptz(..., 'UTC') for
   * Utc, make_timestamp(...) with the kind dropped otherwise; as written, the nullability vector
   * is all true and one flag longer than the argument list.
   */
  lemma DateTimeWithKind(v: Visitor, args: seq<Expr>, kind: DateTimeKind)
    requires |args| == 7 && args[6].Constant? && args[6].value == KindValue(kind)
    requires v.base(New(Some(DateTimeCtor3), args, DateTimeType)) == NotTranslated
    ensures var r := Visit(v, New(Some(DateTimeCtor3), args, DateTimeType));
            (!AllTranslate(v, args) ==> r == NotTranslated)
            && (AllTranslate(v, args) ==>
                  var xs := Sqls(v, args);
                  r.Sql? && r.sql.SqlFunction? && r.sql.funcType == DateTimeType && |r.sql.args| >= 6
                  && r.sql.args[..5] == xs[..5] && r.sql.args[5] == SqlConvert(xs[5], Double, None)
                  && r.sql.propagates == TrueArray(|r.sql.args| + 1)
                  && (kind == Utc ==>
                        r.sql.name == "make_timestamptz" && |r.sql.args| == 7 && r.sql.args[6] == UtcConstant
                        && r.sql.funcMapping == Some(v.timestampTzMapping))
                  && (kind != Utc ==>
                        r.sql.name == "make_timestamp" && |r.sql.args| == 6
                        && r.sql.funcMapping == Some(v.timestampMapping)))
  {
    var e := New(Some(DateTimeCtor3), args, DateTimeType);
    assert Visit(v, e) == NewTranslation(v, e);
    TranslateAllResult(v, args);
    if AllTranslate(v, args) {
      var xs := Sqls(v, args);
      TranslateAllSucceeds(v, args, xs);
      assert DateTimeConstruction(v, e) == Some(Sql(KindConstructorCallAsWritten(v, xs, kind)));
      var f := KindConstructorCallAsWritten(v, xs, kind);
      assert f.args[..5] == xs[..5];
    } else {
      assert DateTimeConstruction(v, e) == Some(NotTranslated);
    }
  }

  /** A DateTime constructor with a non-constant kind, or any other DateTime constructor, is not translated. */
  lemma OtherDateTimeConstructors(v: Visitor, c: CtorKey, args: seq<Expr>)
    requires c.declaring == DateTimeType && c != DateTimeCtor1
    requires !(c == DateTimeCtor2 && |args| == 6)
    requires !(c == DateTimeCtor3 && |args| == 7 && args[6].Constant? && args[6].value.KindValue?)
    requires v.base(New(Some(c), args, DateTimeType)) == NotTranslated
    ensures Visit(v, New(Some(c), args, DateTimeType)) == NotTranslated
  {
  }
}
