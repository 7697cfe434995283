/**
 * The PostgreSQL expression-tree visitor: the overrides of VisitUnary, VisitMethodCall
 * (with the lambda-inspecting array rewrites), VisitNewArray, VisitBinary and VisitNew,
 * and the helpers TryRemoveImplicitConvert and TranslationFailed.
 *
 * `Visit` dispatches on the node kind like ExpressionVisitor.Visit; node kinds the provider
 * does not override, and the base class's own Visit* behaviour, go to the opaque `base`
 * collaborator. The overrides are functions; the source's loops (VisitNewArray and the
 * argument loop of VisitNew) are also written as methods proved equal to those functions.
 */
module SqlTranslatingVisitor {
  import opened Wrappers
  import opened ClrTypes
  import opened SqlAst
  import opened ExpressionTrees

  /**
   * What visiting a node gives: a SQL expression, the NotTranslatedExpression sentinel, or
   * another (non-SQL) expression produced by the base visitor, identified by a tag.
   */
  datatype Visited = Sql(sql: SqlExpr) | NotTranslated | NonSql(tag: nat)

  /** Result of VisitArrayMethodCall: `null` (declined), or an expression to return. */
  datatype ArrayCallResult = Declined | Handled(result: Visited)

  /**
   * The visitor and the collaborators it consults: the base relational visitor, the JSON POCO
   * translator, the LTree translator, the type-mapping source, the factory's MakeBinary and
   * GenerateOneBasedIndexExpression, the mappings the factory infers for an array literal and for
   * an array subscript, and the two timestamp mappings looked up at construction.
   */
  datatype Visitor = Visitor(
    base: Expr -> Visited,
    jsonArrayLength: SqlExpr -> Option<SqlExpr>,
    jsonMemberAccess: (SqlExpr, SqlExpr, ClrType) -> Option<SqlExpr>,
    ltreeArrayMethodCall: (MethodKey, seq<Expr>) -> ArrayCallResult,
    findMapping: ClrType -> Option<TypeMapping>,
    makeBinary: (BinaryKind, SqlExpr, SqlExpr, Option<TypeMapping>) -> SqlExpr,
    oneBasedIndex: SqlExpr -> SqlExpr,
    newArrayMapping: (seq<SqlExpr>, ClrType) -> Option<TypeMapping>,
    arrayIndexMapping: (SqlExpr, SqlExpr) -> Option<TypeMapping>,
    timestampMapping: TypeMapping,
    timestampTzMapping: TypeMapping)

  /** ISqlExpressionFactory.NewArray(elements, type): the literal carries the mapping the factory infers. */
  function NewArrayOf(v: Visitor, xs: seq<SqlExpr>, t: ClrType): SqlExpr {
    SqlNewArray(xs, t, v.newArrayMapping(xs, t))
  }

  /** ISqlExpressionFactory.ArrayIndex(array, index): the subscript carries the mapping the factory infers. */
  function ArrayIndexOf(v: Visitor, indexed: SqlExpr, index: SqlExpr): SqlExpr {
    SqlArrayIndex(indexed, index, v.arrayIndexMapping(indexed, index))
  }

  // ---------------------------------------------------------------------------------------
  // Helpers copied from the relational visitor

  /** The two outputs of TranslationFailed: the verdict and the translation cast to SQL. */
  datatype FailCheck = FailCheck(failed: bool, cast: Option<SqlExpr>)

  function TranslationFailed(original: Option<Expr>, translation: Option<Visited>): (r: FailCheck)
    ensures original.None? ==> !r.failed
    ensures original.Some? && translation.Some? && translation.value.Sql? ==> !r.failed
    ensures r.failed ==> r.cast.None?
    ensures !r.failed && original.Some? ==> r.cast.Some? && translation == Some(Sql(r.cast.value))
    ensures translation.Some? && translation.value.Sql? ==> r == FailCheck(false, Some(translation.value.sql))
    ensures original.None? && !(translation.Some? && translation.value.Sql?) ==> r.cast.None?
  {
    if original.Some? && !(translation.Some? && translation.value.Sql?) then
      FailCheck(true, None)
    else
      FailCheck(false, if translation.Some? && translation.value.Sql? then Some(translation.value.sql) else None)
  }

  /**
   * A Convert layer whose removal changes nothing in SQL: the operand's type (nullable
   * unwrapped, an enum taken to its underlying type) is the converted type, or the
   * conversion widens byte, sbyte, char, short or ushort to int.
   */
  predicate IsImplicitLayer(inner: ClrType, outer: ClrType) {
    var unwrapped := UnwrapNullable(inner);
    var innerType := if unwrapped.EnumOf? then unwrapped.underlying else unwrapped;
    var convertedType := UnwrapNullable(outer);
    innerType == convertedType
    || (convertedType == Int32 && innerType in {Byte, SByte, Char, Int16, UInt16})
  }

  predicate IsImplicitConvert(e: Expr) {
    e.Unary? && (e.unaryKind == Convert || e.unaryKind == ConvertChecked)
    && IsImplicitLayer(TypeOf(e.operand), e.unaryType)
  }

  function TryRemoveImplicitConvert(expression: Expr): (r: Expr)
    ensures Size(r) <= Size(expression)
  {
    if IsImplicitConvert(expression) then TryRemoveImplicitConvert(expression.operand) else expression
  }

  // ---------------------------------------------------------------------------------------
  // The dispatcher and the overrides

  function Visit(v: Visitor, e: Expr): Visited
    decreases Size(e), 5
  {
    match e
    case Unary(_, _, _) => VisitUnary(v, e)
    case Binary(_, _, _, _) => VisitBinary(v, e)
    case Call(_, _, _) => VisitMethodCall(v, e)
    case NewArray(_, _, _) => NewArrayTranslation(v, e)
    case New(_, _, _) => NewTranslation(v, e)
    case _ => v.base(e)
  }

  /** Bytea operands of ArrayLength: typed byte[] and mapped to bytea or not mapped at all. */
  predicate IsByteaOperand(op: SqlExpr) {
    op.Type() == ByteArray && (op.Mapping().None? || op.Mapping().value.ByteArrayMapping?)
  }

  function ArrayLengthOf(v: Visitor, op: SqlExpr): Visited {
    if IsByteaOperand(op) then
      Sql(Function("length", [op], true, TrueArray(1), Int32, None))
    else
      match v.jsonArrayLength(op)
      case Some(json) => Sql(json)
      case None => Sql(Function("cardinality", [op], true, TrueArray(1), Int32, None))
  }

  function VisitUnary(v: Visitor, e: Expr): Visited
    requires e.Unary?
    decreases Size(e), 4
  {
    if e.unaryKind == ArrayLength then
      var check := TranslationFailed(Some(e.operand), Some(Visit(v, e.operand)));
      if check.failed then NotTranslated else ArrayLengthOf(v, check.cast.value)
    else if e.unaryKind == Convert && e.unaryType == ITupleType && IsAssignableToITuple(TypeOf(e.operand)) then
      Visit(v, e.operand)
    else
      v.base(e)
  }

  function VisitMethodCall(v: Visitor, e: Expr): Visited
    requires e.Call?
    decreases Size(e), 4
  {
    if |e.args| > 0 && IsArrayOrGenericList(TypeOf(e.args[0])) then
      match VisitArrayMethodCall(v, e.callee, e.args)
      case Handled(r) => r
      case Declined => v.base(e)
    else
      v.base(e)
  }

  /** Which quantifier a lambda-inspecting pattern sits under. */
  datatype Quantifier = AnyQuantifier | AllQuantifier

  /** `x LIKE ANY/ALL (array)`; a sub-translation that is not SQL fails the whole node. */
  function PatternMatch(q: Quantifier, item: Visited, values: Visited, kind: PatternKind): Visited {
    if item.Sql? && values.Sql? then
      Sql(if q == AnyQuantifier then SqlAny(item.sql, values.sql, kind) else SqlAll(item.sql, values.sql, kind))
    else NotTranslated
  }

  /** Any gives the overlap `array && column`; All gives the containment `array <@ column`. */
  function Containment(q: Quantifier, values: Visited, column: Visited): Visited {
    if values.Sql? && column.Sql? then
      Sql(if q == AnyQuantifier then SqlOverlaps(values.sql, column.sql) else SqlContainedBy(values.sql, column.sql))
    else NotTranslated
  }

  /** The declaring type is a closed List<T> (or HashSet<T> for IsHashSetContains) and the method is its one-parameter Contains. */
  predicate IsListContains(m: MethodKey) {
    m.declaring.ListOf? && m.name == "Contains" && |m.params| == 1
  }

  predicate IsHashSetContains(m: MethodKey) {
    m.declaring.HashSetOf? && m.name == "Contains" && |m.params| == 1
  }

  /**
   * The patterns shared by Any and All whose lambda body is a method call: Like/ILike with the
   * lambda parameter as the pattern, and Enumerable/List/HashSet Contains of the parameter.
   * None when no pattern matches.
   */
  function PredicateCallTranslation(v: Visitor, q: Quantifier, arguments: seq<Expr>, p: Expr, call: Expr)
    : Option<Visited>
    requires |arguments| > 1 && arguments[1].Lambda? && call == arguments[1].body && call.Call?
    decreases 1 + SizeSeq(arguments), 1
  {
    var predicateMethod := call.callee;
    var predicateArguments := call.args;
    if (predicateMethod == Like2Method || predicateMethod == ILike2Method)
       && |predicateArguments| > 2 && predicateArguments[2] == p then
      SubExpressionsSmaller(arguments, call);
      Some(PatternMatch(q, Visit(v, predicateArguments[1]), Visit(v, arguments[0]),
                        if predicateMethod == Like2Method then Like else ILike))
    else if IsClosedFormOf(predicateMethod, ContainsMethod) && |predicateArguments| > 1
            && IsArrayOrGenericList(TypeOf(predicateArguments[0])) && predicateArguments[1] == p then
      SubExpressionsSmaller(arguments, call);
      Some(Containment(q, Visit(v, arguments[0]), Visit(v, predicateArguments[0])))
    else if (IsListContains(predicateMethod) || IsHashSetContains(predicateMethod))
            && |predicateArguments| > 0 && predicateArguments[0] == p then
      SubExpressionsSmaller(arguments, call);
      Some(match call.instance
           case Some(instance) => Containment(q, Visit(v, arguments[0]), Visit(v, instance))
           case None => NotTranslated)
    else
      None
  }

  /** The receiver, the lambda body's arguments and its instance are all smaller than the call's arguments. */
  lemma SubExpressionsSmaller(arguments: seq<Expr>, call: Expr)
    requires |arguments| > 1 && arguments[1].Lambda? && call == arguments[1].body && call.Call?
    ensures Size(arguments[0]) < 1 + SizeSeq(arguments)
    ensures forall i :: 0 <= i < |call.args| ==> Size(call.args[i]) < 1 + SizeSeq(arguments)
    ensures call.instance.Some? ==> Size(call.instance.value) < 1 + SizeSeq(arguments)
  {
    SizeSeqFirstTwo(arguments);
    assert Size(arguments[1]) == 1 + Size(call);
    assert Size(call) == 1 + SizeOpt(call.instance) + SizeSeq(call.args);
    forall i | 0 <= i < |call.args| ensures Size(call.args[i]) < 1 + SizeSeq(arguments) {
      SizeSeqElement(call.args, i);
    }
  }

  /** The two sides TryMatchEquality finds; the left one is absent for a static one-argument Equals. */
  datatype Operands = Operands(left: Option<Expr>, right: Expr)

  /**
   * Any binary node (of whatever operator), the static object.Equals(a, b), or any method
   * named Equals called with one argument.
   */
  function TryMatchEquality(expression: Expr): (r: Option<Operands>)
    ensures expression.Binary? ==> r == Some(Operands(Some(expression.left), expression.right))
    ensures expression.Call? && expression.callee == ObjectEqualsMethod && |expression.args| == 2 ==>
              r == Some(Operands(Some(expression.args[0]), expression.args[1]))
    ensures expression.Call? && expression.callee.name == "Equals" && |expression.args| == 1 ==>
              r == Some(Operands(expression.instance, expression.args[0]))
    ensures r.Some? ==>
              expression.Binary?
              || (expression.Call? && expression.callee == ObjectEqualsMethod && |expression.args| == 2)
              || (expression.Call? && expression.callee.name == "Equals" && |expression.args| == 1)
    ensures r.Some? && r.value.left.None? ==>
              expression.Call? && expression.callee.name == "Equals" && |expression.args| == 1
              && expression.instance.None?
    ensures r.Some? ==> Size(r.value.right) < Size(expression)
    ensures r.Some? && r.value.left.Some? ==> Size(r.value.left.value) < Size(expression)
  {
    match expression
    case Binary(_, left, right, _) => Some(Operands(Some(left), right))
    case Call(m, instance, args) =>
      if m == ObjectEqualsMethod && |args| == 2 then
        SizeSeqFirstTwo(args);
        Some(Operands(Some(args[0]), args[1]))
      else if m.name == "Equals" && |args| == 1 then
        SizeSeqElement(args, 0);
        Some(Operands(instance, args[0]))
      else None
    case _ => None
  }

  /**
   * The Any block of VisitArrayMethodCall. None: no pattern matched (fall through);
   * Some(Declined): the source returns null; Some(Handled(r)): it returns r. The equality
   * fallback re-visits `Enumerable.Contains<T>(array, item)`, which Expression.Call builds only
   * when the item's type is reference-assignable to T.
   */
  function AnyPredicateTranslation(v: Visitor, m: MethodKey, arguments: seq<Expr>): Option<ArrayCallResult>
    requires |arguments| > 1 && arguments[1].Lambda? && |m.genericArgs| == 1
    decreases 1 + SizeSeq(arguments), 2
  {
    var wherePredicate := arguments[1];
    if |wherePredicate.params| == 0 then None
    else
      var p := Parameter(wherePredicate.params[0]);
      var patterns :=
        if wherePredicate.body.Call? then PredicateCallTranslation(v, AnyQuantifier, arguments, p, wherePredicate.body)
        else None;
      if patterns.Some? then Some(Handled(patterns.value))
      else
        var equality := TryMatchEquality(wherePredicate.body);
        if equality.Some? && (equality.value.left == Some(p) || equality.value.right == p) then
          var item :=
            if equality.value.left == Some(p) then Some(equality.value.right)
            else if equality.value.right == p then equality.value.left
            else None;
          if item.None? then Some(Declined)
          else if !IsReferenceAssignable(m.genericArgs[0], TypeOf(item.value)) then
            // Expression.Call rejects an item that is not assignable to T; the throw is NotTranslated here
            Some(Handled(NotTranslated))
          else
            var contains := Call(ContainsMethod(m.genericArgs[0]), None, [arguments[0], item.value]);
            assert Size(item.value) < Size(wherePredicate.body);
            SizeSeqFirstTwo(arguments);
            SizeSeqPair(arguments[0], item.value);
            assert Size(contains) == 1 + Size(arguments[0]) + Size(item.value);
            Some(Handled(Visit(v, contains)))
        else None
  }

  /** The All block of VisitArrayMethodCall: the lambda body must be a method call. */
  function AllPredicateTranslation(v: Visitor, arguments: seq<Expr>): Option<Visited>
    requires |arguments| > 1 && arguments[1].Lambda?
    decreases 1 + SizeSeq(arguments), 2
  {
    var wherePredicate := arguments[1];
    if wherePredicate.body.Call? && |wherePredicate.params| > 0 then
      PredicateCallTranslation(v, AllQuantifier, arguments, Parameter(wherePredicate.params[0]), wherePredicate.body)
    else None
  }

  function VisitArrayMethodCall(v: Visitor, m: MethodKey, arguments: seq<Expr>): ArrayCallResult
    requires |arguments| > 0
    decreases 1 + SizeSeq(arguments), 3
  {
    var anyResult :=
      if IsClosedFormOf(m, AnyWithPredicate) && |arguments| > 1 && arguments[1].Lambda? then
        AnyPredicateTranslation(v, m, arguments)
      else None;
    if anyResult.Some? then anyResult.value
    else
      var allResult :=
        if IsClosedFormOf(m, AllMethod) && |arguments| > 1 && arguments[1].Lambda? then
          AllPredicateTranslation(v, arguments)
        else None;
      if allResult.Some? then Handled(allResult.value)
      else v.ltreeArrayMethodCall(m, arguments)
  }

  /** Translates every element in order; None as soon as one is not SQL. */
  function TranslateAll(v: Visitor, es: seq<Expr>): Option<seq<SqlExpr>>
    decreases SizeSeq(es), 6
  {
    if es == [] then Some([])
    else
      match Visit(v, es[0])
      case Sql(x) =>
        (match TranslateAll(v, es[1..])
         case Some(xs) => Some([x] + xs)
         case None => None)
      case _ => None
  }

  function NewArrayTranslation(v: Visitor, e: Expr): Visited
    requires e.NewArray?
    decreases Size(e), 4
  {
    var visitedNewArray := v.base(e);
    if visitedNewArray.Sql? then visitedNewArray
    else if e.arrayKind == NewArrayInit then
      match TranslateAll(v, e.elements)
      case Some(xs) => Sql(NewArrayOf(v, xs, e.arrayType))
      case None => NotTranslated
    else NotTranslated
  }

  /** Both operands of a binary node, each stripped of implicit converts and translated. */
  function TranslateOperands(v: Visitor, e: Expr): Option<(SqlExpr, SqlExpr)>
    requires e.Binary?
    decreases Size(e), 3
  {
    var left := TranslationFailed(Some(e.left), Some(Visit(v, TryRemoveImplicitConvert(e.left))));
    if left.failed then None
    else
      var right := TranslationFailed(Some(e.right), Some(Visit(v, TryRemoveImplicitConvert(e.right))));
      if right.failed then None else Some((left.cast.value, right.cast.value))
  }

  function VisitBinary(v: Visitor, e: Expr): Visited
    requires e.Binary?
    decreases Size(e), 4
  {
    if e.binaryKind == Subtract && UnwrapNullable(TypeOf(e.left)) == LocalDateType
       && UnwrapNullable(TypeOf(e.right)) == LocalDateType then
      match TranslateOperands(v, e)
      case None => NotTranslated
      case Some((sqlLeft, sqlRight)) =>
        var subtraction := v.makeBinary(Subtract, sqlLeft, sqlRight, v.findMapping(Int32));
        Sql(SqlFunction("make_interval", [subtraction], ["days"], [], true, TrueArray(1), PeriodType, None))
    else if e.binaryKind == ArrayIndex then
      match TranslateOperands(v, e)
      case None => NotTranslated
      case Some((sqlLeft, sqlRight)) =>
        if TypeOf(e.left) == ByteArray then
          Sql(Function("get_byte", [sqlLeft, sqlRight], true, TrueArray(2), Byte, None))
        else
          match v.jsonMemberAccess(sqlLeft, sqlRight, e.binaryType)
          case Some(json) => Sql(json)
          case None => Sql(ArrayIndexOf(v, sqlLeft, v.oneBasedIndex(sqlRight)))
    else
      v.base(e)
  }

  const UtcConstant: SqlExpr := SqlConstant(StringValue("UTC"), StringType, None)

  /** The seconds argument converted to double precision, which make_timestamp(tz) expects. */
  function ToDouble(x: SqlExpr): SqlExpr {
    SqlConvert(x, Double, None)
  }

  /**
   * new DateTime(y, m, d, h, mi, s, kind) with a constant kind: the first six arguments (the
   * seconds converted to double), plus the literal zone "UTC" and make_timestamptz for a Utc
   * kind; otherwise make_timestamp and the kind is dropped. Corrected nullability vectors,
   * one flag per argument (see KindConstructorCallAsWritten).
   */
  function KindConstructorCall(v: Visitor, xs: seq<SqlExpr>, kind: DateTimeKind): (r: SqlExpr)
    requires |xs| == 7
    ensures r.SqlFunction? && |r.args| == (if kind == Utc then 7 else 6) && |r.propagates| == |r.args|
  {
    var rewrittenArguments :=
      xs[..5] + [ToDouble(xs[5])] + (if kind == Utc then [UtcConstant] else []);
    if kind == Utc then
      Function("make_timestamptz", rewrittenArguments, true, TrueArray(7), DateTimeType, Some(v.timestampTzMapping))
    else
      Function("make_timestamp", rewrittenArguments, true, TrueArray(6), DateTimeType, Some(v.timestampMapping))
  }

  /** The same call as the source writes it: TrueArrays[8] and TrueArrays[7]. */
  function KindConstructorCallAsWritten(v: Visitor, xs: seq<SqlExpr>, kind: DateTimeKind): (r: SqlExpr)
    requires |xs| == 7
    ensures r.SqlFunction? && |r.args| == (if kind == Utc then 7 else 6) && |r.propagates| == |r.args| + 1
  {
    var rewrittenArguments :=
      xs[..5] + [ToDouble(xs[5])] + (if kind == Utc then [UtcConstant] else []);
    if kind == Utc then
      Function("make_timestamptz", rewrittenArguments, true, TrueArray(8), DateTimeType, Some(v.timestampTzMapping))
    else
      Function("make_timestamp", rewrittenArguments, true, TrueArray(7), DateTimeType, Some(v.timestampMapping))
  }

  /** The constant DateTimeKind of the seventh constructor argument, if it is one. */
  predicate HasConstantKind(e: Expr)
    requires e.New?
  {
    |e.ctorArgs| == 7 && e.ctorArgs[6].Constant? && e.ctorArgs[6].value.KindValue?
  }

  /** The DateTime block of VisitNew; None when no DateTime constructor pattern applies. */
  function DateTimeConstruction(v: Visitor, e: Expr): Option<Visited>
    requires e.New?
    decreases Size(e), 3
  {
    if e.ctor == Some(DateTimeCtor1) then
      Some(match TranslateAll(v, e.ctorArgs)
           case Some(xs) =>
             Sql(Function("make_date", xs, true, TrueArray(3), DateTimeType, Some(v.timestampMapping)))
           case None => NotTranslated)
    else if e.ctor == Some(DateTimeCtor2) && |e.ctorArgs| == 6 then
      Some(match TranslateAll(v, e.ctorArgs)
           case Some(xs) =>
             if |xs| == 6 then
               Sql(Function("make_timestamp", xs[5 := ToDouble(xs[5])], true, TrueArray(6), DateTimeType,
                            Some(v.timestampMapping)))
             else NotTranslated
           case None => NotTranslated)
    else if e.ctor == Some(DateTimeCtor3) && HasConstantKind(e) then
      Some(match TranslateAll(v, e.ctorArgs)
           case Some(xs) =>
             if |xs| == 7 then Sql(KindConstructorCallAsWritten(v, xs, e.ctorArgs[6].value.kind)) else NotTranslated
           case None => NotTranslated)
    else None
  }

  function NewTranslation(v: Visitor, e: Expr): Visited
    requires e.New?
    decreases Size(e), 4
  {
    var visitedNew := v.base(e);
    if !visitedNew.NotTranslated? then visitedNew
    else if IsAssignableToITuple(e.newType) then
      match TranslateAll(v, e.ctorArgs)
      case Some(xs) => Sql(SqlRowValue(xs, e.newType))
      case None => NotTranslated
    else if e.ctor.Some? && e.ctor.value.declaring == DateTimeType && DateTimeConstruction(v, e).Some? then
      DateTimeConstruction(v, e).value
    else if e.ctor == Some(DateOnlyCtor) then
      match TranslateAll(v, e.ctorArgs)
      case Some(xs) => Sql(Function("make_date", xs, true, TrueArray(3), DateOnlyType, None))
      case None => NotTranslated
    else NotTranslated
  }

  // ---------------------------------------------------------------------------------------
  // Translating a list of arguments

  /** All-or-nothing, in order: the translation holds exactly the SQL of each element. */
  lemma {:induction false} TranslateAllSucceeds(v: Visitor, es: seq<Expr>, xs: seq<SqlExpr>)
    requires |xs| == |es| && forall k :: 0 <= k < |es| ==> Visit(v, es[k]) == Sql(xs[k])
    ensures TranslateAll(v, es) == Some(xs)
  {
    if es != [] {
      TranslateAllSucceeds(v, es[1..], xs[1..]);
      assert [xs[0]] + xs[1..] == xs;
    }
  }

  lemma {:induction false} TranslateAllFails(v: Visitor, es: seq<Expr>, i: nat)
    requires i < |es| && !Visit(v, es[i]).Sql?
    ensures TranslateAll(v, es) == None
  {
    if i > 0 && Visit(v, es[0]).Sql? {
      TranslateAllFails(v, es[1..], i - 1);
    }
  }

  lemma {:induction false} TranslateAllResult(v: Visitor, es: seq<Expr>)
    ensures TranslateAll(v, es).Some? ==>
              |TranslateAll(v, es).value| == |es|
              && forall k :: 0 <= k < |es| ==> Visit(v, es[k]) == Sql(TranslateAll(v, es).value[k])
    ensures TranslateAll(v, es).None? <==> exists k :: 0 <= k < |es| && !Visit(v, es[k]).Sql?
  {
    if es != [] {
      TranslateAllResult(v, es[1..]);
      if TranslateAll(v, es).Some? {
        var xs := TranslateAll(v, es).value;
        forall k | 0 <= k < |es| ensures Visit(v, es[k]) == Sql(xs[k]) {
          if k > 0 { assert es[k] == es[1..][k - 1]; }
        }
      } else if Visit(v, es[0]).Sql? {
        var k :| 0 <= k < |es[1..]| && !Visit(v, es[1..][k]).Sql?;
        assert es[k + 1] == es[1..][k];
      }
      if exists k :: 0 <= k < |es| && !Visit(v, es[k]).Sql? {
        var k :| 0 <= k < |es| && !Visit(v, es[k]).Sql?;
        TranslateAllFails(v, es, k);
      }
    }
  }

  /**
   * TryTranslateArguments: fills a fresh array with the translation of each argument and stops
   * at the first argument that does not translate.
   */
  method TryTranslateArguments(v: Visitor, arguments: seq<Expr>) returns (ok: bool, sqlArguments: array<SqlExpr>)
    ensures fresh(sqlArguments) && sqlArguments.Length == |arguments|
    ensures ok <==> TranslateAll(v, arguments).Some?
    ensures ok ==> sqlArguments[..] == TranslateAll(v, arguments).value
  {
    sqlArguments := new SqlExpr[|arguments|];
    var i := 0;
    while i < sqlArguments.Length
      invariant 0 <= i <= sqlArguments.Length
      invariant forall k :: 0 <= k < i ==> Visit(v, arguments[k]) == Sql(sqlArguments[k])
    {
      var argument := arguments[i];
      var check := TranslationFailed(Some(argument), Some(Visit(v, argument)));
      if check.failed {
        TranslateAllFails(v, arguments, i);
        return false, sqlArguments;
      }
      sqlArguments[i] := check.cast.value;
      i := i + 1;
    }
    TranslateAllSucceeds(v, arguments, sqlArguments[..]);
    ok := true;
  }

  /** VisitNewArray, as the source runs it: the base result if it is SQL, else element by element. */
  method VisitNewArray(v: Visitor, e: Expr) returns (r: Visited)
    requires e.NewArray?
    ensures r == NewArrayTranslation(v, e)
  {
    var visitedNewArray := v.base(e);
    if visitedNewArray.Sql? {
      return visitedNewArray;
    }
    if e.arrayKind == NewArrayInit {
      var expressions := e.elements;
      var visitedExpressions := new SqlExpr[|expressions|];
      for i := 0 to |expressions|
        invariant forall k :: 0 <= k < i ==> Visit(v, expressions[k]) == Sql(visitedExpressions[k])
      {
        var visited := Visit(v, expressions[i]);
        if visited.Sql? {
          visitedExpressions[i] := visited.sql;
        } else {
          TranslateAllFails(v, expressions, i);
          return NotTranslated;
        }
      }
      TranslateAllSucceeds(v, expressions, visitedExpressions[..]);
      return Sql(NewArrayOf(v, visitedExpressions[..], e.arrayType));
    }
    return NotTranslated;
  }

  /**
   * VisitNew, as the source runs it: the six-argument path overwrites the seconds argument in
   * place, the seven-argument path builds the rewritten argument list by appending and, as
   * written, passes one nullability flag more than it passes arguments.
   */
  method VisitNew(v: Visitor, e: Expr) returns (r: Visited)
    requires e.New?
    ensures r == NewTranslation(v, e)
  {
    var visitedNew := v.base(e);
    if !visitedNew.NotTranslated? {
      return visitedNew;
    }
    if IsAssignableToITuple(e.newType) {
      var ok, sqlArguments := TryTranslateArguments(v, e.ctorArgs);
      return if ok then Sql(SqlRowValue(sqlArguments[..], e.newType)) else NotTranslated;
    }
    if e.ctor.Some? && e.ctor.value.declaring == DateTimeType {
      if e.ctor == Some(DateTimeCtor1) {
        var ok, sqlArguments := TryTranslateArguments(v, e.ctorArgs);
        return if ok
          then Sql(Function("make_date", sqlArguments[..], true, TrueArray(3), DateTimeType, Some(v.timestampMapping)))
          else NotTranslated;
      }
      if e.ctor == Some(DateTimeCtor2) && |e.ctorArgs| == 6 {
        var ok, sqlArguments := TryTranslateArguments(v, e.ctorArgs);
        if !ok {
          return NotTranslated;
        }
        sqlArguments[5] := ToDouble(sqlArguments[5]);
        return Sql(Function("make_timestamp", sqlArguments[..], true, TrueArray(6), DateTimeType,
                            Some(v.timestampMapping)));
      }
      if e.ctor == Some(DateTimeCtor3) && HasConstantKind(e) {
        var kind := e.ctorArgs[6].value.kind;
        var ok, sqlArguments := TryTranslateArguments(v, e.ctorArgs);
        if !ok {
          return NotTranslated;
        }
        var rewrittenArguments := [sqlArguments[0], sqlArguments[1], sqlArguments[2], sqlArguments[3],
                                   sqlArguments[4], ToDouble(sqlArguments[5])];
        if kind == Utc {
          rewrittenArguments := rewrittenArguments + [UtcConstant];
        }
        ghost var xs := sqlArguments[..];
        assert rewrittenArguments == xs[..5] + [ToDouble(xs[5])] + (if kind == Utc then [UtcConstant] else []);
        assert DateTimeConstruction(v, e) == Some(Sql(KindConstructorCallAsWritten(v, xs, kind)));
        return if kind == Utc
          then Sql(Function("make_timestamptz", rewrittenArguments, true, TrueArray(8), DateTimeType,
                            Some(v.timestampTzMapping)))
          else Sql(Function("make_timestamp", rewrittenArguments, true, TrueArray(7), DateTimeType,
                            Some(v.timestampMapping)));
      }
    }
    if e.ctor == Some(DateOnlyCtor) {
      var ok, sqlArguments := TryTranslateArguments(v, e.ctorArgs);
      return if ok then Sql(Function("make_date", sqlArguments[..], true, TrueArray(3), DateOnlyType, None))
                   else NotTranslated;
    }
    return NotTranslated;
  }
}
