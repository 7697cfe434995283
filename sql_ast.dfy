/**
 * The SQL abstract syntax tree the translators produce, the type mappings attached to
 * its nodes, and the invariant every node built through the SQL expression factory
 * keeps: a nullability-propagation vector with one flag per argument.
 */
module SqlAst {
  import opened Wrappers
  import opened ClrTypes

  /** A store-type mapping. `ByteArrayMapping` is the Npgsql mapping of byte[] to bytea. */
  datatype TypeMapping = ByteArrayMapping | StoreMapping(storeType: string, clrType: ClrType)
  {
    function StoreType(): string {
      if ByteArrayMapping? then "bytea" else storeType
    }
  }

  /** Match kind of `x LIKE ANY (array)` / `x LIKE ALL (array)`. */
  datatype PatternKind = Like | ILike

  /**
   * The set being aggregated over: an opaque query-level source (its table, predicate,
   * orderings and DISTINCT flag are not modelled) and its selector, which is present only
   * when the selector is a SQL expression.
   */
  datatype EnumerableSource = EnumerableSource(origin: nat, selector: Option<SqlExpr>)

  /**
   * SQL expression nodes. A function call carries its argument names (CreateWithNamedArguments),
   * its argument separators (CreateWithArgumentSeparators), its nullable flag, the per-argument
   * nullability-propagation vector, its CLR result type and its type mapping.
   */
  datatype SqlExpr =
    | SqlColumn(table: string, column: string, colType: ClrType, colMapping: Option<TypeMapping>)
    | SqlConstant(value: Value, constType: ClrType, constMapping: Option<TypeMapping>)
    | SqlFunction(name: string, args: seq<SqlExpr>, argNames: seq<string>, separators: seq<string>,
                  nullable: bool, propagates: seq<bool>, funcType: ClrType, funcMapping: Option<TypeMapping>)
    | SqlAggregate(aggName: string, aggArgs: seq<SqlExpr>, source: EnumerableSource,
                   aggNullable: bool, aggPropagates: seq<bool>, aggType: ClrType, aggMapping: Option<TypeMapping>)
    | SqlConvert(operand: SqlExpr, convType: ClrType, convMapping: Option<TypeMapping>)
    | SqlBinary(op: BinaryKind, left: SqlExpr, right: SqlExpr, binType: ClrType, binMapping: Option<TypeMapping>)
    | SqlAny(item: SqlExpr, anyArray: SqlExpr, anyKind: PatternKind)
    | SqlAll(allItem: SqlExpr, allArray: SqlExpr, allKind: PatternKind)
    | SqlOverlaps(overlapLeft: SqlExpr, overlapRight: SqlExpr)
    | SqlContainedBy(contained: SqlExpr, container: SqlExpr)
    | SqlArrayIndex(indexed: SqlExpr, index: SqlExpr, indexMapping: Option<TypeMapping>)
    | SqlNewArray(elements: seq<SqlExpr>, arrayType: ClrType, arrayMapping: Option<TypeMapping>)
    | SqlRowValue(values: seq<SqlExpr>, rowType: ClrType)
  {
    /** SqlExpression.Type */
    function Type(): ClrType {
      match this
      case SqlColumn(_, _, t, _) => t
      case SqlConstant(_, t, _) => t
      case SqlFunction(_, _, _, _, _, _, t, _) => t
      case SqlAggregate(_, _, _, _, _, t, _) => t
      case SqlConvert(_, t, _) => t
      case SqlBinary(_, _, _, t, _) => t
      case SqlArrayIndex(a, _, _) => ElementType(a.Type())
      case SqlNewArray(_, t, _) => t
      case SqlRowValue(_, t) => t
      case _ => Boolean
    }

    /**
     * SqlExpression.TypeMapping. The array subscript and the array literal carry the mapping the
     * factory inferred for them; the row value and the four boolean operators report none.
     */
    function Mapping(): Option<TypeMapping> {
      match this
      case SqlColumn(_, _, _, m) => m
      case SqlConstant(_, _, m) => m
      case SqlFunction(_, _, _, _, _, _, _, m) => m
      case SqlAggregate(_, _, _, _, _, _, m) => m
      case SqlConvert(_, _, m) => m
      case SqlBinary(_, _, _, _, m) => m
      case SqlArrayIndex(_, _, m) => m
      case SqlNewArray(_, _, m) => m
      case _ => None
    }
  }

  /** Statics.TrueArrays[n]: n flags, all true. */
  function TrueArray(n: nat): (r: seq<bool>)
    ensures |r| == n && forall i :: 0 <= i < n ==> r[i]
  {
    seq(n, _ => true)
  }

  /** ISqlExpressionFactory.Function(name, args, nullable, propagates, type, mapping). */
  function Function(name: string, args: seq<SqlExpr>, nullable: bool, propagates: seq<bool>,
                    t: ClrType, mapping: Option<TypeMapping>): SqlExpr {
    SqlFunction(name, args, [], [], nullable, propagates, t, mapping)
  }

  /** ISqlExpressionFactory.Constant(value) for an int; the constant carries no mapping. */
  function IntConstant(i: int): SqlExpr {
    SqlConstant(IntValue(i), Int32, None)
  }

  /**
   * The nullability vectors fit the arguments, recursively: every function and aggregate node has
   * exactly one flag per argument when `exact`, at least one otherwise (flags past the last argument
   * are never read); named arguments name every argument and separators sit between arguments.
   */
  predicate FlagsFit(exact: bool, s: SqlExpr) {
    match s
    case SqlColumn(_, _, _, _) => true
    case SqlConstant(_, _, _) => true
    case SqlFunction(_, args, names, seps, _, props, _, _) =>
      (if exact then |props| == |args| else |props| >= |args|)
      && (names == [] || |names| == |args|)
      && (seps == [] || |seps| + 1 == |args|)
      && forall i :: 0 <= i < |args| ==> FlagsFit(exact, args[i])
    case SqlAggregate(_, args, src, _, props, _, _) =>
      (if exact then |props| == |args| else |props| >= |args|)
      && forall i :: 0 <= i < |args| ==> FlagsFit(exact, args[i])
    case SqlConvert(x, _, _) => FlagsFit(exact, x)
    case SqlBinary(_, l, r, _, _) => FlagsFit(exact, l) && FlagsFit(exact, r)
    case SqlAny(x, a, _) => FlagsFit(exact, x) && FlagsFit(exact, a)
    case SqlAll(x, a, _) => FlagsFit(exact, x) && FlagsFit(exact, a)
    case SqlOverlaps(a, b) => FlagsFit(exact, a) && FlagsFit(exact, b)
    case SqlContainedBy(a, b) => FlagsFit(exact, a) && FlagsFit(exact, b)
    case SqlArrayIndex(a, i, _) => FlagsFit(exact, a) && FlagsFit(exact, i)
    case SqlNewArray(es, _, _) => forall i :: 0 <= i < |es| ==> FlagsFit(exact, es[i])
    case SqlRowValue(vs, _) => forall i :: 0 <= i < |vs| ==> FlagsFit(exact, vs[i])
  }

  /** The factory's guarantee: one nullability flag per argument, everywhere in the tree. */
  predicate WellFormed(s: SqlExpr) {
    FlagsFit(true, s)
  }

  /** The weaker guarantee a consumer of the vectors needs: a flag for every argument. */
  predicate FlagsCover(s: SqlExpr) {
    FlagsFit(false, s)
  }

  predicate AllFlagsFit(exact: bool, xs: seq<SqlExpr>) {
    forall i :: 0 <= i < |xs| ==> FlagsFit(exact, xs[i])
  }

  predicate AllWellFormed(xs: seq<SqlExpr>) {
    AllFlagsFit(true, xs)
  }

  lemma PairFlagsFit(exact: bool, a: SqlExpr, b: SqlExpr)
    ensures AllFlagsFit(exact, [a, b]) <==> FlagsFit(exact, a) && FlagsFit(exact, b)
  {
    assert [a, b][0] == a && [a, b][1] == b;
  }

  lemma PairWellFormed(a: SqlExpr, b: SqlExpr)
    ensures AllWellFormed([a, b]) <==> WellFormed(a) && WellFormed(b)
  {
    PairFlagsFit(true, a, b);
  }

  /** The factory's invariant implies the weaker one, for every expression. */
  lemma {:induction false} WellFormedFlagsCover(s: SqlExpr)
    requires WellFormed(s)
    ensures FlagsCover(s)
  {
    match s
    case SqlColumn(_, _, _, _) =>
    case SqlConstant(_, _, _) =>
    case SqlFunction(_, args, _, _, _, _, _, _) =>
      forall i | 0 <= i < |args| ensures FlagsCover(args[i]) { WellFormedFlagsCover(args[i]); }
    case SqlAggregate(_, args, _, _, _, _, _) =>
      forall i | 0 <= i < |args| ensures FlagsCover(args[i]) { WellFormedFlagsCover(args[i]); }
    case SqlConvert(x, _, _) => WellFormedFlagsCover(x);
    case SqlBinary(_, l, r, _, _) => WellFormedFlagsCover(l); WellFormedFlagsCover(r);
    case SqlAny(x, a, _) => WellFormedFlagsCover(x); WellFormedFlagsCover(a);
    case SqlAll(x, a, _) => WellFormedFlagsCover(x); WellFormedFlagsCover(a);
    case SqlOverlaps(a, b) => WellFormedFlagsCover(a); WellFormedFlagsCover(b);
    case SqlContainedBy(a, b) => WellFormedFlagsCover(a); WellFormedFlagsCover(b);
    case SqlArrayIndex(a, i, _) => WellFormedFlagsCover(a); WellFormedFlagsCover(i);
    case SqlNewArray(es, _, _) =>
      forall i | 0 <= i < |es| ensures FlagsCover(es[i]) { WellFormedFlagsCover(es[i]); }
    case SqlRowValue(vs, _) =>
      forall i | 0 <= i < |vs| ensures FlagsCover(vs[i]) { WellFormedFlagsCover(vs[i]); }
  }
}
