/**
 * The .NET side of the vocabulary: the CLR types the translators test for, the
 * signature keys that stand for the source's cached reflection handles
 * (MethodInfo, ConstructorInfo), constant values and expression-node kinds.
 */
module ClrTypes {

  /**
   * The CLR types the core distinguishes. `NamedType` covers every other type by full name,
   * and never carries the full name of a type that has a constructor of its own here (for
   * example "NodaTime.LocalDate" is only ever `LocalDateType`), so comparing two types, as the
   * source compares them by full name, is comparing these values.
   */
  datatype ClrType =
    | Int32 | Byte | SByte | Char | Int16 | UInt16 | Int64 | Double | Boolean
    | StringType | ObjectType
    | DateTimeType | DateOnlyType | DateTimeKindType
    | LocalDateType | PeriodType          // NodaTime.LocalDate and NodaTime.Period
    | GeometryType                        // NetTopologySuite.Geometries.Geometry
    | ITupleType                          // System.Runtime.CompilerServices.ITuple
    | ArrayOf(elem: ClrType)              // T[]
    | ListOf(elem: ClrType)               // List<T>
    | HashSetOf(elem: ClrType)            // HashSet<T>
    | EnumerableOf(elem: ClrType)         // IEnumerable<T>
    | FuncOf(params: seq<ClrType>, result: ClrType)
    | NullableOf(underlying: ClrType)     // Nullable<T>
    | EnumOf(name: string, underlying: ClrType)
    | TupleOf(items: seq<ClrType>)        // ValueTuple<...> / Tuple<...>
    | NamedType(fullName: string)

  const ByteArray: ClrType := ArrayOf(Byte)

  /** Type.UnwrapNullableType(): Nullable<T> becomes T, everything else is unchanged. */
  function UnwrapNullable(t: ClrType): ClrType {
    if t.NullableOf? then t.underlying else t
  }

  /** Type.IsArrayOrGenericList(): an array, or a closed List<T>. */
  predicate IsArrayOrGenericList(t: ClrType) {
    t.ArrayOf? || t.ListOf?
  }

  /** Type.IsAssignableTo(typeof(ITuple)): the tuple types and ITuple itself. */
  predicate IsAssignableToITuple(t: ClrType) {
    t.TupleOf? || t == ITupleType
  }

  /**
   * The types known to be reference types. `NamedType` and `TupleOf` (which stands for both
   * ValueTuple and Tuple) are not counted: the model does not know whether they are classes.
   */
  predicate IsReferenceType(t: ClrType) {
    t == StringType || t == ObjectType || t == PeriodType || t == GeometryType || t == ITupleType
    || t.ArrayOf? || t.ListOf? || t.HashSetOf? || t.EnumerableOf? || t.FuncOf?
  }

  /**
   * TypeUtils.AreReferenceAssignable(dest, src), which Expression.Call checks of every argument:
   * the same type, or two reference types with `dest` assignable from `src`. Assignability between
   * reference types is modelled as `object` from any of them, and IEnumerable<T> from T[], List<T>
   * and HashSet<T>.
   */
  predicate IsReferenceAssignable(dest: ClrType, src: ClrType) {
    dest == src
    || (IsReferenceType(dest) && IsReferenceType(src)
        && (dest == ObjectType
            || (dest.EnumerableOf? && src in {ArrayOf(dest.elem), ListOf(dest.elem), HashSetOf(dest.elem)})))
  }

  /** The element type of an array or list; other types have none and give `object`. */
  function ElementType(t: ClrType): ClrType {
    match t
    case ArrayOf(e) => e
    case ListOf(e) => e
    case _ => ObjectType
  }

  const EnumerableClass: ClrType := NamedType("System.Linq.Enumerable")
  const DbFunctionsType: ClrType := NamedType("Microsoft.EntityFrameworkCore.DbFunctions")

  /**
   * The identity of a method, as reflection would compare it: declaring type, name,
   * the generic arguments of a closed generic method (empty for a non-generic one),
   * the parameter types and the return type.
   */
  datatype MethodKey = MethodKey(
    declaring: ClrType, name: string, genericArgs: seq<ClrType>, params: seq<ClrType>, returnType: ClrType)
  {
    /** MethodInfo.IsGenericMethod */
    predicate IsGeneric() { |genericArgs| > 0 }
  }

  /** The identity of a constructor: declaring type and parameter types. */
  datatype CtorKey = CtorKey(declaring: ClrType, params: seq<ClrType>)

  // The generic method definitions of EnumerableMethods, closed over an element type.

  function AnyWithPredicate(t: ClrType): MethodKey {
    MethodKey(EnumerableClass, "Any", [t], [EnumerableOf(t), FuncOf([t], Boolean)], Boolean)
  }

  function AllMethod(t: ClrType): MethodKey {
    MethodKey(EnumerableClass, "All", [t], [EnumerableOf(t), FuncOf([t], Boolean)], Boolean)
  }

  function ContainsMethod(t: ClrType): MethodKey {
    MethodKey(EnumerableClass, "Contains", [t], [EnumerableOf(t), t], Boolean)
  }

  function FirstWithoutPredicate(t: ClrType): MethodKey {
    MethodKey(EnumerableClass, "First", [t], [EnumerableOf(t)], t)
  }

  /** MethodInfo.IsClosedFormOf(definition), for a definition with one type parameter. */
  predicate IsClosedFormOf(m: MethodKey, definition: ClrType -> MethodKey) {
    |m.genericArgs| == 1 && m == definition(m.genericArgs[0])
  }

  /** List<T>.Contains(T) and HashSet<T>.Contains(T). */
  function ListContains(t: ClrType): MethodKey {
    MethodKey(ListOf(t), "Contains", [], [t], Boolean)
  }

  function HashSetContains(t: ClrType): MethodKey {
    MethodKey(HashSetOf(t), "Contains", [], [t], Boolean)
  }

  /** DbFunctionsExtensions.Like(DbFunctions, string, string) */
  const Like2Method: MethodKey :=
    MethodKey(NamedType("Microsoft.EntityFrameworkCore.DbFunctionsExtensions"), "Like", [],
              [DbFunctionsType, StringType, StringType], Boolean)

  /** NpgsqlDbFunctionsExtensions.ILike(DbFunctions, string, string) */
  const ILike2Method: MethodKey :=
    MethodKey(NamedType("Microsoft.EntityFrameworkCore.NpgsqlDbFunctionsExtensions"), "ILike", [],
              [DbFunctionsType, StringType, StringType], Boolean)

  /** The static object.Equals(object, object). */
  const ObjectEqualsMethod: MethodKey :=
    MethodKey(ObjectType, "Equals", [], [ObjectType, ObjectType], Boolean)

  const DateTimeCtor1: CtorKey := CtorKey(DateTimeType, [Int32, Int32, Int32])
  const DateTimeCtor2: CtorKey := CtorKey(DateTimeType, [Int32, Int32, Int32, Int32, Int32, Int32])
  const DateTimeCtor3: CtorKey :=
    CtorKey(DateTimeType, [Int32, Int32, Int32, Int32, Int32, Int32, DateTimeKindType])
  const DateOnlyCtor: CtorKey := CtorKey(DateOnlyType, [Int32, Int32, Int32])

  datatype DateTimeKind = Unspecified | Utc | Local

  newtype byte = x: int | 0 <= x < 256

  /** The values a constant node can hold. */
  datatype Value =
    | NullValue
    | IntValue(i: int)
    | ByteValue(b: byte)
    | BytesValue(bytes: seq<byte>)
    | StringValue(s: string)
    | KindValue(kind: DateTimeKind)
    | OtherValue(tag: nat)

  /** ExpressionType values of unary nodes. */
  datatype UnaryKind = ArrayLength | Convert | ConvertChecked | Negate | Not | Quote | OtherUnary(name: string)

  /** ExpressionType values of binary nodes. */
  datatype BinaryKind =
    | Add | Subtract | Multiply | Equal | NotEqual | LessThan | GreaterThan | AndAlso | OrElse
    | ArrayIndex | OtherBinary(name: string)

  datatype NewArrayKind = NewArrayInit | NewArrayBounds
}
