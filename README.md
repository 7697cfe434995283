# Npgsql EF Core query translation, modelled in Dafny

This project models three parts of the PostgreSQL provider for Entity Framework Core. Each
turns a LINQ expression tree, or a partly translated call, into a PostgreSQL SQL expression tree.

- **`NpgsqlSqlTranslatingExpressionVisitor`** (`SqlTranslatingVisitor`). It has five overrides:
  - VisitUnary: array length, and unwrapping a Convert to `ITuple`.
  - VisitMethodCall / VisitArrayMethodCall: the lambda-inspecting `Any`/`All` rewrites to
    `LIKE ANY/ALL`, `&&`, `<@`, and a rewrite to `Contains`.
  - VisitNewArray.
  - VisitBinary: `LocalDate - LocalDate`, and array indexing.
  - VisitNew: tuples to row values, and `DateTime`/`DateOnly` constructors.

  It also models the helpers TryRemoveImplicitConvert, TranslationFailed and
  TryTranslateArguments.
- **`NpgsqlByteArrayMethodTranslator`** (`ByteArrayMethodTranslator`): `Contains` and `First()` on a
  bytea-mapped argument.
- **`NpgsqlNetTopologySuiteAggregateMethodCallTranslatorPlugin`** (`NtsAggregateTranslator`): the
  plugin's factory guard, and the four PostGIS aggregate translations together with their type
  mapping.

Vocabulary lives in `ClrTypes`:
- CLR types;
- method and constructor identities as structural keys, standing in for the cached reflection
  handles;
- constant values and node kinds.

The source expression tree is `ExpressionTrees.Expr`. The SQL tree is `SqlAst.SqlExpr`. Factory
calls become its constructors, which carry the name, arguments, nullability vector, type and
mapping.

`SqlAst.WellFormed` is the factory's invariant: one nullability flag per function argument,
applied recursively. `SqlAst.FlagsCover` is the weaker invariant that a reader of the vectors
needs: at least one flag per argument. Both are `SqlAst.FlagsFit`, for `exact` true and false.
The visitor keeps the weaker one for every well-typed tree
(`VisitorWellFormedness.VisitKeepsFlagsCover`). It keeps the exact one for every well-typed tree
without a seven-argument `DateTime` constructor of constant kind
(`VisitorWellFormedness.VisitKeepsWellFormed`). Both assume that the base visitor and the other
collaborators keep the same invariant on those trees. That constructor's vectors, as written,
are one flag too long (see Findings).

Visiting a node yields one of three results (`Visited`):
- SQL;
- the `NotTranslatedExpression` sentinel;
- a non-SQL expression produced by the base visitor.

The visitor's collaborators are fields of the `Visitor` datatype. They are opaque functions:
- the base relational visitor;
- the JSON POCO translator;
- the LTree translator;
- the type-mapping lookup;
- `MakeBinary`;
- `GenerateOneBasedIndexExpression`;
- the type mappings the factory infers for an array literal (`NewArray`) and for an array
  subscript (`ArrayIndex`);
- the two timestamp mappings.

The visitor's overrides are one recursive family of functions. Termination is by node count, and
that count also covers the `Any` rewrite, which re-visits a freshly built `Contains` call. The
source has two loops that fill an array: `VisitNewArray` and `TryTranslateArguments`. Each is
also a method proved equal to its function. `VisitNew` is written as a method too, because it
updates state step by step without a loop: it overwrites `sqlArguments[5]` in place and
appends to the rewritten-argument list.

Two code-level quirks are modelled as written:
- `TryMatchEquality` accepts a binary node of any operator, so `arr.Any(p => p != x)` becomes
  `arr.Contains(x)` whenever `x` is assignable to the element type
  (`VisitorProperties.AnyBinaryBecomesContains`).
- `All(p => column.Contains(p))` builds `ContainedBy(array, column)`, that is `array <@ column`.
  `Any` builds `Overlaps(array, column)` with the same operand order.

## Model

| member | source | states |
|---|---|---|
| SqlTranslatingVisitor.TranslationFailed | src/EFCore.PG/Query/Internal/NpgsqlSqlTranslatingExpressionVisitor.cs:524-534 | An absent original never fails. A present original fails exactly when its translation is not SQL. Whenever the translation is SQL, the cast is that SQL, whether or not an original is given. A failure carries no cast. |
| SqlTranslatingVisitor.TryRemoveImplicitConvert | src/EFCore.PG/Query/Internal/NpgsqlSqlTranslatingExpressionVisitor.cs:492-520 | Stripping never makes the tree larger. |
| SqlTranslatingVisitor.TryMatchEquality | src/EFCore.PG/Query/Internal/NpgsqlSqlTranslatingExpressionVisitor.cs:205-233 | Any binary node, of any operator, matches as (left, right). The static `object.Equals(a, b)` matches as (a, b). Any method named Equals with one argument matches as (instance, argument). Nothing else matches. The left side is absent only for a static one-argument Equals. Both sides are proper sub-expressions of the body. |
| SqlTranslatingVisitor.KindConstructorCallAsWritten | src/EFCore.PG/Query/Internal/NpgsqlSqlTranslatingExpressionVisitor.cs:440-457 | The seven-argument DateTime call as written. It has 7 arguments for Utc and 6 otherwise, and its nullability vector is one flag longer than the argument list. |
| SqlTranslatingVisitor.KindConstructorCall | src/EFCore.PG/Query/Internal/NpgsqlSqlTranslatingExpressionVisitor.cs:440-457 | The same call with one flag per argument: 7 for Utc, 6 otherwise. |
| SqlTranslatingVisitor.TranslateAllSucceeds | src/EFCore.PG/Query/Internal/NpgsqlSqlTranslatingExpressionVisitor.cs:472-487 | When every argument translates, the translated list is exactly their SQL, in order. |
| SqlTranslatingVisitor.TranslateAllFails | src/EFCore.PG/Query/Internal/NpgsqlSqlTranslatingExpressionVisitor.cs:472-487 | One argument that does not translate fails the whole list. |
| SqlTranslatingVisitor.TranslateAllResult | src/EFCore.PG/Query/Internal/NpgsqlSqlTranslatingExpressionVisitor.cs:472-487 | The list fails if and only if some argument fails. On success it has the same length, and element k is argument k's SQL. |
| SqlTranslatingVisitor.TryTranslateArguments | src/EFCore.PG/Query/Internal/NpgsqlSqlTranslatingExpressionVisitor.cs:472-487 | The loop fills a fresh array with one entry per argument. It returns true exactly when all arguments translate, and the array then holds their SQL in order. |
| SqlTranslatingVisitor.VisitNewArray | src/EFCore.PG/Query/Internal/NpgsqlSqlTranslatingExpressionVisitor.cs:302-328 | The in-place loop with early exit gives the same result as the translation function (see NewArrayCases). |
| SqlTranslatingVisitor.VisitNew | src/EFCore.PG/Query/Internal/NpgsqlSqlTranslatingExpressionVisitor.cs:390-488 | The imperative version gives the same result as the translation function. That includes the in-place overwrite of argument 5, the appended UTC argument, and the `TrueArrays[8]`/`[7]` vectors as written. |
| VisitorProperties.StrippedIsNotImplicitConvert | src/EFCore.PG/Query/Internal/NpgsqlSqlTranslatingExpressionVisitor.cs:492-520 | The result never begins with a removable Convert layer. |
| VisitorProperties.TryRemoveImplicitConvertIdempotent | src/EFCore.PG/Query/Internal/NpgsqlSqlTranslatingExpressionVisitor.cs:492-520 | Stripping twice is the same as stripping once. |
| VisitorProperties.TryRemoveImplicitConvertPeelsOnlyImplicitLayers | src/EFCore.PG/Query/Internal/NpgsqlSqlTranslatingExpressionVisitor.cs:492-520 | The result is reached from the input by removing implicit Convert layers only. |
| VisitorProperties.SameTypeConvertIsRemoved | src/EFCore.PG/Query/Internal/NpgsqlSqlTranslatingExpressionVisitor.cs:496-514 | A Convert or ConvertChecked is removed when the operand's type equals the target type. The comparison unwraps nullables and takes an enum to its underlying type. |
| VisitorProperties.WideningToIntIsRemoved | src/EFCore.PG/Query/Internal/NpgsqlSqlTranslatingExpressionVisitor.cs:504-514 | A Convert from byte, sbyte, char, short or ushort to int is removed. |
| VisitorProperties.OtherNodesAreKept | src/EFCore.PG/Query/Internal/NpgsqlSqlTranslatingExpressionVisitor.cs:494-519 | Every other conversion, and every node that is not a conversion, is returned unchanged. |
| VisitorProperties.ArrayLengthCases | src/EFCore.PG/Query/Internal/NpgsqlSqlTranslatingExpressionVisitor.cs:68-93 | An operand that fails gives NotTranslated. A byte[] operand with a bytea mapping or none gives int `length(op)` with vector [true]. Any other operand gives the JSON length when there is one, else int `cardinality(op)` with vector [true]. |
| VisitorProperties.ConvertToITupleIsTransparent | src/EFCore.PG/Query/Internal/NpgsqlSqlTranslatingExpressionVisitor.cs:95-100 | A Convert to ITuple of an ITuple-assignable operand translates exactly as the operand does. |
| VisitorProperties.NonArrayCallGoesToBase | src/EFCore.PG/Query/Internal/NpgsqlSqlTranslatingExpressionVisitor.cs:106-116 | A call whose first argument is not an array or list goes to the base visitor. |
| VisitorProperties.AnyLike | src/EFCore.PG/Query/Internal/NpgsqlSqlTranslatingExpressionVisitor.cs:134-146 | `arr.Any(p => Like(x, p))` gives `x LIKE ANY(arr)`, and ILike gives ILIKE. It is NotTranslated when x or arr fails. |
| VisitorProperties.AllLike | src/EFCore.PG/Query/Internal/NpgsqlSqlTranslatingExpressionVisitor.cs:245-255 | `arr.All(p => Like(x, p))` gives `x LIKE ALL(arr)`, and ILike gives ILIKE. It is NotTranslated when x or arr fails. |
| VisitorProperties.LikeAndILikeDifferOnlyInKind | src/EFCore.PG/Query/Internal/NpgsqlSqlTranslatingExpressionVisitor.cs:137-146 | Under both Any and All, swapping Like for ILike changes the match kind and nothing else. |
| VisitorProperties.AnyContainsIsOverlap | src/EFCore.PG/Query/Internal/NpgsqlSqlTranslatingExpressionVisitor.cs:148-184 | `arr.Any(p => c.Contains(p))` gives `arr && c` for the Enumerable, List and HashSet forms. It is NotTranslated when either side fails. |
| VisitorProperties.AllContainsIsContainedBy | src/EFCore.PG/Query/Internal/NpgsqlSqlTranslatingExpressionVisitor.cs:257-293 | `arr.All(p => c.Contains(p))` gives `arr <@ c` for all three forms. It is NotTranslated when either side fails. |
| VisitorProperties.AnyBinaryBecomesContains | src/EFCore.PG/Query/Internal/NpgsqlSqlTranslatingExpressionVisitor.cs:188-214 | With the parameter on one side, and the other side's type assignable to the element type, an Any over a binary node of any operator translates as `arr.Contains(other side)`. |
| VisitorProperties.AnyObjectEqualsBecomesContains | src/EFCore.PG/Query/Internal/NpgsqlSqlTranslatingExpressionVisitor.cs:188-222 | The same holds for the static `object.Equals(a, b)`, under the same assignability condition. |
| VisitorProperties.AnyInstanceEqualsBecomesContains | src/EFCore.PG/Query/Internal/NpgsqlSqlTranslatingExpressionVisitor.cs:188-228 | The same holds for any one-argument instance method named Equals, under the same assignability condition. |
| VisitorProperties.AnyEqualityItemNotAssignable | src/EFCore.PG/Query/Internal/NpgsqlSqlTranslatingExpressionVisitor.cs:196-202 | When the other side of an equality body is not reference-assignable to the element type, `Expression.Call` cannot build `Contains`, and the Any call is NotTranslated. It never reaches the base visitor. |
| VisitorProperties.AllEqualityIsNotRewritten | src/EFCore.PG/Query/Internal/NpgsqlSqlTranslatingExpressionVisitor.cs:237-298 | All has no equality fallback: every body that TryMatchEquality accepts (any binary node, the static `object.Equals`, a one-argument `Equals`) goes to the LTree translator, then to the base visitor. |
| VisitorProperties.NewArrayCases | src/EFCore.PG/Query/Internal/NpgsqlSqlTranslatingExpressionVisitor.cs:302-328 | A SQL result from the base visitor is kept. Otherwise, a NewArrayInit whose elements all translate gives an array of the same type and length, with element i being element i's SQL and the mapping the factory infers for those elements. One failing element, or a node that is not NewArrayInit, gives NotTranslated. |
| VisitorProperties.OperandsTranslation | src/EFCore.PG/Query/Internal/NpgsqlSqlTranslatingExpressionVisitor.cs:363-367 | The operands translate exactly when both stripped operands translate, and the result is their SQL. |
| VisitorProperties.LocalDateSubtraction | src/EFCore.PG/Query/Internal/NpgsqlSqlTranslatingExpressionVisitor.cs:333-356 | `LocalDate - LocalDate` gives `make_interval(days => MakeBinary(-, l, r, int mapping))`, typed Period with vector [true]. It is NotTranslated when either side fails. |
| VisitorProperties.ArrayIndexCases | src/EFCore.PG/Query/Internal/NpgsqlSqlTranslatingExpressionVisitor.cs:361-385 | If either side fails, the result is NotTranslated. Otherwise the first case that applies wins: a byte[] left operand gives byte-typed `get_byte(l, i)` with vector [true, true]; then the JSON access, if there is one; else `l[oneBased(i)]`, with the mapping the factory infers for that subscript. |
| VisitorProperties.TupleIsRowValue | src/EFCore.PG/Query/Internal/NpgsqlSqlTranslatingExpressionVisitor.cs:399-406 | A tuple `new` gives a row value of its arguments' SQL in order, or NotTranslated when one argument fails. |
| VisitorProperties.DateTimeThreeArguments | src/EFCore.PG/Query/Internal/NpgsqlSqlTranslatingExpressionVisitor.cs:411-417 | `new DateTime(y, m, d)` gives `make_date(y, m, d)` with three flags and the timestamp mapping. It is NotTranslated when an argument fails. |
| VisitorProperties.DateTimeSixArguments | src/EFCore.PG/Query/Internal/NpgsqlSqlTranslatingExpressionVisitor.cs:419-431 | The six-argument constructor gives `make_timestamp`. Arguments 0 to 4 are unchanged, argument 5 is converted to double, and there are six flags. |
| VisitorProperties.DateTimeWithKind | src/EFCore.PG/Query/Internal/NpgsqlSqlTranslatingExpressionVisitor.cs:433-458 | A constant Utc kind gives `make_timestamptz` of the six converted arguments plus 'UTC', with the tz mapping. Another kind gives `make_timestamp` of six arguments, with the kind dropped. As written, both vectors are all true and one flag longer than the argument list (see Findings). |
| VisitorProperties.DateOnlyConstructor | src/EFCore.PG/Query/Internal/NpgsqlSqlTranslatingExpressionVisitor.cs:461-468 | `new DateOnly(y, m, d)` gives `make_date(y, m, d)` with no mapping. It is NotTranslated when an argument fails. |
| VisitorProperties.OtherDateTimeConstructors | src/EFCore.PG/Query/Internal/NpgsqlSqlTranslatingExpressionVisitor.cs:409-470 | Any other DateTime constructor, including the seven-argument one with a non-constant kind, gives NotTranslated. |
| VisitorWellFormedness.VisitKeepsFlagsCover | src/EFCore.PG/Query/Internal/NpgsqlSqlTranslatingExpressionVisitor.cs:64-488 | Every SQL result of the visitor has at least one nullability flag per function argument, recursively, with names and separators consistent. This holds provided the collaborators keep that invariant and the tree is well typed. |
| VisitorWellFormedness.VisitKeepsWellFormed | src/EFCore.PG/Query/Internal/NpgsqlSqlTranslatingExpressionVisitor.cs:64-488 | Every SQL result of the visitor has exactly one nullability flag per function argument, the factory's invariant, recursively. This holds provided the collaborators keep it and the tree is well typed with no seven-argument DateTime constructor of constant kind. |
| VisitorWellFormedness.WellTypedIsAdmitted | src/EFCore.PG/Query/Internal/NpgsqlSqlTranslatingExpressionVisitor.cs:64-488 | Every well-typed tree is one the covering invariant is proved for. |
| VisitorWellFormedness.VisitKeepsFlagsFit | src/EFCore.PG/Query/Internal/NpgsqlSqlTranslatingExpressionVisitor.cs:64-488 | The mutual induction behind both: for an admitted tree, the visitor's SQL fits exactly or by covering, as asked. |
| VisitorWellFormedness.UnaryKeepsFlagsFit | src/EFCore.PG/Query/Internal/NpgsqlSqlTranslatingExpressionVisitor.cs:64-104 | VisitUnary keeps either invariant. |
| VisitorWellFormedness.StrippedIsAdmitted | src/EFCore.PG/Query/Internal/NpgsqlSqlTranslatingExpressionVisitor.cs:492-520 | Stripping keeps a tree admitted. |
| VisitorWellFormedness.OperandsKeepFlagsFit | src/EFCore.PG/Query/Internal/NpgsqlSqlTranslatingExpressionVisitor.cs:363-367 | Translated operands keep either invariant. |
| VisitorWellFormedness.BinaryKeepsFlagsFit | src/EFCore.PG/Query/Internal/NpgsqlSqlTranslatingExpressionVisitor.cs:331-388 | VisitBinary keeps either invariant. |
| VisitorWellFormedness.MethodCallKeepsFlagsFit | src/EFCore.PG/Query/Internal/NpgsqlSqlTranslatingExpressionVisitor.cs:106-116 | VisitMethodCall keeps either invariant. |
| VisitorWellFormedness.ArrayMethodCallKeepsFlagsFit | src/EFCore.PG/Query/Internal/NpgsqlSqlTranslatingExpressionVisitor.cs:122-299 | VisitArrayMethodCall keeps either invariant. |
| VisitorWellFormedness.AnyKeepsFlagsFit | src/EFCore.PG/Query/Internal/NpgsqlSqlTranslatingExpressionVisitor.cs:126-234 | The Any rewrites, including the re-visited Contains, keep either invariant. |
| VisitorWellFormedness.AllKeepsFlagsFit | src/EFCore.PG/Query/Internal/NpgsqlSqlTranslatingExpressionVisitor.cs:237-296 | The All rewrites keep either invariant. |
| VisitorWellFormedness.PredicateCallKeepsFlagsFit | src/EFCore.PG/Query/Internal/NpgsqlSqlTranslatingExpressionVisitor.cs:129-184 | The Like and Contains patterns keep either invariant. |
| VisitorWellFormedness.TranslateAllKeepsFlagsFit | src/EFCore.PG/Query/Internal/NpgsqlSqlTranslatingExpressionVisitor.cs:472-487 | Translated argument lists keep either invariant. |
| VisitorWellFormedness.NewArrayKeepsFlagsFit | src/EFCore.PG/Query/Internal/NpgsqlSqlTranslatingExpressionVisitor.cs:302-328 | VisitNewArray keeps either invariant. |
| VisitorWellFormedness.NewKeepsFlagsFit | src/EFCore.PG/Query/Internal/NpgsqlSqlTranslatingExpressionVisitor.cs:390-470 | VisitNew keeps the covering invariant, including the seven-argument path as written, and the exact one when that path is excluded. |
| VisitorWellFormedness.AsWrittenKindVectorIsOneTooLong | src/EFCore.PG/Query/Internal/NpgsqlSqlTranslatingExpressionVisitor.cs:453-457 | As written, the seven-argument call has one more flag than arguments for either kind, so it breaks the invariant. |
| VisitorWellFormedness.KindConstructorCallAsWrittenFlagsCover | src/EFCore.PG/Query/Internal/NpgsqlSqlTranslatingExpressionVisitor.cs:440-457 | As written, the seven-argument call has more flags than arguments, so every argument still has its flag. |
| VisitorWellFormedness.KindConstructorCallWellFormed | src/EFCore.PG/Query/Internal/NpgsqlSqlTranslatingExpressionVisitor.cs:440-457 | The corrected call keeps the invariant whenever its arguments do. |
| SqlTranslatingVisitor.Visit | src/EFCore.PG/Query/Internal/NpgsqlSqlTranslatingExpressionVisitor.cs:64-488 | No contract of its own; stated by VisitorWellFormedness.VisitKeepsFlagsCover and VisitorWellFormedness.VisitKeepsWellFormed. |
| SqlTranslatingVisitor.VisitUnary | src/EFCore.PG/Query/Internal/NpgsqlSqlTranslatingExpressionVisitor.cs:64-104 | No contract of its own; stated by VisitorProperties.ArrayLengthCases and VisitorProperties.ConvertToITupleIsTransparent. |
| SqlTranslatingVisitor.ArrayLengthOf | src/EFCore.PG/Query/Internal/NpgsqlSqlTranslatingExpressionVisitor.cs:68-93 | No contract of its own; stated by VisitorProperties.ArrayLengthCases. |
| SqlTranslatingVisitor.VisitMethodCall | src/EFCore.PG/Query/Internal/NpgsqlSqlTranslatingExpressionVisitor.cs:106-116 | No contract of its own; stated by VisitorProperties.NonArrayCallGoesToBase and VisitorWellFormedness.MethodCallKeepsFlagsFit. |
| SqlTranslatingVisitor.VisitArrayMethodCall | src/EFCore.PG/Query/Internal/NpgsqlSqlTranslatingExpressionVisitor.cs:122-299 | No contract of its own; stated by VisitorProperties.AnyLike, AllLike, AnyContainsIsOverlap, AllContainsIsContainedBy and AllEqualityIsNotRewritten. |
| SqlTranslatingVisitor.AnyPredicateTranslation | src/EFCore.PG/Query/Internal/NpgsqlSqlTranslatingExpressionVisitor.cs:126-234 | No contract of its own; stated by VisitorProperties.AnyLike, AnyContainsIsOverlap, AnyBinaryBecomesContains, AnyObjectEqualsBecomesContains, AnyInstanceEqualsBecomesContains and AnyEqualityItemNotAssignable. |
| SqlTranslatingVisitor.AllPredicateTranslation | src/EFCore.PG/Query/Internal/NpgsqlSqlTranslatingExpressionVisitor.cs:237-296 | No contract of its own; stated by VisitorProperties.AllLike, AllContainsIsContainedBy and AllEqualityIsNotRewritten. |
| SqlTranslatingVisitor.PredicateCallTranslation | src/EFCore.PG/Query/Internal/NpgsqlSqlTranslatingExpressionVisitor.cs:129-184 | No contract of its own; stated by VisitorProperties.LikeAndILikeDifferOnlyInKind and VisitorWellFormedness.PredicateCallKeepsFlagsFit. |
| SqlTranslatingVisitor.NewArrayTranslation | src/EFCore.PG/Query/Internal/NpgsqlSqlTranslatingExpressionVisitor.cs:302-328 | No contract of its own; stated by VisitorProperties.NewArrayCases. |
| SqlTranslatingVisitor.TranslateAll | src/EFCore.PG/Query/Internal/NpgsqlSqlTranslatingExpressionVisitor.cs:472-487 | No contract of its own; stated by SqlTranslatingVisitor.TranslateAllResult. |
| SqlTranslatingVisitor.TranslateOperands | src/EFCore.PG/Query/Internal/NpgsqlSqlTranslatingExpressionVisitor.cs:363-367 | No contract of its own; stated by VisitorProperties.OperandsTranslation. |
| SqlTranslatingVisitor.VisitBinary | src/EFCore.PG/Query/Internal/NpgsqlSqlTranslatingExpressionVisitor.cs:331-388 | No contract of its own; stated by VisitorProperties.LocalDateSubtraction and VisitorProperties.ArrayIndexCases. |
| SqlTranslatingVisitor.NewTranslation | src/EFCore.PG/Query/Internal/NpgsqlSqlTranslatingExpressionVisitor.cs:390-470 | No contract of its own; stated by VisitorProperties.TupleIsRowValue, DateOnlyConstructor and OtherDateTimeConstructors. |
| SqlTranslatingVisitor.DateTimeConstruction | src/EFCore.PG/Query/Internal/NpgsqlSqlTranslatingExpressionVisitor.cs:409-458 | No contract of its own; stated by VisitorProperties.DateTimeThreeArguments, DateTimeSixArguments and DateTimeWithKind. |
| NtsAggregateTranslator.GetMapping | src/EFCore.PG.NTS/Query/ExpressionTranslators/Internal/NpgsqlNetTopologySuiteAggregateMethodCallTranslatorPlugin.cs:115-116 | No contract of its own; stated by NtsAggregateTranslator.TranslationCarriesMapping. |
| ByteArrayMethodTranslator.Needle | src/EFCore.PG/Query/ExpressionTranslators/Internal/NpgsqlByteArrayMethodTranslator.cs:33-48 | The needle keeps the invariant. |
| ByteArrayMethodTranslator.NeedleIsOneByteBytea | src/EFCore.PG/Query/ExpressionTranslators/Internal/NpgsqlByteArrayMethodTranslator.cs:33-48 | A constant byte b gives the bytea constant [b] with the bytea mapping. Any other argument gives `set_byte('\x00', 0, arg)` with a three-flag vector, typed byte[]. |
| ByteArrayMethodTranslator.Position | src/EFCore.PG/Query/ExpressionTranslators/Internal/NpgsqlByteArrayMethodTranslator.cs:50-60 | `position(needle IN source) > 0` keeps the invariant. |
| ByteArrayMethodTranslator.FirstByte | src/EFCore.PG/Query/ExpressionTranslators/Internal/NpgsqlByteArrayMethodTranslator.cs:63-73 | `get_byte(source, 0)` converted keeps the invariant. |
| ByteArrayMethodTranslator.Translate | src/EFCore.PG/Query/ExpressionTranslators/Internal/NpgsqlByteArrayMethodTranslator.cs:15-77 | Only generic methods whose first argument is bytea-mapped are translated, and only Contains and First. Contains gives `position(needle IN source) > 0`, needle first, separator IN, two flags, int. First gives `get_byte(source, 0)`, typed byte and converted to the return type. The invariant is kept. |
| NtsAggregateTranslator.Translate | src/EFCore.PG.NTS/Query/ExpressionTranslators/Internal/NpgsqlNetTopologySuiteAggregateMethodCallTranslatorPlugin.cs:53-117 | A selector that is not SQL, or an unknown method, gives null, and the four known methods always translate. ConvexHull gives `ST_ConvexHull` over one `ST_Collect` aggregate of the same source, with [true] outside and [false] inside. Envelope gives `ST_Extent` converted to geometry. Union gives aggregate `ST_Union` and Combine gives aggregate `ST_Collect`, each over the selector alone with [false]. The invariant is kept. |
| NtsAggregateTranslator.TranslationCarriesMapping | src/EFCore.PG.NTS/Query/ExpressionTranslators/Internal/NpgsqlNetTopologySuiteAggregateMethodCallTranslatorPlugin.cs:115-116 | Every node built carries the Geometry mapping for the selector's store type, or for "geometry" when the selector has none. |
| NtsAggregateTranslator.CreatePlugin | src/EFCore.PG.NTS/Query/ExpressionTranslators/Internal/NpgsqlNetTopologySuiteAggregateMethodCallTranslatorPlugin.cs:10-23 | Construction fails, if and only if the factory is not the Npgsql one, with ArgumentException("Must be an NpgsqlSqlExpressionFactory", "sqlExpressionFactory"). On success the plugin holds exactly one translator, and it uses the given mapping source. |

## Left out

- Collaborators are opaque functions: the base relational visitor (every node kind the provider
  does not override, and the base call each override starts or ends with), the JSON POCO
  translator, the LTree translator, the type-mapping lookup, `MakeBinary` and
  `GenerateOneBasedIndexExpression`. Their behaviour is not modelled.
- VisitKeepsFlagsCover: states at least one nullability flag per function argument, not exactly
  one. The source's seven-argument `DateTime` path (`TrueArrays[8]` and `[7]`) passes one flag
  more than it passes arguments, so the exact invariant does not hold of the visitor as written
  (see Findings). VisitKeepsWellFormed states the exact invariant for trees without that path.
- VisitorWellFormedness.VisitKeepsFlagsCover and VisitorWellFormedness.VisitKeepsWellFormed:
  assume two things that come from code outside this model:
  - the collaborators keep the invariant. Those given SQL (JSON, `MakeBinary`,
    `GenerateOneBasedIndexExpression`) return fitting SQL whenever they are given fitting SQL.
    The base visitor and the LTree translator are given expression trees, which they may visit
    through this visitor; they return fitting SQL for admitted trees only. For the exact
    invariant an admitted tree has no seven-argument `DateTime` constructor of constant kind
    (`VisitorWellFormedness.Admitted`);
  - the input tree is well typed (`ExpressionTrees.WellTyped`, the argument-count check of
    `Expression.New`).
- SqlAst.Mapping: the row value and the four boolean operator nodes (`LIKE ANY`, `LIKE ALL`,
  `&&`, `<@`) report no type mapping. The factory gives the boolean ones the bool mapping, and
  the row value's mapping is set by a constructor that is not part of this model. No rule in
  this core reads those mappings: the bytea tests also require the type `byte[]`, which these
  nodes never have. Further nodes the model builds with no mapping, where the factory would
  infer one, are listed below. No rule in this core reads their mappings either:
  - the `double` conversion of the seconds argument in `make_timestamp` and `make_timestamptz`
    (`SqlTranslatingVisitor.ToDouble`, stated by `VisitorProperties.DateTimeSixArguments`);
  - the conversion of `get_byte` to the return type in `ByteArrayMethodTranslator.FirstByte`;
  - the `> 0` comparison in `ByteArrayMethodTranslator.Position`;
  - the integer constants `0` in `set_byte` and `get_byte`, and other function arguments the
    factory's `Function` would give a default mapping. `SqlAst.IntConstant` carries none, and
    the arguments are kept as given.
- AnyPredicateTranslation: when the item of the equality rewrite is not assignable to the
  element type, `Expression.Call` throws `ArgumentException` in the source. The model gives
  NotTranslated, as it does for the `(SqlExpression)` casts. Assignability is
  `ClrTypes.IsReferenceAssignable`: the same type, or two known reference types with the
  target `object`, or `IEnumerable<T>` with the source `T[]`, `List<T>` or `HashSet<T>`.
  Base classes and interfaces of other types, and generic variance, are not modelled. An item
  that such a relation would admit gives NotTranslated in the model.
- The `(SqlExpression)` casts in VisitArrayMethodCall throw when a sub-visit does not give SQL.
  The model gives NotTranslated instead, and exceptions are not modelled.
- `ByteArrayMethodTranslator.Needle`: a constant that does not hold a byte makes the source's
  `(byte)` unboxing throw. The model declines instead (None).
- The visitor's constructor looks up `_timestampMapping` and `_timestampTzMapping` by store
  type and reads the JSON and LTree translators from the dependency container. Its result is
  modelled as given fields of `Visitor`.
- The lazily cached reflection lookup of `NodaTime.Period` (`_nodaTimePeriodType`) is the fixed
  type `PeriodType`. Reflection (`IsClosedFormOf`, `GetGenericTypeDefinition`, parameter counts)
  is modelled on structural signature keys.
- The source indexes argument lists without bounds checks. For example, `predicateArguments[2]`
  for Like, `Arguments[6]` for the kind, `arguments[1]` in Contains, and argument 5 after a
  six-argument constructor match all assume .NET already guarantees the length. The model
  states those lengths as guards instead, and a shorter list falls through rather than throwing.
- Reference equality of parameter expressions is modelled as structural equality of parameters
  (name and type).
- Logging (`IDiagnosticsLogger`) and the `Check.NotNull` argument checks are not modelled,
  because the model has no null references.
- The translator registry, its ordering, and the provider/composite translator lists
  (`NpgsqlMethodCallTranslatorProvider`, `NpgsqlCompositeMethodCallTranslator`) are not part of
  this model. The first-match loop lives in a base class that is not available.
- The money type mapping and the spatial test fixture are not part of this model.

## Findings

| source | as written | input that shows it | evidently intended | confidence | as-written member | corrected member |
|---|---|---|---|---|---|---|
| src/EFCore.PG/Query/Internal/NpgsqlSqlTranslatingExpressionVisitor.cs:453-457 | `make_timestamptz` receives 7 arguments with `TrueArrays[8]`, and `make_timestamp` receives 6 with `TrueArrays[7]`. Each vector is one flag longer than the argument list (VisitorWellFormedness.AsWrittenKindVectorIsOneTooLong). | `new DateTime(2020, 1, 1, 0, 0, 0, DateTimeKind.Utc)` with every argument translatable: 7 SQL arguments, 8 nullability flags | `TrueArrays[7]` and `TrueArrays[6]`, one flag per argument as in every other call in the file; the corrected call keeps the invariant (VisitorWellFormedness.KindConstructorCallWellFormed) | not executed | SqlTranslatingVisitor.KindConstructorCallAsWritten | SqlTranslatingVisitor.KindConstructorCall |

The visitor functions and the `VisitNew` method reproduce the call as written, so
`VisitorProperties.DateTimeWithKind` states the extra flag of the visitor's own result. The
corrected call is proved to keep the exact invariant beside it. Either way every argument has
its flag (`VisitorWellFormedness.VisitKeepsFlagsCover`), so a reader that looks up the flag of
argument i for each argument never reaches the extra one.
On trees without that call, and with collaborators that keep the exact invariant on such
trees, the visitor keeps it too (`VisitorWellFormedness.VisitKeepsWellFormed`).
