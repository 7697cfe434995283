/**
 * The PostGIS aggregate translator plugin (NetTopologySuite): ConvexHull, EnvelopeCombiner,
 * UnaryUnionOp.Union and GeometryCombiner.Combine over a sequence of geometries become
 * ST_ConvexHull(ST_Collect(..)), ST_Extent(..)::geometry, ST_Union(..) and ST_Collect(..).
 */
module NtsAggregateTranslator {
  import opened Wrappers
  import opened ClrTypes
  import opened SqlAst

  const GeometryCombineMethod: MethodKey :=
    MethodKey(NamedType("NetTopologySuite.Geometries.Utilities.GeometryCombiner"), "Combine", [],
              [EnumerableOf(GeometryType)], GeometryType)
  const ConvexHullMethod: MethodKey :=
    MethodKey(NamedType("NetTopologySuite.Algorithm.ConvexHull"), "Create", [],
              [EnumerableOf(GeometryType)], GeometryType)
  const UnionMethod: MethodKey :=
    MethodKey(NamedType("NetTopologySuite.Operation.Union.UnaryUnionOp"), "Union", [],
              [EnumerableOf(GeometryType)], GeometryType)
  const EnvelopeCombineMethod: MethodKey :=
    MethodKey(NamedType("NetTopologySuite.Geometries.Utilities.EnvelopeCombiner"), "CombineAsGeometry", [],
              [EnumerableOf(GeometryType)], GeometryType)

  /** The translator holds the type-mapping source's lookup by CLR type and store type. */
  datatype AggregateMethodTranslator = AggregateMethodTranslator(findMapping: (ClrType, string) -> Option<TypeMapping>)

  /** The mapping of Geometry for the selector's store type, or for "geometry" when it has none. */
  function GetMapping(t: AggregateMethodTranslator, selector: SqlExpr): Option<TypeMapping> {
    t.findMapping(GeometryType, if selector.Mapping().Some? then selector.Mapping().value.StoreType() else "geometry")
  }

  /** A single-argument geometry aggregate over the source with nullability [false]. */
  predicate IsGeometryAggregate(a: SqlExpr, name: string, selector: SqlExpr, source: EnumerableSource,
                                mapping: Option<TypeMapping>) {
    a.SqlAggregate? && a.aggName == name && a.aggArgs == [selector] && a.source == source
    && a.aggNullable && a.aggPropagates == [false] && a.aggType == GeometryType && a.aggMapping == mapping
  }

  function Aggregate(t: AggregateMethodTranslator, name: string, selector: SqlExpr, source: EnumerableSource)
    : SqlExpr {
    SqlAggregate(name, [selector], source, true, [false], GeometryType, GetMapping(t, selector))
  }

  function Translate(t: AggregateMethodTranslator, m: MethodKey, source: EnumerableSource,
                     arguments: seq<SqlExpr>): (r: Option<SqlExpr>)
    // a selector that is not SQL, or any other method: not this translator's pattern
    ensures source.selector.None? ==> r.None?
    ensures m !in {ConvexHullMethod, EnvelopeCombineMethod, UnionMethod, GeometryCombineMethod} ==> r.None?
    ensures source.selector.Some? && m in {ConvexHullMethod, EnvelopeCombineMethod, UnionMethod, GeometryCombineMethod}
            ==> r.Some?
    // ConvexHull: the scalar ST_ConvexHull over one ST_Collect aggregate of the same source
    ensures source.selector.Some? && m == ConvexHullMethod ==>
              var mapping := GetMapping(t, source.selector.value);
              r.value.SqlFunction? && r.value.name == "ST_ConvexHull" && |r.value.args| == 1
              && IsGeometryAggregate(r.value.args[0], "ST_Collect", source.selector.value, source, mapping)
              && r.value.nullable && r.value.propagates == [true] && r.value.funcType == GeometryType
              && r.value.funcMapping == mapping
    // EnvelopeCombiner: ST_Extent converted to geometry
    ensures source.selector.Some? && m == EnvelopeCombineMethod ==>
              var mapping := GetMapping(t, source.selector.value);
              r.value.SqlConvert? && r.value.convType == GeometryType && r.value.convMapping == mapping
              && IsGeometryAggregate(r.value.operand, "ST_Extent", source.selector.value, source, mapping)
    // Union and Combine: the one native aggregate
    ensures source.selector.Some? && m == UnionMethod ==>
              IsGeometryAggregate(r.value, "ST_Union", source.selector.value, source,
                                  GetMapping(t, source.selector.value))
    ensures source.selector.Some? && m == GeometryCombineMethod ==>
              IsGeometryAggregate(r.value, "ST_Collect", source.selector.value, source,
                                  GetMapping(t, source.selector.value))
    // the factory's nullability invariant is kept
    ensures r.Some? && WellFormed(source.selector.value) ==> WellFormed(r.value)
  {
    if source.selector.None? then None
    else
      var sqlExpression := source.selector.value;
      if m == ConvexHullMethod then
        var collect := Aggregate(t, "ST_Collect", sqlExpression, source);
        assert WellFormed(sqlExpression) ==> WellFormed(collect);
        assert [collect][0] == collect;
        Some(Function("ST_ConvexHull", [Aggregate(t, "ST_Collect", sqlExpression, source)], true, [true],
                      GeometryType, GetMapping(t, sqlExpression)))
      else if m == EnvelopeCombineMethod then
        assert WellFormed(sqlExpression) ==> WellFormed(Aggregate(t, "ST_Extent", sqlExpression, source));
        Some(SqlConvert(Aggregate(t, "ST_Extent", sqlExpression, source), GeometryType, GetMapping(t, sqlExpression)))
      else if m == UnionMethod || m == GeometryCombineMethod then
        Some(Aggregate(t, if m == UnionMethod then "ST_Union" else "ST_Collect", sqlExpression, source))
      else None
  }

  /** Every node the translator builds carries the same Geometry mapping. */
  predicate CarriesMapping(s: SqlExpr, mapping: Option<TypeMapping>) {
    match s
    case SqlFunction(_, args, _, _, _, _, _, fm) =>
      fm == mapping && forall i :: 0 <= i < |args| ==> CarriesMapping(args[i], mapping)
    case SqlAggregate(_, _, _, _, _, _, am) => am == mapping
    case SqlConvert(x, _, cm) => cm == mapping && CarriesMapping(x, mapping)
    case _ => false
  }

  lemma TranslationCarriesMapping(t: AggregateMethodTranslator, m: MethodKey, source: EnumerableSource,
                                  arguments: seq<SqlExpr>)
    requires Translate(t, m, source, arguments).Some?
    ensures CarriesMapping(Translate(t, m, source, arguments).value, GetMapping(t, source.selector.value))
  {
    var r := Translate(t, m, source, arguments).value;
    if r.SqlFunction? {
      assert CarriesMapping(r.args[0], GetMapping(t, source.selector.value));
    }
  }

  // ---------------------------------------------------------------------------------------
  // The plugin

  /** The SQL expression factory handed to the plugin: the Npgsql one, or another implementation. */
  datatype SqlExpressionFactory = NpgsqlSqlExpressionFactory | OtherSqlExpressionFactory(typeName: string)

  datatype ArgumentException = ArgumentException(message: string, paramName: string)

  datatype Plugin = Plugin(translators: seq<AggregateMethodTranslator>)

  /** The plugin constructor: an ArgumentException unless the factory is the Npgsql one. */
  function CreatePlugin(findMapping: (ClrType, string) -> Option<TypeMapping>, factory: SqlExpressionFactory)
    : (r: Result<Plugin, ArgumentException>)
    ensures r.Failure? <==> !factory.NpgsqlSqlExpressionFactory?
    ensures r.Failure? ==>
              r.error == ArgumentException("Must be an NpgsqlSqlExpressionFactory", "sqlExpressionFactory")
    ensures r.Success? ==>
              |r.value.translators| == 1
              && forall c, s :: r.value.translators[0].findMapping(c, s) == findMapping(c, s)
  {
    if !factory.NpgsqlSqlExpressionFactory? then
      Failure(ArgumentException("Must be an NpgsqlSqlExpressionFactory", "sqlExpressionFactory"))
    else
      Success(Plugin([AggregateMethodTranslator(findMapping)]))
  }
}
