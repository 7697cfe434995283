/**
 * NpgsqlByteArrayMethodTranslator: Enumerable.Contains and Enumerable.First (no predicate)
 * on an argument mapped to bytea become position(...) > 0 and get_byte(..., 0).
 */
module ByteArrayMethodTranslator {
  import opened Wrappers
  import opened ClrTypes
  import opened SqlAst

  /** A receiver the translator accepts: its type mapping is the bytea mapping. */
  predicate IsBytea(x: SqlExpr) {
    x.Mapping() == Some(ByteArrayMapping)
  }

  const ByteaType: ClrType := ByteArray

  /** A one-byte bytea constant. */
  function ByteaConstant(b: byte): SqlExpr {
    SqlConstant(BytesValue([b]), ByteaType, Some(ByteArrayMapping))
  }

  /**
   * The needle of position(): a byte constant is folded into a one-byte bytea constant;
   * any other byte expression is written into a one-byte bytea with set_byte('\x00', 0, b).
   * None for a constant that does not hold a byte (the source's unboxing cast would throw).
   */
  function Needle(value: SqlExpr): (r: Option<SqlExpr>)
    ensures r.Some? && WellFormed(value) ==> WellFormed(r.value)
  {
    if value.SqlConstant? then
      if value.value.ByteValue? then Some(ByteaConstant(value.value.b)) else None
    else
      assert WellFormed(value) ==> AllWellFormed([ByteaConstant(0), IntConstant(0), value]);
      Some(Function("set_byte", [ByteaConstant(0), IntConstant(0), value], true, TrueArray(3),
                    ByteaType, Some(ByteArrayMapping)))
  }

  /** position(needle IN source) > 0 */
  function Position(needle: SqlExpr, source: SqlExpr): (r: SqlExpr)
    ensures WellFormed(needle) && WellFormed(source) ==> WellFormed(r)
  {
    PairWellFormed(needle, source);
    var position := SqlFunction("position", [needle, source], [], ["IN"], true, TrueArray(2), Int32, None);
    assert WellFormed(needle) && WellFormed(source) ==> AllWellFormed([needle, source]) && WellFormed(position);
    assert WellFormed(IntConstant(0));
    SqlBinary(GreaterThan, position, IntConstant(0), Boolean, None)
  }

  /** get_byte(source, 0) converted to the method's return type. */
  function FirstByte(source: SqlExpr, returnType: ClrType): (r: SqlExpr)
    ensures WellFormed(source) ==> WellFormed(r)
  {
    PairWellFormed(source, IntConstant(0));
    var getByte := Function("get_byte", [source, IntConstant(0)], true, TrueArray(2), Byte, None);
    assert WellFormed(source) ==> AllWellFormed([source, IntConstant(0)]) && WellFormed(getByte);
    SqlConvert(getByte, returnType, None)
  }

  function Translate(instance: Option<SqlExpr>, m: MethodKey, arguments: seq<SqlExpr>): (r: Option<SqlExpr>)
    // only generic methods over a bytea-mapped first argument, and only Contains and First
    ensures r.Some? ==> m.IsGeneric() && |arguments| > 0 && IsBytea(arguments[0])
    ensures r.Some? ==> IsClosedFormOf(m, ContainsMethod) || IsClosedFormOf(m, FirstWithoutPredicate)
    // Contains(source, b): position(needle IN source) > 0, the needle first, separated by IN
    ensures IsClosedFormOf(m, ContainsMethod) && |arguments| == 2 && IsBytea(arguments[0])
            && Needle(arguments[1]).Some? ==>
              r.Some? && r.value.SqlBinary? && r.value.op == GreaterThan && r.value.right == IntConstant(0)
              && r.value.left.SqlFunction? && r.value.left.name == "position"
              && r.value.left.args == [Needle(arguments[1]).value, arguments[0]]
              && r.value.left.separators == ["IN"] && r.value.left.propagates == [true, true]
              && r.value.left.funcType == Int32
    // First(source): get_byte(source, 0), typed byte, converted to the return type
    ensures IsClosedFormOf(m, FirstWithoutPredicate) && |arguments| == 1 && IsBytea(arguments[0]) ==>
              r.Some? && r.value.SqlConvert? && r.value.convType == m.returnType
              && r.value.operand.SqlFunction? && r.value.operand.name == "get_byte"
              && r.value.operand.args == [arguments[0], IntConstant(0)] && r.value.operand.funcType == Byte
    // the factory's nullability invariant is kept
    ensures r.Some? && AllWellFormed(arguments) ==> WellFormed(r.value)
  {
    if m.IsGeneric() && |arguments| > 0 && IsBytea(arguments[0]) then
      if IsClosedFormOf(m, ContainsMethod) && |arguments| > 1 then
        match Needle(arguments[1])
        case Some(needle) => Some(Position(needle, arguments[0]))
        case None => None
      else if IsClosedFormOf(m, FirstWithoutPredicate) then
        Some(FirstByte(arguments[0], m.returnType))
      else None
    else None
  }

  /** The needle is always a one-byte bytea: a folded constant, or set_byte over [0] with a 3-long vector. */
  lemma NeedleIsOneByteBytea(value: SqlExpr)
    requires Needle(value).Some?
    ensures Needle(value).value.Type() == ByteArray && Needle(value).value.Mapping() == Some(ByteArrayMapping)
    ensures value.SqlConstant? ==> Needle(value).value == ByteaConstant(value.value.b)
    ensures !value.SqlConstant? ==>
              var n := Needle(value).value;
              n.SqlFunction? && n.name == "set_byte" && n.args == [ByteaConstant(0), IntConstant(0), value]
              && n.propagates == [true, true, true]
  {
  }
}
