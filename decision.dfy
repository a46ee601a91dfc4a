/** The decision table of each converter: given how the interpreter answers,
    the binding, the value, the `setError` flag and the pending slot on
    entry, what the converter returns and what it leaves pending. These
    functions are the specification the imperative converters in `PyConvert`
    are proved against, and the subject of the lemmas in `Properties`. */
module Decision {
  import opened Foreign

  /** The host object a converter stores in `out result`. */
  datatype Managed =
    | NullRef
    | Str(s: string)
    | Bool(b: bool)
    | Integral(code: TypeCode, n: int)
    | CharValue(c: int)
    | Float32(f: Double)
    | Float64(d: Double)
    | EnumValue(n: int)

  /** A converter either returns its flag and result, or throws a host
      exception (only `Runtime.CheckExceptionOccurred` does). */
  datatype Outcome =
    | Returned(ok: bool, result: Managed, pending: Option<ErrKind>)
    | Threw(pending: Option<ErrKind>)

  /** The outcome a converter's out-parameters and the slot describe. */
  function Observed(threw: bool, ok: bool, result: Managed, pending: Option<ErrKind>): Outcome {
    if threw then Threw(pending) else Returned(ok, result, pending)
  }

  /** A host enumeration type: its underlying integral type code, the values
      of its declared members, and whether it carries `[Flags]`. */
  datatype EnumType = EnumType(underlying: TypeCode, declared: set<int>, flags: bool)

  /** The slot after the engine reports error `k`, if it was asked to. */
  function Raise(setError: bool, k: ErrKind, pending: Option<ErrKind>): (r: Option<ErrKind>)
    ensures setError ==> r == Some(k)
    ensures !setError ==> r == pending
  {
    if setError then Some(k) else pending
  }

  function Fail(pending: Option<ErrKind>): Outcome {
    Returned(false, NullRef, pending)
  }

  /** The shared reaction to a coercion that returned null: an OverflowError
      already pending selects Overflow, anything else Type. */
  function CoercionFailed(setError: bool, pending: Option<ErrKind>): (o: Outcome)
    ensures o.Returned? && !o.ok && o.result == NullRef
    ensures setError ==> o.pending == Some(if pending == Some(OverflowError) then OverflowError else TypeError)
    ensures !setError ==> o.pending == pending
  {
    if pending == Some(OverflowError) then Fail(Raise(setError, OverflowError, pending))
    else Fail(Raise(setError, TypeError, pending))
  }

  /** The range check shared by the narrow integer targets. */
  function Narrow(ival: int, t: TypeCode, setError: bool, pending: Option<ErrKind>): (o: Outcome)
    requires IsIntegral(t)
    ensures o.Returned?
    ensures o.ok <==> InRange(ival, t)
    ensures o.ok ==> o.result == Integral(t, ival) && o.pending == pending
    ensures !o.ok ==> o.result == NullRef && o.pending == Raise(setError, OverflowError, pending)
  {
    if ival > MaxValue(t) || ival < MinValue(t) then Fail(Raise(setError, OverflowError, pending))
    else Returned(true, Integral(t, ival), pending)
  }

  /** `ToString`. */
  function ToString(api: ForeignApi, v: PyValue, setError: bool, p: Option<ErrKind>): (o: Outcome)
    ensures o.Returned?
    ensures o.ok ==> o.result.NullRef? || o.result.Str?
    ensures o.ok ==> o.pending == p
  {
    if v == PyNone then Returned(true, NullRef, p)
    else match api.managedString(v)
      case None => Fail(Raise(setError, TypeError, p))
      case Some(s) => Returned(true, Str(s), p)
  }

  /** `ToBoolean`: the result is `PyObject_IsTrue(value) != 0`. */
  function ToBoolean(api: ForeignApi, v: PyValue, p: Option<ErrKind>): (o: Outcome)
    ensures o.Returned? && o.ok && o.result.Bool?
  {
    match api.isTrue(v)
    case Truthy => Returned(true, Bool(true), p)
    case Falsy => Returned(true, Bool(false), p)
    case TruthFailed(e) => Returned(true, Bool(true), Some(e))
  }

  /** The integer stage shared by ToByte, ToSByte, ToInt16 and ToUInt16:
      `PyNumber_Int`, `(int)PyInt_AsLong` with no error check, then the range check. */
  function IntStage(api: ForeignApi, b: Binding, t: TypeCode, v: PyValue, setError: bool, p: Option<ErrKind>): (o: Outcome)
    requires t.Byte? || t.SByte? || t.Int16? || t.UInt16?
    ensures o.Returned?
    ensures o.ok ==> o.result.Integral? && o.result.code == t && InRange(o.result.n, t)
  {
    match api.numberInt(v)
    case Raised(e) => CoercionFailed(setError, Some(e))
    case NewRef(obj) =>
      var x := AsSigned(obj.value, CLong(b));
      Narrow(Cast(x.value, Int32), t, setError, AfterExtraction(x, p))
  }

  /** `ToByte`. */
  function ToByte(api: ForeignApi, b: Binding, v: PyValue, setError: bool, p: Option<ErrKind>): (o: Outcome)
    ensures o.Returned?
    ensures o.ok ==> o.result.Integral? && o.result.code == Byte && InRange(o.result.n, Byte)
  {
    if v.PyBytes? then
      if |v.data| == 1 then Returned(true, Integral(Byte, v.data[0]), p)
      else Fail(Raise(setError, TypeError, p))
    else IntStage(api, b, Byte, v, setError, p)
  }

  /** `ToSByte`: a one-byte string is read as a byte and cast to `sbyte`. */
  function ToSByte(api: ForeignApi, b: Binding, v: PyValue, setError: bool, p: Option<ErrKind>): (o: Outcome)
    ensures o.Returned?
    ensures o.ok ==> o.result.Integral? && o.result.code == SByte && InRange(o.result.n, SByte)
  {
    if v.PyBytes? then
      if |v.data| == 1 then Returned(true, Integral(SByte, Cast(v.data[0], SByte)), p)
      else Fail(Raise(setError, TypeError, p))
    else IntStage(api, b, SByte, v, setError, p)
  }

  /** `ToChar`. On the unified generation a one-byte string yields a `byte`,
      not a `char`; a failed coercion always reports TypeError; the long is
      range-checked without the `(int)` cast. */
  function ToChar(api: ForeignApi, b: Binding, v: PyValue, setError: bool, p: Option<ErrKind>): (o: Outcome)
    ensures o.Returned?
    ensures o.ok ==>
      (o.result.CharValue? && CharMinValue <= o.result.c <= CharMaxValue) ||
      (!b.python2 && v.PyBytes? && |v.data| == 1 && o.result == Integral(Byte, v.data[0]))
  {
    if v.PyBytes? then
      if |v.data| == 1 then
        Returned(true, if b.python2 then CharValue(v.data[0]) else Integral(Byte, v.data[0]), p)
      else Fail(Raise(setError, TypeError, p))
    else if v.PyUnicode? then
      if |v.units| == 1 then Returned(true, CharValue(v.units[0]), p)
      else Fail(Raise(setError, TypeError, p))
    else match api.numberInt(v)
      case Raised(e) => Fail(Raise(setError, TypeError, Some(e)))
      case NewRef(obj) =>
        var x := AsSigned(obj.value, CLong(b));
        var p' := AfterExtraction(x, p);
        if x.value > CharMaxValue || x.value < CharMinValue then Fail(Raise(setError, OverflowError, p'))
        else Returned(true, CharValue(x.value), p')
  }

  /** `ToInt16`. */
  function ToInt16(api: ForeignApi, b: Binding, v: PyValue, setError: bool, p: Option<ErrKind>): (o: Outcome)
    ensures o.Returned?
    ensures o.ok ==> o.result.Integral? && o.result.code == Int16 && InRange(o.result.n, Int16)
  {
    IntStage(api, b, Int16, v, setError, p)
  }

  /** `ToUInt16`. */
  function ToUInt16(api: ForeignApi, b: Binding, v: PyValue, setError: bool, p: Option<ErrKind>): (o: Outcome)
    ensures o.Returned?
    ensures o.ok ==> o.result.Integral? && o.result.code == UInt16 && InRange(o.result.n, UInt16)
  {
    IntStage(api, b, UInt16, v, setError, p)
  }

  /** `ToInt32`. The legacy path tests for a long before it tests for null,
      and neither checks nor range-checks what `PyInt_AsLong` returns. The
      unified path clears the slot before asking whether the failed coercion
      overflowed, so that question is always answered no. */
  function ToInt32(api: ForeignApi, b: Binding, v: PyValue, setError: bool, p: Option<ErrKind>): (o: Outcome)
    ensures o.Returned?
    ensures o.ok ==> o.result.Integral? && o.result.code == Int32 && InRange(o.result.n, Int32)
  {
    if LegacyIntModel(b) then
      match api.numberInt(v)
      case NewRef(obj) =>
        if obj.isLong then Fail(Raise(setError, OverflowError, p))
        else
          var x := AsSigned(obj.value, CLong(b));
          Returned(true, Integral(Int32, Cast(x.value, Int32)), AfterExtraction(x, p))
      case Raised(e) => CoercionFailed(setError, Some(e))
    else
      match api.numberLong(v)
      case Raised(e) => CoercionFailed(setError, None)
      case NewRef(n) =>
        var x := AsSigned(n, Int64);
        var p' := AfterExtraction(x, p);
        if x.value == -1 && p'.Some? then Fail(Raise(setError, OverflowError, p'))
        else if x.value > MaxValue(Int32) || x.value < MinValue(Int32) then Fail(Raise(setError, OverflowError, p'))
        else Returned(true, Integral(Int32, x.value), p')
  }

  /** `ToInt64`: `PyLong_AsLongLong`'s -1 counts as failure only when an error is pending. */
  function ToInt64(api: ForeignApi, v: PyValue, setError: bool, p: Option<ErrKind>): (o: Outcome)
    ensures o.Returned?
    ensures o.ok ==> o.result.Integral? && o.result.code == Int64 && InRange(o.result.n, Int64)
  {
    match api.numberLong(v)
    case Raised(e) => CoercionFailed(setError, Some(e))
    case NewRef(n) =>
      var x := AsSigned(n, Int64);
      var p' := AfterExtraction(x, p);
      if x.value == -1 && p'.Some? then Fail(Raise(setError, OverflowError, p'))
      else Returned(true, Integral(Int64, x.value), p')
  }

  /** `ToUInt32`: after `(uint)PyLong_AsUnsignedLong`, the value is re-encoded
      and compared with the coerced intermediate; any difference, or any
      pending error, is an overflow. */
  function ToUInt32(api: ForeignApi, b: Binding, v: PyValue, setError: bool, p: Option<ErrKind>): (o: Outcome)
    ensures o.Returned?
    ensures o.ok ==> o.result.Integral? && o.result.code == UInt32 && InRange(o.result.n, UInt32)
  {
    match api.numberLong(v)
    case Raised(e) => CoercionFailed(setError, Some(e))
    case NewRef(n) =>
      var x := AsUnsigned(n, CULong(b));
      var p' := AfterExtraction(x, p);
      if p'.Some? then Fail(Raise(setError, OverflowError, p'))
      else
        var ui := Cast(x.value, UInt32);
        var err := Compare(ui, n);
        if err != 0 || p'.Some? then Fail(Raise(setError, OverflowError, p'))
        else
          Returned(true, Integral(UInt32, ui), p')
  }

  /** `ToUInt64`: any error pending after `PyLong_AsUnsignedLongLong` is an overflow. */
  function ToUInt64(api: ForeignApi, v: PyValue, setError: bool, p: Option<ErrKind>): (o: Outcome)
    ensures o.Returned?
    ensures o.ok ==> o.result.Integral? && o.result.code == UInt64 && InRange(o.result.n, UInt64)
  {
    match api.numberLong(v)
    case Raised(e) => CoercionFailed(setError, Some(e))
    case NewRef(n) =>
      var x := AsUnsigned(n, UInt64);
      var p' := AfterExtraction(x, p);
      if p'.Some? then Fail(Raise(setError, OverflowError, p'))
      else Returned(true, Integral(UInt64, x.value), p')
  }

  /** `ToSingle`. `CheckExceptionOccurred` throws when an error is pending;
      a double outside Single's range fails unless it is an infinity. */
  function ToSingle(api: ForeignApi, v: PyValue, setError: bool, p: Option<ErrKind>): (o: Outcome)
    ensures o.Returned? && o.ok ==> o.result.Float32? && (OutsideSingle(o.result.f) ==> IsInfinity(o.result.f))
  {
    match api.numberFloat(v)
    case Raised(e) => CoercionFailed(setError, Some(e))
    case NewRef(d) =>
      if p.Some? then Threw(p)
      else if OutsideSingle(d) && !IsInfinity(d) then Fail(Raise(setError, OverflowError, p))
      else Returned(true, Float32(d), p)
  }

  /** `ToDouble`: a failed coercion always reports TypeError. */
  function ToDouble(api: ForeignApi, v: PyValue, setError: bool, p: Option<ErrKind>): (o: Outcome)
    ensures o.Returned? && o.ok ==> o.result.Float64?
    ensures o.Threw? ==> p.Some?
  {
    match api.numberFloat(v)
    case Raised(e) => Fail(Raise(setError, TypeError, Some(e)))
    case NewRef(d) =>
      if p.Some? then Threw(p)
      else Returned(true, Float64(d), p)
  }

  /** The thirteen type codes `ToPrimitive` handles. */
  predicate Handled(tc: TypeCode)
    ensures Handled(tc) <==>
      IsIntegral(tc) || tc.Boolean? || tc.Char? || tc.String? || tc.Single? || tc.Double?
  {
    !(tc.Empty? || tc.Object? || tc.DBNull? || tc.Decimal? || tc.DateTime?)
  }

  /** `ToPrimitive`: a closed switch on the type code; every other code
      fails with a null result and leaves the slot alone. */
  function ToPrimitive(api: ForeignApi, b: Binding, tc: TypeCode, v: PyValue, setError: bool, p: Option<ErrKind>): (o: Outcome)
    ensures !Handled(tc) ==> o == Returned(false, NullRef, p)
    ensures IsIntegral(tc) ==> o.Returned?
    ensures IsIntegral(tc) && o.ok ==> o.result.Integral? && o.result.code == tc
  {
    match tc
    case String => ToString(api, v, setError, p)
    case Int32 => ToInt32(api, b, v, setError, p)
    case Boolean => ToBoolean(api, v, p)
    case Byte => ToByte(api, b, v, setError, p)
    case SByte => ToSByte(api, b, v, setError, p)
    case Char => ToChar(api, b, v, setError, p)
    case Int16 => ToInt16(api, b, v, setError, p)
    case Int64 => ToInt64(api, v, setError, p)
    case UInt16 => ToUInt16(api, b, v, setError, p)
    case UInt32 => ToUInt32(api, b, v, setError, p)
    case UInt64 => ToUInt64(api, v, setError, p)
    case Single => ToSingle(api, v, setError, p)
    case Double => ToDouble(api, v, setError, p)
    case _ => Returned(false, NullRef, p)
  }

  /** `ToEnum`: convert through the underlying type, then accept a declared
      value or any value of a `[Flags]` enumeration; reject the rest with
      ValueError, leaving the primitive in `result`. */
  function ToEnum(api: ForeignApi, b: Binding, e: EnumType, v: PyValue, setError: bool, p: Option<ErrKind>): (o: Outcome)
    requires IsIntegral(e.underlying)
    ensures o.Returned?
    ensures o.ok ==> o.result.EnumValue? && (o.result.n in e.declared || e.flags)
  {
    var prim := ToPrimitive(api, b, e.underlying, v, setError, p);
    if !prim.ok then prim
    else if prim.result.n in e.declared then Returned(true, EnumValue(prim.result.n), prim.pending)
    else if e.flags then Returned(true, EnumValue(prim.result.n), prim.pending)
    else Returned(false, prim.result, Raise(setError, ValueError, prim.pending))
  }
}
