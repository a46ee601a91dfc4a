/** The converters as the host runs them: step by step against the
    interpreter's state, with early returns. Each one is proved to return
    what its decision function in `Decision` says, to leave in the pending
    slot what that function says, and to give back every intermediate
    reference it took (`rt.live` is unchanged), except where
    `CheckExceptionOccurred` throws before the release. */
module PyConvert {
  import opened Foreign
  import opened Runtime
  import opened Decision

  /** `SetTypeError`: the message (type names) is not modelled, only the kind. */
  method SetTypeError(rt: Interpreter)
    modifies rt`pending
    ensures rt.pending == Some(TypeError)
  {
    rt.SetError(TypeError);
  }

  /** `SetOverflowError`. */
  method SetOverflowError(rt: Interpreter)
    modifies rt`pending
    ensures rt.pending == Some(OverflowError)
  {
    rt.SetError(OverflowError);
  }

  method ToString(rt: Interpreter, value: PyValue, setError: bool) returns (ok: bool, result: Managed)
    requires rt.Valid()
    modifies rt
    ensures rt.Valid() && rt.live == old(rt.live) && rt.nextRef == old(rt.nextRef)
    ensures Returned(ok, result, rt.pending) == Decision.ToString(rt.api, value, setError, old(rt.pending))
  {
    if value == PyNone {
      return true, NullRef;
    }
    var s := rt.GetManagedString(value);
    if s.None? {
      if setError {
        SetTypeError(rt);
      }
      return false, NullRef;
    }
    return true, Str(s.value);
  }

  method ToBoolean(rt: Interpreter, value: PyValue, setError: bool) returns (ok: bool, result: Managed)
    requires rt.Valid()
    modifies rt
    ensures rt.Valid() && rt.live == old(rt.live) && rt.nextRef == old(rt.nextRef)
    ensures Returned(ok, result, rt.pending) == Decision.ToBoolean(rt.api, value, old(rt.pending))
  {
    var t := rt.ObjectIsTrue(value);
    result := Bool(t != 0);
    return true, result;
  }

  /** The integer stage of ToByte, ToSByte, ToInt16 and ToUInt16: coerce,
      read `(int)PyInt_AsLong`, release, range-check. */
  method IntStage(rt: Interpreter, t: TypeCode, value: PyValue, setError: bool) returns (ok: bool, result: Managed)
    requires rt.Valid() && (t.Byte? || t.SByte? || t.Int16? || t.UInt16?)
    modifies rt
    ensures rt.Valid() && rt.live == old(rt.live) && rt.nextRef >= old(rt.nextRef)
    ensures Returned(ok, result, rt.pending) == Decision.IntStage(rt.api, rt.binding, t, value, setError, old(rt.pending))
  {
    result := NullRef;
    var op := rt.NumberInt(value);
    if op == Null {
      var overflow := rt.ExceptionMatches(OverflowError);
      if overflow {
        if setError {
          SetOverflowError(rt);
        }
        return false, result;
      }
      if setError {
        SetTypeError(rt);
      }
      return false, result;
    }
    var l := rt.IntAsLong(op);
    var ival := Cast(l, Int32);
    rt.XDecref(op);
    if ival > MaxValue(t) || ival < MinValue(t) {
      if setError {
        SetOverflowError(rt);
      }
      return false, result;
    }
    result := Integral(t, ival);
    return true, result;
  }

  method ToByte(rt: Interpreter, value: PyValue, setError: bool) returns (ok: bool, result: Managed)
    requires rt.Valid()
    modifies rt
    ensures rt.Valid() && rt.live == old(rt.live) && rt.nextRef >= old(rt.nextRef)
    ensures Returned(ok, result, rt.pending) == Decision.ToByte(rt.api, rt.binding, value, setError, old(rt.pending))
  {
    if value.PyBytes? {
      if |value.data| == 1 {
        return true, Integral(Byte, value.data[0]);
      }
      if setError {
        SetTypeError(rt);
      }
      return false, NullRef;
    }
    ok, result := IntStage(rt, Byte, value, setError);
  }

  method ToSByte(rt: Interpreter, value: PyValue, setError: bool) returns (ok: bool, result: Managed)
    requires rt.Valid()
    modifies rt
    ensures rt.Valid() && rt.live == old(rt.live) && rt.nextRef >= old(rt.nextRef)
    ensures Returned(ok, result, rt.pending) == Decision.ToSByte(rt.api, rt.binding, value, setError, old(rt.pending))
  {
    if value.PyBytes? {
      if |value.data| == 1 {
        return true, Integral(SByte, Cast(value.data[0], SByte));
      }
      if setError {
        SetTypeError(rt);
      }
      return false, NullRef;
    }
    ok, result := IntStage(rt, SByte, value, setError);
  }

  method ToChar(rt: Interpreter, value: PyValue, setError: bool) returns (ok: bool, result: Managed)
    requires rt.Valid()
    modifies rt
    ensures rt.Valid() && rt.live == old(rt.live) && rt.nextRef >= old(rt.nextRef)
    ensures Returned(ok, result, rt.pending) == Decision.ToChar(rt.api, rt.binding, value, setError, old(rt.pending))
  {
    result := NullRef;
    if value.PyBytes? {
      if |value.data| == 1 {
        result := if rt.binding.python2 then CharValue(value.data[0]) else Integral(Byte, value.data[0]);
        return true, result;
      }
      if setError {
        SetTypeError(rt);
      }
      return false, result;
    } else if value.PyUnicode? {
      if |value.units| == 1 {
        result := CharValue(value.units[0]);
        return true, result;
      }
      if setError {
        SetTypeError(rt);
      }
      return false, result;
    }
    var op := rt.NumberInt(value);
    if op == Null {
      if setError {
        SetTypeError(rt);
      }
      return false, result;
    }
    var ival := rt.IntAsLong(op);
    rt.XDecref(op);
    if ival > CharMaxValue || ival < CharMinValue {
      if setError {
        SetOverflowError(rt);
      }
      return false, result;
    }
    result := CharValue(ival);
    return true, result;
  }

  method ToInt16(rt: Interpreter, value: PyValue, setError: bool) returns (ok: bool, result: Managed)
    requires rt.Valid()
    modifies rt
    ensures rt.Valid() && rt.live == old(rt.live) && rt.nextRef >= old(rt.nextRef)
    ensures Returned(ok, result, rt.pending) == Decision.ToInt16(rt.api, rt.binding, value, setError, old(rt.pending))
  {
    ok, result := IntStage(rt, Int16, value, setError);
  }

  method ToUInt16(rt: Interpreter, value: PyValue, setError: bool) returns (ok: bool, result: Managed)
    requires rt.Valid()
    modifies rt
    ensures rt.Valid() && rt.live == old(rt.live) && rt.nextRef >= old(rt.nextRef)
    ensures Returned(ok, result, rt.pending) == Decision.ToUInt16(rt.api, rt.binding, value, setError, old(rt.pending))
  {
    ok, result := IntStage(rt, UInt16, value, setError);
  }

  method ToInt32(rt: Interpreter, value: PyValue, setError: bool) returns (ok: bool, result: Managed)
    requires rt.Valid()
    modifies rt
    ensures rt.Valid() && rt.live == old(rt.live) && rt.nextRef >= old(rt.nextRef)
    ensures Returned(ok, result, rt.pending) == Decision.ToInt32(rt.api, rt.binding, value, setError, old(rt.pending))
  {
    result := NullRef;
    if LegacyIntModel(rt.binding) {
      var op := rt.NumberInt(value);
      var isLong := rt.LongCheck(op);
      if isLong {
        rt.XDecref(op);
        if setError {
          SetOverflowError(rt);
        }
        return false, result;
      }
      if op == Null {
        var overflow := rt.ExceptionMatches(OverflowError);
        if overflow {
          if setError {
            SetOverflowError(rt);
          }
          return false, result;
        }
        if setError {
          SetTypeError(rt);
        }
        return false, result;
      }
      var l := rt.IntAsLong(op);
      result := Integral(Int32, Cast(l, Int32));
      rt.XDecref(op);
      return true, result;
    } else {
      var op := rt.NumberLong(value);
      if op == Null {
        rt.Clear();
        var overflow := rt.ExceptionMatches(OverflowError);
        if overflow {
          // The slot was cleared on the line before: the Overflow report
          // the source writes here can never run.
          assert false;
        }
        if setError {
          SetTypeError(rt);
        }
        return false, result;
      }
      var ll := rt.LongAsLongLong(op);
      rt.XDecref(op);
      var occurred := rt.ErrorOccurred();
      if ll == -1 && occurred {
        if setError {
          SetOverflowError(rt);
        }
        return false, result;
      }
      if ll > MaxValue(Int32) || ll < MinValue(Int32) {
        if setError {
          SetOverflowError(rt);
        }
        return false, result;
      }
      result := Integral(Int32, ll);
      return true, result;
    }
  }

  method ToInt64(rt: Interpreter, value: PyValue, setError: bool) returns (ok: bool, result: Managed)
    requires rt.Valid()
    modifies rt
    ensures rt.Valid() && rt.live == old(rt.live) && rt.nextRef >= old(rt.nextRef)
    ensures Returned(ok, result, rt.pending) == Decision.ToInt64(rt.api, value, setError, old(rt.pending))
  {
    result := NullRef;
    var op := rt.NumberLong(value);
    if op == Null {
      var overflow := rt.ExceptionMatches(OverflowError);
      if overflow {
        if setError {
          SetOverflowError(rt);
        }
        return false, result;
      }
      if setError {
        SetTypeError(rt);
      }
      return false, result;
    }
    var l := rt.LongAsLongLong(op);
    rt.XDecref(op);
    var occurred := rt.ErrorOccurred();
    if l == -1 && occurred {
      if setError {
        SetOverflowError(rt);
      }
      return false, result;
    }
    result := Integral(Int64, l);
    return true, result;
  }

  method ToUInt32(rt: Interpreter, value: PyValue, setError: bool) returns (ok: bool, result: Managed)
    requires rt.Valid()
    modifies rt
    ensures rt.Valid() && rt.live == old(rt.live) && rt.nextRef >= old(rt.nextRef)
    ensures Returned(ok, result, rt.pending) == Decision.ToUInt32(rt.api, rt.binding, value, setError, old(rt.pending))
  {
    result := NullRef;
    var op := rt.NumberLong(value);
    if op == Null {
      var overflow := rt.ExceptionMatches(OverflowError);
      if overflow {
        if setError {
          SetOverflowError(rt);
        }
        return false, result;
      }
      if setError {
        SetTypeError(rt);
      }
      return false, result;
    }
    var ul := rt.LongAsUnsignedLong(op);
    var ui := Cast(ul, UInt32);
    var occurred := rt.ErrorOccurred();
    if occurred {
      rt.XDecref(op);
      if setError {
        SetOverflowError(rt);
      }
      return false, result;
    }
    var check := rt.LongFromUnsignedLong(ui);
    var err := rt.ObjectCompare(check, op);
    rt.XDecref(check);
    rt.XDecref(op);
    occurred := rt.ErrorOccurred();
    if err != 0 || occurred {
      if setError {
        SetOverflowError(rt);
      }
      return false, result;
    }
    result := Integral(UInt32, ui);
    return true, result;
  }

  method ToUInt64(rt: Interpreter, value: PyValue, setError: bool) returns (ok: bool, result: Managed)
    requires rt.Valid()
    modifies rt
    ensures rt.Valid() && rt.live == old(rt.live) && rt.nextRef >= old(rt.nextRef)
    ensures Returned(ok, result, rt.pending) == Decision.ToUInt64(rt.api, value, setError, old(rt.pending))
  {
    result := NullRef;
    var op := rt.NumberLong(value);
    if op == Null {
      var overflow := rt.ExceptionMatches(OverflowError);
      if overflow {
        if setError {
          SetOverflowError(rt);
        }
        return false, result;
      }
      if setError {
        SetTypeError(rt);
      }
      return false, result;
    }
    var ul := rt.LongAsUnsignedLongLong(op);
    rt.XDecref(op);
    var occurred := rt.ErrorOccurred();
    if occurred {
      if setError {
        SetOverflowError(rt);
      }
      return false, result;
    }
    result := Integral(UInt64, ul);
    return true, result;
  }

  /** `ToSingle`. When `CheckExceptionOccurred` throws, the float
      intermediate has not been released yet and stays owned. */
  method ToSingle(rt: Interpreter, value: PyValue, setError: bool) returns (threw: bool, ok: bool, result: Managed)
    requires rt.Valid()
    modifies rt
    ensures rt.Valid() && rt.nextRef >= old(rt.nextRef)
    ensures Observed(threw, ok, result, rt.pending) == Decision.ToSingle(rt.api, value, setError, old(rt.pending))
    ensures !threw ==> rt.live == old(rt.live)
    ensures threw ==>
      (rt.api.numberFloat(value).NewRef? &&
       rt.live == old(rt.live)[old(rt.nextRef) := FloatObject(rt.api.numberFloat(value).obj)])
  {
    result := NullRef;
    threw := false;
    var op := rt.NumberFloat(value);
    if op == Null {
      var overflow := rt.ExceptionMatches(OverflowError);
      if overflow {
        if setError {
          SetOverflowError(rt);
        }
        return false, false, result;
      }
      if setError {
        SetTypeError(rt);
      }
      return false, false, result;
    }
    var dd := rt.FloatAsDouble(op);
    threw := rt.CheckExceptionOccurred();
    if threw {
      return true, false, result;
    }
    rt.XDecref(op);
    if OutsideSingle(dd) {
      if !IsInfinity(dd) {
        if setError {
          SetOverflowError(rt);
        }
        return false, false, result;
      }
    }
    result := Float32(dd);
    return false, true, result;
  }

  /** `ToDouble`. As in ToSingle, a throw leaves the intermediate owned. */
  method ToDouble(rt: Interpreter, value: PyValue, setError: bool) returns (threw: bool, ok: bool, result: Managed)
    requires rt.Valid()
    modifies rt
    ensures rt.Valid() && rt.nextRef >= old(rt.nextRef)
    ensures Observed(threw, ok, result, rt.pending) == Decision.ToDouble(rt.api, value, setError, old(rt.pending))
    ensures !threw ==> rt.live == old(rt.live)
    ensures threw ==>
      (rt.api.numberFloat(value).NewRef? &&
       rt.live == old(rt.live)[old(rt.nextRef) := FloatObject(rt.api.numberFloat(value).obj)])
  {
    result := NullRef;
    threw := false;
    var op := rt.NumberFloat(value);
    if op == Null {
      if setError {
        SetTypeError(rt);
      }
      return false, false, result;
    }
    var d := rt.FloatAsDouble(op);
    threw := rt.CheckExceptionOccurred();
    if threw {
      return true, false, result;
    }
    rt.XDecref(op);
    result := Float64(d);
    return false, true, result;
  }

  /** `ToPrimitive`: exactly one converter per handled type code. */
  method ToPrimitive(rt: Interpreter, value: PyValue, tc: TypeCode, setError: bool) returns (threw: bool, ok: bool, result: Managed)
    requires rt.Valid()
    modifies rt
    ensures rt.Valid() && rt.nextRef >= old(rt.nextRef)
    ensures Observed(threw, ok, result, rt.pending) == Decision.ToPrimitive(rt.api, rt.binding, tc, value, setError, old(rt.pending))
    ensures !threw ==> rt.live == old(rt.live)
    ensures threw ==>
      (tc.Single? || tc.Double?) && rt.api.numberFloat(value).NewRef? &&
      rt.live == old(rt.live)[old(rt.nextRef) := FloatObject(rt.api.numberFloat(value).obj)]
    ensures !Handled(tc) ==> unchanged(rt)
  {
    threw := false;
    match tc
    case String =>
      ok, result := ToString(rt, value, setError);
    case Int32 =>
      ok, result := ToInt32(rt, value, setError);
    case Boolean =>
      ok, result := ToBoolean(rt, value, setError);
    case Byte =>
      ok, result := ToByte(rt, value, setError);
    case SByte =>
      ok, result := ToSByte(rt, value, setError);
    case Char =>
      ok, result := ToChar(rt, value, setError);
    case Int16 =>
      ok, result := ToInt16(rt, value, setError);
    case Int64 =>
      ok, result := ToInt64(rt, value, setError);
    case UInt16 =>
      ok, result := ToUInt16(rt, value, setError);
    case UInt32 =>
      ok, result := ToUInt32(rt, value, setError);
    case UInt64 =>
      ok, result := ToUInt64(rt, value, setError);
    case Single =>
      threw, ok, result := ToSingle(rt, value, setError);
    case Double =>
      threw, ok, result := ToDouble(rt, value, setError);
    case _ =>
      ok, result := false, NullRef;
  }

  /** `ToEnum`. */
  method ToEnum(rt: Interpreter, value: PyValue, e: EnumType, setError: bool) returns (ok: bool, result: Managed)
    requires rt.Valid() && IsIntegral(e.underlying)
    modifies rt
    ensures rt.Valid() && rt.live == old(rt.live) && rt.nextRef >= old(rt.nextRef)
    ensures Returned(ok, result, rt.pending) == Decision.ToEnum(rt.api, rt.binding, e, value, setError, old(rt.pending))
  {
    var threw;
    threw, ok, result := ToPrimitive(rt, value, e.underlying, setError);
    if !ok {
      return false, result;
    }
    if result.n in e.declared {
      return true, EnumValue(result.n);
    }
    if e.flags {
      return true, EnumValue(result.n);
    }
    if setError {
      rt.SetError(ValueError);
    }
    return false, result;
  }
}
