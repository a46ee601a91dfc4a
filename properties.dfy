/** What the converters promise, proved of their decision functions. */
module Properties {
  import opened Foreign
  import opened Decision

  /** The four targets that share the integer stage. */
  predicate NarrowTarget(t: TypeCode) {
    t.Byte? || t.SByte? || t.Int16? || t.UInt16?
  }

  /** Reading a byte as `sbyte` is two's complement. */
  lemma SByteIsTwosComplement(x: byte)
    ensures Cast(x, SByte) == if x < 0x80 then x else x - 0x100
  {
  }

  // ---------------------------------------------------------------- text, boolean

  /** None converts to a null string whatever `setError` says; a value
      without a managed string fails, raising TypeError only on request. */
  lemma StringOutcomes(api: ForeignApi, v: PyValue, setError: bool, p: Option<ErrKind>)
    ensures ToString(api, PyNone, setError, p) == Returned(true, NullRef, p)
    ensures v != PyNone && api.managedString(v).None? ==>
      ToString(api, v, setError, p) == Returned(false, NullRef, if setError then Some(TypeError) else p)
    ensures v != PyNone && api.managedString(v).Some? ==>
      ToString(api, v, setError, p) == Returned(true, Str(api.managedString(v).value), p)
  {
  }

  /** ToBoolean always succeeds with the truth value, ignores `setError`, and
      the slot changes only when the interpreter's own truth test fails. */
  lemma BooleanNeverFails(api: ForeignApi, b: Binding, v: PyValue, setError: bool, p: Option<ErrKind>)
    ensures var o := ToPrimitive(api, b, Boolean, v, setError, p);
      o.Returned? && o.ok && o.result == Bool(!api.isTrue(v).Falsy?) &&
      o.pending == (if api.isTrue(v).TruthFailed? then Some(api.isTrue(v).err) else p)
    ensures ToPrimitive(api, b, Boolean, v, setError, p) == ToPrimitive(api, b, Boolean, v, !setError, p)
  {
  }

  // ---------------------------------------------------------------- one-element strings

  /** A one-byte string converts to that byte; `sbyte` reads it as two's
      complement; on the unified generation ToChar yields a `byte`. */
  lemma OneByteString(api: ForeignApi, b: Binding, x: byte, setError: bool, p: Option<ErrKind>)
    ensures ToByte(api, b, PyBytes([x]), setError, p) == Returned(true, Integral(Byte, x), p)
    ensures ToSByte(api, b, PyBytes([x]), setError, p) ==
      Returned(true, Integral(SByte, if x < 0x80 then x else x - 0x100), p)
    ensures ToChar(api, b, PyBytes([x]), setError, p) ==
      Returned(true, if b.python2 then CharValue(x) else Integral(Byte, x), p)
  {
    SByteIsTwosComplement(x);
  }

  /** A byte string of any other length fails with TypeError and never
      reaches the integer coercion: the outcome does not depend on `api`. */
  lemma OtherLengthByteString(api: ForeignApi, b: Binding, v: PyValue, setError: bool, p: Option<ErrKind>)
    requires v.PyBytes? && |v.data| != 1
    ensures ToByte(api, b, v, setError, p) == Returned(false, NullRef, if setError then Some(TypeError) else p)
    ensures ToSByte(api, b, v, setError, p) == Returned(false, NullRef, if setError then Some(TypeError) else p)
    ensures ToChar(api, b, v, setError, p) == Returned(false, NullRef, if setError then Some(TypeError) else p)
  {
  }

  /** A one-character text converts to that code unit; any other length fails with TypeError. */
  lemma UnicodeToChar(api: ForeignApi, b: Binding, v: PyValue, setError: bool, p: Option<ErrKind>)
    requires v.PyUnicode?
    ensures |v.units| == 1 ==> ToChar(api, b, v, setError, p) == Returned(true, CharValue(v.units[0]), p)
    ensures |v.units| != 1 ==>
      ToChar(api, b, v, setError, p) == Returned(false, NullRef, if setError then Some(TypeError) else p)
  {
  }

  // ---------------------------------------------------------------- narrow integers

  /** Byte, SByte, Int16 and UInt16 on an int within Int32: success exactly
      when it is within the target's bounds, with that value; otherwise
      Overflow, raised only on request. */
  lemma NarrowSucceedsIffInBounds(api: ForeignApi, b: Binding, t: TypeCode, v: PyValue, setError: bool, p: Option<ErrKind>, n: int, isLong: bool)
    requires NarrowTarget(t) && (t.Byte? || t.SByte? ==> !v.PyBytes?)
    requires api.numberInt(v) == NewRef(PyInt(n, isLong)) && InRange(n, Int32)
    ensures var o := ToPrimitive(api, b, t, v, setError, p);
      o.Returned? && (o.ok <==> InRange(n, t)) &&
      (o.ok ==> o.result == Integral(t, n) && o.pending == p) &&
      (!o.ok ==> o.result == NullRef && o.pending == (if setError then Some(OverflowError) else p))
  {
    assert ToPrimitive(api, b, t, v, setError, p) == IntStage(api, b, t, v, setError, p);
    assert AsSigned(n, CLong(b)) == Extracted(n, false);
  }

  /** The values just outside a narrow target's bounds fail with Overflow. */
  lemma NarrowOverflowAtBounds(api: ForeignApi, b: Binding, t: TypeCode, v: PyValue, p: Option<ErrKind>, n: int, isLong: bool)
    requires NarrowTarget(t) && (t.Byte? || t.SByte? ==> !v.PyBytes?)
    requires api.numberInt(v) == NewRef(PyInt(n, isLong))
    requires n == MaxValue(t) + 1 || n == MinValue(t) - 1
    ensures ToPrimitive(api, b, t, v, true, p) == Returned(false, NullRef, Some(OverflowError))
  {
    NarrowSucceedsIffInBounds(api, b, t, v, true, p, n, isLong);
  }

  /** Where a C `long` is 64 bits wide, the `(int)` cast keeps only the low 32
      bits of the int, so Byte, SByte, Int16 and UInt16 accept exactly the
      ints whose low 32 bits, read from the target's minimum, fit the target,
      and then yield the host's direct narrowing cast of the int. */
  lemma {:induction false} WideIntKeepsLowBits(api: ForeignApi, b: Binding, t: TypeCode, v: PyValue, setError: bool, p: Option<ErrKind>, n: int, isLong: bool)
    requires b.lp64 && !b.is32Bit && NarrowTarget(t) && (t.Byte? || t.SByte? ==> !v.PyBytes?)
    requires api.numberInt(v) == NewRef(PyInt(n, isLong)) && InRange(n, Int64)
    ensures var o := ToPrimitive(api, b, t, v, setError, p);
      (o.ok <==> (n - MinValue(t)) % 0x1_0000_0000 < Span(t)) &&
      (o.ok ==> o.result == Integral(t, Cast(n, t)) && o.pending == p) &&
      (!o.ok ==> o == Returned(false, NullRef, Raise(setError, OverflowError, p)))
  {
    var o := ToPrimitive(api, b, t, v, setError, p);
    assert o == Narrow(Cast(n, Int32), t, setError, p) by {
      assert CLong(b) == Int64;
      assert AsSigned(n, Int64) == Extracted(n, false);
    }
    CastThroughInt32(n, t);
  }

  /** The same acceptance test read bit by bit, with `m` the int counted
      from the target's minimum: on LP64 a narrow target accepts exactly when
      the low 32 bits of `m` are below the target's span, and the result is
      the minimum plus the low `Bits(t)` bits of `m`, the bits a register of
      the target's width keeps. */
  lemma WideIntReadsLowBits(api: ForeignApi, b: Binding, t: TypeCode, v: PyValue, setError: bool, p: Option<ErrKind>, n: int, isLong: bool, m: int)
    requires b.lp64 && !b.is32Bit && NarrowTarget(t) && (t.Byte? || t.SByte? ==> !v.PyBytes?)
    requires api.numberInt(v) == NewRef(PyInt(n, isLong)) && InRange(n, Int64)
    requires m == n - MinValue(t)
    ensures var o := ToPrimitive(api, b, t, v, setError, p);
      (o.ok <==> LowBits(m, 32) < Span(t)) &&
      (o.ok ==> o.result == Integral(t, MinValue(t) + LowBits(m, Bits(t))))
  {
    WideIntKeepsLowBits(api, b, t, v, setError, p, n, isLong);
    var o := ToPrimitive(api, b, t, v, setError, p);
    LowBits32Below(o.ok, m, Span(t));
    CastReadsLowBits(o, t, n, m);
  }

  /** An outcome that yields the cast yields the low bits it keeps. */
  lemma CastReadsLowBits(o: Outcome, t: TypeCode, n: int, m: int)
    requires NarrowTarget(t) && m == n - MinValue(t) && o.Returned?
    requires o.ok ==> o.result == Integral(t, Cast(n, t))
    ensures o.ok ==> o.result == Integral(t, MinValue(t) + LowBits(m, Bits(t)))
  {
    CastKeepsLowBits(n, t);
  }

  /** 2^32 + 65 converts to the byte 65. */
  lemma ExampleWideInt(api: ForeignApi, b: Binding, v: PyValue, setError: bool, p: Option<ErrKind>, isLong: bool)
    requires b.lp64 && !b.is32Bit && !v.PyBytes?
    requires api.numberInt(v) == NewRef(PyInt(0x1_0000_0041, isLong))
    ensures ToByte(api, b, v, setError, p) == Returned(true, Integral(Byte, 0x41), p)
  {
    WideIntKeepsLowBits(api, b, Byte, v, setError, p, 0x1_0000_0041, isLong);
    assert Cast(0x1_0000_0041, Byte) == 0x41;
    assert ToByte(api, b, v, setError, p) == ToPrimitive(api, b, Byte, v, setError, p);
  }

  /** An int beyond a C `long` makes `PyInt_AsLong` return -1 with an
      OverflowError, which the integer stage does not check: SByte and Int16
      accept it as -1 and leave the error pending; Byte and UInt16 reject it. */
  lemma HugeIntReadsAsMinusOne(api: ForeignApi, b: Binding, t: TypeCode, v: PyValue, setError: bool, p: Option<ErrKind>, n: int, isLong: bool)
    requires NarrowTarget(t) && (t.Byte? || t.SByte? ==> !v.PyBytes?)
    requires api.numberInt(v) == NewRef(PyInt(n, isLong)) && !InRange(n, CLong(b))
    ensures t.SByte? || t.Int16? ==>
      ToPrimitive(api, b, t, v, setError, p) == Returned(true, Integral(t, -1), Some(OverflowError))
    ensures t.Byte? || t.UInt16? ==>
      ToPrimitive(api, b, t, v, setError, p) == Returned(false, NullRef, Some(OverflowError))
  {
  }

  /** ToChar's integer stage: within a C `long`, success exactly for 0..65535. */
  lemma CharFromInt(api: ForeignApi, b: Binding, v: PyValue, setError: bool, p: Option<ErrKind>, n: int, isLong: bool)
    requires !v.PyBytes? && !v.PyUnicode?
    requires api.numberInt(v) == NewRef(PyInt(n, isLong))
    ensures var o := ToChar(api, b, v, setError, p);
      (InRange(n, CLong(b)) ==>
        (o.ok <==> CharMinValue <= n <= CharMaxValue) &&
        (o.ok ==> o == Returned(true, CharValue(n), p)) &&
        (!o.ok ==> o == Returned(false, NullRef, if setError then Some(OverflowError) else p))) &&
      (!InRange(n, CLong(b)) ==> o == Returned(false, NullRef, Some(OverflowError)))
  {
  }

  // ---------------------------------------------------------------- failed coercions

  /** Where the overflow rule applies, a failed coercion is reported as
      Overflow when the interpreter raised OverflowError, as Type otherwise;
      without `setError` the interpreter's error stays pending. */
  lemma CoercionFailureKind(api: ForeignApi, b: Binding, tc: TypeCode, v: PyValue, setError: bool, p: Option<ErrKind>, e: ErrKind)
    requires NarrowTarget(tc) || tc.Int64? || tc.UInt32? || tc.UInt64? || tc.Single?
    requires tc.Byte? || tc.SByte? ==> !v.PyBytes?
    requires
      if tc.Single? then api.numberFloat(v) == Raised(e)
      else if tc.Int64? || tc.UInt32? || tc.UInt64? then api.numberLong(v) == Raised(e)
      else api.numberInt(v) == Raised(e)
    ensures ToPrimitive(api, b, tc, v, setError, p) ==
      Returned(false, NullRef, if setError then Some(if e == OverflowError then OverflowError else TypeError) else Some(e))
  {
  }

  /** The unified ToInt32 path clears the slot before testing it: a failed
      coercion is always a TypeError, and silently leaves the slot empty. */
  lemma Int32CoercionFailureIsTypeError(api: ForeignApi, b: Binding, v: PyValue, setError: bool, p: Option<ErrKind>, e: ErrKind)
    requires !LegacyIntModel(b) && api.numberLong(v) == Raised(e)
    ensures ToInt32(api, b, v, setError, p) == Returned(false, NullRef, if setError then Some(TypeError) else None)
  {
  }

  /** ToChar and ToDouble report a failed coercion as TypeError whatever the interpreter raised. */
  lemma CharAndDoubleCoercionFailureIsTypeError(api: ForeignApi, b: Binding, v: PyValue, setError: bool, p: Option<ErrKind>, e: ErrKind)
    ensures !v.PyBytes? && !v.PyUnicode? && api.numberInt(v) == Raised(e) ==>
      ToChar(api, b, v, setError, p) == Returned(false, NullRef, if setError then Some(TypeError) else Some(e))
    ensures api.numberFloat(v) == Raised(e) ==>
      ToDouble(api, v, setError, p) == Returned(false, NullRef, if setError then Some(TypeError) else Some(e))
  {
  }

  // ---------------------------------------------------------------- 32- and 64-bit integers

  /** Unified ToInt32: success exactly for an int within Int32, except that
      -1 fails when an error was already pending. */
  lemma Int32SucceedsIffInBounds(api: ForeignApi, b: Binding, v: PyValue, setError: bool, p: Option<ErrKind>, n: int)
    requires !LegacyIntModel(b) && api.numberLong(v) == NewRef(n)
    ensures var o := ToInt32(api, b, v, setError, p);
      (o.ok <==> InRange(n, Int32) && !(n == -1 && p.Some?)) &&
      (o.ok ==> o == Returned(true, Integral(Int32, n), p)) &&
      (!o.ok ==> o == Returned(false, NullRef,
        if setError then Some(OverflowError) else if InRange(n, Int64) then p else Some(OverflowError)))
  {
  }

  /** A silent ToInt32 on an int beyond Int64 leaves an OverflowError
      pending even though the slot was clean on entry. */
  lemma Int32SilentFailureLeavesError(api: ForeignApi, b: Binding, v: PyValue)
    requires !LegacyIntModel(b) && api.numberLong(v) == NewRef(0x1_0000_0000_0000_0000)
    ensures ToInt32(api, b, v, false, None) == Returned(false, NullRef, Some(OverflowError))
  {
  }

  /** Legacy ToInt32: a long fails with Overflow before the null check; a
      bounded int succeeds, and one beyond a C `long` succeeds as -1 with an
      OverflowError left pending. */
  lemma LegacyInt32(api: ForeignApi, b: Binding, v: PyValue, setError: bool, p: Option<ErrKind>, n: int, isLong: bool)
    requires LegacyIntModel(b) && api.numberInt(v) == NewRef(PyInt(n, isLong))
    ensures isLong ==> ToInt32(api, b, v, setError, p) == Returned(false, NullRef, if setError then Some(OverflowError) else p)
    ensures !isLong && InRange(n, Int32) ==> ToInt32(api, b, v, setError, p) == Returned(true, Integral(Int32, n), p)
    ensures !isLong && !InRange(n, Int32) ==>
      ToInt32(api, b, v, setError, p) == Returned(true, Integral(Int32, -1), Some(OverflowError))
  {
    if !isLong {
      if InRange(n, Int32) {
      } else {
      }
    }
  }

  /** ToInt64: success with the value exactly for an int within Int64,
      except that -1 fails when an error was already pending. */
  lemma Int64SucceedsIffInBounds(api: ForeignApi, v: PyValue, setError: bool, p: Option<ErrKind>, n: int)
    requires api.numberLong(v) == NewRef(n)
    ensures var o := ToInt64(api, v, setError, p);
      (o.ok <==> InRange(n, Int64) && !(n == -1 && p.Some?)) &&
      (o.ok ==> o == Returned(true, Integral(Int64, n), p)) &&
      (!o.ok ==> o == Returned(false, NullRef,
        if setError then Some(OverflowError) else if InRange(n, Int64) then p else Some(OverflowError)))
  {
  }

  /** ToUInt32: success with the value exactly for an int within UInt32 when
      no error was pending; everything else is an overflow. */
  lemma UInt32SucceedsIffInBounds(api: ForeignApi, b: Binding, v: PyValue, setError: bool, p: Option<ErrKind>, n: int)
    requires api.numberLong(v) == NewRef(n)
    ensures var o := ToUInt32(api, b, v, setError, p);
      (o.ok <==> InRange(n, UInt32) && p.None?) &&
      (o.ok ==> o == Returned(true, Integral(UInt32, n), p)) &&
      (!o.ok ==> o == Returned(false, NullRef,
        if setError then Some(OverflowError) else if InRange(n, CULong(b)) then p else Some(OverflowError)))
  {
    if InRange(n, CULong(b)) {
      if InRange(n, UInt32) {
      }
    }
  }

  /** Where an `unsigned long` is 64 bits wide, extraction accepts an int
      beyond UInt32 without error and the `(uint)` cast wraps it; only the
      re-encode comparison turns it into an overflow. */
  lemma UInt32ReencodeCatchesWrap(api: ForeignApi, b: Binding, v: PyValue, p: Option<ErrKind>, n: int)
    requires b.lp64 && !b.is32Bit && api.numberLong(v) == NewRef(n)
    requires MaxValue(UInt32) < n <= MaxValue(UInt64)
    ensures !AsUnsigned(n, CULong(b)).raised
    ensures Cast(n, UInt32) != n
    ensures ToUInt32(api, b, v, true, None) == Returned(false, NullRef, Some(OverflowError))
  {
  }

  /** ToUInt64: success with the value exactly for an int within UInt64 when
      no error was pending. */
  lemma UInt64SucceedsIffInBounds(api: ForeignApi, v: PyValue, setError: bool, p: Option<ErrKind>, n: int)
    requires api.numberLong(v) == NewRef(n)
    ensures var o := ToUInt64(api, v, setError, p);
      (o.ok <==> InRange(n, UInt64) && p.None?) &&
      (o.ok ==> o == Returned(true, Integral(UInt64, n), p)) &&
      (!o.ok ==> o == Returned(false, NullRef,
        if setError then Some(OverflowError) else if InRange(n, UInt64) then p else Some(OverflowError)))
  {
  }

  // ---------------------------------------------------------------- floating point

  /** ToSingle on a coerced double with a clean slot: success unless the
      double is finite and outside Single's range. ToSingle and ToDouble
      throw when an error was already pending. */
  lemma FloatOutcomes(api: ForeignApi, v: PyValue, setError: bool, p: Option<ErrKind>, d: Double)
    requires api.numberFloat(v) == NewRef(d)
    ensures p.None? ==>
      ToSingle(api, v, setError, p) ==
        if d.Finite? && (d.r > SingleMaxValue || d.r < -SingleMaxValue)
        then Returned(false, NullRef, if setError then Some(OverflowError) else None)
        else Returned(true, Float32(d), None)
    ensures p.None? ==> ToDouble(api, v, setError, p) == Returned(true, Float64(d), None)
    ensures p.Some? ==> ToSingle(api, v, setError, p) == Threw(p) && ToDouble(api, v, setError, p) == Threw(p)
  {
  }

  // ---------------------------------------------------------------- dispatcher and enums

  /** `setError` only decides whether a failure is reported: the flag and
      result never depend on it, a success leaves the same slot, and a
      reported failure of a handled code is a TypeError or OverflowError. */
  lemma SetErrorOnlyControlsReporting(api: ForeignApi, b: Binding, tc: TypeCode, v: PyValue, p: Option<ErrKind>)
    ensures var loud := ToPrimitive(api, b, tc, v, true, p);
      var quiet := ToPrimitive(api, b, tc, v, false, p);
      loud.Returned? == quiet.Returned? &&
      (loud.Returned? ==>
        loud.ok == quiet.ok && loud.result == quiet.result &&
        (loud.ok ==> loud.pending == quiet.pending) &&
        (!loud.ok && Handled(tc) ==> loud.pending == Some(TypeError) || loud.pending == Some(OverflowError)) &&
        (!Handled(tc) ==> loud.pending == p && quiet.pending == p))
  {
  }

  /** ToEnum's three outcomes: a failed primitive conversion passes through
      unchanged; a declared value, or any value of a `[Flags]` enumeration,
      succeeds with that value; any other value fails, raising ValueError
      only on request and leaving the primitive in `result`. */
  lemma EnumOutcomes(api: ForeignApi, b: Binding, e: EnumType, v: PyValue, setError: bool, p: Option<ErrKind>)
    requires IsIntegral(e.underlying)
    ensures var prim := ToPrimitive(api, b, e.underlying, v, setError, p);
      var o := ToEnum(api, b, e, v, setError, p);
      (!prim.ok ==> o == prim) &&
      (prim.ok ==> prim.result == Integral(e.underlying, prim.result.n)) &&
      (prim.ok && (prim.result.n in e.declared || e.flags) ==>
        o == Returned(true, EnumValue(prim.result.n), prim.pending)) &&
      (prim.ok && prim.result.n !in e.declared && !e.flags ==>
        o == Returned(false, prim.result, if setError then Some(ValueError) else prim.pending))
  {
  }

  // ---------------------------------------------------------------- worked examples

  /** The byte string "A" converts to 65 as Byte, SByte and Char; "AB" is a TypeError. */
  lemma ExampleByteStrings(api: ForeignApi, b: Binding, p: Option<ErrKind>)
    ensures ToByte(api, b, PyBytes([0x41]), true, p).result == Integral(Byte, 65)
    ensures ToSByte(api, b, PyBytes([0x41]), true, p).result == Integral(SByte, 65)
    ensures ToChar(api, b, PyBytes([0x41]), true, p).ok
    ensures ToByte(api, b, PyBytes([0x41, 0x42]), true, p) == Returned(false, NullRef, Some(TypeError))
  {
    OneByteString(api, b, 0x41, true, p);
  }

  /** 2^32 - 1 converts to UInt32; 2^32 is an overflow. */
  lemma ExampleUInt32Bounds(api: ForeignApi, b: Binding, v: PyValue, w: PyValue)
    requires api.numberLong(v) == NewRef(0xFFFF_FFFF) && api.numberLong(w) == NewRef(0x1_0000_0000)
    ensures ToUInt32(api, b, v, true, None) == Returned(true, Integral(UInt32, 0xFFFF_FFFF), None)
    ensures ToUInt32(api, b, w, true, None) == Returned(false, NullRef, Some(OverflowError))
  {
    assert ToUInt32(api, b, v, true, None) == Returned(true, Integral(UInt32, 0xFFFF_FFFF), None) by {
      UInt32SucceedsIffInBounds(api, b, v, true, None, 0xFFFF_FFFF);
    }
    assert ToUInt32(api, b, w, true, None) == Returned(false, NullRef, Some(OverflowError)) by {
      UInt32SucceedsIffInBounds(api, b, w, true, None, 0x1_0000_0000);
    }
  }

  /** Infinity narrows to Single; a finite double beyond Single's range does not. */
  lemma ExampleSingle(api: ForeignApi, v: PyValue, w: PyValue)
    requires api.numberFloat(v) == NewRef(PositiveInfinity)
    requires api.numberFloat(w) == NewRef(Finite(2.0 * SingleMaxValue))
    ensures ToSingle(api, v, true, None) == Returned(true, Float32(PositiveInfinity), None)
    ensures ToSingle(api, w, true, None) == Returned(false, NullRef, Some(OverflowError))
  {
  }

  /** With members 1, 2 and 4, the value 6 is accepted by a `[Flags]`
      enumeration, and the value 3 is rejected with ValueError by a plain one. */
  lemma ExampleEnums(api: ForeignApi, b: Binding, v: PyValue, w: PyValue)
    requires api.numberLong(v) == NewRef(6) && api.numberLong(w) == NewRef(3)
    ensures ToEnum(api, b, EnumType(Int64, {1, 2, 4}, true), v, true, None) == Returned(true, EnumValue(6), None)
    ensures ToEnum(api, b, EnumType(Int64, {1, 2, 4}, false), w, true, None) ==
      Returned(false, Integral(Int64, 3), Some(ValueError))
  {
  }
}
