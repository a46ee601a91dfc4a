# Scalar conversion engine of the Python/.NET bridge

This project models `PyConvert`, the part of the bridge that turns a handle to
a Python value into a .NET scalar. `ToPrimitive` dispatches on the target's
`TypeCode` to one converter per scalar type: string, bool, byte, sbyte, char,
16/32/64-bit signed, 16/32/64-bit unsigned, float, double. `ToEnum` converts
through the enumeration's underlying type. Each converter returns a success
flag and an `out result`. On failure it may write a TypeError, OverflowError
or ValueError into the interpreter's single pending-error slot, as far as the
caller's `setError` flag asks.

The model has five modules:

- `Foreign` (foreign.dfy): the interpreter's values (`PyValue`) and the
  kinds of error. It also holds the host type codes and their bounds, the
  host's unchecked narrowing cast (`Cast`), and the binding (`Binding`):
  which interpreter generation, which process width, and how wide a C `long`
  is.
  - `ForeignApi` is an oracle. It gives the interpreter's answers to the
    calls whose behaviour belongs to Python itself: `PyNumber_Int`,
    `PyNumber_Long`, `PyNumber_Float`, `GetManagedString` and
    `PyObject_IsTrue`.
  - The extraction calls applied to the intermediates get the C-API's
    documented semantics. `PyInt_AsLong`, `PyLong_AsLongLong` and the two
    unsigned variants return the value, or a sentinel together with an
    OverflowError. `PyObject_Compare` returns 0 exactly for equal ints.
- `Runtime` (runtime.dfy): the class `Interpreter`. Its fields are the
  pending-error slot `pending`, the map `live` of intermediate references the
  engine owns, and the handle counter. Every C-API call that reads or
  changes the slot or a reference is a method. The type tests and the size
  and buffer reads on the argument itself are read off the `PyValue`
  constructors (see "Left out").
  - A call that uses or releases an intermediate (`XDecref`, `IntAsLong`,
    `ObjectCompare`, ...) requires that the reference is still in `live`. So
    a converter that verifies never releases a reference twice and never uses
    one after releasing it.
- `Decision` (decision.dfy): one pure function per converter. It maps the
  oracle, the binding, the value, `setError` and the slot on entry to the
  returned flag, the result and the slot on exit, branch for branch as in
  the source. These functions are the specification.
- `PyConvert` (pyconvert.dfy): the converters as imperative methods over an
  `Interpreter`, step by step with the source's early returns. Each is proved
  to produce exactly its `Decision` function's outcome. Each is also proved to
  end with `live` as it found it: every intermediate was released exactly once.
  The one exception is the throw path of the float converters, where the
  reference stays owned.
- `Properties` (properties.dfy): the promises of the source, proved as lemmas
  about the `Decision` functions. They cover:
  - bounds in both directions, and overflow just outside the bounds;
  - one-byte strings;
  - the kind of error a failed coercion reports;
  - the re-encode check of `ToUInt32`;
  - the three outcomes of `ToEnum`;
  - the fact that `setError` only controls reporting;
  - worked examples: concrete inputs and what they convert to.

The source's compile-time choice between the `PYTHON2` and `PYTHON3` code
sections is the binding's `python2` field. It agrees with the run-time
`Runtime.IsPython2`, which the legacy `ToInt32` path tests together with
`Runtime.Is32Bit`.

The model follows the code as written, including these behaviours that a
caller might not expect:

- A silent conversion (`setError` false) does not leave the slot clean. A
  failed coercion leaves the interpreter's own error pending (lines 171-187).
  So does an int beyond Int64 for the modern `ToInt32` (lines 105-113). See
  `Properties.CoercionFailureKind` and `Properties.Int32SilentFailureLeavesError`.
- The modern `ToInt32` path calls `Exceptions.Clear()` before it asks whether
  the failed coercion overflowed (lines 88-103). The answer is always no, so
  the failure is always a TypeError. `PyConvert.ToInt32` marks the Overflow
  branch unreachable with `assert false`.
- `ToChar` and `ToDouble` report every failed coercion as a TypeError
  (lines 325-333, 597-605).
- With `PYTHON3`, `ToChar` on a one-byte string yields a `byte`, not a
  `char` (line 283).
- Apart from the `Exceptions.Clear()` of the modern `ToInt32` path (line 90),
  the converters never clear an interpreter-raised error before reporting
  their own. `SetError` replaces it in the one slot.
- The integer stage of `ToByte`, `ToSByte`, `ToInt16` and `ToUInt16` never
  checks `PyInt_AsLong` for an error. An int beyond a C `long` reads as -1
  there: SByte and Int16 accept it as -1 and leave an OverflowError pending.
  On a binding where a C `long` is 64 bits, the `(int)` cast keeps only the
  low 32 bits, so 2^32 + 65 converts to the byte 65.
- `ToSingle` and `ToDouble` call `CheckExceptionOccurred` before `XDecref`.
  When it throws, the float intermediate is never released.

## Model

| member | source | states |
|---|---|---|
| `Foreign.AsSigned` | src/runtime/converter/pyconverter.cs:105 | a signed extraction returns the value itself exactly when it fits the C type; otherwise it returns -1 and raises OverflowError; the result always fits |
| `Foreign.AsUnsigned` | src/runtime/converter/pyconverter.cs:484 | an unsigned extraction returns the value itself exactly when it fits; otherwise it returns the all-ones value and raises OverflowError |
| `Foreign.Compare` | src/runtime/converter/pyconverter.cs:497 | the comparison is 0 exactly when the two ints are equal, and lies in -1..1 |
| `Foreign.IsInfinity` | src/runtime/converter/pyconverter.cs:578 | `double.IsInfinity` holds exactly for a double that is neither finite nor NaN |
| `Foreign.OutsideSingle` | src/runtime/converter/pyconverter.cs:576 | the test `dd > Single.MaxValue` or `dd < Single.MinValue`, with IEEE comparisons, holds exactly for a double that is not NaN and not a finite value within ±Single.MaxValue |
| `Foreign.Cast` | src/runtime/converter/pyconverter.cs:188 | a host narrowing cast such as `(int)`, `(sbyte)` or `(uint)` always yields a value of the target type, and leaves a value the target can represent unchanged |
| `Foreign.LegacyIntModel` | src/runtime/converter/pyconverter.cs:50 | the legacy ToInt32 path is taken only where a C `long` and `unsigned long` are 32 bits wide |
| `Foreign.CLong` | src/runtime/converter/pyconverter.cs:188 | a C `long` is a signed Int32 or Int64, and Int32 in a 32-bit process and on a non-LP64 platform |
| `Foreign.CULong` | src/runtime/converter/pyconverter.cs:484 | a C `unsigned long` is an unsigned UInt32 or UInt64, of the same width as a C `long` |
| `Foreign.NarrowWindow` | src/runtime/converter/pyconverter.cs:188-191 | `(int)n` lies in a window of at most 2^16 values starting at or below 0 exactly when the remainder of `n - start` by 2^32 is below the window's width, and is then the start plus the remainder of `n - start` by that width |
| `Foreign.LowBits32Below` | src/runtime/converter/pyconverter.cs:188-191 | a test that holds exactly when the remainder by 2^32 is below a bound holds exactly when the low 32 bits, taken bit by bit, are below it |
| `Foreign.LowBits32` | src/runtime/converter/pyconverter.cs:188 | the low 32 bits of an int, taken bit by bit, are its remainder by 2^32 |
| `Foreign.LowBits` | src/runtime/converter/pyconverter.cs:188 | the number spelled by the lowest `k` binary digits of an int, digit by digit (two's complement for a negative int), lies in 0 .. 2^k - 1 |
| `Foreign.LowBitsIsMod` | src/runtime/converter/pyconverter.cs:188 | keeping the lowest `k` bits is the same as taking the remainder by 2^k |
| `Foreign.SpanIsPow2` | src/runtime/converter/pyconverter.cs:188 | each integral host type holds exactly 2^width values |
| `Foreign.CastKeepsLowBits` | src/runtime/converter/pyconverter.cs:214 | every host cast `(T)n` is T's minimum plus the lowest width-of-T bits of `n - min`: the bits themselves for an unsigned T, their two's-complement reading for a signed T |
| `Foreign.CastInt32LowBits` | src/runtime/converter/pyconverter.cs:188 | `(int)n` is the low 32 bits of `n` read as a two's-complement number |
| `Foreign.Int32Window` | src/runtime/converter/pyconverter.cs:188-200 | `(int)n` falls in a small window around 0 exactly when the low 32 bits of `n`, counted from the window's start, are below the window's width, and is then the start plus those bits |
| `Foreign.CastThroughInt32` | src/runtime/converter/pyconverter.cs:188-200 | `(int)n` passes a Byte, SByte, Int16 or UInt16 range test exactly when the remainder of `n - min` by 2^32 is below the type's span (`min` its minimum), and then equals the direct cast of `n` to that type |
| `Runtime.Interpreter.Acquire` | src/runtime/converter/pyconverter.cs:171 | a new reference handed to the engine is a fresh non-null handle, owned from then on, and nothing else owned changes |
| `Runtime.Interpreter.SetError` | src/runtime/converter/pyconverter.cs:35 | the reported error replaces whatever was pending |
| `Runtime.Interpreter.Clear` | src/runtime/converter/pyconverter.cs:90 | the slot is empty afterwards |
| `Runtime.Interpreter.ExceptionMatches` | src/runtime/converter/pyconverter.cs:67 | true exactly when an error of the given kind is pending |
| `Runtime.Interpreter.ErrorOccurred` | src/runtime/converter/pyconverter.cs:107 | true exactly when some error is pending |
| `Runtime.Interpreter.XDecref` | src/runtime/converter/pyconverter.cs:106 | releases an owned reference (the null handle is ignored); releasing one not owned is refused |
| `Runtime.Interpreter.NumberInt` | src/runtime/converter/pyconverter.cs:171 | on success a fresh owned reference to the int; on failure the null handle, with the interpreter's error pending |
| `Runtime.Interpreter.NumberLong` | src/runtime/converter/pyconverter.cs:87 | as NumberInt, for the long coercion |
| `Runtime.Interpreter.NumberFloat` | src/runtime/converter/pyconverter.cs:556 | as NumberInt, for the float coercion |
| `Runtime.Interpreter.LongCheck` | src/runtime/converter/pyconverter.cs:55 | true exactly for an owned long object; false for the null handle |
| `Runtime.Interpreter.IntAsLong` | src/runtime/converter/pyconverter.cs:188 | reads an owned int as a C `long`, by AsSigned, and sets the slot accordingly |
| `Runtime.Interpreter.LongAsLongLong` | src/runtime/converter/pyconverter.cs:409 | reads an owned int as a C `long long`, by AsSigned |
| `Runtime.Interpreter.LongAsUnsignedLong` | src/runtime/converter/pyconverter.cs:484 | reads an owned int as a C `unsigned long`, by AsUnsigned |
| `Runtime.Interpreter.LongAsUnsignedLongLong` | src/runtime/converter/pyconverter.cs:536 | reads an owned int as a C `unsigned long long`, by AsUnsigned |
| `Runtime.Interpreter.LongFromUnsignedLong` | src/runtime/converter/pyconverter.cs:496 | a fresh owned reference to an int of the given value |
| `Runtime.Interpreter.ObjectCompare` | src/runtime/converter/pyconverter.cs:497 | compares two owned ints |
| `Runtime.Interpreter.FloatAsDouble` | src/runtime/converter/pyconverter.cs:573 | the double of an owned float |
| `Runtime.Interpreter.CheckExceptionOccurred` | src/runtime/converter/pyconverter.cs:574 | throws exactly when an error is pending |
| `Runtime.Interpreter.ObjectIsTrue` | src/runtime/converter/pyconverter.cs:130 | 1, 0, or -1 with the interpreter's error pending |
| `Runtime.Interpreter.GetManagedString` | src/runtime/converter/pyconverter.cs:20 | the oracle's managed string, or null |
| `Decision.Raise` | src/runtime/converter/pyconverter.cs:193-196 | with `setError` the reported kind becomes the pending error; without it the slot keeps what it held |
| `Decision.CoercionFailed` | src/runtime/converter/pyconverter.cs:171-187 | after a null coercion the result is null and the call fails; with `setError` the error is Overflow when an OverflowError was pending and Type otherwise; without `setError` the slot is untouched |
| `Decision.Narrow` | src/runtime/converter/pyconverter.cs:191-200 | succeeds exactly when the value lies in the target's bounds, with that value; otherwise null and Overflow only on request |
| `Decision.ToString` | src/runtime/converter/pyconverter.cs:11-30 | never throws; a success yields null or a string and leaves the slot as it was |
| `Decision.ToBoolean` | src/runtime/converter/pyconverter.cs:128-132 | always succeeds with a bool |
| `Decision.IntStage` | src/runtime/converter/pyconverter.cs:171-200 | a success yields a value of the target type within its bounds |
| `Decision.ToByte` | src/runtime/converter/pyconverter.cs:134-201 | a success yields a byte in 0..255 |
| `Decision.ToSByte` | src/runtime/converter/pyconverter.cs:203-270 | a success yields an sbyte in -128..127 |
| `Decision.ToChar` | src/runtime/converter/pyconverter.cs:272-346 | a success yields a char in 0..65535, or, with PYTHON3 and a one-byte string, that byte |
| `Decision.ToInt16` | src/runtime/converter/pyconverter.cs:348-384 | a success yields an Int16 within its bounds |
| `Decision.ToUInt16` | src/runtime/converter/pyconverter.cs:423-459 | a success yields a UInt16 within its bounds |
| `Decision.ToInt32` | src/runtime/converter/pyconverter.cs:43-126 | on either path a success yields an Int32 within its bounds |
| `Decision.ToInt64` | src/runtime/converter/pyconverter.cs:386-421 | a success yields an Int64 within its bounds |
| `Decision.ToUInt32` | src/runtime/converter/pyconverter.cs:461-511 | a success yields a UInt32 within its bounds |
| `Decision.ToUInt64` | src/runtime/converter/pyconverter.cs:513-548 | a success yields a UInt64 within its bounds |
| `Decision.ToSingle` | src/runtime/converter/pyconverter.cs:550-589 | a success yields a float, and a value outside Single's range only if it is an infinity |
| `Decision.ToDouble` | src/runtime/converter/pyconverter.cs:591-611 | a success yields a double; a throw happens only when an error was pending |
| `Decision.Handled` | src/runtime/converter/pyconverter.cs:617-657 | the switch handles exactly the integral codes, Boolean, Char, String, Single and Double |
| `Decision.ToPrimitive` | src/runtime/converter/pyconverter.cs:613-660 | an unhandled type code fails with a null result and leaves the slot as it was; an integral code never throws, and its success carries that code's type |
| `Decision.ToEnum` | src/runtime/converter/pyconverter.cs:665-693 | a success yields an enum value that is declared, or belongs to a `[Flags]` enumeration |
| `PyConvert.SetTypeError` | src/runtime/converter/pyconverter.cs:32-36 | a TypeError is pending afterwards |
| `PyConvert.SetOverflowError` | src/runtime/converter/pyconverter.cs:38-41 | an OverflowError is pending afterwards |
| `PyConvert.ToString` | src/runtime/converter/pyconverter.cs:11-30 | returns and leaves pending what `Decision.ToString` says; takes no reference |
| `PyConvert.ToBoolean` | src/runtime/converter/pyconverter.cs:128-132 | as `Decision.ToBoolean`; takes no reference |
| `PyConvert.IntStage` | src/runtime/converter/pyconverter.cs:171-200 | as `Decision.IntStage`; the coerced intermediate is released on every path |
| `PyConvert.ToByte` | src/runtime/converter/pyconverter.cs:134-201 | as `Decision.ToByte`; every intermediate released |
| `PyConvert.ToSByte` | src/runtime/converter/pyconverter.cs:203-270 | as `Decision.ToSByte`; every intermediate released |
| `PyConvert.ToChar` | src/runtime/converter/pyconverter.cs:272-346 | as `Decision.ToChar`; every intermediate released |
| `PyConvert.ToInt16` | src/runtime/converter/pyconverter.cs:348-384 | as `Decision.ToInt16`; every intermediate released |
| `PyConvert.ToUInt16` | src/runtime/converter/pyconverter.cs:423-459 | as `Decision.ToUInt16`; every intermediate released |
| `PyConvert.ToInt32` | src/runtime/converter/pyconverter.cs:43-126 | as `Decision.ToInt32`; every intermediate released on both paths, including the long-check exit at line 57 |
| `PyConvert.ToInt64` | src/runtime/converter/pyconverter.cs:386-421 | as `Decision.ToInt64`; every intermediate released |
| `PyConvert.ToUInt32` | src/runtime/converter/pyconverter.cs:461-511 | as `Decision.ToUInt32`; both the coerced intermediate and the re-encoded check value are released exactly once on every path |
| `PyConvert.ToUInt64` | src/runtime/converter/pyconverter.cs:513-548 | as `Decision.ToUInt64`; every intermediate released |
| `PyConvert.ToSingle` | src/runtime/converter/pyconverter.cs:550-589 | as `Decision.ToSingle`; the intermediate is released unless `CheckExceptionOccurred` throws, in which case it stays owned |
| `PyConvert.ToDouble` | src/runtime/converter/pyconverter.cs:591-611 | as `Decision.ToDouble`; released unless the throw path is taken |
| `PyConvert.ToPrimitive` | src/runtime/converter/pyconverter.cs:613-660 | as `Decision.ToPrimitive`; for an unhandled type code nothing in the interpreter changes; without a throw every intermediate is released; a throw comes only from Single or Double and leaves exactly the float intermediate owned |
| `PyConvert.ToEnum` | src/runtime/converter/pyconverter.cs:665-693 | as `Decision.ToEnum`; every intermediate released |
| `Properties.SByteIsTwosComplement` | src/runtime/converter/pyconverter.cs:214 | `(sbyte)` of a byte is the byte below 128, and the byte minus 256 from 128 up |
| `Properties.StringOutcomes` | src/runtime/converter/pyconverter.cs:11-30 | None succeeds with null for either `setError`; without a managed string the call fails, and TypeError is raised only if `setError`; otherwise it succeeds with the string |
| `Properties.BooleanNeverFails` | src/runtime/converter/pyconverter.cs:128-132 | always succeeds with the truth value (true also for a failed truth test); ignores `setError`; the slot changes only by the interpreter's failed truth test |
| `Properties.OneByteString` | src/runtime/converter/pyconverter.cs:140-147 | a one-byte string converts to that byte for Byte, to its two's-complement reading for SByte, and to the char (PYTHON2) or the byte (PYTHON3) for Char |
| `Properties.OtherLengthByteString` | src/runtime/converter/pyconverter.cs:148-153 | a byte string of another length fails with TypeError only on request, for Byte, SByte and Char, and the outcome does not involve the coercion |
| `Properties.UnicodeToChar` | src/runtime/converter/pyconverter.cs:308-323 | a one-character text converts to its code unit; any other length fails with TypeError only on request |
| `Properties.NarrowSucceedsIffInBounds` | src/runtime/converter/pyconverter.cs:171-200 | for Byte and SByte on a value other than a byte string, and for Int16 and UInt16 on any value, whose coercion gives an int within Int32: success iff within the target's bounds, with the same value and slot; otherwise null and Overflow only on request |
| `Properties.NarrowOverflowAtBounds` | src/runtime/converter/pyconverter.cs:373-380 | for Byte and SByte on a value other than a byte string, and for Int16 and UInt16 on any value, max + 1 and min - 1 fail with OverflowError |
| `Properties.WideIntKeepsLowBits` | src/runtime/converter/pyconverter.cs:171-200 | where a C `long` is 64 bits, Byte and SByte (on a value other than a byte string) and Int16 and UInt16 (on any value) accept an int within Int64 exactly when the remainder of `n - min` by 2^32 is below the target's span; a success is the host's direct cast of the int with the slot unchanged, a failure is null with Overflow only on request |
| `Properties.WideIntReadsLowBits` | src/runtime/converter/pyconverter.cs:188-200 | where a C `long` is 64 bits, a narrow target accepts an int within Int64 exactly when the low 32 bits of the int counted from the target's minimum, taken bit by bit, are below the target's span, and then yields the minimum plus the low bits a register of the target's width keeps |
| `Properties.CastReadsLowBits` | src/runtime/converter/pyconverter.cs:188-200 | a narrow outcome that yields the host cast yields the minimum plus the low bits of the int counted from that minimum |
| `Properties.ExampleWideInt` | src/runtime/converter/pyconverter.cs:188 | where a C `long` is 64 bits, 2^32 + 65 converts to the byte 65 |
| `Properties.HugeIntReadsAsMinusOne` | src/runtime/converter/pyconverter.cs:257-269 | for Byte and SByte on a value other than a byte string, and for Int16 and UInt16 on any value, an int beyond a C `long` makes SByte and Int16 succeed with -1 and an OverflowError pending, and Byte and UInt16 fail with it |
| `Properties.CharFromInt` | src/runtime/converter/pyconverter.cs:325-345 | the integer stage of ToChar succeeds iff the int lies in 0..65535, with that char; an int beyond a C `long` fails with OverflowError pending |
| `Properties.CoercionFailureKind` | src/runtime/converter/pyconverter.cs:171-187 | a null coercion for Byte and SByte (on a value other than a byte string) and for Int16, UInt16, Int64, UInt32, UInt64 and Single (on any value) reports Overflow if OverflowError was pending, else Type; without `setError` the interpreter's error stays pending |
| `Properties.Int32CoercionFailureIsTypeError` | src/runtime/converter/pyconverter.cs:88-103 | the modern ToInt32 path reports every null coercion as TypeError, and leaves the slot empty when silent |
| `Properties.CharAndDoubleCoercionFailureIsTypeError` | src/runtime/converter/pyconverter.cs:325-332 | ToChar and ToDouble report every null coercion as TypeError |
| `Properties.Int32SucceedsIffInBounds` | src/runtime/converter/pyconverter.cs:105-124 | modern ToInt32 succeeds iff the int is within Int32, unless it is -1 with an error already pending; a failure reports Overflow on request, and otherwise leaves the extraction's error |
| `Properties.Int32SilentFailureLeavesError` | src/runtime/converter/pyconverter.cs:107-113 | a silent ToInt32 of 2^64 starting from a clean slot ends with an OverflowError pending |
| `Properties.LegacyInt32` | src/runtime/converter/pyconverter.cs:50-84 | the legacy path fails with Overflow on a long before the null test; a non-long int within Int32 round-trips; were the coercion to answer a non-long int beyond a 32-bit C `long` (an answer Python 2 never gives, since such an int is a long there), it would succeed as -1 with OverflowError pending |
| `Properties.Int64SucceedsIffInBounds` | src/runtime/converter/pyconverter.cs:392-420 | ToInt64 succeeds iff the int is within Int64, unless it is -1 with an error pending |
| `Properties.UInt32SucceedsIffInBounds` | src/runtime/converter/pyconverter.cs:484-510 | ToUInt32 succeeds iff the int is within UInt32 and no error was pending; every failure is Overflow on request |
| `Properties.UInt32ReencodeCatchesWrap` | src/runtime/converter/pyconverter.cs:496-507 | where an `unsigned long` is 64 bits, an int beyond UInt32 extracts without error and the cast wraps it; the re-encode comparison makes it an overflow |
| `Properties.UInt64SucceedsIffInBounds` | src/runtime/converter/pyconverter.cs:536-547 | ToUInt64 succeeds iff the int is within UInt64 and no error was pending |
| `Properties.FloatOutcomes` | src/runtime/converter/pyconverter.cs:573-588 | with a clean slot ToSingle fails with Overflow exactly for a finite double outside Single's range, and ToDouble succeeds; with an error pending both throw |
| `Properties.SetErrorOnlyControlsReporting` | src/runtime/converter/pyconverter.cs:613-660 | for every type code, flag and result do not depend on `setError`; a success leaves the same slot; a reported failure of a handled code is TypeError or OverflowError; an unhandled code leaves the slot alone |
| `Properties.EnumOutcomes` | src/runtime/converter/pyconverter.cs:665-693 | a primitive failure passes through unchanged; a declared value, or any value of a Flags enumeration, succeeds; any other fails with the primitive left in `result` and ValueError only on request |
| `Properties.ExampleByteStrings` | src/runtime/converter/pyconverter.cs:140-153 | the byte string "A" converts to 65 as Byte and SByte and succeeds as Char; "AB" is a TypeError |
| `Properties.ExampleUInt32Bounds` | src/runtime/converter/pyconverter.cs:461-511 | 2^32 - 1 converts to UInt32; 2^32 is an OverflowError |
| `Properties.ExampleSingle` | src/runtime/converter/pyconverter.cs:576-588 | positive infinity converts to Single; a finite double twice Single's maximum is an OverflowError |
| `Properties.ExampleEnums` | src/runtime/converter/pyconverter.cs:675-692 | with members 1, 2 and 4, a Flags enumeration accepts 6; a plain one rejects 3 with ValueError |

## Left out

- Error messages: `PyObject_GetTypeName` and the message strings (lines 34-35, 40). Only the error kind is modelled.
- What Python itself does in `PyNumber_Int`, `PyNumber_Long`, `PyNumber_Float`, `GetManagedString` and `PyObject_IsTrue`. These are the oracle `ForeignApi`; a lemma that needs a particular answer states it as a precondition.
- `Runtime.Interpreter.LongCheck`: `PyLong_Check` on the null handle is taken to answer false. The real helper reads the object header through that handle (line 55 runs before the null test at line 65). Runtime.cs is not part of this model.
- `Runtime.Interpreter.IntAsLong`: the host-side declaration of `PyInt_AsLong` is not part of this model. It is taken to hand over the C `long` unchanged; the explicit `(int)` casts of the converters are modelled with `Cast`. `ToChar` has no `(int)` cast (line 334), so its result where a C `long` is 64 bits rests entirely on this: `Properties.CharFromInt` makes 2^32 + 65 an Overflow, whereas a declaration returning `int` would make it 'A'.
- `Properties.CoercionFailureKind`: the legacy ToInt32 path's null coercion (lines 55-78) is not stated there, because its outcome rests on `PyLong_Check` answering false for the null handle (see `LongCheck` above). `Decision.ToInt32` and `PyConvert.ToInt32` still model that path under the same assumption.
- The checks on the argument itself (`PyObject_TypeCheck`, `PyBytes_Size`/`PyString_Size`, `PyBytes_AS_STRING`/`PyString_AsString`, `PyUnicode_GetSize`, `PyUnicode_AsUnicode`; lines 140-145, 278-283, 308-314) are not methods of `Interpreter`. They are read off the `PyBytes` and `PyUnicode` constructors of `PyValue`: no reference is taken and the slot is not touched.
- `ExceptionMatches` is modelled as equality of kinds. Matching by exception subclass is not modelled.
- `PyObject_Compare` is taken never to fail on two ints, so the `ErrorOccurred()` test at line 500 cannot fire in the model.
- `PyLong_FromUnsignedLong` is taken never to fail. Memory exhaustion is not modelled.
- Floating point: a finite double is represented by its real value. The rounding of `(float)dd` (line 587) is not modelled, and neither is the set of representable doubles. `PyFloat_AsDouble` on a float intermediate never fails, so `CheckExceptionOccurred` throws only when an error was already pending on entry.
- What the host exception thrown by `CheckExceptionOccurred` does with the pending slot. The model leaves the slot as it was at the throw.
- Raw memory reads (`Marshal.ReadByte`, `Marshal.Copy`, lines 145, 314) are modelled as the first element of the string. Text is a sequence of 16-bit code units; the width of the interpreter's internal unicode buffer is not modelled.
- .NET reflection (`Enum.GetUnderlyingType`, `Enum.IsDefined`, `Enum.ToObject`, `FlagsAttribute`). An enumeration is its underlying integral type code, the set of its declared values and a flags bit. `Enum.IsDefined` throwing on a value of a type other than the underlying one is not modelled, because `ToPrimitive` always yields the underlying type.
- `PyTypeConvert` (lines 696-699) is an empty class.
- The global interpreter lock and concurrent use of the shared slot and reference counts: the model is sequential.
- src/perf_tests/BaselineComparisonConfig.cs is not part of this model. It is a benchmarking harness with environment-variable and file I/O.
