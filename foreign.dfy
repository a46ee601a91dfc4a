/** The foreign interpreter as the conversion engine sees it: its values, the
    kinds of error its single pending-error slot can hold, the answers of its
    coercion calls (an oracle, `ForeignApi`), and the semantics of the C-API
    extraction calls applied to the intermediates those coercions return. */
module Foreign {

  datatype Option<T> = None | Some(value: T)

  /** The kind of a pending error. `OtherError` stands for every kind the
      interpreter may raise that the engine never tests for by name. */
  datatype ErrKind = TypeError | OverflowError | ValueError | OtherError

  type byte = x: int | 0 <= x < 0x100

  /** One UTF-16 code unit, as copied into a host `char`. */
  type char16 = x: int | 0 <= x < 0x1_0000

  const CharMinValue: int := 0
  const CharMaxValue: int := 0xFFFF

  /** A handle to a foreign value. Byte strings (`bytes` on the unified
      integer model, `str` on the legacy one) and text strings are seen
      through their contents; every other object (ints, floats, user objects)
      only through the interpreter's answers in `ForeignApi`. */
  datatype PyValue =
    | PyNone
    | PyBytes(data: seq<byte>)
    | PyUnicode(units: seq<char16>)
    | PyObject(handle: nat)

  /** A double as the host sees it. A finite double is represented by its
      real value; rounding is not modelled. */
  datatype Double = Finite(r: real) | PositiveInfinity | NegativeInfinity | NaN

  /** `Single.MaxValue`, (2 - 2^-23) * 2^127; `Single.MinValue` is its negation. */
  const SingleMaxValue: real := 340282346638528859811704183484516925440.0

  /** `Double.IsInfinity`: neither a finite value nor NaN. */
  predicate IsInfinity(d: Double)
    ensures IsInfinity(d) <==> !d.Finite? && !d.NaN?
  {
    d.PositiveInfinity? || d.NegativeInfinity?
  }

  /** `d > Single.MaxValue || d < Single.MinValue`, with IEEE comparisons
      (every comparison with NaN is false). */
  predicate OutsideSingle(d: Double)
    ensures OutsideSingle(d) <==> !d.NaN? && !(d.Finite? && -SingleMaxValue <= d.r <= SingleMaxValue)
  {
    match d
    case Finite(r) => r > SingleMaxValue || r < -SingleMaxValue
    case PositiveInfinity => true
    case NegativeInfinity => true
    case NaN => false
  }

  /** The host's type codes (`System.TypeCode`). */
  datatype TypeCode =
    | Empty | Object | DBNull | Boolean | Char | SByte | Byte | Int16 | UInt16
    | Int32 | UInt32 | Int64 | UInt64 | Single | Double | Decimal | DateTime | String

  predicate IsIntegral(t: TypeCode) {
    t.SByte? || t.Byte? || t.Int16? || t.UInt16? || t.Int32? || t.UInt32? || t.Int64? || t.UInt64?
  }

  function MinValue(t: TypeCode): int
    requires IsIntegral(t)
  {
    match t
    case SByte => -0x80
    case Int16 => -0x8000
    case Int32 => -0x8000_0000
    case Int64 => -0x8000_0000_0000_0000
    case _ => 0
  }

  function MaxValue(t: TypeCode): int
    requires IsIntegral(t)
  {
    match t
    case SByte => 0x7F
    case Byte => 0xFF
    case Int16 => 0x7FFF
    case UInt16 => 0xFFFF
    case Int32 => 0x7FFF_FFFF
    case UInt32 => 0xFFFF_FFFF
    case Int64 => 0x7FFF_FFFF_FFFF_FFFF
    case UInt64 => 0xFFFF_FFFF_FFFF_FFFF
  }

  predicate InRange(n: int, t: TypeCode)
    requires IsIntegral(t)
  {
    MinValue(t) <= n <= MaxValue(t)
  }

  /** The number of values of an integral type, 2 to the power of its width. */
  function Span(t: TypeCode): int
    requires IsIntegral(t)
  {
    MaxValue(t) - MinValue(t) + 1
  }

  /** The host's unchecked narrowing cast `(T)n`: it keeps the low bits of `n`
      and reads them back in T's range (two's complement for signed T). It
      always lands in T's range and leaves a value T can represent unchanged. */
  function Cast(n: int, t: TypeCode): (r: int)
    requires IsIntegral(t)
    ensures InRange(r, t)
    ensures InRange(n, t) ==> r == n
  {
    MinValue(t) + (n - MinValue(t)) % Span(t)
  }

  /** The remainder of `k * d + r` by `d` is `r`, for `r` in `0..d`. */
  lemma ModOfMultiplePlus(k: int, d: int, r: int)
    requires 0 <= r < d
    ensures (k * d + r) % d == r
  {
    var q, m := (k * d + r) / d, (k * d + r) % d;
    assert (k - q) * d == m - r;
    if q < k {
      MulAtLeast(k - q, d);
    } else if k < q {
      MulAtLeast(q - k, d);
    }
  }

  /** A positive multiple of `d` is at least `d`. */
  lemma {:induction false} MulAtLeast(a: int, d: int)
    requires 1 <= a && 0 < d
    ensures d <= a * d
  {
    if a > 1 {
      MulAtLeast(a - 1, d);
      assert a * d == (a - 1) * d + d;
    }
  }

  /** `(int)n` reads the low 32 bits of `n` as a two's-complement number. */
  lemma CastInt32LowBits(n: int)
    ensures var m := n % 0x1_0000_0000;
      Cast(n, Int32) == if m < 0x8000_0000 then m else m - 0x1_0000_0000
  {
    var k, m := n / 0x1_0000_0000, n % 0x1_0000_0000;
    if m < 0x8000_0000 {
      ModOfMultiplePlus(k, 0x1_0000_0000, m + 0x8000_0000);
    } else {
      ModOfMultiplePlus(k + 1, 0x1_0000_0000, m - 0x8000_0000);
    }
  }

  /** Keeping the low 32 bits first does not change the remainder by a
      divisor `s` of 2^32. */
  lemma LowBitsMod(n: int, s: int, f: int)
    requires 0 < s && 0 < f && s * f == 0x1_0000_0000
    ensures n % 0x1_0000_0000 % s == n % s
  {
    var k, m := n / 0x1_0000_0000, n % 0x1_0000_0000;
    assert n == (k * f + m / s) * s + m % s;
    ModOfMultiplePlus(k * f + m / s, s, m % s);
  }

  /** The value `(int)n` lies in the window `lo .. lo + sp - 1` (a window
      around 0 no wider than 2^16) exactly when the low 32 bits of `n - lo`
      are below `sp`, and is then `lo` plus those bits. */
  lemma Int32Window(n: int, lo: int, sp: int)
    requires -0x8000 <= lo <= 0 < sp <= 0x1_0000
    ensures var u := (n - lo) % 0x1_0000_0000;
      (lo <= Cast(n, Int32) < lo + sp <==> u < sp) &&
      (lo <= Cast(n, Int32) < lo + sp ==> Cast(n, Int32) == lo + u)
  {
    CastInt32LowBits(n);
    var k, m := n / 0x1_0000_0000, n % 0x1_0000_0000;
    assert n - lo == k * 0x1_0000_0000 + (m - lo);
    if m - lo < 0x1_0000_0000 {
      ModOfMultiplePlus(k, 0x1_0000_0000, m - lo);
    } else {
      assert n - lo == (k + 1) * 0x1_0000_0000 + (m - lo - 0x1_0000_0000);
      ModOfMultiplePlus(k + 1, 0x1_0000_0000, m - lo - 0x1_0000_0000);
    }
  }

  /** `Int32Window` for a window whose width `sp` divides 2^32: the value is
      then also `lo` plus the remainder of `n - lo` by `sp`. */
  lemma NarrowWindow(n: int, lo: int, sp: int, f: int)
    requires -0x8000 <= lo <= 0 < sp <= 0x1_0000 && 0 < f && sp * f == 0x1_0000_0000
    ensures var c := Cast(n, Int32);
      (lo <= c < lo + sp <==> (n - lo) % 0x1_0000_0000 < sp) &&
      (lo <= c < lo + sp ==> c == lo + (n - lo) % sp)
  {
    var u := (n - lo) % 0x1_0000_0000;
    Int32Window(n, lo, sp);
    LowBitsMod(n - lo, sp, f);
    if u < sp {
      ModOfMultiplePlus(0, sp, u);
      assert u % sp == u;
    }
  }

  /** Casting to `int` and then testing the range of a narrower type `t`
      whose span divides 2^32: the intermediate fits `t` exactly when the low
      32 bits of `n` (its remainder by 2^32), counted from `t`'s minimum, lie
      within `t`'s span, and then it equals the direct cast of `n` to `t`. */
  lemma CastThroughInt32(n: int, t: TypeCode)
    requires t.Byte? || t.SByte? || t.Int16? || t.UInt16?
    ensures InRange(Cast(n, Int32), t) <==> (n - MinValue(t)) % 0x1_0000_0000 < Span(t)
    ensures InRange(Cast(n, Int32), t) ==> Cast(n, Int32) == Cast(n, t)
  {
    match t
    case Byte => NarrowWindow(n, 0, 0x100, 0x100_0000);
    case SByte => NarrowWindow(n, -0x80, 0x100, 0x100_0000);
    case UInt16 => NarrowWindow(n, 0, 0x1_0000, 0x1_0000);
    case Int16 => NarrowWindow(n, -0x8000, 0x1_0000, 0x1_0000);
  }

  /** 2 to the power `k`. */
  function Pow2(k: nat): (r: nat)
    ensures 0 < r
  {
    if k == 0 then 1 else 2 * Pow2(k - 1)
  }

  /** The number spelled by the lowest `k` binary digits of `n`, taken digit
      by digit (for a negative `n`, the digits of its two's-complement form):
      the bits a register `k` bits wide keeps. */
  function LowBits(n: int, k: nat): (r: int)
    ensures 0 <= r < Pow2(k)
    decreases k
  {
    if k == 0 then 0 else n % 2 + 2 * LowBits(n / 2, k - 1)
  }

  /** The width in bits of an integral host type. */
  function Bits(t: TypeCode): nat
    requires IsIntegral(t)
  {
    match t
    case SByte => 8
    case Byte => 8
    case Int16 => 16
    case UInt16 => 16
    case Int32 => 32
    case UInt32 => 32
    case Int64 => 64
    case UInt64 => 64
  }

  /** Halving splits a remainder by `2 * p` into the last bit and the
      remainder of the half by `p`. */
  lemma ModDouble(n: int, p: int)
    requires 0 < p
    ensures n % (2 * p) == n % 2 + 2 * ((n / 2) % p)
  {
    var q, j, r := n / 2, (n / 2) / p, (n / 2) % p;
    assert q == j * p + r;
    assert n == j * (2 * p) + (2 * r + n % 2);
    ModOfMultiplePlus(j, 2 * p, 2 * r + n % 2);
  }

  /** Keeping the low `k` bits is taking the remainder by 2^k. */
  lemma {:induction false} LowBitsIsMod(n: int, k: nat)
    ensures LowBits(n, k) == n % Pow2(k)
    decreases k
  {
    if k > 0 {
      LowBitsIsMod(n / 2, k - 1);
      ModDouble(n, Pow2(k - 1));
    }
  }

  /** 2^(a + b) == 2^a * 2^b. */
  lemma {:induction false} Pow2Add(a: nat, b: nat)
    ensures Pow2(a + b) == Pow2(a) * Pow2(b)
  {
    if a > 0 {
      Pow2Add(a - 1, b);
    }
  }

  /** The powers of two that are the host's integer widths. */
  lemma Pow2Widths()
    ensures Pow2(8) == 0x100 && Pow2(16) == 0x1_0000
    ensures Pow2(32) == 0x1_0000_0000 && Pow2(64) == 0x1_0000_0000_0000_0000
  {
    assert Pow2(8) == 0x100;
    Pow2Add(8, 8);
    Pow2Add(16, 16);
    Pow2Add(32, 32);
  }

  /** The low 32 bits of `n`, bit by bit, are its remainder by 2^32. */
  lemma LowBits32(n: int)
    ensures LowBits(n, 32) == n % 0x1_0000_0000
  {
    Pow2Widths();
    LowBitsIsMod(n, 32);
  }

  /** A test that holds exactly when the remainder of `m` by 2^32 is below
      `s` holds exactly when the low 32 bits of `m`, taken bit by bit, are. */
  lemma LowBits32Below(ok: bool, m: int, s: int)
    requires ok <==> m % 0x1_0000_0000 < s
    ensures ok <==> LowBits(m, 32) < s
  {
    LowBits32(m);
  }

  /** An integral type holds exactly 2^Bits values. */
  lemma SpanIsPow2(t: TypeCode)
    requires IsIntegral(t)
    ensures Span(t) == Pow2(Bits(t))
  {
    Pow2Widths();
  }

  /** The host's unchecked cast `(T)n` keeps the low `Bits(T)` bits of `n`,
      counted from T's minimum: for an unsigned T the bits themselves, for a
      signed T their two's-complement reading. */
  lemma CastKeepsLowBits(n: int, t: TypeCode)
    requires IsIntegral(t)
    ensures Cast(n, t) == MinValue(t) + LowBits(n - MinValue(t), Bits(t))
  {
    SpanIsPow2(t);
    LowBitsIsMod(n - MinValue(t), Bits(t));
  }

  /** The interpreter binding the engine runs against. `python2` selects the
      legacy generation and its byte-string type; `is32Bit` the process
      width; `lp64` whether a C `long` is 64 bits wide on a 64-bit process
      (Linux and macOS) rather than 32 (Windows). */
  datatype Binding = Binding(python2: bool, is32Bit: bool, lp64: bool)

  /** `Runtime.IsPython2 && Runtime.Is32Bit`: the legacy bounded-int path of ToInt32. */
  predicate LegacyIntModel(b: Binding)
    ensures LegacyIntModel(b) ==> CLong(b) == Int32 && CULong(b) == UInt32
  {
    b.python2 && b.is32Bit
  }

  /** The host type a C `long` fits in: 32 bits in a 32-bit process and on
      Windows, 64 bits on a 64-bit LP64 platform. */
  function CLong(b: Binding): (t: TypeCode)
    ensures IsIntegral(t) && MinValue(t) < 0
    ensures t == Int32 || t == Int64
    ensures b.is32Bit || !b.lp64 ==> t == Int32
  {
    if b.lp64 && !b.is32Bit then Int64 else Int32
  }

  /** The host type a C `unsigned long` fits in. */
  function CULong(b: Binding): (t: TypeCode)
    ensures IsIntegral(t) && MinValue(t) == 0
    ensures t == UInt32 || t == UInt64
    ensures Span(t) == Span(CLong(b))
  {
    if b.lp64 && !b.is32Bit then UInt64 else UInt32
  }

  /** An intermediate object a coercion hands back as a new reference. */
  datatype PyNumber = IntObject(value: int, isLong: bool) | FloatObject(d: Double)

  /** The interpreter's answer to a coercion call: a new reference to an
      intermediate, or the null handle with an error left pending. */
  datatype Coerced<T> = NewRef(obj: T) | Raised(err: ErrKind)

  /** The legacy generation has a bounded `int` and an unbounded `long` type. */
  datatype PyInt = PyInt(value: int, isLong: bool)

  /** `PyObject_IsTrue`: 1, 0, or -1 with an error pending. */
  datatype Truth = Truthy | Falsy | TruthFailed(err: ErrKind)

  /** The foreign calls whose behaviour depends on the value and the
      interpreter's own rules; the model takes them as given. */
  datatype ForeignApi = ForeignApi(
    numberInt: PyValue -> Coerced<PyInt>,      // PyNumber_Int
    numberLong: PyValue -> Coerced<int>,       // PyNumber_Long
    numberFloat: PyValue -> Coerced<Double>,   // PyNumber_Float
    managedString: PyValue -> Option<string>,  // Runtime.GetManagedString
    isTrue: PyValue -> Truth)                  // PyObject_IsTrue

  /** What an extraction call returns, and whether it left an OverflowError pending. */
  datatype Extracted = Extracted(value: int, raised: bool)

  /** `PyInt_AsLong`, `PyLong_AsLong`, `PyLong_AsLongLong` on an int of value
      `n`, returning a C integer that fits host type `t`: the value itself,
      or the sentinel -1 with an OverflowError when it does not fit. */
  function AsSigned(n: int, t: TypeCode): (x: Extracted)
    requires IsIntegral(t) && MinValue(t) < 0
    ensures InRange(x.value, t)
    ensures !x.raised <==> InRange(n, t)
    ensures !x.raised ==> x.value == n
    ensures x.raised ==> x.value == -1
  {
    if InRange(n, t) then Extracted(n, false) else Extracted(-1, true)
  }

  /** `PyLong_AsUnsignedLong`, `PyLong_AsUnsignedLongLong`: the value itself,
      or `(unsigned)-1` (the type's maximum) with an OverflowError when it is
      negative or too large. */
  function AsUnsigned(n: int, t: TypeCode): (x: Extracted)
    requires IsIntegral(t) && MinValue(t) == 0
    ensures InRange(x.value, t)
    ensures !x.raised <==> InRange(n, t)
    ensures !x.raised ==> x.value == n
    ensures x.raised ==> x.value == MaxValue(t)
  {
    if InRange(n, t) then Extracted(n, false) else Extracted(MaxValue(t), true)
  }

  /** The pending slot after an extraction call. */
  function AfterExtraction(x: Extracted, pending: Option<ErrKind>): Option<ErrKind> {
    if x.raised then Some(OverflowError) else pending
  }

  /** `PyObject_Compare` on two ints: 0 exactly when they are equal. */
  function Compare(a: int, b: int): (c: int)
    ensures c == 0 <==> a == b
    ensures -1 <= c <= 1
  {
    if a == b then 0 else if a < b then -1 else 1
  }
}
