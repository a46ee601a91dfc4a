/** The interpreter state the converters touch: the single pending-error slot
    and the intermediate references the engine owns. Each C-API call the
    converters make is a method here; a call that uses or releases an
    intermediate requires that it is still owned, so a converter that
    verifies never releases a reference twice and never uses one after
    releasing it. */
module Runtime {
  import opened Foreign

  /** A handle to an intermediate object; 0 is the null handle. */
  type Ref = nat

  const Null: Ref := 0

  class Interpreter {
    /** How the interpreter answers coercion calls. */
    const api: ForeignApi
    /** Which generation and platform the engine is bound to. */
    const binding: Binding
    /** The pending-error slot: at most one error at a time. */
    var pending: Option<ErrKind>
    /** The intermediate references the engine owns, with the object each one denotes. */
    var live: map<Ref, PyNumber>
    /** The handle the next new reference receives; handles are never reused. */
    var nextRef: nat

    ghost predicate Valid()
      reads this
    {
      0 < nextRef && forall r :: r in live ==> 0 < r < nextRef
    }

    constructor (api: ForeignApi, binding: Binding)
      ensures Valid() && this.api == api && this.binding == binding
      ensures pending == None && live == map[]
    {
      this.api := api;
      this.binding := binding;
      pending := None;
      live := map[];
      nextRef := 1;
    }

    /** `Exceptions.ErrorOccurred`: is any error pending? */
    method ErrorOccurred() returns (b: bool)
      ensures b <==> pending.Some?
    {
      b := pending.Some?;
    }

    /** `Exceptions.ExceptionMatches`: is an error of kind `k` pending? */
    method ExceptionMatches(k: ErrKind) returns (b: bool)
      ensures b <==> pending == Some(k)
    {
      b := pending == Some(k);
    }

    /** `Exceptions.SetError`: the new error replaces whatever was pending. */
    method SetError(k: ErrKind)
      modifies this`pending
      ensures pending == Some(k)
    {
      pending := Some(k);
    }

    /** `Exceptions.Clear`. */
    method Clear()
      modifies this`pending
      ensures pending == None
    {
      pending := None;
    }

    /** Takes ownership of a new reference to `o`. */
    method Acquire(o: PyNumber) returns (op: Ref)
      requires Valid()
      modifies this`live, this`nextRef
      ensures Valid()
      ensures op == old(nextRef) && op != Null && op !in old(live)
      ensures live == old(live)[op := o] && nextRef == old(nextRef) + 1
    {
      op := nextRef;
      live := live[op := o];
      nextRef := nextRef + 1;
    }

    /** `Runtime.XDecref`: releases an owned reference; the null handle is ignored. */
    method XDecref(op: Ref)
      requires op == Null || op in live
      modifies this`live
      ensures live == old(live) - {op}
    {
      live := live - {op};
    }

    /** `PyNumber_Int`. */
    method NumberInt(v: PyValue) returns (op: Ref)
      requires Valid()
      modifies this`pending, this`live, this`nextRef
      ensures Valid()
      ensures match api.numberInt(v)
        case NewRef(o) =>
          op == old(nextRef) && op != Null && nextRef == old(nextRef) + 1 &&
          live == old(live)[op := IntObject(o.value, o.isLong)] && pending == old(pending)
        case Raised(e) =>
          op == Null && nextRef == old(nextRef) && live == old(live) && pending == Some(e)
    {
      match api.numberInt(v)
      case NewRef(o) =>
        op := Acquire(IntObject(o.value, o.isLong));
      case Raised(e) =>
        op := Null;
        pending := Some(e);
    }

    /** `PyNumber_Long`. */
    method NumberLong(v: PyValue) returns (op: Ref)
      requires Valid()
      modifies this`pending, this`live, this`nextRef
      ensures Valid()
      ensures match api.numberLong(v)
        case NewRef(n) =>
          op == old(nextRef) && op != Null && nextRef == old(nextRef) + 1 &&
          live == old(live)[op := IntObject(n, true)] && pending == old(pending)
        case Raised(e) =>
          op == Null && nextRef == old(nextRef) && live == old(live) && pending == Some(e)
    {
      match api.numberLong(v)
      case NewRef(n) =>
        op := Acquire(IntObject(n, true));
      case Raised(e) =>
        op := Null;
        pending := Some(e);
    }

    /** `PyNumber_Float`. */
    method NumberFloat(v: PyValue) returns (op: Ref)
      requires Valid()
      modifies this`pending, this`live, this`nextRef
      ensures Valid()
      ensures match api.numberFloat(v)
        case NewRef(d) =>
          op == old(nextRef) && op != Null && nextRef == old(nextRef) + 1 &&
          live == old(live)[op := FloatObject(d)] && pending == old(pending)
        case Raised(e) =>
          op == Null && nextRef == old(nextRef) && live == old(live) && pending == Some(e)
    {
      match api.numberFloat(v)
      case NewRef(d) =>
        op := Acquire(FloatObject(d));
      case Raised(e) =>
        op := Null;
        pending := Some(e);
    }

    /** `PyLong_FromUnsignedLong`: a new reference to an int of value `u`. */
    method LongFromUnsignedLong(u: int) returns (op: Ref)
      requires Valid() && InRange(u, CULong(binding))
      modifies this`live, this`nextRef
      ensures Valid()
      ensures op == old(nextRef) && op != Null && nextRef == old(nextRef) + 1
      ensures live == old(live)[op := IntObject(u, true)]
    {
      op := Acquire(IntObject(u, true));
    }

    /** `Runtime.PyLong_Check`. A null handle is taken to be no long object. */
    method LongCheck(op: Ref) returns (b: bool)
      ensures b <==> op in live && live[op].IntObject? && live[op].isLong
    {
      b := op in live && live[op].IntObject? && live[op].isLong;
    }

    /** `PyInt_AsLong`: returns a C `long`. */
    method IntAsLong(op: Ref) returns (n: int)
      requires op in live && live[op].IntObject?
      modifies this`pending
      ensures n == AsSigned(live[op].value, CLong(binding)).value
      ensures pending == AfterExtraction(AsSigned(live[op].value, CLong(binding)), old(pending))
    {
      var x := AsSigned(live[op].value, CLong(binding));
      n := x.value;
      pending := AfterExtraction(x, pending);
    }

    /** `PyLong_AsLongLong`: returns a C `long long`. */
    method LongAsLongLong(op: Ref) returns (n: int)
      requires op in live && live[op].IntObject?
      modifies this`pending
      ensures n == AsSigned(live[op].value, Int64).value
      ensures pending == AfterExtraction(AsSigned(live[op].value, Int64), old(pending))
    {
      var x := AsSigned(live[op].value, Int64);
      n := x.value;
      pending := AfterExtraction(x, pending);
    }

    /** `PyLong_AsUnsignedLong`: returns a C `unsigned long`. */
    method LongAsUnsignedLong(op: Ref) returns (n: int)
      requires op in live && live[op].IntObject?
      modifies this`pending
      ensures n == AsUnsigned(live[op].value, CULong(binding)).value
      ensures pending == AfterExtraction(AsUnsigned(live[op].value, CULong(binding)), old(pending))
    {
      var x := AsUnsigned(live[op].value, CULong(binding));
      n := x.value;
      pending := AfterExtraction(x, pending);
    }

    /** `PyLong_AsUnsignedLongLong`: returns a C `unsigned long long`. */
    method LongAsUnsignedLongLong(op: Ref) returns (n: int)
      requires op in live && live[op].IntObject?
      modifies this`pending
      ensures n == AsUnsigned(live[op].value, UInt64).value
      ensures pending == AfterExtraction(AsUnsigned(live[op].value, UInt64), old(pending))
    {
      var x := AsUnsigned(live[op].value, UInt64);
      n := x.value;
      pending := AfterExtraction(x, pending);
    }

    /** `PyObject_Compare` on two owned ints. */
    method ObjectCompare(a: Ref, b: Ref) returns (c: int)
      requires a in live && live[a].IntObject? && b in live && live[b].IntObject?
      ensures c == Compare(live[a].value, live[b].value)
    {
      c := Compare(live[a].value, live[b].value);
    }

    /** `PyFloat_AsDouble` on an owned float. */
    method FloatAsDouble(op: Ref) returns (d: Double)
      requires op in live && live[op].FloatObject?
      ensures d == live[op].d
    {
      d := live[op].d;
    }

    /** `Runtime.CheckExceptionOccurred`: true when it would throw, which it
        does exactly when an error is pending; the caller then stops. */
    method CheckExceptionOccurred() returns (throws: bool)
      ensures throws <==> pending.Some?
    {
      throws := ErrorOccurred();
    }

    /** `PyObject_IsTrue`. */
    method ObjectIsTrue(v: PyValue) returns (t: int)
      modifies this`pending
      ensures match api.isTrue(v)
        case Truthy => t == 1 && pending == old(pending)
        case Falsy => t == 0 && pending == old(pending)
        case TruthFailed(e) => t == -1 && pending == Some(e)
    {
      match api.isTrue(v)
      case Truthy =>
        t := 1;
      case Falsy =>
        t := 0;
      case TruthFailed(e) =>
        t := -1;
        pending := Some(e);
    }

    /** `Runtime.GetManagedString`: the host string, or null. */
    method GetManagedString(v: PyValue) returns (s: Option<string>)
      ensures s == api.managedString(v)
    {
      s := api.managedString(v);
    }
  }
}
