/**
 Checked arithmetic on 64 bit offsets, lengths and counts
 (crates/mjolnir-core/src/math.rs).

 A `u64` here is a bounded integer, so every sum that the program leaves
 unchecked has to be proved not to wrap before it can be written down.
 */
module Arith {
  const U64_MAX: int := 0xFFFF_FFFF_FFFF_FFFF
  const U32_MAX: int := 0xFFFF_FFFF

  type u64 = x: int | 0 <= x <= U64_MAX
  type u32 = x: int | 0 <= x <= U32_MAX
  type Byte = x: int | 0 <= x < 256
  type Bytes = seq<Byte>

  datatype Option<+T> = None | Some(value: T)

  /** Why a checked operation failed. */
  datatype ArithError = Overflow | DivideByZero | OutOfRange

  datatype Result<+T, +E> = Success(value: T) | Failure(error: E) {
    predicate IsFailure() {
      Failure?
    }

    function PropagateFailure<U>(): Result<U, E>
      requires Failure?
    {
      Failure(error)
    }

    function Extract(): T
      requires Success?
    {
      value
    }
  }

  function Min(a: int, b: int): int {
    if a <= b then a else b
  }

  function Max(a: int, b: int): int {
    if a >= b then a else b
  }

  function AddU64(a: u64, b: u64): Result<u64, ArithError> {
    if a + b <= U64_MAX then Success(a + b) else Failure(Overflow)
  }

  function RangeEnd(offset: u64, length: u64): Result<u64, ArithError> {
    AddU64(offset, length)
  }

  function EnsureWithin(offset: u64, length: u64, limit: u64): (r: Result<(), ArithError>)
    ensures r.Success? <==> offset + length <= limit
  {
    match RangeEnd(offset, length)
    case Failure(e) => Failure(e)
    case Success(end) => if end > limit then Failure(OutOfRange) else Success(())
  }

  /** No multiple of `g` at or above `value` fits 64 bits. */
  ghost predicate NoMultipleAbove(value: int, g: int)
    requires g > 0
  {
    forall m: int :: m % g == 0 && value <= m ==> m > U64_MAX
  }

  lemma OneMultipleInReach(a: int, b: int, x: int, g: int)
    requires g > 0 && a % g == 0 && b % g == 0 && x <= a < x + g && x <= b < x + g
    ensures a == b
  {
    var p, q := a / g, b / g;
    assert a == g * p && b == g * q;
    if p < q {
      MulMonotone(g, p + 1, q);
    } else if q < p {
      MulMonotone(g, q + 1, p);
    }
  }

  /** Succeeds with the least multiple of `granularity` at or above `value`, when that fits. */
  function RoundUp(value: u64, granularity: u64): (r: Result<u64, ArithError>)
    ensures granularity > 0 && r.Success? ==>
              r.value % granularity == 0 && value <= r.value < value + granularity
    ensures granularity > 0 ==> (r.Failure? <==> NoMultipleAbove(value, granularity))
  {
    if granularity == 0 then Failure(DivideByZero)
    else
      var rem := value % granularity;
      if rem == 0 then Success(value)
      else
        RoundedIsLeast(value, granularity);
        AddU64(value, granularity - rem)
  }

  /** The next multiple of `g` after a value that is not one is `g - value % g` further on. */
  lemma RoundedIsLeast(value: int, g: int)
    requires g > 0 && value % g != 0
    ensures (value + (g - value % g)) % g == 0
    ensures forall m: int :: m % g == 0 && value <= m ==> value + (g - value % g) <= m
  {
    var q := value / g;
    assert value + (g - value % g) == g * (q + 1);
    MultipleModZero(q + 1, g);
    forall m: int | m % g == 0 && value <= m
      ensures g * (q + 1) <= m
    {
      var p := m / g;
      assert m == g * p;
      if p <= q {
        MulMonotone(g, p, q);
        assert false;
      }
      MulMonotone(g, q + 1, p);
    }
  }

  lemma MulMonotone(g: int, a: int, b: int)
    requires g >= 0 && a <= b
    ensures g * a <= g * b
  {
  }

  lemma MultipleModZero(k: int, g: int)
    requires g > 0
    ensures (g * k) % g == 0
  {
    DivModUnique(g * k, g, k, 0);
  }

  lemma DivModUnique(x: int, g: int, q: int, r: int)
    requires g > 0 && x == g * q + r && 0 <= r < g
    ensures x / g == q && x % g == r
  {
    var q', r' := x / g, x % g;
    assert x == g * q' + r';
    if q' < q {
      MulMonotone(g, q' + 1, q);
      assert false;
    }
    if q < q' {
      MulMonotone(g, q + 1, q');
      assert false;
    }
  }

  /** Membership in the half open range `[offset, offset + length)`. */
  predicate InRange(offset: int, length: int, x: int) {
    offset <= x < offset + length
  }

  /** The granule holding `x` is number `x / g`, the bytes from `g * q` up to `g * (q + 1)`. */
  lemma InGranule(x: int, g: int, q: int)
    requires g > 0
    ensures x / g == q <==> g * q <= x < g * (q + 1)
  {
    if g * q <= x < g * (q + 1) {
      DivModUnique(x, g, q, x - g * q);
    }
  }

  lemma DivMonotone(x: int, y: int, g: int)
    requires g > 0 && x <= y
    ensures x / g <= y / g
  {
    var p, q := x / g, y / g;
    InGranule(x, g, p);
    InGranule(y, g, q);
    if p > q {
      MulMonotone(g, q + 1, p);
    }
  }

  /** Whether two half open ranges share a byte; an empty range shares none. */
  function RangesOverlap(aOff: u64, aLen: u64, bOff: u64, bLen: u64): (r: Result<bool, ArithError>)
    ensures r.Failure? <==> aLen > 0 && bLen > 0 && (aOff + aLen > U64_MAX || bOff + bLen > U64_MAX)
    ensures r.Success? ==> (r.value <==> exists x :: InRange(aOff, aLen, x) && InRange(bOff, bLen, x))
  {
    if aLen == 0 || bLen == 0 then Success(false)
    else
      match RangeEnd(aOff, aLen)
      case Failure(e) => Failure(e)
      case Success(aEnd) =>
        match RangeEnd(bOff, bLen)
        case Failure(e) => Failure(e)
        case Success(bEnd) =>
          var x := Max(aOff, bOff);
          assert aOff < bEnd && bOff < aEnd ==> InRange(aOff, aLen, x) && InRange(bOff, bLen, x);
          Success(aOff < bEnd && bOff < aEnd)
  }
}
