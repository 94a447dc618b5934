/** BITFIELD integers of 1 to 63 bits: the overflow checks, the field readers and writers over a
    byte buffer, and the operations that combine them. */
module Bitfield {
  import opened Common
  import opened BitNumbers

  datatype Policy = Wrap | Sat | Fail

  // ----- what the policies mean

  function Max(sign: bool, bits: nat): int
    requires 1 <= bits
  {
    if sign then Pow2(bits - 1) - 1 else Pow2(bits) - 1
  }

  function Min(sign: bool, bits: nat): int
    requires 1 <= bits
  {
    if sign then -Pow2(bits - 1) else 0
  }

  predicate Fits(x: int, sign: bool, bits: nat)
    requires 1 <= bits
  {
    Min(sign, bits) <= x <= Max(sign, bits)
  }

  function Clamp(x: int, sign: bool, bits: nat): (r: int)
    requires 1 <= bits
    ensures Fits(r, sign, bits) && (Fits(x, sign, bits) ==> r == x)
  {
    assert Pow2(bits) == 2 * Pow2(bits - 1);
    if x > Max(sign, bits) then Max(sign, bits) else if x < Min(sign, bits) then Min(sign, bits) else x
  }

  /** The number a field of `bits` bits denotes in two's complement. */
  function ToSigned(u: int, bits: nat): int
    requires 1 <= bits
  {
    if u >= Pow2(bits - 1) then u - Pow2(bits) else u
  }

  /** Wrap-around into the range of the field. */
  function WrapTo(x: int, sign: bool, bits: nat): int
    requires 1 <= bits
  {
    if sign then ToSigned(x % Pow2(bits), bits) else x % Pow2(bits)
  }

  /** It is the only number in range that differs from `x` by a multiple of 2^bits. */
  lemma WrapToUnique(x: int, sign: bool, bits: nat, y: int, k: int)
    requires 1 <= bits && Fits(y, sign, bits) && x == y + k * Pow2(bits)
    ensures WrapTo(x, sign, bits) == y
  {
    var m := Pow2(bits);
    assert m == 2 * Pow2(bits - 1);
    if y >= 0 {
      DivModUnique(x, m, k, y);
    } else {
      assert x == (k - 1) * m + (y + m);
      DivModUnique(x, m, k - 1, y + m);
    }
  }

  lemma WrapToFits(x: int, sign: bool, bits: nat) returns (k: int)
    requires 1 <= bits
    ensures Fits(WrapTo(x, sign, bits), sign, bits) && x == WrapTo(x, sign, bits) + k * Pow2(bits)
  {
    var m := Pow2(bits);
    assert m == 2 * Pow2(bits - 1);
    k := x / m;
    assert x == x % m + k * m;
    if sign && x % m >= Pow2(bits - 1) {
      assert (k + 1) * m == k * m + m;
      k := k + 1;
    }
  }

  // ----- the overflow checks

  datatype Check = Check(overflow: int, limit: Option<int>)

  /** checkUnsignedBitfieldOverflow, with the 64-bit subtractions written out. */
  function CheckUnsigned(value: int, incr: int, bits: nat, policy: Policy): (r: Check)
    requires 1 <= bits <= 63
    ensures r.limit.Some? <==> r.overflow != 0 && policy != Fail
  {
    var max := Pow2(bits) - 1;
    var maxincr := I64(max - value);
    var minincr := I64(-value);
    var wrapped := U64(value + incr) % Pow2(bits);
    if value > max || (incr > 0 && incr > maxincr) then
      match policy
      case Wrap => Check(1, Some(wrapped))
      case Sat => Check(1, Some(max))
      case Fail => Check(1, None)
    else if incr < 0 && incr < minincr then
      match policy
      case Wrap => Check(1, Some(wrapped))
      case Sat => Check(-1, Some(0))
      case Fail => Check(-1, None)
    else Check(0, None)
  }

  /** The wrap-around branch of the signed check: extend the sign bit over the high bits. */
  function SignedWrap(value: int, incr: int, bits: nat): int
    requires 1 <= bits <= 63
  {
    var c := U64(value + incr);
    if c / Pow2(bits - 1) % 2 == 1 then I64(Pow2(64) - Pow2(bits) + c % Pow2(bits)) else c % Pow2(bits)
  }

  function CheckSigned(value: int, incr: int, bits: nat, policy: Policy): (r: Check)
    requires 1 <= bits <= 63
    ensures r.limit.Some? <==> r.overflow != 0 && policy != Fail
  {
    var max := Pow2(bits - 1) - 1;
    var min := -max - 1;
    var maxincr := I64(max - value);
    var minincr := I64(min - value);
    if value > max || incr > maxincr || (value >= 0 && incr > 0 && incr > maxincr) then
      match policy
      case Wrap => Check(1, Some(SignedWrap(value, incr, bits)))
      case Sat => Check(1, Some(max))
      case Fail => Check(1, None)
    else if value < min || incr < minincr || (value < 0 && incr < 0 && incr < minincr) then
      match policy
      case Wrap => Check(1, Some(SignedWrap(value, incr, bits)))
      case Sat => Check(-1, Some(min))
      case Fail => Check(-1, None)
    else Check(0, None)
  }

  /** What a check must report for the exact result `x`. */
  ghost predicate Reports(c: Check, x: int, sign: bool, bits: nat, policy: Policy)
    requires 1 <= bits
  {
    && (c.overflow == 0 <==> Fits(x, sign, bits))
    && (c.overflow != 0 ==>
      match policy
      case Wrap => c.limit == Some(WrapTo(x, sign, bits))
      case Sat => c.limit == Some(Clamp(x, sign, bits))
      case Fail => c.limit == None)
  }

  lemma PowersBelow(bits: nat)
    requires 1 <= bits <= 63
    ensures Pow2(bits) == 2 * Pow2(bits - 1) && Pow2(bits) <= Pow2(63) && Pow2(64) == 2 * Pow2(63)
  {
    Pow2Grows(bits, 63);
  }

  /** The unsigned check is exact for every value in range and every 64-bit increment. */
  lemma UnsignedExact(value: int, incr: int, bits: nat, policy: Policy)
    requires 1 <= bits <= 63 && Fits(value, false, bits) && IsI64(incr)
    ensures Reports(CheckUnsigned(value, incr, bits, policy), value + incr, false, bits, policy)
  {
    hide Pow2, I64, Reports, CheckUnsigned;
    PowersBelow(bits);
    I64Exact(Pow2(bits) - 1 - value);
    I64Exact(-value);
    U64Low(value + incr, bits);
    UnsignedCases(value, incr, bits, policy);
  }

  lemma UnsignedCases(value: int, incr: int, bits: nat, policy: Policy)
    requires 1 <= bits <= 63 && Fits(value, false, bits)
    requires I64(Pow2(bits) - 1 - value) == Pow2(bits) - 1 - value && I64(-value) == -value
    requires U64(value + incr) % Pow2(bits) == (value + incr) % Pow2(bits)
    ensures Reports(CheckUnsigned(value, incr, bits, policy), value + incr, false, bits, policy)
  {
    hide Pow2, U64, I64;
  }

  /** The top bit decides between the two ways to complete the low bits. */
  lemma TopBit(c: int, bits: nat)
    requires 1 <= bits
    ensures c / Pow2(bits - 1) % 2 == 1 <==> c % Pow2(bits) >= Pow2(bits - 1)
  {
    HalfBit(c, Pow2(bits - 1));
  }

  lemma HalfBit(c: int, h: int)
    requires h > 0
    ensures c / h % 2 == 1 <==> c % (2 * h) >= h
  {
    var q, r := c / (2 * h), c % (2 * h);
    assert c == q * (2 * h) + r;
    if r >= h {
      assert c == (2 * q + 1) * h + (r - h);
      DivModUnique(c, h, 2 * q + 1, r - h);
    } else {
      assert c == (2 * q) * h + r;
      DivModUnique(c, h, 2 * q, r);
    }
  }

  lemma SignedWrapExact(value: int, incr: int, bits: nat)
    requires 1 <= bits <= 63
    ensures SignedWrap(value, incr, bits) == WrapTo(value + incr, true, bits)
  {
    PowersBelow(bits);
    var c := U64(value + incr);
    U64Low(value + incr, bits);
    TopBit(c, bits);
    var r := c % Pow2(bits);
    I64High(r, bits);
  }

  lemma I64Above(x: int)
    requires Pow2(63) <= x < Pow2(64)
    ensures I64(x) == x - Pow2(64)
  {
    hide Pow2;
    DivModUnique(x, Pow2(64), 0, x);
  }

  lemma I64High(r: int, bits: nat)
    requires 1 <= bits <= 63 && 0 <= r < Pow2(bits)
    ensures I64(Pow2(64) - Pow2(bits) + r) == r - Pow2(bits)
  {
    hide Pow2, I64;
    PowersBelow(bits);
    I64Above(Pow2(64) - Pow2(bits) + r);
  }

  /** The signed check is exact for every value in range and every 64-bit increment. */
  lemma SignedExact(value: int, incr: int, bits: nat, policy: Policy)
    requires 1 <= bits <= 63 && Fits(value, true, bits) && IsI64(incr)
    ensures Reports(CheckSigned(value, incr, bits, policy), value + incr, true, bits, policy)
  {
    hide Pow2, I64, Reports, CheckSigned;
    PowersBelow(bits);
    I64Exact(Pow2(bits - 1) - 1 - value);
    I64Exact(-Pow2(bits - 1) - value);
    SignedWrapExact(value, incr, bits);
    SignedCases(value, incr, bits, policy);
  }

  lemma SignedCases(value: int, incr: int, bits: nat, policy: Policy)
    requires 1 <= bits <= 63 && Fits(value, true, bits)
    requires I64(Pow2(bits - 1) - 1 - value) == Pow2(bits - 1) - 1 - value
    requires I64(-Pow2(bits - 1) - value) == -Pow2(bits - 1) - value
    requires SignedWrap(value, incr, bits) == WrapTo(value + incr, true, bits)
    ensures Reports(CheckSigned(value, incr, bits, policy), value + incr, true, bits, policy)
  {
    hide Pow2, U64, I64, SignedWrap, WrapTo;
  }

  // ----- SET goes through the same checks with increment 0

  /** An unsigned SET reports as it should except that a negative value saturates to the maximum. */
  lemma UnsignedSetExact(v: int, bits: nat, policy: Policy)
    requires 1 <= bits <= 63 && IsI64(v)
    ensures Reports(CheckUnsigned(U64(v), 0, bits, policy), v, false, bits, policy) <==> !(policy == Sat && v < 0)
  {
    PowersBelow(bits);
    if v >= 0 {
      DivModUnique(v, Pow2(64), 0, v);
      I64Exact(Pow2(bits) - 1 - v);
      I64Exact(-v);
    } else {
      DivModUnique(v, Pow2(64), -1, v + Pow2(64));
    }
    U64Low(v, bits);
    U64Low(U64(v), bits);
    UnsignedSetCases(v, U64(v), bits, policy);
  }

  lemma UnsignedSetCases(v: int, u: int, bits: nat, policy: Policy)
    requires 1 <= bits <= 63 && u == if v < 0 then v + Pow2(64) else v
    requires IsI64(v) && Pow2(bits) == 2 * Pow2(bits - 1) && Pow2(bits) <= Pow2(63) && Pow2(64) == 2 * Pow2(63)
    requires U64(u) % Pow2(bits) == v % Pow2(bits)
    ensures Reports(CheckUnsigned(u, 0, bits, policy), v, false, bits, policy) <==> !(policy == Sat && v < 0)
  {
    hide Pow2, U64, I64;
  }

  /** A signed SET reports as it should except that SAT stores the maximum for values so negative
      that `max - value` does not fit in 64 bits. */
  lemma SignedSetExact(v: int, bits: nat, policy: Policy)
    requires 1 <= bits <= 63 && IsI64(v)
    ensures Reports(CheckSigned(v, 0, bits, policy), v, true, bits, policy)
       <==> !(policy == Sat && v < Pow2(bits - 1) - Pow2(63))
  {
    hide Pow2, I64, U64, Reports, CheckSigned;
    PowersBelow(bits);
    var max := Pow2(bits - 1) - 1;
    I64Exact(max - v);
    I64Exact(-max - 1 - v);
    SignedWrapExact(v, 0, bits);
    if max - v >= Pow2(63) {
      I64Wraps(max - v);
    }
    SignedSetCases(v, bits, policy);
  }

  lemma SignedSetCases(v: int, bits: nat, policy: Policy)
    requires 1 <= bits <= 63 && IsI64(v) && 2 * Pow2(bits - 1) <= Pow2(63)
    requires var d := Pow2(bits - 1) - 1 - v; if d < Pow2(63) then d < -Pow2(63) || I64(d) == d else I64(d) < 0
    requires var d := -Pow2(bits - 1) - v; -Pow2(63) <= d < Pow2(63) ==> I64(d) == d
    requires SignedWrap(v, 0, bits) == WrapTo(v, true, bits)
    ensures Reports(CheckSigned(v, 0, bits, policy), v, true, bits, policy)
       <==> !(policy == Sat && v < Pow2(bits - 1) - Pow2(63))
  {
    hide Pow2, U64, I64, SignedWrap, WrapTo;
  }

  lemma I64Wraps(x: int)
    requires Pow2(63) <= x < Pow2(64)
    ensures I64(x) == x - Pow2(64) < 0
  {
    DivModUnique(x, Pow2(64), 0, x);
  }
}
