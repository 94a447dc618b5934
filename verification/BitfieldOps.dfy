/** BITFIELD operations: what SET and INCRBY store and reply under each overflow policy, and GET
    across the end of the string. */
module BitfieldOps {
  import opened Common
  import opened BitNumbers
  import opened Bitfield
  import opened BitfieldBuffer

  /** A write operation on one field; `arg` is the increment or the value to set. */
  datatype Op = Op(incrBy: bool, sign: bool, bits: nat, offset: nat, arg: int, policy: Policy)

  predicate OpOk(op: Op, size: nat) {
    1 <= op.bits <= 63 && op.offset + op.bits <= size && IsI64(op.arg)
  }

  function Field(b: seq<bool>, op: Op): int
    requires OpOk(op, |b|)
  {
    var u := Read(b, op.offset, op.bits);
    if op.sign then ToSigned(u, op.bits) else u
  }

  lemma FieldFits(b: seq<bool>, op: Op)
    requires OpOk(op, |b|)
    ensures Fits(Field(b, op), op.sign, op.bits)
  {
    assert Pow2(op.bits) == 2 * Pow2(op.bits - 1);
  }

  // ----- what an operation should store

  /** The exact result: the sum, or the value to set. */
  function Wanted(prior: int, op: Op): int {
    if op.incrBy then prior + op.arg else op.arg
  }

  function Reference(x: int, op: Op): Option<int>
    requires 1 <= op.bits
  {
    if Fits(x, op.sign, op.bits) then Some(x)
    else
      match op.policy
      case Wrap => Some(WrapTo(x, op.sign, op.bits))
      case Sat => Some(Clamp(x, op.sign, op.bits))
      case Fail => None
  }

  // ----- what the code stores

  function Checked(prior: int, op: Op): Check
    requires 1 <= op.bits <= 63
  {
    if op.incrBy then
      if op.sign then CheckSigned(prior, op.arg, op.bits, op.policy)
      else CheckUnsigned(prior, op.arg, op.bits, op.policy)
    else
      if op.sign then CheckSigned(op.arg, 0, op.bits, op.policy)
      else CheckUnsigned(U64(op.arg), 0, op.bits, op.policy)
  }

  /** The value to store, or none when the policy is to fail. */
  function NewValue(prior: int, op: Op): Option<int>
    requires 1 <= op.bits <= 63
  {
    var check := Checked(prior, op);
    var x := Wanted(prior, op);
    if check.overflow != 0 then check.limit else Some(if op.sign then I64(x) else U64(x))
  }

  /** The two corners in which SET with SAT does not store the nearest value. */
  predicate MisSaturates(op: Op)
    requires 1 <= op.bits
  {
    && !op.incrBy && op.policy == Sat
    && op.arg < if op.sign then Pow2(op.bits - 1) - Pow2(63) else 0
  }

  lemma CheckedExact(prior: int, op: Op)
    requires 1 <= op.bits <= 63 && IsI64(op.arg) && Fits(prior, op.sign, op.bits)
    ensures Reports(Checked(prior, op), Wanted(prior, op), op.sign, op.bits, op.policy) <==> !MisSaturates(op)
  {
    hide Reports, CheckSigned, CheckUnsigned, Fits, U64;
    if op.incrBy && op.sign {
      SignedExact(prior, op.arg, op.bits, op.policy);
    } else if op.incrBy {
      UnsignedExact(prior, op.arg, op.bits, op.policy);
    } else if op.sign {
      SignedSetExact(op.arg, op.bits, op.policy);
    } else {
      UnsignedSetExact(op.arg, op.bits, op.policy);
    }
  }

  lemma FitsIsExact(x: int, sign: bool, bits: nat)
    requires 1 <= bits <= 63 && Fits(x, sign, bits)
    ensures I64(x) == x && (!sign ==> U64(x) == x)
  {
    PowersBelow(bits);
    I64Exact(x);
    if !sign {
      DivModUnique(x, Pow2(64), 0, x);
    }
  }

  lemma ReportsGives(check: Check, x: int, op: Op)
    requires 1 <= op.bits <= 63 && Reports(check, x, op.sign, op.bits, op.policy)
    ensures Reference(x, op) == if check.overflow != 0 then check.limit else Some(if op.sign then I64(x) else U64(x))
  {
    hide I64, U64, WrapTo, Clamp;
    if Fits(x, op.sign, op.bits) {
      FitsIsExact(x, op.sign, op.bits);
    }
  }

  /** INCRBY stores the exact sum when it fits, and otherwise what the policy says; so does SET
      except in the two saturation corners. */
  lemma NewValueExact(prior: int, op: Op)
    requires 1 <= op.bits <= 63 && IsI64(op.arg) && Fits(prior, op.sign, op.bits) && !MisSaturates(op)
    ensures NewValue(prior, op) == Reference(Wanted(prior, op), op)
  {
    CheckedExact(prior, op);
    hide Reports, Checked, Reference, I64, U64, Fits;
    ReportsGives(Checked(prior, op), Wanted(prior, op), op);
  }

  /** In those corners the maximum is stored, which is not the nearest value. */
  lemma MisSaturated(prior: int, op: Op)
    requires 1 <= op.bits <= 63 && IsI64(op.arg) && MisSaturates(op)
    ensures NewValue(prior, op) == Some(Max(op.sign, op.bits))
    ensures Reference(Wanted(prior, op), op) == Some(Min(op.sign, op.bits))
  {
    PowersBelow(op.bits);
    if op.sign {
      I64Wraps(Pow2(op.bits - 1) - 1 - op.arg);
    } else {
      DivModUnique(op.arg, Pow2(64), -1, op.arg + Pow2(64));
    }
    hide Pow2, I64, U64;
  }

  // ----- whole operations on the bitmap

  function After(b: seq<bool>, op: Op): (c: seq<bool>)
    requires OpOk(op, |b|)
    ensures |c| == |b|
  {
    match NewValue(Field(b, op), op)
    case None => b
    case Some(v) => Write(b, op.offset, op.bits, v % Pow2(op.bits))
  }

  /** INCRBY replies the new value, SET the previous one, a failed operation nothing. */
  function Reply(b: seq<bool>, op: Op): Option<int>
    requires OpOk(op, |b|)
  {
    match NewValue(Field(b, op), op)
    case None => None
    case Some(v) => Some(if op.incrBy then v else Field(b, op))
  }

  lemma ReferenceFits(x: int, op: Op)
    requires 1 <= op.bits
    ensures Reference(x, op).Some? ==> Fits(Reference(x, op).value, op.sign, op.bits)
    ensures Reference(x, op).None? <==> op.policy == Fail && !Fits(x, op.sign, op.bits)
  {
    var _ := WrapToFits(x, op.sign, op.bits);
    hide WrapTo;
  }

  /** A stored number in range is read back as itself. */
  lemma StoredReadsBack(b: seq<bool>, op: Op, v: int)
    requires OpOk(op, |b|) && Fits(v, op.sign, op.bits)
    ensures Field(Write(b, op.offset, op.bits, v % Pow2(op.bits)), op) == v
  {
    var m := Pow2(op.bits);
    ReadWrite(b, op.offset, op.bits, v % m);
    DivModUnique(v % m, m, 0, v % m);
    WrapToUnique(v, op.sign, op.bits, v, 0);
    hide Read, Write, Pow2;
  }

  /** What INCRBY and SET do: the field then reads as the exact result if that fits, otherwise as
      its wrap-around or its clamp, or nothing is written; no bit outside the field changes; and
      the reply is the new or the previous value. */
  lemma OpExact(b: seq<bool>, op: Op)
    requires OpOk(op, |b|) && !MisSaturates(op)
    ensures var want := Reference(Wanted(Field(b, op), op), op);
      && (want.None? ==> After(b, op) == b && Reply(b, op).None?)
      && (want.Some? ==> Field(After(b, op), op) == want.value)
      && (want.Some? ==> Reply(b, op) == Some(if op.incrBy then want.value else Field(b, op)))
    ensures forall k :: 0 <= k < |b| && !(op.offset <= k < op.offset + op.bits) ==> After(b, op)[k] == b[k]
  {
    FieldFits(b, op);
    var prior := Field(b, op);
    NewValueExact(prior, op);
    ReferenceFits(Wanted(prior, op), op);
    hide NewValue, Reference, Field, Fits, Write;
    var want := Reference(Wanted(prior, op), op);
    if want.Some? {
      StoredReadsBack(b, op, want.value);
      ReadWrite(b, op.offset, op.bits, want.value % Pow2(op.bits));
    }
  }

  /** Operations on fields that do not overlap commute, with the same replies. */
  lemma OpsCommute(b: seq<bool>, p: Op, q: Op)
    requires OpOk(p, |b|) && OpOk(q, |b|) && Disjoint(p.offset, p.bits, q.offset, q.bits)
    ensures After(After(b, p), q) == After(After(b, q), p)
    ensures Reply(After(b, p), q) == Reply(b, q) && Reply(After(b, q), p) == Reply(b, p)
  {
    FieldUntouched(b, p, q);
    FieldUntouched(b, q, p);
    var v, w := NewValue(Field(b, p), p), NewValue(Field(b, q), q);
    hide NewValue, Field, Write;
    if v.Some? && w.Some? {
      WritesCommute(b, p.offset, p.bits, v.value % Pow2(p.bits), q.offset, q.bits, w.value % Pow2(q.bits));
    }
  }

  lemma FieldUntouched(b: seq<bool>, p: Op, q: Op)
    requires OpOk(p, |b|) && OpOk(q, |b|) && Disjoint(p.offset, p.bits, q.offset, q.bits)
    ensures Field(After(b, p), q) == Field(b, q)
  {
    var v := NewValue(Field(b, p), p);
    hide NewValue, Read, Write;
    if v.Some? {
      ReadOther(b, p.offset, p.bits, v.value % Pow2(p.bits), q.offset, q.bits);
    }
  }

  // ----- the code

  lemma UnsignedNewValue(prior: int, op: Op)
    requires 1 <= op.bits <= 63 && !op.sign
    ensures NewValue(prior, op).Some? ==> NewValue(prior, op).value >= 0
  {
    assert forall x: int :: U64(x) % Pow2(op.bits) >= 0;
    hide Pow2, I64;
  }

  lemma WriteMod(b: seq<bool>, offset: nat, bits: nat, v: nat)
    requires offset + bits <= |b|
    ensures Write(b, offset, bits, v) == Write(b, offset, bits, v % Pow2(bits))
  {
    ToBitsMod(v, bits);
  }

  method ExecuteSigned(p: array<Byte>, op: Op) returns (reply: Option<int>)
    requires OpOk(op, 8 * p.Length) && op.sign
    modifies p
    ensures Bits(p[..]) == After(old(Bits(p[..])), op) && reply == Reply(old(Bits(p[..])), op)
  {
    hide Bits, Write, CheckSigned, I64, Read;
    var oldval := GetSignedBitfield(p, op.offset, op.bits);
    var newval, retval, check;
    if op.incrBy {
      newval := I64(oldval + op.arg);
      check := CheckSigned(oldval, op.arg, op.bits, op.policy);
    } else {
      newval := I64(op.arg);
      check := CheckSigned(op.arg, 0, op.bits, op.policy);
    }
    if check.limit.Some? {
      newval := check.limit.value;
    }
    retval := if op.incrBy then newval else oldval;
    if check.overflow != 0 && op.policy == Fail {
      reply := None;
    } else {
      reply := Some(retval);
      SetSignedBitfield(p, op.offset, op.bits, newval);
    }
  }

  method ExecuteUnsigned(p: array<Byte>, op: Op) returns (reply: Option<int>)
    requires OpOk(op, 8 * p.Length) && !op.sign
    modifies p
    ensures Bits(p[..]) == After(old(Bits(p[..])), op) && reply == Reply(old(Bits(p[..])), op)
  {
    hide Bits, Write, CheckUnsigned, U64, Read;
    var oldval := GetUnsignedBitfield(p, op.offset, op.bits);
    UnsignedNewValue(oldval, op);
    var newval, check;
    if op.incrBy {
      newval := U64(oldval + op.arg);
      check := CheckUnsigned(oldval, op.arg, op.bits, op.policy);
    } else {
      newval := U64(op.arg);
      check := CheckUnsigned(newval, 0, op.bits, op.policy);
    }
    if check.limit.Some? {
      newval := check.limit.value;
    }
    if check.overflow != 0 && op.policy == Fail {
      reply := None;
    } else {
      reply := Some(if op.incrBy then newval else oldval);
      WriteMod(Bits(p[..]), op.offset, op.bits, newval);
      SetUnsignedBitfield(p, op.offset, op.bits, newval);
    }
  }

  // ----- GET past the end of the string

  /** The bits of a field of a string that is followed by zeros for ever. */
  function PaddedField(b: seq<bool>, offset: nat, bits: nat): (f: seq<bool>)
    ensures |f| == bits
  {
    seq(bits, i requires 0 <= i < bits => offset + i < |b| && b[offset + i])
  }

  /** The nine bytes GET copies, starting with the byte that holds the first bit. */
  function Window(src: seq<Byte>, first: nat): (w: seq<Byte>)
    ensures |w| == 9
  {
    seq(9, i requires 0 <= i < 9 => if first + i < |src| then src[first + i] else 0)
  }

  lemma WindowBit(src: seq<Byte>, offset: nat, k: nat)
    requires k < 72 - offset % 8
    ensures Bits(Window(src, offset / 8))[offset % 8 + k] == (offset + k < 8 * |src| && Bits(src)[offset + k])
  {
    var at := offset % 8 + k;
    assert offset + k == 8 * (offset / 8) + at;
    assert (offset + k) / 8 == offset / 8 + at / 8 && (offset + k) % 8 == at % 8;
    assert forall i: nat :: i < 8 ==> !ByteBit(0, i);
  }

  /** Nine bytes are enough for any field of up to 64 bits at any offset. */
  lemma WindowField(src: seq<Byte>, offset: nat, bits: nat)
    requires bits <= 64
    ensures Bits(Window(src, offset / 8))[offset % 8..offset % 8 + bits] == PaddedField(Bits(src), offset, bits)
  {
    hide Bits, Window;
    var l, r := Bits(Window(src, offset / 8))[offset % 8..offset % 8 + bits], PaddedField(Bits(src), offset, bits);
    forall k | 0 <= k < bits
      ensures l[k] == r[k]
    {
      WindowBit(src, offset, k);
    }
  }

  method CopyWindow(src: seq<Byte>, first: nat) returns (buf: array<Byte>)
    ensures fresh(buf) && buf[..] == Window(src, first)
  {
    buf := new Byte[9](i => 0);
    var i := 0;
    while i < 9
      invariant i <= 9
      invariant forall k :: 0 <= k < i ==> buf[k] == if first + k < |src| then src[first + k] else 0
      invariant forall k :: i <= k < 9 ==> buf[k] == 0
    {
      if i + first >= |src| {
        break;
      }
      buf[i] := src[i + first];
      i := i + 1;
    }
  }

  /** GET reads the field as if the string were padded with zeros. */
  method GetField(src: seq<Byte>, sign: bool, offset: nat, bits: nat) returns (value: int)
    requires 1 <= bits <= 63
    ensures var u := FromBits(PaddedField(Bits(src), offset, bits));
      value == if sign then ToSigned(u, bits) else u
  {
    var first := offset / 8;
    WindowField(src, offset, bits);
    var buf := CopyWindow(src, first);
    hide Bits, Window, PaddedField;
    if sign {
      value := GetSignedBitfield(buf, offset - first * 8, bits);
    } else {
      value := GetUnsignedBitfield(buf, offset - first * 8, bits);
    }
  }
}
