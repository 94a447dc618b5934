/** Bit fields inside a byte buffer: bit 0 is the most significant bit of the first byte. */
module BitfieldBuffer {
  import opened Common
  import opened BitNumbers
  import opened Bitfield

  /** The byte with only bit `i` set, counted from the most significant: 1 shifted left by 7 - i. */
  function Mask(i: nat): Byte
    requires i < 8
  {
    match i
    case 0 => 0x80
    case 1 => 0x40
    case 2 => 0x20
    case 3 => 0x10
    case 4 => 0x08
    case 5 => 0x04
    case 6 => 0x02
    case 7 => 0x01
  }

  function ByteBit(b: Byte, i: nat): bool
    requires i < 8
  {
    b & Mask(i) != 0
  }

  /** All bits of a byte string, in the order of bit offsets. */
  function Bits(s: seq<Byte>): (b: seq<bool>)
    ensures |b| == 8 * |s|
  {
    seq(8 * |s|, k requires 0 <= k < 8 * |s| => ByteBit(s[k / 8], k % 8))
  }

  /** Clear one bit of a byte, then or the new value in. */
  function PutBit(b: Byte, i: nat, on: bool): Byte
    requires i < 8
  {
    (b & !Mask(i)) | if on then Mask(i) else 0
  }

  lemma PutBitIs(b: Byte, i: nat, on: bool, j: nat)
    requires i < 8 && j < 8
    ensures ByteBit(PutBit(b, i, on), j) == if i == j then on else ByteBit(b, j)
  {
  }

  // ----- fields of a bit sequence

  function Read(b: seq<bool>, offset: nat, bits: nat): nat
    requires offset + bits <= |b|
  {
    FromBits(b[offset..offset + bits])
  }

  function Write(b: seq<bool>, offset: nat, bits: nat, v: nat): (w: seq<bool>)
    requires offset + bits <= |b|
    ensures |w| == |b|
  {
    b[..offset] + ToBits(v, bits) + b[offset + bits..]
  }

  /** Reading back a written field gives the value modulo 2^bits; the rest is unchanged. */
  lemma ReadWrite(b: seq<bool>, offset: nat, bits: nat, v: nat)
    requires offset + bits <= |b|
    ensures Read(Write(b, offset, bits, v), offset, bits) == v % Pow2(bits)
    ensures forall k :: 0 <= k < |b| && !(offset <= k < offset + bits) ==> Write(b, offset, bits, v)[k] == b[k]
  {
    assert Write(b, offset, bits, v)[offset..offset + bits] == ToBits(v, bits);
    FromToBits(v, bits);
  }

  predicate Disjoint(o1: nat, n1: nat, o2: nat, n2: nat) {
    o1 + n1 <= o2 || o2 + n2 <= o1
  }

  /** Fields that do not overlap do not see each other. */
  lemma ReadOther(b: seq<bool>, o1: nat, n1: nat, v: nat, o2: nat, n2: nat)
    requires o1 + n1 <= |b| && o2 + n2 <= |b| && Disjoint(o1, n1, o2, n2)
    ensures Read(Write(b, o1, n1, v), o2, n2) == Read(b, o2, n2)
  {
    assert Write(b, o1, n1, v)[o2..o2 + n2] == b[o2..o2 + n2];
  }

  lemma WritesCommute(b: seq<bool>, o1: nat, n1: nat, v1: nat, o2: nat, n2: nat, v2: nat)
    requires o1 + n1 <= |b| && o2 + n2 <= |b| && Disjoint(o1, n1, o2, n2)
    ensures Write(Write(b, o1, n1, v1), o2, n2, v2) == Write(Write(b, o2, n2, v2), o1, n1, v1)
  {
    var d1, d2 := ToBits(v1, n1), ToBits(v2, n2);
    var l, r := Write(Write(b, o1, n1, v1), o2, n2, v2), Write(Write(b, o2, n2, v2), o1, n1, v1);
    forall k | 0 <= k < |b|
      ensures l[k] == r[k]
    {
    }
  }

  // ----- the buffer

  lemma SetOneBitAt(s: seq<Byte>, k: nat, on: bool, j: nat)
    requires k < 8 * |s| && j < 8 * |s|
    ensures Bits(s[k / 8 := PutBit(s[k / 8], k % 8, on)])[j] == if j == k then on else Bits(s)[j]
  {
    PutBitIs(s[k / 8], k % 8, on, j % 8);
    hide PutBit, ByteBit, Mask;
    assert j / 8 == k / 8 && j % 8 == k % 8 ==> j == k;
  }

  lemma SetOneBit(s: seq<Byte>, k: nat, on: bool)
    requires k < 8 * |s|
    ensures Bits(s[k / 8 := PutBit(s[k / 8], k % 8, on)]) == Bits(s)[k := on]
  {
    hide Bits, PutBit;
    var t := s[k / 8 := PutBit(s[k / 8], k % 8, on)];
    forall j | 0 <= j < 8 * |s|
      ensures Bits(t)[j] == Bits(s)[k := on][j]
    {
      SetOneBitAt(s, k, on, j);
    }
  }

  lemma WriteGrows(b: seq<bool>, offset: nat, v: nat, j: nat)
    requires offset + j + 1 <= |b|
    ensures Write(b, offset, j + 1, v) == Write(b, offset, j, v / 2)[offset + j := v % 2 == 1]
  {
  }

  /** A number shifted right. */
  function Shifted(v: nat, n: nat): nat {
    if n == 0 then v else Shifted(v, n - 1) / 2
  }

  lemma HalfOfQuotient(v: nat, m: nat)
    requires m > 0
    ensures v / (2 * m) == v / m / 2
  {
    var q := v / m;
    assert v == q * m + v % m && q == 2 * (q / 2) + q % 2;
    assert v == (q / 2) * (2 * m) + ((q % 2) * m + v % m);
    assert (q % 2) * m <= m;
    DivModUnique(v, 2 * m, q / 2, (q % 2) * m + v % m);
  }

  lemma {:induction false} ShiftedIs(v: nat, n: nat)
    ensures Shifted(v, n) == v / Pow2(n)
  {
    if n > 0 {
      ShiftedIs(v, n - 1);
      HalfOfQuotient(v, Pow2(n - 1));
    }
  }

  method SetBit(p: array<Byte>, at: nat, on: bool)
    requires at < 8 * p.Length
    modifies p
    ensures Bits(p[..]) == old(Bits(p[..]))[at := on]
  {
    ghost var s := p[..];
    SetOneBit(s, at, on);
    hide PutBit, Bits;
    p[at / 8] := PutBit(p[at / 8], at % 8, on);
    assert p[..] == s[at / 8 := PutBit(s[at / 8], at % 8, on)];
  }

  method GetBit(p: array<Byte>, at: nat) returns (on: bool)
    requires at < 8 * p.Length
    ensures on == Bits(p[..])[at]
  {
    on := ByteBit(p[at / 8], at % 8);
  }

  /** Write the low `bits` bits of a value, most significant first, one bit at a time. */
  method SetUnsignedBitfield(p: array<Byte>, offset: nat, bits: nat, value: nat)
    requires offset + bits <= 8 * p.Length
    modifies p
    ensures Bits(p[..]) == Write(old(Bits(p[..])), offset, bits, value)
  {
    ghost var b := Bits(p[..]);
    assert Write(b, offset, 0, Shifted(value, bits)) == b && Shifted(value, 0) == value;
    hide Bits, Write;
    var j := 0;
    while j < bits
      invariant j <= bits
      invariant Bits(p[..]) == Write(b, offset, j, Shifted(value, bits - j))
    {
      assert Shifted(value, bits - j) == Shifted(value, bits - 1 - j) / 2;
      WriteGrows(b, offset, Shifted(value, bits - 1 - j), j);
      SetBit(p, offset + j, Shifted(value, bits - 1 - j) % 2 == 1);
      j := j + 1;
    }
  }

  lemma ReadGrows(b: seq<bool>, offset: nat, j: nat)
    requires offset + j + 1 <= |b|
    ensures Read(b, offset, j + 1) == 2 * Read(b, offset, j) + if b[offset + j] then 1 else 0
  {
    assert b[offset..offset + j + 1][..j] == b[offset..offset + j];
  }

  /** Collect the bits of a field into a number, most significant first. */
  method GetUnsignedBitfield(p: array<Byte>, offset: nat, bits: nat) returns (value: nat)
    requires offset + bits <= 8 * p.Length
    ensures value == Read(Bits(p[..]), offset, bits)
  {
    ghost var b := Bits(p[..]);
    assert Read(b, offset, 0) == 0;
    hide Bits, Read;
    value := 0;
    var j := 0;
    while j < bits
      invariant j <= bits && value == Read(b, offset, j)
    {
      var bitval := GetBit(p, offset + j);
      ReadGrows(b, offset, j);
      value := 2 * value + if bitval then 1 else 0;
      j := j + 1;
    }
  }

  lemma SignBit(u: nat, bits: nat)
    requires 1 <= bits <= 63 && u < Pow2(bits)
    ensures ToSigned(u, bits) == if Shifted(u, bits - 1) % 2 == 1 then I64(Pow2(64) - Pow2(bits) + u) else u
  {
    ShiftedIs(u, bits - 1);
    TopBit(u, bits);
    DivModUnique(u, Pow2(bits), 0, u);
    I64High(u, bits);
  }

  /** Read a field as a signed number: extend its top bit over the high bits. */
  method GetSignedBitfield(p: array<Byte>, offset: nat, bits: nat) returns (value: int)
    requires 1 <= bits <= 63 && offset + bits <= 8 * p.Length
    ensures value == ToSigned(Read(Bits(p[..]), offset, bits), bits)
  {
    var u := GetUnsignedBitfield(p, offset, bits);
    hide Bits, Pow2, I64;
    SignBit(u, bits);
    value := if Shifted(u, bits - 1) % 2 == 1 then I64(Pow2(64) - Pow2(bits) + u) else u;
  }

  /** Write a signed number: its two's complement bits. */
  method SetSignedBitfield(p: array<Byte>, offset: nat, bits: nat, value: int)
    requires bits <= 64 && offset + bits <= 8 * p.Length
    modifies p
    ensures Bits(p[..]) == Write(old(Bits(p[..])), offset, bits, value % Pow2(bits))
  {
    U64Low(value, bits);
    ToBitsMod(U64(value), bits);
    SetUnsignedBitfield(p, offset, bits, U64(value));
  }
}
