/** Counting set bits 28 bytes at a time with sums inside 32-bit words. Words are numbers below
    2^32; a right shift is a division, and `&` is BitAnd. */
module Popcount {
  import BitNumbers

  type Byte = x: int | 0 <= x < 256

  /** The number of set bits. */
  function Pop(v: nat): nat {
    if v == 0 then 0 else v % 2 + Pop(v / 2)
  }

  /** The bit counts of the pairs of bits, in place; then of the nibbles, then of the bytes. */
  function PairCounts(x: nat, n: nat): nat {
    if n == 0 then 0 else Pop(x % 4) + 4 * PairCounts(x / 4, n - 1)
  }

  function NibbleCounts(x: nat, n: nat): nat {
    if n == 0 then 0 else Pop(x % 16) + 16 * NibbleCounts(x / 16, n - 1)
  }

  function ByteCounts(x: nat, n: nat): nat {
    if n == 0 then 0 else Pop(x % 256) + 256 * ByteCounts(x / 256, n - 1)
  }

  // ----- bitwise and with the three masks

  function BitAnd(x: nat, y: nat): nat {
    if x == 0 || y == 0 then 0 else 2 * BitAnd(x / 2, y / 2) + if x % 2 == 1 && y % 2 == 1 then 1 else 0
  }

  /** 0x55..., 0x33... and 0x0F..., as many digits as needed. */
  function Mask5(n: nat): nat { if n == 0 then 0 else 1 + 4 * Mask5(n - 1) }
  function Mask3(n: nat): nat { if n == 0 then 0 else 3 + 16 * Mask3(n - 1) }
  function MaskF(n: nat): nat { if n == 0 then 0 else 15 + 256 * MaskF(n - 1) }

  lemma Masks()
    ensures Mask5(16) == 0x55555555 && Mask3(8) == 0x33333333 && MaskF(4) == 0x0F0F0F0F
  {
    assert Mask5(4) == 0x55 && Mask5(8) == 0x5555 && Mask5(12) == 0x555555;
    assert Mask3(4) == 0x3333;
  }

  lemma AndStep(x: nat, y: nat)
    ensures BitAnd(x, y) == 2 * BitAnd(x / 2, y / 2) + if x % 2 == 1 && y % 2 == 1 then 1 else 0
  {
  }

  /** `&` on the last bit, with the numbers given by their digits. */
  lemma AndBit(a: nat, x: nat, b: nat, y: nat)
    requires a < 2 && b < 2
    ensures BitAnd(a + 2 * x, b + 2 * y) == (if a == 1 && b == 1 then 1 else 0) + 2 * BitAnd(x, y)
  {
    AndStep(a + 2 * x, b + 2 * y);
  }

  lemma AndOnes(a: nat, x: nat, y: nat)
    requires a < 4
    ensures BitAnd(a + 4 * x, 3 + 4 * y) == a + 4 * BitAnd(x, y)
  {
    hide BitAnd;
    AndBit(a % 2, a / 2 + 2 * x, 1, 1 + 2 * y);
    AndBit(a / 2, x, 1, y);
  }

  lemma AndZeros(a: nat, x: nat, y: nat)
    requires a < 4
    ensures BitAnd(a + 4 * x, 4 * y) == 4 * BitAnd(x, y)
  {
    hide BitAnd;
    AndBit(a % 2, a / 2 + 2 * x, 0, 2 * y);
    AndBit(a / 2, x, 0, y);
  }

  lemma And5(h: nat, x: nat, y: nat)
    requires h < 2
    ensures BitAnd(h + 2 * x, 1 + 4 * y) == h + 4 * BitAnd(x / 2, y)
  {
    hide BitAnd;
    AndBit(h, x, 1, 2 * y);
    AndBit(x % 2, x / 2, 0, y);
  }

  lemma And3(a: nat, b: nat, x: nat, y: nat)
    requires a < 4 && b < 4
    ensures BitAnd(a + 4 * b + 16 * x, 3 + 16 * y) == a + 16 * BitAnd(x, y)
  {
    hide BitAnd;
    AndOnes(a, b + 4 * x, 4 * y);
    AndZeros(b, x, y);
  }

  lemma AndF(a: nat, b: nat, x: nat, y: nat)
    requires a < 16 && b < 16
    ensures BitAnd(a + 16 * b + 256 * x, 15 + 256 * y) == a + 256 * BitAnd(x, y)
  {
    hide BitAnd;
    var a0, a1, b0, b1 := a % 4, a / 4, b % 4, b / 4;
    assert a == a0 + 4 * a1 && b == b0 + 4 * b1;
    AndOnes(a0, a1 + 4 * b + 16 * (4 * x), 3 + 16 * (4 * y));
    AndOnes(a1, b + 16 * x, 16 * y);
    AndZeros(b0, b1 + 4 * x, 4 * y);
    AndZeros(b1, x, y);
  }

  // ----- counts of digits

  lemma PopBit(a: nat, x: nat)
    requires a < 2
    ensures Pop(a + 2 * x) == a + Pop(x)
  {
  }

  lemma PopPair(a: nat, x: nat)
    requires a < 4
    ensures Pop(a + 4 * x) == Pop(a) + Pop(x) && Pop(a) == a - a / 2 <= 2
  {
    assert Pop(0) == 0;
    hide Pop;
    PopBit(a % 2, a / 2 + 2 * x);
    PopBit(a / 2, x);
    PopBit(a % 2, a / 2);
    PopBit(a / 2, 0);
  }

  lemma PopNibble(a: nat, x: nat)
    requires a < 16
    ensures Pop(a + 16 * x) == Pop(a) + Pop(x) && Pop(a) == Pop(a % 4) + Pop(a / 4) <= 4
  {
    hide Pop;
    PopPair(a % 4, a / 4 + 4 * x);
    PopPair(a / 4, x);
    PopPair(a % 4, a / 4);
  }

  // ----- the three folding steps

  function Top4(n: nat): (t: nat)
    ensures t > 0
  {
    if n == 0 then 1 else 4 * Top4(n - 1)
  }

  lemma FoldNothing()
    ensures forall x: nat :: PairCounts(x, 0) == 0 && NibbleCounts(x, 0) == 0 && ByteCounts(x, 0) == 0
    ensures Mask5(0) == Mask3(0) == MaskF(0) == 0 && forall x: nat :: BitAnd(x, 0) == 0
  {
  }

  lemma PairsUnfold(x: nat, n: nat)
    requires n > 0 && x < Top4(n)
    ensures PairCounts(x, n) == Pop(x % 4) + 4 * PairCounts(x / 4, n - 1) && x / 4 < Top4(n - 1)
    ensures Mask5(n) == 1 + 4 * Mask5(n - 1)
  {
  }

  /** Step 1: subtracting the high bits of the pairs leaves the count of each pair. */
  lemma {:induction false} PairsStep(x: nat, n: nat)
    requires x < Top4(n)
    ensures x - BitAnd(x / 2, Mask5(n)) == PairCounts(x, n)
    decreases n
  {
    hide BitAnd, Pop, Mask5, PairCounts;
    if n == 0 {
      FoldNothing();
    } else {
      PairsUnfold(x, n);
      var d, y := x % 4, x / 4;
      PairsStep(y, n - 1);
      And5(d / 2, y, Mask5(n - 1));
      PopPair(d, 0);
      assert x / 2 == d / 2 + 2 * y;
    }
  }

  lemma NibblesUnfold(x: nat, n: nat)
    requires n > 0
    ensures NibbleCounts(x, n) == Pop(x % 16) + 16 * NibbleCounts(x / 16, n - 1)
    ensures Mask3(n) == 3 + 16 * Mask3(n - 1)
  {
  }

  lemma PairsOfNibble(x: nat, n: nat)
    requires n >= 2
    ensures PairCounts(x, n) == Pop(x % 16 % 4) + 4 * Pop(x % 16 / 4) + 16 * PairCounts(x / 16, n - 2)
  {
    assert x % 16 % 4 == x % 4 && x % 16 / 4 == x / 4 % 4 && x / 4 / 4 == x / 16;
  }

  lemma ShiftNibble(p0: nat, p1: nat, c: nat)
    requires p0 < 4
    ensures (p0 + 4 * p1 + 16 * c) / 4 == p1 + 4 * (c % 4) + 16 * (c / 4)
  {
  }

  lemma NibblesJoin(p0: nat, p1: nat, c: nat, m: nat)
    requires p0 <= 2 && p1 <= 2
    ensures var s := p0 + 4 * p1 + 16 * c;
      BitAnd(s, 3 + 16 * m) + BitAnd(s / 4, 3 + 16 * m) == (p0 + p1) + 16 * (BitAnd(c, m) + BitAnd(c / 4, m))
  {
    hide BitAnd;
    And3(p0, p1, c, m);
    And3(p1, c % 4, c / 4, m);
    ShiftNibble(p0, p1, c);
  }

  lemma PopOfNibble(d: nat)
    requires d < 16
    ensures Pop(d % 4) <= 2 && Pop(d / 4) <= 2 && Pop(d) == Pop(d % 4) + Pop(d / 4)
  {
    hide Pop;
    PopPair(d % 4, 0);
    PopPair(d / 4, 0);
    PopNibble(d, 0);
  }

  /** Step 2: adding the two pair counts of each nibble. */
  lemma {:induction false} NibblesStep(x: nat, n: nat)
    ensures var c := PairCounts(x, 2 * n);
      BitAnd(c, Mask3(n)) + BitAnd(c / 4, Mask3(n)) == NibbleCounts(x, n)
    decreases n
  {
    hide BitAnd, Pop, Mask3, PairCounts, NibbleCounts;
    if n == 0 {
      FoldNothing();
    } else {
      var c := PairCounts(x / 16, 2 * (n - 1));
      NibblesStep(x / 16, n - 1);
      NibblesUnfold(x, n);
      PairsOfNibble(x, 2 * n);
      PopOfNibble(x % 16);
      NibblesJoin(Pop(x % 16 % 4), Pop(x % 16 / 4), c, Mask3(n - 1));
    }
  }

  lemma BytesUnfold(x: nat, n: nat)
    requires n > 0
    ensures ByteCounts(x, n) == Pop(x % 256) + 256 * ByteCounts(x / 256, n - 1)
    ensures MaskF(n) == 15 + 256 * MaskF(n - 1)
  {
  }

  lemma NibblesOfByte(x: nat, n: nat)
    requires n >= 2
    ensures NibbleCounts(x, n) == Pop(x % 256 % 16) + 16 * Pop(x % 256 / 16) + 256 * NibbleCounts(x / 256, n - 2)
  {
    assert x % 256 % 16 == x % 16 && x % 256 / 16 == x / 16 % 16 && x / 16 / 16 == x / 256;
  }

  lemma LowCount(x: nat, n: nat)
    ensures NibbleCounts(x, n) % 16 <= 4
  {
    if n > 0 {
      PopNibble(x % 16, 0);
      hide Pop;
    }
  }

  lemma ShiftByte(p0: nat, p1: nat, c: nat)
    requires p0 < 16
    ensures var s := p0 + 16 * p1 + 256 * c;
      s + s / 16 == (p0 + p1) + 16 * (p1 + c % 16) + 256 * (c + c / 16)
  {
    assert (p0 + 16 * p1 + 256 * c) / 16 == p1 + 16 * c;
  }

  lemma BytesJoin(p0: nat, p1: nat, c: nat, m: nat)
    requires p0 <= 4 && p1 <= 4 && c % 16 <= 4
    ensures var s := p0 + 16 * p1 + 256 * c;
      BitAnd(s + s / 16, 15 + 256 * m) == (p0 + p1) + 256 * BitAnd(c + c / 16, m)
  {
    hide BitAnd;
    AndF(p0 + p1, p1 + c % 16, c + c / 16, m);
    ShiftByte(p0, p1, c);
  }

  lemma PopOfByte(d: nat)
    requires d < 256
    ensures Pop(d % 16) <= 4 && Pop(d / 16) <= 4 && Pop(d) == Pop(d % 16) + Pop(d / 16)
  {
    hide Pop;
    PopNibble(d % 16, 0);
    PopNibble(d / 16, 0);
    PopNibble(d % 16, d / 16);
  }

  /** Step 3: adding the two nibble counts of each byte; no sum reaches 16. */
  lemma {:induction false} BytesStep(x: nat, n: nat)
    ensures var c := NibbleCounts(x, 2 * n); BitAnd(c + c / 16, MaskF(n)) == ByteCounts(x, n)
    decreases n
  {
    hide BitAnd, Pop, MaskF, NibbleCounts, ByteCounts;
    if n == 0 {
      FoldNothing();
    } else {
      var c := NibbleCounts(x / 256, 2 * (n - 1));
      BytesStep(x / 256, n - 1);
      BytesUnfold(x, n);
      NibblesOfByte(x, 2 * n);
      LowCount(x / 256, 2 * (n - 1));
      PopOfByte(x % 256);
      BytesJoin(Pop(x % 256 % 16), Pop(x % 256 / 16), c, MaskF(n - 1));
    }
  }

  // ----- words

  /** The folding of one 32-bit word, as coded. The subtraction never goes below zero (PairsStep). */
  function Folded(x: nat): nat
    requires x < 0x1_0000_0000
  {
    var a := x - BitAnd(x / 2, 0x55555555);
    if a < 0 then 0
    else
      var b := BitAnd(a, 0x33333333) + BitAnd(a / 4, 0x33333333);
      BitAnd(b + b / 16, 0x0F0F0F0F)
  }

  lemma TopIs()
    ensures Top4(16) == 0x1_0000_0000
  {
    assert Top4(4) == 0x100 && Top4(8) == 0x1_0000 && Top4(12) == 0x100_0000;
  }

  lemma FoldedIs(x: nat)
    requires x < 0x1_0000_0000
    ensures Folded(x) == ByteCounts(x, 4)
  {
    hide BitAnd, Mask5, Mask3, MaskF, PairCounts, NibbleCounts, ByteCounts, Top4;
    TopIs();
    Masks();
    PairsStep(x, 16);
    NibblesStep(x, 8);
    BytesStep(x, 4);
  }

  function Word(b0: Byte, b1: Byte, b2: Byte, b3: Byte): (w: nat)
    ensures w < 0x1_0000_0000
  {
    b0 + 0x100 * b1 + 0x1_0000 * b2 + 0x100_0000 * b3
  }

  lemma CountsOf(d: Byte, y: nat, n: nat)
    requires n > 0
    ensures ByteCounts(d + 0x100 * y, n) == Pop(d) + 0x100 * ByteCounts(y, n - 1)
  {
    hide Pop;
  }

  lemma {:induction false} ZeroCounts(n: nat)
    ensures ByteCounts(0, n) == 0
  {
    if n > 0 {
      ZeroCounts(n - 1);
    }
  }

  lemma WordCounts(b0: Byte, b1: Byte, b2: Byte, b3: Byte, n: nat)
    requires n >= 4
    ensures ByteCounts(Word(b0, b1, b2, b3), n)
         == Pop(b0) + 0x100 * Pop(b1) + 0x1_0000 * Pop(b2) + 0x100_0000 * Pop(b3)
  {
    hide ByteCounts, Pop;
    var y2 := b2 + 0x100 * b3;
    var y1 := b1 + 0x100 * y2;
    CountsOf(b0, y1, n);
    CountsOf(b1, y2, n - 1);
    CountsOf(b2, b3, n - 2);
    CountsOf(b3, 0, n - 3);
    ZeroCounts(n - 4);
  }

  // ----- twenty-eight bytes

  function WordAt(s: seq<Byte>, p: nat): nat
    requires p + 4 <= |s|
  {
    Word(s[p], s[p + 1], s[p + 2], s[p + 3])
  }

  /** The sum of `k` folded words, and of the counts in each of their lanes. */
  function FoldedSum(s: seq<Byte>, p: nat, k: nat): nat
    requires p + 4 * k <= |s|
  {
    if k == 0 then 0 else FoldedSum(s, p, k - 1) + Folded(WordAt(s, p + 4 * (k - 1)))
  }

  function Lane(s: seq<Byte>, p: nat, j: nat, k: nat): nat
    requires j < 4 && p + 4 * k <= |s|
  {
    if k == 0 then 0 else Lane(s, p, j, k - 1) + Pop(s[p + 4 * (k - 1) + j])
  }

  lemma PopByte(b: Byte)
    ensures Pop(b) <= 8
  {
    PopOfByte(b);
  }

  lemma {:induction false} LaneAtMost(s: seq<Byte>, p: nat, j: nat, k: nat)
    requires j < 4 && p + 4 * k <= |s|
    ensures Lane(s, p, j, k) <= 8 * k
  {
    if k > 0 {
      LaneAtMost(s, p, j, k - 1);
      PopByte(s[p + 4 * (k - 1) + j]);
    }
  }

  lemma {:induction false} FoldedSumIs(s: seq<Byte>, p: nat, k: nat)
    requires p + 4 * k <= |s|
    ensures FoldedSum(s, p, k)
         == Lane(s, p, 0, k) + 0x100 * Lane(s, p, 1, k) + 0x1_0000 * Lane(s, p, 2, k) + 0x100_0000 * Lane(s, p, 3, k)
  {
    hide Pop, Folded, ByteCounts;
    if k > 0 {
      FoldedSumIs(s, p, k - 1);
      var q := p + 4 * (k - 1);
      FoldedIs(WordAt(s, q));
      WordCounts(s[q], s[q + 1], s[q + 2], s[q + 3], 4);
    }
  }

  /** The multiplication adds the four lanes into the top byte, which never overflows. */
  lemma Gather(s0: nat, s1: nat, s2: nat, s3: nat)
    requires s0 <= 56 && s1 <= 56 && s2 <= 56 && s3 <= 56
    ensures var z := s0 + 0x100 * s1 + 0x1_0000 * s2 + 0x100_0000 * s3;
      z * 0x01010101 % 0x1_0000_0000 / 0x100_0000 == s0 + s1 + s2 + s3
  {
    var z := s0 + 0x100 * s1 + 0x1_0000 * s2 + 0x100_0000 * s3;
    var low := s0 + 0x100 * (s0 + s1) + 0x1_0000 * (s0 + s1 + s2);
    var high := (s1 + s2 + s3) + 0x100 * (s2 + s3) + 0x1_0000 * s3;
    var sum := s0 + s1 + s2 + s3;
    assert z * 0x01010101 == low + 0x100_0000 * sum + 0x1_0000_0000 * high;
    assert 0 <= low < 0x100_0000;
    BitNumbers.DivModUnique(z * 0x01010101, 0x1_0000_0000, high, low + 0x100_0000 * sum);
    BitNumbers.DivModUnique(low + 0x100_0000 * sum, 0x100_0000, sum, low);
  }

  function PopAll(s: seq<Byte>): nat {
    if s == [] then 0 else PopAll(s[..|s| - 1]) + Pop(s[|s| - 1])
  }

  lemma PopAllGrows(s: seq<Byte>, p: nat)
    requires p < |s|
    ensures PopAll(s[..p + 1]) == PopAll(s[..p]) + Pop(s[p])
  {
    assert s[..p + 1][..p] == s[..p];
  }

  lemma {:induction false} LanesAreAll(s: seq<Byte>, p: nat, k: nat)
    requires p + 4 * k <= |s|
    ensures PopAll(s[..p + 4 * k])
         == PopAll(s[..p]) + Lane(s, p, 0, k) + Lane(s, p, 1, k) + Lane(s, p, 2, k) + Lane(s, p, 3, k)
  {
    hide Pop, PopAll;
    if k > 0 {
      LanesAreAll(s, p, k - 1);
      var q := p + 4 * (k - 1);
      PopAllGrows(s, q);
      PopAllGrows(s, q + 1);
      PopAllGrows(s, q + 2);
      PopAllGrows(s, q + 3);
    }
  }

  lemma Chunk(s: seq<Byte>, p: nat)
    requires p + 28 <= |s|
    ensures FoldedSum(s, p, 7) * 0x01010101 % 0x1_0000_0000 / 0x100_0000 == PopAll(s[..p + 28]) - PopAll(s[..p])
  {
    hide *;
    FoldedSumIs(s, p, 7);
    LanesAreAll(s, p, 7);
    LaneAtMost(s, p, 0, 7);
    LaneAtMost(s, p, 1, 7);
    LaneAtMost(s, p, 2, 7);
    LaneAtMost(s, p, 3, 7);
    Gather(Lane(s, p, 0, 7), Lane(s, p, 1, 7), Lane(s, p, 2, 7), Lane(s, p, 3, 7));
  }

  /** Count the set bits of a string that starts at an address of the given alignment. */
  method Count(s: seq<Byte>, address: nat) returns (bits: nat)
    ensures bits == PopAll(s)
  {
    hide Pop, Folded, FoldedSum;
    bits := 0;
    var p := 0;
    while (address + p) % 4 != 0 && p < |s|
      invariant p <= |s| && bits == PopAll(s[..p])
      decreases |s| - p
    {
      PopAllGrows(s, p);
      bits := bits + Pop(s[p]);
      p := p + 1;
    }
    while |s| - p >= 28
      invariant p <= |s| && bits == PopAll(s[..p])
    {
      Chunk(s, p);
      var sum := FoldedSum(s, p, 7);
      bits := bits + sum * 0x01010101 % 0x1_0000_0000 / 0x100_0000;
      p := p + 28;
    }
    while p < |s|
      invariant p <= |s| && bits == PopAll(s[..p])
    {
      PopAllGrows(s, p);
      bits := bits + Pop(s[p]);
      p := p + 1;
    }
    assert s[..p] == s;
  }
}
