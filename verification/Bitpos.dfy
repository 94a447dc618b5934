/** The first bit of a given value in a string, searched byte by byte up to alignment, then word by
    word, then bit by bit in one last word. */
module Bitpos {
  import opened Common
  import opened BitNumbers
  import opened BitfieldBuffer
  import opened BitfieldOps

  /** The byte in which the search finds nothing. */
  function Skip(bit: bool): Byte {
    if bit then 0 else 0xFF
  }

  /** None of the first `n` bits is the one searched for. */
  ghost predicate NoneBefore(b: seq<bool>, n: nat, bit: bool) {
    n <= |b| && forall k :: 0 <= k < n ==> b[k] != bit
  }

  /** What the search must return: the first position, or the length in bits for a zero (the string
      is taken as padded with zeros), or -1 for a one. */
  ghost predicate IsFirst(b: seq<bool>, bit: bool, pos: int) {
    if exists k :: 0 <= k < |b| && b[k] == bit then 0 <= pos < |b| && b[pos] == bit && NoneBefore(b, pos, bit)
    else pos == if bit then -1 else |b|
  }

  lemma FirstIsUnique(b: seq<bool>, bit: bool, p: int, q: int)
    requires IsFirst(b, bit, p) && IsFirst(b, bit, q)
    ensures p == q
  {
  }

  lemma SkipBit(bit: bool, i: nat)
    requires i < 8
    ensures ByteBit(Skip(bit), i) != bit
  {
  }

  lemma SkipByte(s: seq<Byte>, c: nat, bit: bool)
    requires c < |s| && s[c] == Skip(bit) && NoneBefore(Bits(s), 8 * c, bit)
    ensures NoneBefore(Bits(s), 8 * (c + 1), bit)
  {
    forall k | 0 <= k < 8 * (c + 1)
      ensures Bits(s)[k] != bit
    {
      if k >= 8 * c {
        SkipBit(bit, k % 8);
        assert k / 8 == c;
      }
    }
  }

  lemma {:induction false} SkipBytes(s: seq<Byte>, c: nat, n: nat, bit: bool)
    requires c + n <= |s| && (forall i :: c <= i < c + n ==> s[i] == Skip(bit)) && NoneBefore(Bits(s), 8 * c, bit)
    ensures NoneBefore(Bits(s), 8 * (c + n), bit)
  {
    if n > 0 {
      SkipBytes(s, c, n - 1, bit);
      SkipByte(s, c + n - 1, bit);
    }
  }

  // ----- loading the last word

  lemma {:induction false} ToBitsAppend(w: nat, v: nat, n: nat, m: nat)
    requires v < Pow2(m)
    ensures ToBits(w * Pow2(m) + v, n + m) == ToBits(w, n) + ToBits(v, m)
    decreases m
  {
    hide ToBits;
    ToBitsUnfolds(v, m);
    if m > 0 {
      var p := Pow2(m - 1);
      assert w * Pow2(m) + v == 2 * (w * p) + v;
      assert (2 * (w * p) + v) / 2 == w * p + v / 2 && (2 * (w * p) + v) % 2 == v % 2;
      ToBitsAppend(w, v / 2, n, m - 1);
      ToBitsUnfolds(w * Pow2(m) + v, n + m);
      assert ToBits(w, n) + ToBits(v, m) == ToBits(w, n) + ToBits(v / 2, m - 1) + [v % 2 == 1];
    }
  }

  /** The value of a byte as a number. */
  function ByteValue(b: Byte): (v: nat)
    ensures v < Pow2(8)
  {
    FromBits(Bits([b]))
  }

  /** One more byte of the zero-padded string. */
  lemma PaddedByte(s: seq<Byte>, c: nat, j: nat)
    ensures PaddedField(Bits(s), 8 * c, 8 * j + 8) == PaddedField(Bits(s), 8 * c, 8 * j) + Bits([ByteAt(s, c + j)])
  {
    var l, r := PaddedField(Bits(s), 8 * c, 8 * j + 8), PaddedField(Bits(s), 8 * c, 8 * j) + Bits([ByteAt(s, c + j)]);
    forall k | 0 <= k < 8 * j + 8
      ensures l[k] == r[k]
    {
      if k >= 8 * j {
        var i := k - 8 * j;
        assert (8 * c + k) / 8 == c + j && (8 * c + k) % 8 == i;
        ZeroByte(i);
        hide ByteBit;
      }
    }
  }

  lemma ZeroByte(i: nat)
    requires i < 8
    ensures !ByteBit(0, i)
  {
  }

  lemma Pow8()
    ensures Pow2(8) == 256
  {
    assert Pow2(4) == 16;
  }

  lemma LoadStep(word: nat, b: Byte, j: nat)
    requires word < Pow2(8 * j)
    ensures word * 256 + ByteValue(b) < Pow2(8 * (j + 1))
    ensures ToBits(word * 256 + ByteValue(b), 8 * j + 8) == ToBits(word, 8 * j) + Bits([b])
  {
    Pow8();
    Pow2Adds(8 * j, 8);
    ToBitsAppend(word, ByteValue(b), 8 * j, 8);
    ToFromBits(Bits([b]));
    hide Pow2, ToBits;
    assert 8 * (j + 1) == 8 * j + 8;
  }

  /** Load up to eight bytes, the first one most significant, zeros for those past the end. */
  lemma NothingLoaded(s: seq<Byte>, c: nat)
    ensures ToBits(0, 0) == PaddedField(Bits(s), 8 * c, 0) && Pow2(0) == 1
  {
  }

  method LoadWord(s: seq<Byte>, c: nat) returns (word: nat)
    ensures ToBits(word, 64) == PaddedField(Bits(s), 8 * c, 64) && word < Pow2(64)
  {
    hide Bits, PaddedField, ToBits, ByteValue, Pow2;
    word := 0;
    var j := 0;
    NothingLoaded(s, c);
    while j < 8
      invariant j <= 8 && word < Pow2(8 * j) && ToBits(word, 8 * j) == PaddedField(Bits(s), 8 * c, 8 * j)
    {
      var b := ByteAt(s, c + j);
      PaddedByte(s, c, j);
      LoadStep(word, b, j);
      word := word * 256 + ByteValue(b);
      j := j + 1;
    }
  }

  lemma {:induction false} ToBitsAt(v: nat, n: nat, k: nat)
    requires k < n
    ensures ToBits(v, n)[k] == (Shifted(v, n - 1 - k) % 2 == 1)
    decreases n
  {
    if k < n - 1 {
      ToBitsAt(v / 2, n - 1, k);
      ShiftedHalf(v, n - 2 - k);
    }
  }

  lemma {:induction false} ShiftedHalf(v: nat, n: nat)
    ensures Shifted(v / 2, n) == Shifted(v, n + 1)
  {
    if n > 0 {
      ShiftedHalf(v, n - 1);
    }
  }

  ghost predicate AllZero(b: seq<bool>) {
    forall k :: 0 <= k < |b| ==> !b[k]
  }

  lemma {:induction false} ZeroWord(v: nat, n: nat)
    requires v < Pow2(n)
    ensures v == 0 <==> AllZero(ToBits(v, n))
  {
    if n > 0 {
      ZeroWord(v / 2, n - 1);
      var b, h := ToBits(v, n), ToBits(v / 2, n - 1);
      assert b[n - 1] == (v % 2 == 1) && forall k :: 0 <= k < |h| ==> h[k] == b[k];
    }
  }

  // ----- the search

  /** Bytes before the first aligned address. */
  method SkipToAlignment(s: seq<Byte>, address: nat, bit: bool) returns (c: nat, found: bool)
    ensures c <= |s| && NoneBefore(Bits(s), 8 * c, bit)
    ensures found ==> c < |s| && s[c] != Skip(bit)
  {
    hide Bits;
    c, found := 0, false;
    while (address + c) % 8 != 0 && c < |s|
      invariant c <= |s| && !found && NoneBefore(Bits(s), 8 * c, bit)
      decreases |s| - c
    {
      if s[c] != Skip(bit) {
        found := true;
        break;
      }
      SkipByte(s, c, bit);
      c := c + 1;
    }
  }

  /** Whole words; a word is all ones or all zeros when its eight bytes are. */
  method SkipWords(s: seq<Byte>, start: nat, bit: bool) returns (c: nat)
    requires start <= |s| && NoneBefore(Bits(s), 8 * start, bit)
    ensures start <= c <= |s| && NoneBefore(Bits(s), 8 * c, bit)
    ensures |s| - c >= 8 ==> exists i :: c <= i < c + 8 && s[i] != Skip(bit)
  {
    hide Bits;
    c := start;
    while |s| - c >= 8
      invariant start <= c <= |s| && NoneBefore(Bits(s), 8 * c, bit)
    {
      var word := s[c..c + 8];
      if word != seq(8, i => Skip(bit)) {
        assert exists i :: 0 <= i < 8 && word[i] != Skip(bit);
        return;
      }
      assert forall i :: c <= i < c + 8 ==> s[i] == word[i - c];
      SkipBytes(s, c, 8, bit);
      c := c + 8;
    }
  }

  /** The last word decides: it reaches the end of the string or has a byte that is not skipped. */
  ghost predicate Decides(s: seq<Byte>, c: nat, bit: bool) {
    c <= |s| && (|s| - c >= 8 ==> exists i :: c <= i < c + 8 && s[i] != Skip(bit))
  }

  lemma OddByte(b: Byte, bit: bool) returns (i: nat)
    requires b != Skip(bit)
    ensures i < 8 && ByteBit(b, i) == bit
  {
    i := if ByteBit(b, 0) == bit then 0 else if ByteBit(b, 1) == bit then 1 else if ByteBit(b, 2) == bit then 2
      else if ByteBit(b, 3) == bit then 3 else if ByteBit(b, 4) == bit then 4 else if ByteBit(b, 5) == bit then 5
      else if ByteBit(b, 6) == bit then 6 else 7;
  }

  lemma WindowAt(s: seq<Byte>, c: nat, k: nat)
    requires k < 64
    ensures PaddedField(Bits(s), 8 * c, 64)[k] == (8 * c + k < 8 * |s| && Bits(s)[8 * c + k])
  {
  }

  lemma OddByteInWindow(s: seq<Byte>, c: nat, i: nat, bit: bool) returns (k: nat)
    requires c <= i < c + 8 && i < |s| && s[i] != Skip(bit)
    ensures k < 64 && 8 * c + k < 8 * |s| && Bits(s)[8 * c + k] == bit
  {
    var j := OddByte(s[i], bit);
    k := 8 * (i - c) + j;
    assert (8 * c + k) / 8 == i && (8 * c + k) % 8 == j;
  }

  /** If the window holds the bit, its first occurrence is the answer. */
  lemma FirstInWindow(s: seq<Byte>, c: nat, bit: bool, k: nat)
    requires c <= |s| && NoneBefore(Bits(s), 8 * c, bit) && k < 64
    requires var w := PaddedField(Bits(s), 8 * c, 64); w[k] == bit && forall i :: 0 <= i < k ==> w[i] != bit
    ensures IsFirst(Bits(s), bit, 8 * c + k)
  {
    var b, pos := Bits(s), 8 * c + k;
    forall i | 8 * c <= i < pos && i < |b|
      ensures b[i] != bit
    {
      WindowAt(s, c, i - 8 * c);
      hide Bits, PaddedField;
    }
    WindowAt(s, c, k);
    if pos > |b| {
      WindowAt(s, c, |b| - 8 * c);
    }
    hide Bits, PaddedField;
    assert pos < |b| ==> b[pos] == bit;
    assert pos >= |b| ==> !bit && pos == |b|;
  }

  /** If the window has no set bit, neither has the string. */
  lemma NoneAtAll(s: seq<Byte>, c: nat)
    requires Decides(s, c, true) && NoneBefore(Bits(s), 8 * c, true) && AllZero(PaddedField(Bits(s), 8 * c, 64))
    ensures IsFirst(Bits(s), true, -1)
  {
    if i :| c <= i < c + 8 && i < |s| && s[i] != Skip(true) {
      var k := OddByteInWindow(s, c, i, true);
      WindowAt(s, c, k);
      assert false;
    }
    var b := Bits(s);
    forall k | 0 <= k < |b|
      ensures !b[k]
    {
      if k >= 8 * c {
        WindowAt(s, c, k - 8 * c);
      }
    }
  }

  /** A search for a zero always ends inside the window. */
  lemma ZeroInWindow(s: seq<Byte>, c: nat) returns (k: nat)
    requires Decides(s, c, false)
    ensures k < 64 && !PaddedField(Bits(s), 8 * c, 64)[k]
  {
    if |s| - c >= 8 {
      var i :| c <= i < c + 8 && s[i] != Skip(false);
      k := OddByteInWindow(s, c, i, false);
      WindowAt(s, c, k);
    } else {
      k := 8 * (|s| - c);
      WindowAt(s, c, k);
    }
  }

  /** Scan a word from its most significant bit; the bit is known to be there. */
  method ScanWord(word: nat, bit: bool, ghost known: nat) returns (k: nat)
    requires known < 64 && ToBits(word, 64)[known] == bit
    ensures k <= known && ToBits(word, 64)[k] == bit && forall i :: 0 <= i < k ==> ToBits(word, 64)[i] != bit
  {
    hide ToBits;
    k := 0;
    while true
      invariant k <= known && forall i :: 0 <= i < k ==> ToBits(word, 64)[i] != bit
      decreases known - k
    {
      ToBitsAt(word, 64, k);
      if (Shifted(word, 63 - k) % 2 == 1) == bit {
        return;
      }
      k := k + 1;
    }
  }

  /** The position of the first bit of the given value, for any string at any address. */
  method FindFirst(s: seq<Byte>, address: nat, bit: bool) returns (pos: int)
    ensures IsFirst(Bits(s), bit, pos)
  {
    hide Bits, PaddedField, ToBits, IsFirst, AllZero, NoneBefore;
    var c, found := SkipToAlignment(s, address, bit);
    if !found {
      c := SkipWords(s, c, bit);
    }
    assert Decides(s, c, bit);
    var word := LoadWord(s, c);
    if bit && word == 0 {
      ZeroIsAllZero(word);
      NoneAtAll(s, c);
      return -1;
    }
    ghost var known := SomewhereInWord(s, c, bit, word);
    var k := ScanWord(word, bit, known);
    FirstInWindow(s, c, bit, k);
    pos := 8 * c + k;
  }

  lemma ZeroIsAllZero(word: nat)
    requires word == 0
    ensures AllZero(ToBits(word, 64))
  {
    ZeroWord(word, 64);
  }

  lemma SomewhereInWord(s: seq<Byte>, c: nat, bit: bool, word: nat) returns (k: nat)
    requires Decides(s, c, bit) && ToBits(word, 64) == PaddedField(Bits(s), 8 * c, 64) && word < Pow2(64)
    requires bit ==> word != 0
    ensures k < 64 && ToBits(word, 64)[k] == bit
  {
    if bit {
      ZeroWord(word, 64);
      k :| 0 <= k < 64 && ToBits(word, 64)[k];
    } else {
      k := ZeroInWindow(s, c);
    }
  }
}
