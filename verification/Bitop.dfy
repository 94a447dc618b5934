/** BITOP: a fast path over 32-byte chunks while every source has data, then a byte loop that reads
    zeros past the end of a source. Both give the zero-padded bytewise operation. */
module Bitop {
  import opened Common

  datatype Op = And | Or | Xor | Not

  function Apply(op: Op, x: Byte, y: Byte): Byte {
    match op
    case And => x & y
    case Or => x | y
    case Xor => x ^ y
    case Not => x
  }

  /** Byte `k` of the result over the first `n` sources, each padded with zeros. */
  function Combined(op: Op, srcs: seq<seq<Byte>>, n: nat, k: nat): Byte
    requires 1 <= n <= |srcs|
  {
    if n == 1 then (if op == Not then !ByteAt(srcs[0], k) else ByteAt(srcs[0], k))
    else Apply(op, Combined(op, srcs, n - 1, k), ByteAt(srcs[n - 1], k))
  }

  // ----- bit by bit

  function Mask(i: nat): (m: Byte)
    requires i < 8
    ensures m != 0 && m & (m - 1) == 0
  {
    if i == 0 then 0x80 else if i == 1 then 0x40 else if i == 2 then 0x20 else if i == 3 then 0x10
    else if i == 4 then 0x08 else if i == 5 then 0x04 else if i == 6 then 0x02 else 0x01
  }

  predicate Has(b: Byte, m: Byte) { b & m != 0 }

  /** Bit `i` of a byte, counted from the most significant one as GETBIT does. */
  predicate Bit(b: Byte, i: nat)
    requires i < 8
  {
    Has(b, Mask(i))
  }

  lemma HasBit(x: Byte, y: Byte, m: Byte)
    requires m != 0 && m & (m - 1) == 0
    ensures Has(x & y, m) <==> Has(x, m) && Has(y, m)
    ensures Has(x | y, m) <==> Has(x, m) || Has(y, m)
    ensures Has(x ^ y, m) <==> Has(x, m) != Has(y, m)
    ensures Has(!x, m) <==> !Has(x, m)
  {
  }

  lemma ApplyBit(x: Byte, y: Byte, i: nat)
    requires i < 8
    ensures Bit(Apply(And, x, y), i) <==> Bit(x, i) && Bit(y, i)
    ensures Bit(Apply(Or, x, y), i) <==> Bit(x, i) || Bit(y, i)
    ensures Bit(Apply(Xor, x, y), i) <==> Bit(x, i) != Bit(y, i)
    ensures Bit(!x, i) <==> !Bit(x, i)
  {
    hide Mask, Has;
    HasBit(x, y, Mask(i));
  }

  /** The sources among the first `n`, padded with zeros, that have bit `i` of byte `k`. */
  ghost function Having(srcs: seq<seq<Byte>>, n: nat, k: nat, i: nat): set<nat>
    requires n <= |srcs| && i < 8
  {
    set j: nat | j < n && Bit(ByteAt(srcs[j], k), i)
  }

  lemma HavingMore(srcs: seq<seq<Byte>>, n: nat, k: nat, i: nat)
    requires n < |srcs| && i < 8
    ensures Having(srcs, n + 1, k, i) ==
      Having(srcs, n, k, i) + if Bit(ByteAt(srcs[n], k), i) then {n} else {}
  {
  }

  /** Bit `i` is set in all sources, in some source, in an odd number of them, or not in the one. */
  ghost predicate BitIs(op: Op, srcs: seq<seq<Byte>>, n: nat, k: nat, i: nat, b: bool)
    requires n <= |srcs| && i < 8
  {
    match op
    case And => b <==> forall j :: 0 <= j < n ==> Bit(ByteAt(srcs[j], k), i)
    case Or => b <==> exists j :: 0 <= j < n && Bit(ByteAt(srcs[j], k), i)
    case Xor => b <==> |Having(srcs, n, k, i)| % 2 == 1
    case Not => n == 1 ==> (b <==> !Bit(ByteAt(srcs[0], k), i))
  }

  lemma FirstBit(op: Op, srcs: seq<seq<Byte>>, k: nat, i: nat)
    requires srcs != [] && i < 8
    ensures BitIs(op, srcs, 1, k, i, Bit(Combined(op, srcs, 1, k), i))
  {
    hide Bit, ByteAt;
    var y := ByteAt(srcs[0], k);
    HavingMore(srcs, 0, k, i);
    assert Having(srcs, 0, k, i) == {};
    ApplyBit(y, y, i);
  }

  /** One more source. */
  lemma NextBit(op: Op, srcs: seq<seq<Byte>>, n: nat, k: nat, i: nat, x: Byte)
    requires 1 <= n < |srcs| && i < 8 && BitIs(op, srcs, n, k, i, Bit(x, i))
    ensures BitIs(op, srcs, n + 1, k, i, Bit(Apply(op, x, ByteAt(srcs[n], k)), i))
  {
    hide Bit, Apply, ByteAt;
    HavingMore(srcs, n, k, i);
    ApplyBit(x, ByteAt(srcs[n], k), i);
  }

  lemma {:induction false} CombinedBit(op: Op, srcs: seq<seq<Byte>>, n: nat, k: nat, i: nat)
    requires 1 <= n <= |srcs| && i < 8
    ensures BitIs(op, srcs, n, k, i, Bit(Combined(op, srcs, n, k), i))
    decreases n
  {
    hide Bit, Apply, BitIs;
    if n == 1 {
      FirstBit(op, srcs, k, i);
    } else {
      CombinedBit(op, srcs, n - 1, k, i);
      NextBit(op, srcs, n - 1, k, i, Combined(op, srcs, n - 1, k));
    }
  }

  // ----- the loops

  ghost predicate Longest(srcs: seq<seq<Byte>>, n: nat) {
    && (forall s :: s in srcs ==> |s| <= n)
    && (srcs != [] ==> exists s :: s in srcs && |s| == n)
  }

  /** The length of the shortest and of the longest source; a missing key has length 0. */
  method Lengths(keys: seq<(bool, seq<Byte>)>) returns (srcs: seq<seq<Byte>>, shortest: nat, longest: nat)
    requires keys != []
    ensures |srcs| == |keys| && Longest(srcs, longest)
    ensures forall i :: 0 <= i < |keys| ==> srcs[i] == if keys[i].0 then keys[i].1 else []
    ensures (forall s :: s in srcs ==> shortest <= |s|) && exists s :: s in srcs && |s| == shortest
  {
    srcs, shortest, longest := [], 0, 0;
    var j := 0;
    while j < |keys|
      invariant j <= |keys| == |keys| && |srcs| == j
      invariant forall i :: 0 <= i < j ==> srcs[i] == if keys[i].0 then keys[i].1 else []
      invariant (j == 0 ==> longest == 0) && Longest(srcs, longest)
      invariant forall s :: s in srcs ==> shortest <= |s|
      invariant j > 0 ==> exists s :: s in srcs && |s| == shortest
    {
      if !keys[j].0 {
        srcs := srcs + [[]];
        shortest := 0;
        assert srcs[j] == [];
      } else {
        var s := keys[j].1;
        srcs := srcs + [s];
        assert srcs[j] == s;
        if |s| > longest {
          longest := |s|;
        }
        if j == 0 || |s| < shortest {
          shortest := |s|;
        }
      }
      j := j + 1;
    }
  }

  /** Combine one more source into the 32 bytes from `at` on. */
  method CombineChunk(res: array<Byte>, at: nat, op: Op, srcs: seq<seq<Byte>>, n: nat)
    requires 1 <= n < |srcs| && op != Not && at + 32 <= res.Length && at + 32 <= |srcs[n]|
    requires forall k :: at <= k < at + 32 ==> res[k] == Combined(op, srcs, n, k)
    modifies res
    ensures forall k :: at <= k < at + 32 ==> res[k] == Combined(op, srcs, n + 1, k)
    ensures forall k :: 0 <= k < res.Length && !(at <= k < at + 32) ==> res[k] == old(res[k])
  {
    var k := at;
    while k < at + 32
      invariant at <= k <= at + 32
      invariant forall i :: at <= i < k ==> res[i] == Combined(op, srcs, n + 1, i)
      invariant forall i :: k <= i < at + 32 ==> res[i] == Combined(op, srcs, n, i)
      invariant forall i :: 0 <= i < res.Length && !(at <= i < at + 32) ==> res[i] == old(res[i])
    {
      res[k] := Apply(op, res[k], srcs[n][k]);
      k := k + 1;
    }
  }

  method InvertChunk(res: array<Byte>, at: nat, srcs: seq<seq<Byte>>)
    requires |srcs| == 1 && at + 32 <= res.Length && at + 32 <= |srcs[0]|
    requires forall k :: at <= k < at + 32 ==> res[k] == srcs[0][k]
    modifies res
    ensures forall k :: at <= k < at + 32 ==> res[k] == Combined(Not, srcs, 1, k)
    ensures forall k :: 0 <= k < res.Length && !(at <= k < at + 32) ==> res[k] == old(res[k])
  {
    var k := at;
    while k < at + 32
      invariant at <= k <= at + 32
      invariant forall i :: at <= i < k ==> res[i] == Combined(Not, srcs, 1, i)
      invariant forall i :: k <= i < at + 32 ==> res[i] == srcs[0][i]
      invariant forall i :: 0 <= i < res.Length && !(at <= i < at + 32) ==> res[i] == old(res[i])
    {
      res[k] := !res[k];
      k := k + 1;
    }
  }

  /** One chunk over all sources. */
  method Chunk(res: array<Byte>, at: nat, op: Op, srcs: seq<seq<Byte>>)
    requires srcs != [] && (op == Not ==> |srcs| == 1) && at + 32 <= res.Length
    requires forall s :: s in srcs ==> at + 32 <= |s|
    requires forall k :: at <= k < at + 32 ==> res[k] == srcs[0][k]
    modifies res
    ensures forall k :: at <= k < at + 32 ==> res[k] == Combined(op, srcs, |srcs|, k)
    ensures forall k :: 0 <= k < res.Length && !(at <= k < at + 32) ==> res[k] == old(res[k])
  {
    if op == Not {
      InvertChunk(res, at, srcs);
    } else {
      var n := 1;
      assert forall k :: at <= k < at + 32 ==> Combined(op, srcs, 1, k) == srcs[0][k];
      hide Combined;
      while n < |srcs|
        invariant 1 <= n <= |srcs|
        invariant forall k :: at <= k < at + 32 ==> res[k] == Combined(op, srcs, n, k)
        invariant forall k :: 0 <= k < res.Length && !(at <= k < at + 32) ==> res[k] == old(res[k])
      {
        CombineChunk(res, at, op, srcs, n);
        n := n + 1;
      }
    }
  }

  /** The fast path, taken with at most 16 sources of at least 32 bytes. */
  method FastPath(res: array<Byte>, op: Op, srcs: seq<seq<Byte>>, shortest: nat) returns (j: nat)
    requires srcs != [] && (op == Not ==> |srcs| == 1) && shortest <= res.Length
    requires forall s :: s in srcs ==> shortest <= |s|
    modifies res
    ensures j <= shortest && forall k :: 0 <= k < j ==> res[k] == Combined(op, srcs, |srcs|, k)
  {
    j := 0;
    if shortest >= 32 && |srcs| <= 16 {
      forall k | 0 <= k < shortest {
        res[k] := srcs[0][k];
      }
      hide Combined;
      while shortest - j >= 32
        invariant j <= shortest
        invariant forall k :: 0 <= k < j ==> res[k] == Combined(op, srcs, |srcs|, k)
        invariant forall k :: j <= k < shortest ==> res[k] == srcs[0][k]
      {
        Chunk(res, j, op, srcs);
        j := j + 32;
      }
    }
  }

  /** One byte of the result, source by source. */
  method OneByte(op: Op, srcs: seq<seq<Byte>>, k: nat) returns (output: Byte)
    requires srcs != [] && (op == Not ==> |srcs| == 1)
    ensures output == Combined(op, srcs, |srcs|, k)
  {
    output := if |srcs[0]| <= k then 0 else srcs[0][k];
    if op == Not {
      output := !output;
    }
    var i := 1;
    while i < |srcs|
      invariant 1 <= i <= |srcs| && output == Combined(op, srcs, i, k)
    {
      var byte := if |srcs[i]| <= k then 0 else srcs[i][k];
      output := Apply(op, output, byte);
      i := i + 1;
    }
  }

  /** The whole operation: for every set of sources, byte `k` of the result is the operation over
      byte `k` of all sources padded with zeros to the longest. */
  method BitOp(op: Op, keys: seq<(bool, seq<Byte>)>) returns (res: array<Byte>, srcs: seq<seq<Byte>>)
    requires keys != [] && (op == Not ==> |keys| == 1)
    ensures |srcs| == |keys| && forall i :: 0 <= i < |keys| ==> srcs[i] == if keys[i].0 then keys[i].1 else []
    ensures Longest(srcs, res.Length)
    ensures forall k :: 0 <= k < res.Length ==> res[k] == Combined(op, srcs, |srcs|, k)
    ensures forall k, i :: 0 <= k < res.Length && 0 <= i < 8 ==> BitIs(op, srcs, |srcs|, k, i, Bit(res[k], i))
  {
    var shortest, longest;
    srcs, shortest, longest := Lengths(keys);
    res := new Byte[longest];
    hide Combined, BitIs, Bit;
    var j := FastPath(res, op, srcs, shortest);
    while j < longest
      invariant j <= longest && forall k :: 0 <= k < j ==> res[k] == Combined(op, srcs, |srcs|, k)
    {
      var output := OneByte(op, srcs, j);
      res[j] := output;
      j := j + 1;
    }
    forall k, i | 0 <= k < res.Length && 0 <= i < 8 ensures BitIs(op, srcs, |srcs|, k, i, Bit(res[k], i)) {
      CombinedBit(op, srcs, |srcs|, k, i);
    }
  }
}
