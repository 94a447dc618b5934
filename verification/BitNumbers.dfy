/** Numbers as big-endian bit sequences, and 64-bit machine arithmetic on unbounded integers. */
module BitNumbers {

  function Pow2(n: nat): (p: int)
    ensures p > 0
  {
    if n == 0 then 1 else 2 * Pow2(n - 1)
  }

  lemma {:induction false} Pow2Adds(a: nat, b: nat)
    ensures Pow2(a + b) == Pow2(a) * Pow2(b)
    decreases a
  {
    if a > 0 {
      Pow2Adds(a - 1, b);
      assert Pow2(a + b) == 2 * (Pow2(a - 1) * Pow2(b));
    }
  }

  lemma {:induction false} Pow2Grows(a: nat, b: nat)
    requires a <= b
    ensures Pow2(a) <= Pow2(b) && (a < b ==> 2 * Pow2(a) <= Pow2(b))
    decreases b
  {
    if a < b {
      Pow2Grows(a, b - 1);
    }
  }

  // ----- division and remainder

  lemma DivModUnique(x: int, m: int, q: int, r: int)
    requires m > 0 && x == q * m + r && 0 <= r < m
    ensures x / m == q && x % m == r
  {
    var d := x / m - q;
    assert x == (x / m) * m + x % m;
    assert d * m == r - x % m;
    assert d >= 1 ==> d * m >= m;
    assert d <= -1 ==> d * m <= -m;
  }

  /** A remainder only depends on the number up to multiples of the modulus. */
  lemma ModShift(x: int, m: int, k: int)
    requires m > 0
    ensures (x + k * m) % m == x % m
  {
    assert x + k * m == (x / m + k) * m + x % m;
    DivModUnique(x + k * m, m, x / m + k, x % m);
  }

  /** Reducing modulo a multiple first changes nothing. */
  lemma ModMod(x: int, m: int, k: int)
    requires m > 0 && k > 0
    ensures m * k > 0 && x % (m * k) % m == x % m
  {
    assert m * k > 0;
    var q := x / (m * k);
    assert x == q * (m * k) + x % (m * k);
    assert x == x % (m * k) + (q * k) * m;
    ModShift(x % (m * k), m, q * k);
  }

  // ----- bit sequences

  /** The last `n` binary digits of `v`, most significant first. */
  function ToBits(v: nat, n: nat): (b: seq<bool>)
    ensures |b| == n
  {
    if n == 0 then [] else ToBits(v / 2, n - 1) + [v % 2 == 1]
  }

  function FromBits(b: seq<bool>): (v: nat)
    ensures v < Pow2(|b|)
  {
    if b == [] then 0 else 2 * FromBits(b[..|b| - 1]) + if b[|b| - 1] then 1 else 0
  }

  lemma HalfMod(v: nat, m: nat)
    requires m > 0
    ensures v % (2 * m) == 2 * (v / 2 % m) + v % 2
  {
    var h := v / 2;
    assert v == 2 * h + v % 2 && h == (h / m) * m + h % m;
    assert v == (h / m) * (2 * m) + (2 * (h % m) + v % 2);
    DivModUnique(v, 2 * m, h / m, 2 * (h % m) + v % 2);
  }

  /** Writing a number in `n` bits and reading it back gives it modulo 2^n. */
  lemma ToBitsUnfolds(v: nat, n: nat)
    ensures ToBits(v, n) == if n == 0 then [] else ToBits(v / 2, n - 1) + [v % 2 == 1]
  {
  }

  lemma FromBitsAppend(b: seq<bool>, bit: bool)
    ensures FromBits(b + [bit]) == 2 * FromBits(b) + (if bit then 1 else 0)
  {
    assert (b + [bit])[..|b|] == b;
  }

  lemma FromNoBits()
    ensures FromBits([]) == 0
  {
  }

  lemma {:induction false} FromToBits(v: nat, n: nat)
    ensures FromBits(ToBits(v, n)) == v % Pow2(n)
  {
    hide ToBits, FromBits;
    ToBitsUnfolds(v, n);
    if n > 0 {
      FromToBits(v / 2, n - 1);
      FromBitsAppend(ToBits(v / 2, n - 1), v % 2 == 1);
      HalfMod(v, Pow2(n - 1));
    } else {
      FromNoBits();
    }
  }

  lemma {:induction false} ToFromBits(b: seq<bool>)
    ensures ToBits(FromBits(b), |b|) == b
  {
    if b != [] {
      ToFromBits(b[..|b| - 1]);
    }
  }

  lemma {:induction false} ToBitsMod(v: nat, n: nat)
    ensures ToBits(v % Pow2(n), n) == ToBits(v, n)
  {
    FromToBits(v, n);
    ToFromBits(ToBits(v, n));
  }

  // ----- machine integers

  function U64(x: int): (u: nat)
    ensures u < Pow2(64)
  {
    x % Pow2(64)
  }

  /** The signed 64-bit number with the same bits. */
  function I64(x: int): int {
    if U64(x) >= Pow2(63) then U64(x) - Pow2(64) else U64(x)
  }

  predicate IsI64(x: int) {
    -Pow2(63) <= x < Pow2(63)
  }

  lemma I64Exact(x: int)
    ensures IsI64(I64(x)) && (IsI64(x) ==> I64(x) == x)
  {
    assert Pow2(64) == 2 * Pow2(63);
    if 0 <= x < Pow2(63) {
      DivModUnique(x, Pow2(64), 0, x);
    } else if -Pow2(63) <= x < 0 {
      DivModUnique(x, Pow2(64), -1, x + Pow2(64));
    }
  }

  /** The last `bits` bits survive 64-bit wrap-around. */
  lemma U64Low(x: int, bits: nat)
    requires bits <= 64
    ensures U64(x) % Pow2(bits) == x % Pow2(bits)
  {
    Pow2Adds(bits, 64 - bits);
    ModMod(x, Pow2(bits), Pow2(64 - bits));
  }
}
