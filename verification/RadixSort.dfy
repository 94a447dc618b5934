/** Radix sorts over buckets: least significant digit first with stable passes, and most
    significant digit first by recursion on the buckets. */
module RadixSort {
  import opened Common
  import BitNumbers

  const RADIX := 10
  const MAX_DIGIT := 4

  /** Digit `d` of a key; digit 1 is the least significant. */
  function Digit(x: nat, d: nat): (r: nat)
    requires d >= 1
    ensures r < RADIX
  {
    x / Pow10(d - 1) % 10
  }

  lemma TenthOf(x: nat, m: nat, h: nat, v: nat, r: nat)
    requires m > 0 && x == (10 * h + v) * m + r && v < 10 && r < m
    ensures x / (10 * m) == h && x % (10 * m) == v * m + r
  {
    assert (10 * h + v) * m == h * (10 * m) + v * m;
    DigitBelow(v, 10, m, r);
    BitNumbers.DivModUnique(x, 10 * m, h, v * m + r);
  }

  lemma {:induction false} DigitBelow(v: nat, w: nat, m: nat, r: nat)
    requires v < w && r < m
    ensures v * m + r < w * m
    decreases w
  {
    assert w * m == (w - 1) * m + m;
    if v < w - 1 {
      DigitBelow(v, w - 1, m, r);
    }
  }

  lemma Tenth(x: nat, m: nat)
    requires m > 0
    ensures x / m / 10 == x / (10 * m) && x % (10 * m) == (x / m % 10) * m + x % m
  {
    var q, r := x / m, x % m;
    assert x == q * m + r;
    var h, v := q / 10, q % 10;
    assert q == 10 * h + v;
    TenthOf(x, m, h, v, r);
  }

  lemma DropDigits(x: nat, i: nat)
    ensures x / Pow10(i) / 10 == x / Pow10(i + 1)
  {
    Tenth(x, Pow10(i));
  }

  method GetDigit(x: nat, d: nat) returns (r: nat)
    requires d >= 1
    ensures r == Digit(x, d)
  {
    r := 0;
    var rest := x;
    var i := 1;
    while i <= d
      invariant 1 <= i <= d + 1 && rest == x / Pow10(i - 1) && (i > 1 ==> r == x / Pow10(i - 2) % 10)
    {
      r := rest % 10;
      DropDigits(x, i - 1);
      rest := rest / 10;
      i := i + 1;
    }
  }

  /** The last `d` digits: the digit `d`, then the last `d - 1`. */
  lemma SplitDigits(x: nat, d: nat)
    requires d >= 1
    ensures x % Pow10(d) == Digit(x, d) * Pow10(d - 1) + x % Pow10(d - 1)
  {
    Tenth(x, Pow10(d - 1));
  }

  // ----- buckets

  /** The keys of a list with digit `v` at place `d`, in their order. */
  function Bucket(s: seq<nat>, d: nat, v: nat): seq<nat>
    requires d >= 1
  {
    if s == [] then []
    else Bucket(s[..|s| - 1], d, v) + if Digit(s[|s| - 1], d) == v then [s[|s| - 1]] else []
  }

  /** The buckets from `v` on, one after the other. */
  function Collected(s: seq<nat>, d: nat, v: nat): seq<nat>
    requires d >= 1 && v <= RADIX
    decreases RADIX - v
  {
    if v == RADIX then [] else Bucket(s, d, v) + Collected(s, d, v + 1)
  }

  lemma {:induction false} BucketMembers(s: seq<nat>, d: nat, v: nat)
    requires d >= 1
    ensures forall x :: x in Bucket(s, d, v) <==> x in s && Digit(x, d) == v
  {
    if s != [] {
      BucketMembers(s[..|s| - 1], d, v);
      assert s == s[..|s| - 1] + [s[|s| - 1]];
    }
  }

  lemma {:induction false} CollectedMembers(s: seq<nat>, d: nat, v: nat)
    requires d >= 1 && v <= RADIX
    ensures forall x :: x in Collected(s, d, v) ==> x in s && Digit(x, d) >= v
    decreases RADIX - v
  {
    if v < RADIX {
      BucketMembers(s, d, v);
      CollectedMembers(s, d, v + 1);
    }
  }

  // ----- nothing is lost

  lemma {:induction false} BucketCount(s: seq<nat>, d: nat, v: nat, x: nat)
    requires d >= 1
    ensures multiset(Bucket(s, d, v))[x] == if Digit(x, d) == v then multiset(s)[x] else 0
  {
    if s != [] {
      BucketCount(s[..|s| - 1], d, v, x);
      assert s == s[..|s| - 1] + [s[|s| - 1]];
      hide Digit;
    }
  }

  lemma CollectedUnfolds(s: seq<nat>, d: nat, v: nat)
    requires d >= 1 && v < RADIX
    ensures Collected(s, d, v) == Bucket(s, d, v) + Collected(s, d, v + 1)
  {
  }

  lemma CollectedNothing(s: seq<nat>, d: nat)
    requires d >= 1
    ensures Collected(s, d, RADIX) == []
  {
  }

  lemma DigitInRange(x: nat, d: nat)
    requires d >= 1
    ensures Digit(x, d) < RADIX
  {
  }

  lemma {:induction false} CollectedCount(s: seq<nat>, d: nat, v: nat, x: nat)
    requires d >= 1 && v <= RADIX
    ensures multiset(Collected(s, d, v))[x] == if Digit(x, d) >= v then multiset(s)[x] else 0
    decreases RADIX - v
  {
    hide Digit, Bucket, Collected;
    if v < RADIX {
      BucketCount(s, d, v, x);
      CollectedCount(s, d, v + 1, x);
      CollectedUnfolds(s, d, v);
    } else {
      CollectedNothing(s, d);
      DigitInRange(x, d);
    }
  }

  /** A pass rearranges the list. */
  lemma PassPermutes(s: seq<nat>, d: nat)
    requires d >= 1
    ensures multiset(Collected(s, d, 0)) == multiset(s)
  {
    var t := multiset(Collected(s, d, 0));
    forall x: nat
      ensures t[x] == multiset(s)[x]
    {
      CollectedCount(s, d, 0, x);
    }
    assert forall x :: t[x] == multiset(s)[x];
  }

  // ----- a pass is stable

  lemma {:induction false} BucketConcat(a: seq<nat>, b: seq<nat>, d: nat, v: nat)
    requires d >= 1
    ensures Bucket(a + b, d, v) == Bucket(a, d, v) + Bucket(b, d, v)
    decreases b
  {
    hide Digit;
    if b == [] {
      assert a + b == a;
    } else {
      var n := |b| - 1;
      BucketConcat(a, b[..n], d, v);
      assert (a + b)[..|a| + n] == a + b[..n] && (a + b)[|a| + n] == b[n];
    }
  }

  lemma {:induction false} BucketOfUniform(s: seq<nat>, d: nat, v: nat, w: nat)
    requires d >= 1 && forall x :: x in s ==> Digit(x, d) == w
    ensures Bucket(s, d, v) == if v == w then s else []
  {
    if s != [] {
      assert s == s[..|s| - 1] + [s[|s| - 1]];
      BucketOfUniform(s[..|s| - 1], d, v, w);
    }
  }

  lemma {:induction false} BucketOfCollected(s: seq<nat>, d: nat, v: nat, w: nat)
    requires d >= 1 && v <= RADIX && w < RADIX
    ensures Bucket(Collected(s, d, v), d, w) == if v <= w then Bucket(s, d, w) else []
    decreases RADIX - v
  {
    hide Digit, Collected, Bucket;
    if v < RADIX {
      BucketMembers(s, d, v);
      CollectedUnfolds(s, d, v);
      BucketOfCollected(s, d, v + 1, w);
      BucketPair(Bucket(s, d, v), Collected(s, d, v + 1), d, w, v);
    } else {
      CollectedNothing(s, d);
      BucketNothing(d, w);
    }
  }

  lemma BucketNothing(d: nat, w: nat)
    requires d >= 1
    ensures Bucket([], d, w) == []
  {
  }

  lemma BucketPair(a: seq<nat>, b: seq<nat>, d: nat, w: nat, v: nat)
    requires d >= 1 && forall x :: x in a ==> Digit(x, d) == v
    ensures Bucket(a + b, d, w) == (if w == v then a else []) + Bucket(b, d, w)
  {
    hide Bucket, Digit;
    BucketOfUniform(a, d, w, v);
    BucketConcat(a, b, d, w);
  }

  /** Keys with the same digit keep their order. */
  lemma PassIsStable(s: seq<nat>, d: nat, v: nat)
    requires d >= 1 && v < RADIX
    ensures Bucket(Collected(s, d, 0), d, v) == Bucket(s, d, v)
  {
    BucketOfCollected(s, d, 0, v);
  }

  // ----- what a pass orders

  /** Ordered by the last digits, those below `m`. */
  ghost predicate Ordered(s: seq<nat>, m: nat)
    requires m > 0
  {
    forall i, j :: 0 <= i < j < |s| ==> s[i] % m <= s[j] % m
  }

  lemma OrderedConcat(a: seq<nat>, b: seq<nat>, m: nat)
    requires m > 0 && Ordered(a, m) && Ordered(b, m) && forall x, y :: x in a && y in b ==> x % m <= y % m
    ensures Ordered(a + b, m)
  {
    var s := a + b;
    forall i, j | 0 <= i < j < |s|
      ensures s[i] % m <= s[j] % m
    {
      assert i < |a| ==> s[i] == a[i] && a[i] in a;
      assert j >= |a| ==> s[j] == b[j - |a|] && b[j - |a|] in b;
      assert i >= |a| ==> s[i] == b[i - |a|];
    }
  }

  lemma OrderedPrefix(s: seq<nat>, m: nat, n: nat)
    requires m > 0 && n <= |s| && Ordered(s, m)
    ensures Ordered(s[..n], m)
  {
  }

  /** Within a bucket the order of the lower digits decides. */
  lemma {:induction false} BucketOrdered(s: seq<nat>, d: nat, v: nat)
    requires d >= 1 && Ordered(s, Pow10(d - 1))
    ensures Ordered(Bucket(s, d, v), Pow10(d))
  {
    hide Ordered, Digit, Pow10;
    if s == [] {
      EmptyOrdered(Pow10(d));
    } else {
      var n := |s| - 1;
      OrderedPrefix(s, Pow10(d - 1), n);
      BucketOrdered(s[..n], d, v);
      LastInBucket(s, d, v);
    }
  }

  lemma EmptyOrdered(m: nat)
    requires m > 0
    ensures Ordered([], m)
  {
  }

  lemma LastInBucket(s: seq<nat>, d: nat, v: nat)
    requires d >= 1 && s != [] && Ordered(s, Pow10(d - 1)) && Ordered(Bucket(s[..|s| - 1], d, v), Pow10(d))
    ensures Ordered(Bucket(s, d, v), Pow10(d))
  {
    hide Digit, Pow10;
    var n := |s| - 1;
    var a := Bucket(s[..n], d, v);
    if Digit(s[n], d) == v {
      BucketMembers(s[..n], d, v);
      forall x, y | x in a && y in [s[n]]
        ensures x % Pow10(d) <= y % Pow10(d)
      {
        SameDigit(x, s[n], d, v);
        var i :| 0 <= i < n && s[i] == x;
      }
      assert Ordered([s[n]], Pow10(d));
      hide Ordered;
      OrderedConcat(a, [s[n]], Pow10(d));
    }
  }

  lemma SameDigit(x: nat, y: nat, d: nat, v: nat)
    requires d >= 1 && Digit(x, d) == v == Digit(y, d)
    ensures x % Pow10(d) <= y % Pow10(d) <==> x % Pow10(d - 1) <= y % Pow10(d - 1)
  {
    hide Digit;
    SplitDigits(x, d);
    SplitDigits(y, d);
  }

  lemma SmallerDigit(x: nat, y: nat, d: nat)
    requires d >= 1 && Digit(x, d) < Digit(y, d)
    ensures x % Pow10(d) <= y % Pow10(d)
  {
    hide Digit, Pow10;
    SplitDigits(x, d);
    SplitDigits(y, d);
    DigitBelow(Digit(x, d), Digit(y, d), Pow10(d - 1), x % Pow10(d - 1));
  }

  lemma {:induction false} CollectedOrdered(s: seq<nat>, d: nat, v: nat)
    requires d >= 1 && v <= RADIX && Ordered(s, Pow10(d - 1))
    ensures Ordered(Collected(s, d, v), Pow10(d))
    decreases RADIX - v
  {
    hide Ordered, Digit, Pow10, Bucket;
    if v == RADIX {
      EmptyOrdered(Pow10(d));
    } else {
      var a, b := Bucket(s, d, v), Collected(s, d, v + 1);
      BucketOrdered(s, d, v);
      CollectedOrdered(s, d, v + 1);
      BucketMembers(s, d, v);
      CollectedMembers(s, d, v + 1);
      forall x, y | x in a && y in b
        ensures x % Pow10(d) <= y % Pow10(d)
      {
        SmallerDigit(x, y, d);
      }
      OrderedConcat(a, b, Pow10(d));
    }
  }

  // ----- least significant digit first

  /** Append each key to the bucket of its digit. */
  method Distribute(list: seq<nat>, d: nat) returns (buckets: seq<seq<nat>>)
    requires d >= 1
    ensures |buckets| == RADIX && forall v :: 0 <= v < RADIX ==> buckets[v] == Bucket(list, d, v)
  {
    buckets := seq(RADIX, _ => []);
    var i := 0;
    hide Digit;
    while i < |list|
      invariant i <= |list| && |buckets| == RADIX
      invariant forall v :: 0 <= v < RADIX ==> buckets[v] == Bucket(list[..i], d, v)
    {
      var di := GetDigit(list[i], d);
      assert list[..i + 1][..i] == list[..i];
      buckets := buckets[di := buckets[di] + [list[i]]];
      i := i + 1;
    }
    assert list[..i] == list;
  }

  /** Put the buckets one before the other, the last one first. */
  method Collect(buckets: seq<seq<nat>>, ghost list: seq<nat>, d: nat) returns (s: seq<nat>)
    requires d >= 1 && |buckets| == RADIX && forall v :: 0 <= v < RADIX ==> buckets[v] == Bucket(list, d, v)
    ensures s == Collected(list, d, 0)
  {
    s := [];
    var di := RADIX;
    hide Bucket;
    while di > 0
      invariant 0 <= di <= RADIX && s == Collected(list, d, di)
    {
      di := di - 1;
      if buckets[di] != [] {
        s := buckets[di] + s;
      }
    }
  }

  function Reversed(s: seq<nat>): (r: seq<nat>)
    ensures multiset(r) == multiset(s)
  {
    if s == [] then []
    else
      assert s == s[..|s| - 1] + [s[|s| - 1]];
      [s[|s| - 1]] + Reversed(s[..|s| - 1])
  }

  ghost predicate Sorted(s: seq<nat>) {
    forall i, j :: 0 <= i < j < |s| ==> s[i] <= s[j]
  }

  lemma OrderedIsSorted(s: seq<nat>, m: nat)
    requires m > 0 && Ordered(s, m) && forall x :: x in s ==> x < m
    ensures Sorted(s)
  {
    forall i, j | 0 <= i < j < |s|
      ensures s[i] <= s[j]
    {
      assert s[i] in s && s[j] in s;
      BitNumbers.DivModUnique(s[i], m, 0, s[i]);
      BitNumbers.DivModUnique(s[j], m, 0, s[j]);
    }
  }

  /** All passes over a list: ordered by the last digits. */
  method Passes(start: seq<nat>, digits: nat) returns (list: seq<nat>)
    ensures multiset(list) == multiset(start) && Ordered(list, Pow10(digits))
  {
    hide Ordered, Collected, Pow10;
    list := start;
    OrderedByNothing(list);
    var d := 1;
    while d <= digits
      invariant 1 <= d <= digits + 1 && multiset(list) == multiset(start) && Ordered(list, Pow10(d - 1))
    {
      CollectedOrdered(list, d, 0);
      PassPermutes(list, d);
      list := OnePass(list, d);
      d := d + 1;
    }
  }

  method OnePass(list: seq<nat>, d: nat) returns (s: seq<nat>)
    requires d >= 1
    ensures s == Collected(list, d, 0)
  {
    hide Collected;
    var buckets := Distribute(list, d);
    s := Collect(buckets, list, d);
  }

  lemma PassesSort(s: seq<nat>, t: seq<nat>)
    requires multiset(t) == multiset(s) && Ordered(t, Pow10(MAX_DIGIT)) && forall x :: x in s ==> x < Pow10(MAX_DIGIT)
    ensures Sorted(t)
  {
    SameMembers(s, t);
    hide Ordered, Pow10;
    OrderedIsSorted(t, Pow10(MAX_DIGIT));
  }

  /** The list starts reversed and is poured back at the end: a permutation ordered by the last
      digits, and sorted when every key has no more digits than there are passes. */
  method LsdRadixSort(a: array<nat>)
    modifies a
    ensures multiset(a[..]) == multiset(old(a[..])) && Ordered(a[..], Pow10(MAX_DIGIT))
    ensures (forall x :: x in old(a[..]) ==> x < Pow10(MAX_DIGIT)) ==> Sorted(a[..])
  {
    ghost var before := a[..];
    hide Ordered, Pow10, Sorted;
    var list := Passes(Reversed(a[..]), MAX_DIGIT);
    SameLength(list, before);
    forall i | 0 <= i < a.Length {
      a[i] := list[i];
    }
    assert a[..] == list;
    if forall x :: x in before ==> x < Pow10(MAX_DIGIT) {
      PassesSort(before, list);
    }
  }

  lemma OrderedByNothing(s: seq<nat>)
    ensures Ordered(s, Pow10(0))
  {
  }

  lemma SameLength(s: seq<nat>, t: seq<nat>)
    requires multiset(s) == multiset(t)
    ensures |s| == |t|
  {
    assert |multiset(s)| == |s| && |multiset(t)| == |t|;
  }

  // ----- most significant digit first

  /** Sort each bucket of digit `d` by the lower digits, and join the buckets. */
  function Msd(s: seq<nat>, d: nat): seq<nat>
    decreases d, RADIX + 1
  {
    if d == 0 then s else MsdFrom(s, d, 0)
  }

  function MsdFrom(s: seq<nat>, d: nat, v: nat): seq<nat>
    requires d >= 1 && v <= RADIX
    decreases d, RADIX - v
  {
    if v == RADIX then [] else Msd(Bucket(s, d, v), d - 1) + MsdFrom(s, d, v + 1)
  }

  lemma {:induction false} MsdPermutes(s: seq<nat>, d: nat)
    ensures multiset(Msd(s, d)) == multiset(s)
    decreases d, RADIX + 1
  {
    if d > 0 {
      MsdFromPermutes(s, d, 0);
      PassPermutes(s, d);
    }
  }

  lemma MsdFromUnfolds(s: seq<nat>, d: nat, v: nat)
    requires d >= 1 && v <= RADIX
    ensures MsdFrom(s, d, v) == if v == RADIX then [] else Msd(Bucket(s, d, v), d - 1) + MsdFrom(s, d, v + 1)
  {
  }

  lemma {:induction false} MsdFromPermutes(s: seq<nat>, d: nat, v: nat)
    requires d >= 1 && v <= RADIX
    ensures multiset(MsdFrom(s, d, v)) == multiset(Collected(s, d, v))
    decreases d, RADIX - v
  {
    hide Msd, MsdFrom, Collected, Bucket;
    MsdFromUnfolds(s, d, v);
    if v < RADIX {
      MsdPermutes(Bucket(s, d, v), d - 1);
      MsdFromPermutes(s, d, v + 1);
      CollectedUnfolds(s, d, v);
    } else {
      CollectedNothing(s, d);
    }
  }

  /** Keys that agree above their last `d` digits. */
  ghost predicate SameHigh(s: seq<nat>, d: nat) {
    forall x, y :: x in s && y in s ==> x / Pow10(d) == y / Pow10(d)
  }

  lemma HighDigits(x: nat, y: nat, d: nat)
    requires d >= 1 && x / Pow10(d) == y / Pow10(d) && Digit(x, d) == Digit(y, d)
    ensures x / Pow10(d - 1) == y / Pow10(d - 1)
  {
    DropDigits(x, d - 1);
    DropDigits(y, d - 1);
  }

  lemma SmallerHigh(x: nat, y: nat, d: nat)
    requires d >= 1 && x / Pow10(d) == y / Pow10(d) && Digit(x, d) < Digit(y, d)
    ensures x < y
  {
    hide Digit, Pow10;
    SplitDigits(x, d);
    SplitDigits(y, d);
    DigitBelow(Digit(x, d), Digit(y, d), Pow10(d - 1), x % Pow10(d - 1));
    SameQuotient(x, y, Pow10(d));
  }

  lemma SameQuotient(x: nat, y: nat, m: nat)
    requires m > 0 && x / m == y / m && x % m < y % m
    ensures x < y
  {
    assert x == x / m * m + x % m && y == y / m * m + y % m;
  }

  ghost predicate AllBelow(a: seq<nat>, b: seq<nat>) {
    forall x, y :: x in a && y in b ==> x <= y
  }

  lemma SortedConcat(a: seq<nat>, b: seq<nat>)
    requires Sorted(a) && Sorted(b) && AllBelow(a, b)
    ensures Sorted(a + b)
  {
    var s := a + b;
    forall i, j | 0 <= i < j < |s|
      ensures s[i] <= s[j]
    {
      assert i < |a| ==> s[i] == a[i] && a[i] in a;
      assert j >= |a| ==> s[j] == b[j - |a|] && b[j - |a|] in b;
      assert i >= |a| ==> s[i] == b[i - |a|];
    }
  }

  /** Keys that agree on all higher digits come out sorted. */
  lemma {:induction false} MsdSorts(s: seq<nat>, d: nat)
    requires SameHigh(s, d)
    ensures Sorted(Msd(s, d))
    decreases d, RADIX + 1
  {
    if d == 0 {
      AllEqualSorted(s);
    } else {
      hide Sorted, SameHigh;
      MsdFromSorts(s, d, 0);
    }
  }

  lemma AllEqualSorted(s: seq<nat>)
    requires SameHigh(s, 0)
    ensures Sorted(s)
  {
    forall i, j | 0 <= i < j < |s|
      ensures s[i] <= s[j]
    {
      assert s[i] in s && s[j] in s && s[i] / Pow10(0) == s[i] && s[j] / Pow10(0) == s[j];
    }
  }

  lemma BucketSameHigh(s: seq<nat>, d: nat, v: nat)
    requires d >= 1 && SameHigh(s, d)
    ensures SameHigh(Bucket(s, d, v), d - 1)
  {
    BucketMembers(s, d, v);
    forall x, y | x in Bucket(s, d, v) && y in Bucket(s, d, v)
      ensures x / Pow10(d - 1) == y / Pow10(d - 1)
    {
      HighDigits(x, y, d);
    }
  }

  lemma SameMembers(s: seq<nat>, t: seq<nat>)
    requires multiset(s) == multiset(t)
    ensures forall x :: x in s <==> x in t
  {
    assert forall x :: x in s <==> x in multiset(s);
    assert forall x :: x in t <==> x in multiset(t);
  }

  lemma {:induction false} MsdFromSorts(s: seq<nat>, d: nat, v: nat)
    requires d >= 1 && v <= RADIX && SameHigh(s, d)
    ensures Sorted(MsdFrom(s, d, v))
    decreases d, RADIX - v
  {
    if v < RADIX {
      BucketSameHigh(s, d, v);
      MsdSorts(Bucket(s, d, v), d - 1);
      MsdFromSorts(s, d, v + 1);
      BucketsApart(s, d, v);
      hide Sorted, SameHigh, Bucket;
      SortedConcat(Msd(Bucket(s, d, v), d - 1), MsdFrom(s, d, v + 1));
    }
  }

  lemma BucketsApart(s: seq<nat>, d: nat, v: nat)
    requires d >= 1 && v < RADIX && SameHigh(s, d)
    ensures AllBelow(Msd(Bucket(s, d, v), d - 1), MsdFrom(s, d, v + 1))
  {
    hide Bucket, Collected, Digit, Msd, MsdFrom, Pow10;
    var a, b := Msd(Bucket(s, d, v), d - 1), MsdFrom(s, d, v + 1);
    MsdPermutes(Bucket(s, d, v), d - 1);
    MsdFromPermutes(s, d, v + 1);
    SameMembers(a, Bucket(s, d, v));
    SameMembers(b, Collected(s, d, v + 1));
    BucketMembers(s, d, v);
    CollectedMembers(s, d, v + 1);
    forall x, y | x in a && y in b
      ensures x <= y
    {
      SmallerHigh(x, y, d);
    }
  }

  /** Prepend each key to its bucket, going through the list from its end: the order is kept. */
  method DistributeFromEnd(s: seq<nat>, d: nat) returns (buckets: seq<seq<nat>>)
    requires d >= 1
    ensures |buckets| == RADIX && forall v :: 0 <= v < RADIX ==> buckets[v] == Bucket(s, d, v)
  {
    buckets := seq(RADIX, _ => []);
    var i := |s|;
    hide Digit;
    while i > 0
      invariant 0 <= i <= |s| && |buckets| == RADIX
      invariant forall v :: 0 <= v < RADIX ==> buckets[v] == Bucket(s[i..], d, v)
    {
      i := i - 1;
      var di := GetDigit(s[i], d);
      BucketsGrow(s, i, d);
      buckets := buckets[di := [s[i]] + buckets[di]];
    }
    assert s[0..] == s;
  }

  lemma BucketsGrow(s: seq<nat>, i: nat, d: nat)
    requires d >= 1 && i < |s|
    ensures forall v :: 0 <= v < RADIX ==>
      Bucket(s[i..], d, v) == (if v == Digit(s[i], d) then [s[i]] else []) + Bucket(s[i + 1..], d, v)
  {
    hide Digit;
    assert s[i..] == [s[i]] + s[i + 1..];
    forall v | 0 <= v < RADIX
      ensures Bucket(s[i..], d, v) == (if v == Digit(s[i], d) then [s[i]] else []) + Bucket(s[i + 1..], d, v)
    {
      BucketConcat([s[i]], s[i + 1..], d, v);
    }
  }

  /** `t` is `s` with `part` written at `at`. */
  ghost predicate Poured(s: seq<nat>, t: seq<nat>, at: nat, part: seq<nat>) {
    at + |part| <= |s| && t == s[..at] + part + s[at + |part|..]
  }

  method Pour(a: array<nat>, at: nat, part: seq<nat>)
    requires at + |part| <= a.Length
    modifies a
    ensures Poured(old(a[..]), a[..], at, part)
  {
    forall k | 0 <= k < |part| {
      a[at + k] := part[k];
    }
    assert a[..] == old(a[..])[..at] + part + old(a[..])[at + |part|..];
  }

  /** Pour one bucket into the array and sort it by its lower digits. */
  method SortBucket(a: array<nat>, at: nat, bucket: seq<nat>, d: nat)
    requires d >= 1 && at + |bucket| <= a.Length
    modifies a
    ensures |Msd(bucket, d - 1)| == |bucket| && Poured(old(a[..]), a[..], at, Msd(bucket, d - 1))
    decreases d, 0
  {
    MsdLength(bucket, d - 1);
    ghost var s := a[..];
    Pour(a, at, bucket);
    ghost var t := a[..];
    assert a[at..at + |bucket|] == bucket;
    MsdSort(a, at, at + |bucket| - 1, d - 1);
    PouredAgain(s, t, a[..], at, bucket, Msd(bucket, d - 1));
  }

  lemma MsdLength(s: seq<nat>, d: nat)
    ensures |Msd(s, d)| == |s|
  {
    MsdPermutes(s, d);
    SameLength(Msd(s, d), s);
  }

  lemma PouredAgain(s: seq<nat>, t: seq<nat>, u: seq<nat>, at: nat, p: seq<nat>, q: seq<nat>)
    requires |p| == |q| && Poured(s, t, at, p) && Poured(t, u, at, q)
    ensures Poured(s, u, at, q)
  {
    assert t[..at] == s[..at] && t[at + |p|..] == s[at + |p|..];
  }

  /** Part of the range is done: `now` up to `i`, followed by `rest`, is the goal. */
  ghost predicate Halfway(whole: seq<nat>, now: seq<nat>, left: nat, end: nat, i: nat, goal: seq<nat>, rest: seq<nat>) {
    && |now| == |whole| && left <= i <= end <= |whole| && i + |rest| == end
    && whole[..left] + goal == now[..i] + rest && now[end..] == whole[end..]
  }

  lemma HalfwayStart(whole: seq<nat>, left: nat, end: nat, goal: seq<nat>)
    requires left <= end <= |whole| && |goal| == end - left
    ensures Halfway(whole, whole, left, end, left, goal, goal)
  {
  }

  lemma HalfwayStep(whole: seq<nat>, t: seq<nat>, u: seq<nat>, left: nat, end: nat, i: nat, goal: seq<nat>, p: seq<nat>,
                    rest: seq<nat>)
    requires Halfway(whole, t, left, end, i, goal, p + rest) && Poured(t, u, i, p)
    ensures Halfway(whole, u, left, end, i + |p|, goal, rest)
  {
    PouredPrefix(t, u, i, p, end);
    assert t[..i] + (p + rest) == (t[..i] + p) + rest;
  }

  lemma HalfwayEnd(whole: seq<nat>, now: seq<nat>, left: nat, end: nat, i: nat, goal: seq<nat>)
    requires Halfway(whole, now, left, end, i, goal, []) && |goal| == end - left
    ensures Poured(whole, now, left, goal)
  {
    assert now == now[..end] + now[end..] && now[..end] + [] == now[..end];
  }

  /** The recursion: the range becomes its sorted buckets, the rest of the array stays. */
  method MsdSort(a: array<nat>, left: nat, right: int, d: nat)
    requires left - 1 <= right < a.Length
    modifies a
    ensures |Msd(old(a[left..right + 1]), d)| == right + 1 - left
    ensures Poured(old(a[..]), a[..], left, Msd(old(a[left..right + 1]), d))
    decreases d, 2
  {
    ghost var s, whole := a[left..right + 1], a[..];
    MsdLength(s, d);
    if d == 0 {
      assert whole == whole[..left] + s + whole[right + 1..];
      return;
    }
    var buckets := DistributeFromEnd(a[left..right + 1], d);
    SortBuckets(a, left, right + 1, buckets, s, d);
  }

  /** Pour and sort the buckets one after the other. */
  method SortBuckets(a: array<nat>, left: nat, end: nat, buckets: seq<seq<nat>>, ghost s: seq<nat>, d: nat)
    requires d >= 1 && left <= end <= a.Length && |s| == end - left == |Msd(s, d)|
    requires |buckets| == RADIX && forall v :: 0 <= v < RADIX ==> buckets[v] == Bucket(s, d, v)
    modifies a
    ensures Poured(old(a[..]), a[..], left, Msd(s, d))
    decreases d, 1, 1
  {
    ghost var whole := a[..];
    hide Msd, MsdFrom, Bucket, Halfway, Poured;
    MsdParts(s, d, 0);
    HalfwayStart(whole, left, end, Msd(s, d));
    var i, di := left, 0;
    while di < RADIX
      invariant di <= RADIX && i >= 0 && Halfway(whole, a[..], left, end, i, Msd(s, d), MsdFrom(s, d, di))
    {
      MsdParts(s, d, di);
      HalfwayRoom(whole, a[..], left, end, i, Msd(s, d), Msd(buckets[di], d - 1), MsdFrom(s, d, di + 1));
      ghost var t := a[..];
      SortOrSkip(a, i, buckets[di], d);
      HalfwayStep(whole, t, a[..], left, end, i, Msd(s, d), Msd(buckets[di], d - 1), MsdFrom(s, d, di + 1));
      i := i + |buckets[di]|;
      di := di + 1;
    }
    MsdParts(s, d, RADIX);
    HalfwayEnd(whole, a[..], left, end, i, Msd(s, d));
  }

  /** An empty bucket is skipped. */
  method SortOrSkip(a: array<nat>, i: nat, bucket: seq<nat>, d: nat)
    requires d >= 1 && i + |bucket| <= a.Length && |Msd(bucket, d - 1)| == |bucket|
    modifies a
    ensures Poured(old(a[..]), a[..], i, Msd(bucket, d - 1))
    decreases d, 1, 0
  {
    hide Msd, Poured;
    if bucket != [] {
      SortBucket(a, i, bucket, d);
    } else {
      PourNothing(a[..], i, Msd(bucket, d - 1));
    }
  }

  lemma HalfwayRoom(whole: seq<nat>, now: seq<nat>, left: nat, end: nat, i: nat, goal: seq<nat>, p: seq<nat>,
                    rest: seq<nat>)
    requires Halfway(whole, now, left, end, i, goal, p + rest)
    ensures i + |p| <= |now|
  {
  }

  lemma PourNothing(t: seq<nat>, at: nat, p: seq<nat>)
    requires at <= |t| && p == []
    ensures Poured(t, t, at, p)
  {
    assert t == t[..at] + [] + t[at..];
  }

  lemma MsdParts(s: seq<nat>, d: nat, v: nat)
    requires d >= 1 && v <= RADIX
    ensures v == 0 ==> Msd(s, d) == MsdFrom(s, d, 0)
    ensures v < RADIX ==> MsdFrom(s, d, v) == Msd(Bucket(s, d, v), d - 1) + MsdFrom(s, d, v + 1)
    ensures v < RADIX ==> |Msd(Bucket(s, d, v), d - 1)| == |Bucket(s, d, v)|
    ensures v == RADIX ==> MsdFrom(s, d, v) == []
  {
    if v < RADIX {
      MsdLength(Bucket(s, d, v), d - 1);
    }
  }

  lemma PouredPrefix(t: seq<nat>, u: seq<nat>, at: nat, p: seq<nat>, end: nat)
    requires Poured(t, u, at, p) && at + |p| <= end <= |t|
    ensures |u| == |t| && u[..at + |p|] == t[..at] + p && u[end..] == t[end..]
  {
  }

  lemma FirstAgrees(s: seq<nat>, t: seq<nat>)
    requires Sorted(s) && Sorted(t) && multiset(s) == multiset(t) && s != [] && t != []
    ensures s[0] == t[0]
  {
    SameMembers(s, t);
    assert s[0] in t && t[0] in s;
  }

  lemma Tails(s: seq<nat>, t: seq<nat>)
    requires multiset(s) == multiset(t) && s != [] && t != [] && s[0] == t[0]
    ensures multiset(s[1..]) == multiset(t[1..])
  {
    assert s == [s[0]] + s[1..] && t == [t[0]] + t[1..];
    assert multiset(s[1..]) == multiset(s) - multiset{s[0]};
    assert multiset(t[1..]) == multiset(t) - multiset{t[0]};
  }

  /** Two sorted permutations of the same keys are equal, so both sorts agree on all keys that have
      no more digits than there are passes. */
  lemma {:induction false} SortedIsUnique(s: seq<nat>, t: seq<nat>)
    requires Sorted(s) && Sorted(t) && multiset(s) == multiset(t)
    ensures s == t
  {
    SameLength(s, t);
    if s != [] {
      FirstAgrees(s, t);
      Tails(s, t);
      SortedIsUnique(s[1..], t[1..]);
      assert s == [s[0]] + s[1..] && t == [t[0]] + t[1..];
    }
  }

  lemma SmallSameHigh(s: seq<nat>, d: nat)
    requires forall x :: x in s ==> x < Pow10(d)
    ensures SameHigh(s, d)
  {
    forall x | x in s
      ensures x / Pow10(d) == 0
    {
      BitNumbers.DivModUnique(x, Pow10(d), 0, x);
    }
  }

  lemma MsdIsRight(s: seq<nat>, t: seq<nat>, d: nat)
    requires |Msd(s, d)| == |s| && Poured(s, t, 0, Msd(s, d))
    ensures t == Msd(s, d) && multiset(t) == multiset(s)
    ensures (forall x :: x in s ==> x < Pow10(d)) ==> Sorted(t)
  {
    hide Msd, Sorted, Pow10;
    assert t == Msd(s, d);
    MsdPermutes(s, d);
    if forall x :: x in s ==> x < Pow10(d) {
      SmallSameHigh(s, d);
      MsdSorts(s, d);
    }
  }

  /** The whole array, most significant digit first. */
  method MsdRadixSort(a: array<nat>)
    modifies a
    ensures multiset(a[..]) == multiset(old(a[..]))
    ensures (forall x :: x in old(a[..]) ==> x < Pow10(MAX_DIGIT)) ==> Sorted(a[..])
  {
    hide Msd, Sorted, Pow10, Poured;
    ghost var s := a[..];
    assert a[0..a.Length] == s;
    MsdSort(a, 0, a.Length - 1, MAX_DIGIT);
    MsdIsRight(s, a[..], MAX_DIGIT);
  }
}
