/** Quick sort with a median-of-three pivot, unguarded scans and an insertion-sort cutoff. */
module QuickSort {

  const CUTOFF := 1000

  ghost predicate Sorted(s: seq<int>) {
    forall i, j :: 0 <= i < j < |s| ==> s[i] <= s[j]
  }

  function Swapped(s: seq<int>, i: nat, j: nat): (t: seq<int>)
    requires i < |s| && j < |s|
    ensures |t| == |s|
  {
    s[i := s[j]][j := s[i]]
  }

  /** `t` is `s` with only the elements from `lo` up to `hi` rearranged. */
  ghost predicate Rearranged(s: seq<int>, t: seq<int>, lo: nat, hi: nat)
    requires lo <= hi <= |s|
  {
    && |t| == |s| && t[..lo] == s[..lo] && t[hi..] == s[hi..]
    && multiset(t[lo..hi]) == multiset(s[lo..hi])
  }

  lemma SwapRearranges(s: seq<int>, i: nat, j: nat, lo: nat, hi: nat)
    requires lo <= i < hi <= |s| && lo <= j < hi
    ensures Rearranged(s, Swapped(s, i, j), lo, hi)
  {
    var part, t := s[lo..hi], Swapped(s, i, j);
    assert t[lo..hi] == part[i - lo := part[j - lo]][j - lo := part[i - lo]];
    assert multiset(part[i - lo := part[j - lo]]) == multiset(part) - multiset{part[i - lo]} + multiset{part[j - lo]};
  }

  lemma RearrangedTrans(s: seq<int>, t: seq<int>, u: seq<int>, lo: nat, hi: nat)
    requires lo <= hi <= |s| && Rearranged(s, t, lo, hi) && Rearranged(t, u, lo, hi)
    ensures Rearranged(s, u, lo, hi)
  {
  }

  lemma SameRearranged(s: seq<int>, lo: nat, hi: nat)
    requires lo <= hi <= |s|
    ensures Rearranged(s, s, lo, hi)
  {
  }

  /** Rearranging a part rearranges the whole. */
  lemma RearrangedWider(s: seq<int>, t: seq<int>, lo: nat, hi: nat, l: nat, h: nat)
    requires lo <= l <= h <= hi <= |s| && Rearranged(s, t, l, h)
    ensures Rearranged(s, t, lo, hi)
  {
    assert s[lo..hi] == s[..l][lo..] + s[l..h] + s[h..][..hi - h];
    assert t[lo..hi] == t[..l][lo..] + t[l..h] + t[h..][..hi - h];
    assert t[..lo] == t[..l][..lo] && s[..lo] == s[..l][..lo];
    assert t[hi..] == t[h..][hi - h..] && s[hi..] == s[h..][hi - h..];
  }

  lemma CameFrom(s: seq<int>, t: seq<int>, lo: nat, hi: nat, i: nat) returns (j: nat)
    requires lo <= i < hi <= |s| && Rearranged(s, t, lo, hi)
    ensures lo <= j < hi && |t| == |s| && s[j] == t[i]
  {
    assert t[i] == t[lo..hi][i - lo];
    assert t[i] in multiset(t[lo..hi]);
    assert t[i] in multiset(s[lo..hi]);
    var k :| 0 <= k < hi - lo && s[lo..hi][k] == t[i];
    j := lo + k;
  }

  /** Bounds on the elements of a part survive its rearrangement. */
  lemma UpperBoundKept(s: seq<int>, t: seq<int>, lo: nat, hi: nat, p: int)
    requires lo <= hi <= |s| == |t| && Rearranged(s, t, lo, hi) && forall i :: lo <= i < hi ==> s[i] <= p
    ensures forall i :: lo <= i < hi ==> t[i] <= p
  {
    forall i | lo <= i < hi
      ensures t[i] <= p
    {
      var _ := CameFrom(s, t, lo, hi, i);
    }
  }

  lemma LowerBoundKept(s: seq<int>, t: seq<int>, lo: nat, hi: nat, p: int)
    requires lo <= hi <= |s| == |t| && Rearranged(s, t, lo, hi) && forall i :: lo <= i < hi ==> s[i] >= p
    ensures forall i :: lo <= i < hi ==> t[i] >= p
  {
    forall i | lo <= i < hi
      ensures t[i] >= p
    {
      var _ := CameFrom(s, t, lo, hi, i);
    }
  }

  lemma OutsideKept(s: seq<int>, t: seq<int>, lo: nat, hi: nat)
    requires lo <= hi <= |s| && Rearranged(s, t, lo, hi)
    ensures forall i :: 0 <= i < lo || hi <= i < |s| ==> t[i] == s[i]
  {
    forall i | 0 <= i < lo || hi <= i < |s|
      ensures t[i] == s[i]
    {
      if i < lo {
        assert t[i] == t[..lo][i];
        assert s[i] == s[..lo][i];
      } else {
        assert t[i] == t[hi..][i - hi];
        assert s[i] == s[hi..][i - hi];
      }
    }
  }

  method Swap(a: array<int>, i: nat, j: nat)
    requires i < a.Length && j < a.Length
    modifies a
    ensures a[..] == Swapped(old(a[..]), i, j)
    ensures a[i] == old(a[j]) && a[j] == old(a[i])
    ensures forall k :: 0 <= k < a.Length && k != i && k != j ==> a[k] == old(a[k])
  {
    var t := a[i];
    a[i] := a[j];
    a[j] := t;
  }

  /** A swap that continues a rearrangement of `s`. */
  method SwapIn(a: array<int>, i: nat, j: nat, ghost s: seq<int>, ghost lo: nat, ghost hi: nat)
    requires lo <= i < hi <= |s| == a.Length && lo <= j < hi && Rearranged(s, a[..], lo, hi)
    modifies a
    ensures Rearranged(s, a[..], lo, hi)
    ensures a[i] == old(a[j]) && a[j] == old(a[i])
    ensures forall k :: 0 <= k < a.Length && k != i && k != j ==> a[k] == old(a[k])
  {
    hide Rearranged;
    ghost var t := a[..];
    SwapRearranges(t, i, j, lo, hi);
    Swap(a, i, j);
    assert a[..] == Swapped(t, i, j);
    RearrangedLength(s, t, lo, hi);
    RearrangedTrans(s, t, Swapped(t, i, j), lo, hi);
  }

  lemma RearrangedLength(s: seq<int>, t: seq<int>, lo: nat, hi: nat)
    requires lo <= hi <= |s| && Rearranged(s, t, lo, hi)
    ensures |t| == |s|
  {
  }

  /** Swap two elements that are out of order. */
  method OrderPair(a: array<int>, i: nat, j: nat, ghost s: seq<int>, ghost lo: nat, ghost hi: nat)
    requires lo <= i < hi <= |s| == a.Length && lo <= j < hi && Rearranged(s, a[..], lo, hi)
    modifies a
    ensures Rearranged(s, a[..], lo, hi)
    ensures a[i] == (if old(a[i]) <= old(a[j]) then old(a[i]) else old(a[j]))
    ensures a[j] == (if old(a[i]) <= old(a[j]) then old(a[j]) else old(a[i]))
    ensures forall k :: 0 <= k < a.Length && k != i && k != j ==> a[k] == old(a[k])
  {
    hide Rearranged;
    if a[i] > a[j] {
      SwapIn(a, i, j, s, lo, hi);
    }
  }

  /** Order the first, middle and last element, and hide the median next to the last. */
  method Median3(a: array<int>, left: nat, right: nat) returns (pivot: int)
    requires left + 2 <= right < a.Length
    modifies a
    ensures Rearranged(old(a[..]), a[..], left, right + 1)
    ensures a[left] <= pivot <= a[right] && a[right - 1] == pivot
  {
    ghost var s := a[..];
    hide Rearranged;
    SameRearranged(s, left, right + 1);
    var center := (left + right) / 2;
    OrderPair(a, left, center, s, left, right + 1);
    OrderPair(a, left, right, s, left, right + 1);
    OrderPair(a, center, right, s, left, right + 1);
    SwapIn(a, center, right - 1, s, left, right + 1);
    pivot := a[right - 1];
  }

  // ----- partition

  /** Everything up to `low` is at most the pivot, everything from `high` on at least the pivot. */
  ghost predicate Split(s: seq<int>, left: nat, right: nat, low: int, high: int, pivot: int) {
    && left <= low < high < right < |s| && s[right - 1] == pivot
    && (forall i :: left <= i <= low ==> s[i] <= pivot)
    && (forall i :: high <= i <= right ==> s[i] >= pivot)
  }

  /** The scan to the right stops at the latest at the hidden pivot. */
  method ScanUp(a: array<int>, left: nat, right: nat, low: nat, high: nat, pivot: int) returns (l: nat)
    requires Split(a[..], left, right, low, high, pivot)
    ensures low < l < right && a[l] >= pivot
    ensures forall i :: left <= i < l ==> a[i] <= pivot
  {
    l := low + 1;
    while a[l] < pivot
      invariant low < l < right
      invariant forall i :: left <= i < l ==> a[i] <= pivot
      decreases right - l
    {
      l := l + 1;
    }
  }

  /** The scan to the left stops at the latest at the first element. */
  method ScanDown(a: array<int>, left: nat, right: nat, low: nat, high: nat, pivot: int) returns (h: nat)
    requires Split(a[..], left, right, low, high, pivot)
    ensures left <= h < high && a[h] <= pivot
    ensures forall i :: h < i <= right ==> a[i] >= pivot
  {
    h := high - 1;
    while a[h] > pivot
      invariant left <= h < high
      invariant forall i :: h < i <= right ==> a[i] >= pivot
      decreases h
    {
      h := h - 1;
    }
  }

  /** The scans have met: everything before `low` is at most the pivot, the rest at least. */
  ghost predicate Met(s: seq<int>, left: nat, right: nat, low: int, pivot: int) {
    && left < low < right < |s| && s[right - 1] == pivot && s[low] >= pivot
    && (forall i :: left <= i < low ==> s[i] <= pivot)
    && (forall i :: low < i <= right ==> s[i] >= pivot)
  }

  /** Both scans, and the swap of the elements they stopped at unless they have met. */
  method ScanAndSwap(a: array<int>, left: nat, right: nat, low: nat, high: nat, pivot: int, ghost s: seq<int>)
      returns (l: nat, h: nat, met: bool)
    requires Split(a[..], left, right, low, high, pivot) && |s| == a.Length && Rearranged(s, a[..], left, right + 1)
    modifies a
    ensures low < l && h < high && Rearranged(s, a[..], left, right + 1)
    ensures if met then Met(a[..], left, right, l, pivot) else Split(a[..], left, right, l, h, pivot)
  {
    hide Rearranged;
    l := ScanUp(a, left, right, low, high, pivot);
    h := ScanDown(a, left, right, low, high, pivot);
    met := l >= h;
    if !met {
      SwapIn(a, l, h, s, left, right + 1);
    }
  }

  /** Move smaller elements to the left of the pivot and greater ones to the right. */
  method Partition(a: array<int>, left: nat, right: nat) returns (low: nat)
    requires left + 2 < right < a.Length
    modifies a
    ensures left < low < right && Rearranged(old(a[..]), a[..], left, right + 1)
    ensures forall i :: left <= i < low ==> a[i] <= a[low]
    ensures forall i :: low < i <= right ==> a[i] >= a[low]
  {
    ghost var s := a[..];
    hide Rearranged;
    var pivot := Median3(a, left, right);
    low := left;
    var high := right - 1;
    var met := false;
    assert Split(a[..], left, right, low, high, pivot);
    hide Split, Met;
    while !met
      invariant Rearranged(s, a[..], left, right + 1)
      invariant if met then Met(a[..], left, right, low, pivot) else Split(a[..], left, right, low, high, pivot)
      decreases !met, high - low
    {
      SplitApart(a[..], left, right, low, high, pivot);
      low, high, met := ScanAndSwap(a, left, right, low, high, pivot, s);
    }
    PlacePivot(a, left, right, low, pivot, s);
  }

  lemma SplitApart(s: seq<int>, left: nat, right: nat, low: int, high: int, pivot: int)
    requires Split(s, left, right, low, high, pivot)
    ensures low < high
  {
  }

  method PlacePivot(a: array<int>, left: nat, right: nat, low: nat, pivot: int, ghost s: seq<int>)
    requires |s| == a.Length && Met(a[..], left, right, low, pivot) && Rearranged(s, a[..], left, right + 1)
    modifies a
    ensures left < low < right && Rearranged(s, a[..], left, right + 1)
    ensures forall i :: left <= i < low ==> a[i] <= a[low]
    ensures forall i :: low < i <= right ==> a[i] >= a[low]
  {
    hide Rearranged;
    SwapIn(a, low, right - 1, s, left, right + 1);
  }

  // ----- insertion sort

  /** `s` with the element at `p` moved down to `i`. */
  function Inserted(s: seq<int>, p: nat, i: nat): seq<int>
    requires i <= p < |s|
  {
    s[..i] + [s[p]] + s[i..p] + s[p + 1..]
  }

  lemma InsertedRearranges(s: seq<int>, p: nat, i: nat, lo: nat)
    requires lo <= i <= p < |s|
    ensures Rearranged(s, Inserted(s, p, i), lo, p + 1)
  {
    var t := Inserted(s, p, i);
    assert t[lo..p + 1] == s[lo..i] + [s[p]] + s[i..p];
    assert s[lo..p + 1] == s[lo..i] + s[i..p] + [s[p]];
    assert t[p + 1..] == s[p + 1..] && t[..lo] == s[..lo];
  }

  lemma InsertIntoRun(u: seq<int>, n: nat, x: int)
    requires n <= |u| && Sorted(u) && (n > 0 ==> u[n - 1] <= x) && (forall k :: n <= k < |u| ==> u[k] > x)
    ensures Sorted(u[..n] + [x] + u[n..])
  {
    var t := u[..n] + [x] + u[n..];
    assert forall k :: 0 <= k < n ==> u[k] <= x;
    forall i, j | 0 <= i < j < |t|
      ensures t[i] <= t[j]
    {
      assert t[i] == if i < n then u[i] else if i == n then x else u[i - 1];
      assert t[j] == if j < n then u[j] else if j == n then x else u[j - 1];
    }
  }

  lemma InsertedSorted(s: seq<int>, p: nat, i: nat, lo: nat)
    requires lo <= i <= p < |s| && Sorted(s[lo..p])
    requires i > lo ==> s[i - 1] <= s[p]
    requires forall k :: i <= k < p ==> s[k] > s[p]
    ensures Sorted(Inserted(s, p, i)[lo..p + 1])
  {
    hide Sorted;
    var u, n := s[lo..p], i - lo;
    assert n > 0 ==> u[n - 1] == s[i - 1];
    InsertIntoRun(u, n, s[p]);
    assert Inserted(s, p, i)[lo..p + 1] == u[..n] + [s[p]] + u[n..];
  }

  lemma ShortIsSorted(s: seq<int>)
    requires |s| <= 1
    ensures Sorted(s)
  {
  }

  /** `s` with the elements from `i` up to `p` copied one place up. */
  function Shifted(s: seq<int>, p: nat, i: nat): (t: seq<int>)
    requires i <= p < |s|
    ensures |t| == |s|
  {
    s[..i + 1] + s[i..p] + s[p + 1..]
  }

  lemma ShiftedStep(s: seq<int>, p: nat, i: nat)
    requires 0 < i <= p < |s|
    ensures Shifted(s, p, i)[i - 1] == s[i - 1]
    ensures Shifted(s, p, i)[i := s[i - 1]] == Shifted(s, p, i - 1)
  {
  }

  lemma ShiftedEnds(s: seq<int>, p: nat, i: nat)
    requires i <= p < |s|
    ensures Shifted(s, p, p) == s && Shifted(s, p, i)[i := s[p]] == Inserted(s, p, i)
  {
  }

  /** Shift greater elements up until the element at `p` has found its place. */
  method ShiftDown(a: array<int>, lo: nat, p: nat) returns (i: nat)
    requires lo <= p < a.Length
    modifies a
    ensures lo <= i <= p && a[..] == Inserted(old(a[..]), p, i)
    ensures i > lo ==> old(a[i - 1]) <= old(a[p])
    ensures forall k :: i <= k < p ==> old(a[k]) > old(a[p])
  {
    ghost var s := a[..];
    ShiftedEnds(s, p, p);
    hide Shifted, Inserted;
    var tmp := a[p];
    i := p;
    while i > lo && a[i - 1] > tmp
      invariant lo <= i <= p && a[..] == Shifted(s, p, i)
      invariant forall k :: i <= k < p ==> s[k] > tmp
    {
      ShiftedStep(s, p, i);
      assert a[i - 1] == a[..][i - 1];
      a[i] := a[i - 1];
      i := i - 1;
    }
    if i > lo {
      ShiftedStep(s, p, i);
      assert a[i - 1] == a[..][i - 1];
    }
    ShiftedEnds(s, p, i);
    a[i] := tmp;
  }

  /** Insert the element at `p` into the sorted run before it. */
  method InsertDown(a: array<int>, lo: nat, p: nat)
    requires lo <= p < a.Length && Sorted(a[lo..p])
    modifies a
    ensures Sorted(a[lo..p + 1]) && Rearranged(old(a[..]), a[..], lo, p + 1)
  {
    hide Sorted, Rearranged;
    ghost var s := a[..];
    assert s[lo..p] == a[lo..p];
    var i := ShiftDown(a, lo, p);
    InsertedSorted(s, p, i, lo);
    InsertedRearranges(s, p, i, lo);
    assert a[lo..p + 1] == a[..][lo..p + 1];
  }

  /** One more element of the range in place. */
  method InsertNext(a: array<int>, lo: nat, p: nat, hi: nat, ghost s: seq<int>)
    requires lo <= p < hi <= a.Length == |s| && Sorted(a[lo..p]) && Rearranged(s, a[..], lo, hi)
    modifies a
    ensures Sorted(a[lo..p + 1]) && Rearranged(s, a[..], lo, hi)
  {
    hide Sorted, Rearranged;
    ghost var t := a[..];
    InsertDown(a, lo, p);
    RearrangedWider(t, a[..], lo, hi, lo, p + 1);
    RearrangedTrans(s, t, a[..], lo, hi);
  }

  method InsertionSort(a: array<int>, lo: nat, hi: nat)
    requires lo <= hi <= a.Length
    modifies a
    ensures Sorted(a[lo..hi]) && Rearranged(old(a[..]), a[..], lo, hi)
  {
    hide Sorted, Rearranged;
    ghost var s := a[..];
    SameRearranged(s, lo, hi);
    if lo == hi {
      ShortIsSorted(a[lo..hi]);
      return;
    }
    ShortIsSorted(a[lo..lo + 1]);
    var p := lo + 1;
    while p < hi
      invariant lo < p <= hi && Sorted(a[lo..p]) && Rearranged(s, a[..], lo, hi)
    {
      InsertNext(a, lo, p, hi, s);
      p := p + 1;
    }
  }

  // ----- the recursion

  /** Two sorted parts around a pivot that bounds them form a sorted whole. */
  lemma SortedAround(s: seq<int>, left: nat, low: nat, right: nat)
    requires left <= low <= right < |s| && Sorted(s[left..low]) && Sorted(s[low + 1..right + 1])
    requires forall i :: left <= i < low ==> s[i] <= s[low]
    requires forall i :: low < i <= right ==> s[i] >= s[low]
    ensures Sorted(s[left..right + 1])
  {
    var t := s[left..right + 1];
    forall x, y | 0 <= x < y < |t|
      ensures t[x] <= t[y]
    {
      var n := low - left;
      assert y < n ==> t[x] == s[left..low][x] && t[y] == s[left..low][y];
      assert x > n ==> t[x] == s[low + 1..right + 1][x - n - 1] && t[y] == s[low + 1..right + 1][y - n - 1];
    }
  }

  /** What the two recursive calls leave behind. */
  lemma PartsSorted(s: seq<int>, t: seq<int>, u: seq<int>, left: nat, low: nat, right: nat)
    requires left <= low <= right < |s| == |t| == |u|
    requires forall i :: left <= i < low ==> s[i] <= s[low]
    requires forall i :: low < i <= right ==> s[i] >= s[low]
    requires Rearranged(s, t, left, low) && Rearranged(t, u, low + 1, right + 1)
    requires Sorted(t[left..low]) && Sorted(u[low + 1..right + 1])
    ensures Sorted(u[left..right + 1])
  {
    hide Rearranged, Sorted;
    OutsideKept(s, t, left, low);
    OutsideKept(t, u, low + 1, right + 1);
    UpperBoundKept(s, t, left, low, s[low]);
    LowerBoundKept(t, u, low + 1, right + 1, s[low]);
    assert u[left..low] == t[left..low];
    SortedAround(u, left, low, right);
  }

  lemma PartsRearranged(s: seq<int>, t: seq<int>, u: seq<int>, left: nat, low: nat, right: nat)
    requires left <= low <= right < |s| == |t| == |u|
    requires Rearranged(s, t, left, low) && Rearranged(t, u, low + 1, right + 1)
    ensures Rearranged(s, u, left, right + 1)
  {
    hide Rearranged;
    RearrangedWider(s, t, left, right + 1, left, low);
    RearrangedWider(t, u, left, right + 1, low + 1, right + 1);
    RearrangedTrans(s, t, u, left, right + 1);
  }

  method Qsort(a: array<int>, left: nat, right: int)
    requires left - 1 <= right < a.Length
    modifies a
    ensures Sorted(a[left..right + 1]) && Rearranged(old(a[..]), a[..], left, right + 1)
    decreases right - left + 1
  {
    hide Sorted, Rearranged;
    if CUTOFF <= right - left {
      ghost var s := a[..];
      var low := Partition(a, left, right);
      ghost var m := a[..];
      Qsort(a, left, low - 1);
      ghost var t := a[..];
      assert t[left..low] == a[left..low];
      Qsort(a, low + 1, right);
      assert a[..][low + 1..right + 1] == a[low + 1..right + 1];
      PartsSorted(m, t, a[..], left, low, right);
      PartsRearranged(m, t, a[..], left, low, right);
      RearrangedTrans(s, m, a[..], left, right + 1);
      assert a[..][left..right + 1] == a[left..right + 1];
    } else {
      InsertionSort(a, left, right + 1);
    }
  }

  /** Quick sort leaves a sorted permutation of every array. */
  method Sort(a: array<int>)
    modifies a
    ensures Sorted(a[..]) && multiset(a[..]) == multiset(old(a[..]))
  {
    Qsort(a, 0, a.Length - 1);
    assert a[0..a.Length] == a[..] && old(a[..])[0..a.Length] == old(a[..]) && a[..][0..a.Length] == a[..];
  }
}
