/** The shared in-place partition of `quickSort.cpp` and `topk.cpp`, and the two recursions on it. */
module Sorting {

  // ---------------------------------------------------------------------------
  // Rearranging a range by exchanges
  // ---------------------------------------------------------------------------

  ghost predicate Within(swaps: seq<(int, int)>, lo: int, hi: int) {
    forall k :: 0 <= k < |swaps| ==> lo <= swaps[k].0 < hi && lo <= swaps[k].1 < hi
  }

  ghost function Exchange(a: seq<int>, i: int, j: int): (b: seq<int>)
    requires 0 <= i < |a| && 0 <= j < |a|
    ensures |b| == |a|
  {
    a[i := a[j]][j := a[i]]
  }

  ghost function Exchanged(a: seq<int>, swaps: seq<(int, int)>): (b: seq<int>)
    requires Within(swaps, 0, |a|)
    ensures |b| == |a|
    decreases |swaps|
  {
    if swaps == [] then a else Exchanged(Exchange(a, swaps[0].0, swaps[0].1), swaps[1..])
  }

  /** `b` comes from `a` by exchanging elements inside `lo..hi`. */
  ghost predicate Rearranged(a: seq<int>, b: seq<int>, lo: int, hi: int) {
    && 0 <= lo <= hi <= |a|
    && exists swaps :: Within(swaps, lo, hi) && Within(swaps, 0, |a|) && Exchanged(a, swaps) == b
  }

  lemma {:induction false} ExchangedTwice(a: seq<int>, s: seq<(int, int)>, t: seq<(int, int)>)
    requires Within(s, 0, |a|) && Within(t, 0, |a|)
    ensures Within(s + t, 0, |a|) && Exchanged(a, s + t) == Exchanged(Exchanged(a, s), t)
    decreases |s|
  {
    if s == [] {
      assert s + t == t;
    } else {
      assert (s + t)[1..] == s[1..] + t;
      ExchangedTwice(Exchange(a, s[0].0, s[0].1), s[1..], t);
    }
  }

  lemma {:induction false} ExchangedOutside(a: seq<int>, s: seq<(int, int)>, lo: int, hi: int, k: int)
    requires Within(s, lo, hi) && Within(s, 0, |a|) && 0 <= k < |a| && !(lo <= k < hi)
    ensures Exchanged(a, s)[k] == a[k]
    decreases |s|
  {
    if s != [] {
      ExchangedOutside(Exchange(a, s[0].0, s[0].1), s[1..], lo, hi, k);
    }
  }

  lemma {:induction false} ExchangedFrom(a: seq<int>, s: seq<(int, int)>, lo: int, hi: int, k: int) returns (j: int)
    requires Within(s, lo, hi) && Within(s, 0, |a|) && 0 <= lo <= k < hi <= |a|
    ensures lo <= j < hi && Exchanged(a, s)[k] == a[j]
    decreases |s|
  {
    if s == [] {
      j := k;
    } else {
      j := ExchangedFrom(Exchange(a, s[0].0, s[0].1), s[1..], lo, hi, k);
      if j == s[0].1 { j := s[0].0; } else if j == s[0].0 { j := s[0].1; }
    }
  }

  lemma {:induction false} ExchangedMultiset(a: seq<int>, s: seq<(int, int)>)
    requires Within(s, 0, |a|)
    ensures multiset(Exchanged(a, s)) == multiset(a)
    decreases |s|
  {
    if s != [] {
      ExchangedMultiset(Exchange(a, s[0].0, s[0].1), s[1..]);
    }
  }

  /** A rearrangement is a permutation and leaves everything outside its range alone. */
  lemma RearrangedIsPermutation(a: seq<int>, b: seq<int>, lo: int, hi: int)
    requires Rearranged(a, b, lo, hi)
    ensures |a| == |b| && multiset(a) == multiset(b)
    ensures forall k :: 0 <= k < |a| && !(lo <= k < hi) ==> b[k] == a[k]
  {
    var s :| Within(s, lo, hi) && Within(s, 0, |a|) && Exchanged(a, s) == b;
    ExchangedMultiset(a, s);
    forall k | 0 <= k < |a| && !(lo <= k < hi) ensures b[k] == a[k] {
      ExchangedOutside(a, s, lo, hi, k);
    }
  }

  lemma RearrangedNot(a: seq<int>, lo: int, hi: int)
    requires 0 <= lo <= hi <= |a|
    ensures Rearranged(a, a, lo, hi)
  {
    assert Exchanged(a, []) == a;
  }

  lemma RearrangedOnce(a: seq<int>, b: seq<int>, lo: int, hi: int, i: int, j: int)
    requires 0 <= lo <= i < hi <= |a| && lo <= j < hi && b == Exchange(a, i, j)
    ensures Rearranged(a, b, lo, hi)
  {
    assert Exchanged(b, []) == b;
    assert [(i, j)][1..] == [];
    assert Exchanged(a, [(i, j)]) == b;
  }

  lemma RearrangedTrans(a: seq<int>, b: seq<int>, c: seq<int>, lo: int, hi: int)
    requires Rearranged(a, b, lo, hi) && Rearranged(b, c, lo, hi)
    ensures Rearranged(a, c, lo, hi)
  {
    var s :| Within(s, lo, hi) && Within(s, 0, |a|) && Exchanged(a, s) == b;
    var t :| Within(t, lo, hi) && Within(t, 0, |b|) && Exchanged(b, t) == c;
    ExchangedTwice(a, s, t);
    assert Within(s + t, lo, hi);
  }

  /** Rearranging a part of a range rearranges the range. */
  lemma Widen(a: seq<int>, b: seq<int>, lo: int, hi: int, l: int, h: int)
    requires Rearranged(a, b, l, h) && 0 <= lo <= l && h <= hi <= |a|
    ensures Rearranged(a, b, lo, hi)
  {
    var s :| Within(s, l, h) && Within(s, 0, |a|) && Exchanged(a, s) == b;
    assert Within(s, lo, hi);
  }

  /** A bound on a range survives rearranging it. */
  lemma BoundsSurvive(a: seq<int>, b: seq<int>, lo: int, hi: int, p: int)
    requires Rearranged(a, b, lo, hi)
    ensures |a| == |b|
    ensures (forall k :: lo <= k < hi ==> a[k] <= p) ==> (forall k :: lo <= k < hi ==> b[k] <= p)
    ensures (forall k :: lo <= k < hi ==> p <= a[k]) ==> (forall k :: lo <= k < hi ==> p <= b[k])
  {
    var s :| Within(s, lo, hi) && Within(s, 0, |a|) && Exchanged(a, s) == b;
    forall k | lo <= k < hi
      ensures exists j :: lo <= j < hi && a[j] == b[k]
    {
      var j := ExchangedFrom(a, s, lo, hi, k);
    }
  }

  // ---------------------------------------------------------------------------
  // The partition
  // ---------------------------------------------------------------------------

  /** Everything up to `i` is at most `a[i]`, everything after it at least. */
  ghost predicate Split(a: seq<int>, lo: int, hi: int, i: int) {
    && 0 <= lo <= i < hi <= |a|
    && (forall k :: lo <= k < i ==> a[k] <= a[i])
    && (forall k :: i < k < hi ==> a[i] <= a[k])
  }

  /** `std::swap` of two elements of the range; `a` is the content the rearranging started from. */
  method Swap(nums: array<int>, i: int, j: int, ghost lo: int, ghost hi: int, ghost a: seq<int>)
    requires 0 <= lo <= i < hi <= nums.Length && lo <= j < hi
    requires Rearranged(a, nums[..], lo, hi)
    modifies nums
    ensures nums[i] == old(nums[j]) && nums[j] == old(nums[i])
    ensures forall k :: 0 <= k < nums.Length && k != i && k != j ==> nums[k] == old(nums[k])
    ensures Rearranged(a, nums[..], lo, hi)
  {
    ghost var b := nums[..];
    nums[i], nums[j] := nums[j], nums[i];
    assert nums[..] == Exchange(b, i, j);
    RearrangedOnce(b, nums[..], lo, hi, i, j);
    RearrangedTrans(a, b, nums[..], lo, hi);
  }

  /** The body shared by `topkhelper` and `quickSort` up to the recursion: the pivot is the leftmost
      element and stays there until the last swap, and the element where the scans meet is no larger. */
  method Partition(nums: array<int>, left: int, right: int) returns (i: int)
    requires 0 <= left < right < nums.Length
    modifies nums
    ensures left <= i <= right && nums[i] == old(nums[left])
    ensures Split(nums[..], left, right + 1, i)
    ensures Rearranged(old(nums[..]), nums[..], left, right + 1)
  {
    ghost var a := nums[..];
    RearrangedNot(a, left, right + 1);
    i := left;
    var j := right;
    var p := nums[left];
    while i < j
      invariant left <= i <= j <= right && nums[left] == p
      invariant forall k :: left <= k <= i ==> nums[k] <= p
      invariant forall k :: j < k <= right ==> p <= nums[k]
      invariant Rearranged(a, nums[..], left, right + 1)
      decreases j - i
    {
      while i < j && p <= nums[j]
        invariant i <= j <= right
        invariant forall k :: j < k <= right ==> p <= nums[k]
      {
        j := j - 1;
      }
      assert nums[j] <= p;
      while i < j && nums[i] <= p
        invariant left <= i <= j
        invariant forall k :: left <= k < i ==> nums[k] <= p
      {
        i := i + 1;
      }
      Swap(nums, i, j, left, right + 1, a);
    }
    Swap(nums, left, i, left, right + 1, a);
  }

  ghost predicate Sorted(a: seq<int>, lo: int, hi: int) {
    0 <= lo <= hi <= |a| && forall i, j :: lo <= i < j < hi ==> a[i] <= a[j]
  }

  /** Sorting the two sides of a split sorts the range. */
  lemma JoinSorted(a: seq<int>, lo: int, hi: int, i: int)
    requires Split(a, lo, hi, i) && Sorted(a, lo, i) && Sorted(a, i + 1, hi)
    ensures Sorted(a, lo, hi)
  {
    forall j, k | lo <= j < k < hi
      ensures a[j] <= a[k]
    {
      if j < i < k { assert a[j] <= a[i] <= a[k]; }
    }
  }

  /** Rearranging one side of a split keeps it a split. */
  lemma SplitSurvives(a: seq<int>, b: seq<int>, lo: int, hi: int, i: int, l: int, h: int)
    requires Split(a, lo, hi, i) && Rearranged(a, b, l, h) && ((l == lo && h == i) || (l == i + 1 && h == hi))
    ensures Split(b, lo, hi, i) && b[i] == a[i]
  {
    BoundsSurvive(a, b, l, h, a[i]);
    RearrangedIsPermutation(a, b, l, h);
  }

  lemma SortedSurvives(a: seq<int>, b: seq<int>, lo: int, hi: int, l: int, h: int)
    requires Sorted(a, lo, hi) && Rearranged(a, b, l, h) && (hi <= l || h <= lo)
    ensures Sorted(b, lo, hi)
  {
    RearrangedIsPermutation(a, b, l, h);
  }

  /** What the two recursive calls add up to. */
  lemma SortedBySides(a: seq<int>, b: seq<int>, c: seq<int>, d: seq<int>, lo: int, hi: int, i: int)
    requires Rearranged(a, b, lo, hi) && Split(b, lo, hi, i)
    requires Rearranged(b, c, lo, i) && Sorted(c, lo, i)
    requires Rearranged(c, d, i + 1, hi) && Sorted(d, i + 1, hi)
    ensures Rearranged(a, d, lo, hi) && Sorted(d, lo, hi)
  {
    SplitSurvives(b, c, lo, hi, i, lo, i);
    SplitSurvives(c, d, lo, hi, i, i + 1, hi);
    SortedSurvives(c, d, lo, i, i + 1, hi);
    JoinSorted(d, lo, hi, i);
    Widen(b, c, lo, hi, lo, i);
    Widen(c, d, lo, hi, i + 1, hi);
    RearrangedTrans(a, b, c, lo, hi);
    RearrangedTrans(a, c, d, lo, hi);
  }

  method QuickSort(nums: array<int>, left: int, right: int)
    requires 0 <= left <= right + 1 <= nums.Length
    modifies nums
    ensures Sorted(nums[..], left, right + 1)
    ensures Rearranged(old(nums[..]), nums[..], left, right + 1)
    decreases right - left
  {
    ghost var a := nums[..];
    if left < right {
      var i := Partition(nums, left, right);
      ghost var b := nums[..];
      QuickSort(nums, left, i - 1);
      ghost var c := nums[..];
      QuickSort(nums, i + 1, right);
      SortedBySides(a, b, c, nums[..], left, right + 1, i);
    } else {
      RearrangedNot(a, left, right + 1);
    }
  }

  /** Everything up to and including position `k` is at most everything after it. */
  ghost predicate Selected(a: seq<int>, lo: int, hi: int, k: int) {
    0 <= lo <= hi <= |a| && forall i, j :: lo <= i <= k < j < hi ==> a[i] <= a[j]
  }

  /** After selecting on the side that contains `k`, the whole range is selected. */
  lemma JoinSelected(a: seq<int>, lo: int, hi: int, i: int, k: int)
    requires Split(a, lo, hi, i)
    requires (i < k ==> Selected(a, i + 1, hi, k)) && (i > k ==> Selected(a, lo, i, k))
    ensures Selected(a, lo, hi, k)
  {
    forall x, y | lo <= x <= k < y < hi
      ensures a[x] <= a[y]
    {
      if x <= i <= y { assert x == i || a[x] <= a[i]; assert y == i || a[i] <= a[y]; }
    }
  }

  /** What the partition and the recursion into one side, or none, add up to. */
  lemma SelectedBySide(a: seq<int>, b: seq<int>, c: seq<int>, lo: int, hi: int, i: int, k: int)
    requires Rearranged(a, b, lo, hi) && Split(b, lo, hi, i)
    requires if i < k then Rearranged(b, c, i + 1, hi) && Selected(c, i + 1, hi, k)
             else if i > k then Rearranged(b, c, lo, i) && Selected(c, lo, i, k)
             else c == b
    ensures Rearranged(a, c, lo, hi) && Selected(c, lo, hi, k)
  {
    var l, h := if i < k then i + 1 else lo, if i > k then i else hi;
    if i != k {
      SplitSurvives(b, c, lo, hi, i, l, h);
      Widen(b, c, lo, hi, l, h);
      RearrangedTrans(a, b, c, lo, hi);
    }
    JoinSelected(c, lo, hi, i, k);
  }

  method TopKHelper(input: array<int>, k: int, left: int, right: int)
    requires 0 <= left <= right + 1 <= input.Length
    modifies input
    ensures Selected(input[..], left, right + 1, k)
    ensures Rearranged(old(input[..]), input[..], left, right + 1)
    decreases right - left
  {
    ghost var a := input[..];
    if left < right {
      var i := Partition(input, left, right);
      ghost var b := input[..];
      if i < k {
        TopKHelper(input, k, i + 1, right);
      } else if i > k {
        TopKHelper(input, k, left, i - 1);
      }
      SelectedBySide(a, b, input[..], left, right + 1, i, k);
    } else {
      RearrangedNot(a, left, right + 1);
    }
  }

  /** The `k` first elements after selection: a rearrangement of the vector puts them in front, and none
      of them exceeds any of the rest. */
  method TopK(input: array<int>, k: int) returns (ans: seq<int>)
    requires 0 <= k <= input.Length
    modifies input
    ensures multiset(input[..]) == multiset(old(input[..]))
    ensures ans == input[..k]
    ensures forall i, j :: 0 <= i < k <= j < input.Length ==> ans[i] <= input[j]
  {
    ghost var a := input[..];
    TopKHelper(input, k - 1, 0, input.Length - 1);
    RearrangedIsPermutation(a, input[..], 0, |a|);
    ans := [];
    for i := 0 to k
      invariant ans == input[..i]
    {
      ans := ans + [input[i]];
    }
  }
}
