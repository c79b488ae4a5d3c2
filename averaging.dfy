/**
 The trimmed mean of update_eosusd_oracle (contract/oracle.cpp:170-189).

 The contract reads the window through its secondary index `by_value`, an ascending
 ordering of the records by value. Only the values matter to the average, so the index is
 modelled as `SortAsc` of the window's values; `SortedUnique` shows that every ascending
 permutation of the same values is that sequence, whatever order the storage engine gives
 records with equal values.
 */
module Averaging {

  predicate IsSorted(s: seq<int>)
  {
    forall i, j :: 0 <= i < j < |s| ==> s[i] <= s[j]
  }

  /** Sum of a sequence, from the last element back. */
  function Sum(s: seq<int>): int
  {
    if s == [] then 0 else Sum(s[..|s| - 1]) + s[|s| - 1]
  }

  /** Inserts `x` into an ascending sequence, keeping it ascending. */
  function Insert(x: int, s: seq<int>): (r: seq<int>)
    requires IsSorted(s)
    ensures IsSorted(r)
    ensures multiset(r) == multiset(s) + multiset{x}
    ensures |r| == |s| + 1
  {
    if s == [] then [x]
    else if x <= s[0] then
      SortedCons(x, s);
      [x] + s
    else
      var tail := Insert(x, s[1..]);
      assert s == [s[0]] + s[1..];
      assert tail[0] in multiset(s[1..]) + multiset{x};
      assert tail[0] == x || tail[0] in s[1..];
      SortedCons(s[0], tail);
      [s[0]] + tail
  }

  /** Putting a value no larger than the head in front of an ascending sequence keeps it ascending. */
  lemma SortedCons(a: int, t: seq<int>)
    requires IsSorted(t)
    requires t == [] || a <= t[0]
    ensures IsSorted([a] + t)
  {
    var r := [a] + t;
    forall i, j | 0 <= i < j < |r|
      ensures r[i] <= r[j]
    {
      if i > 0 {
        assert r[i] == t[i - 1] && r[j] == t[j - 1];
      } else {
        assert r[j] == t[j - 1] && t[0] <= t[j - 1];
      }
    }
  }

  /** Putting a value no smaller than every element after an ascending sequence keeps it ascending. */
  lemma SortedSnoc(t: seq<int>, a: int)
    requires IsSorted(t)
    requires forall k :: 0 <= k < |t| ==> t[k] <= a
    ensures IsSorted(t + [a])
  {
    var r := t + [a];
    forall i, j | 0 <= i < j < |r|
      ensures r[i] <= r[j]
    {
      assert r[i] == t[i];
    }
  }

  /** The ascending permutation of `s`: the values as the `by_value` index lists them. */
  function SortAsc(s: seq<int>): (r: seq<int>)
    ensures IsSorted(r)
    ensures multiset(r) == multiset(s)
    ensures |r| == |s|
  {
    if s == [] then []
    else
      assert s == [s[0]] + s[1..];
      Insert(s[0], SortAsc(s[1..]))
  }

  /** Two ascending sequences holding the same values are the same sequence. */
  lemma {:induction false} SortedUnique(a: seq<int>, b: seq<int>)
    requires IsSorted(a) && IsSorted(b)
    requires multiset(a) == multiset(b)
    ensures a == b
  {
    assert |b| == |multiset(b)| == |multiset(a)| == |a|;
    if a != [] {
      var a', b' := a[1..], b[1..];
      SameHead(a, b);
      SortedUnique(a', b');
      assert a == [a[0]] + a' && b == [b[0]] + b';
    }
  }

  /** Ascending sequences with the same values start alike and continue with the same values. */
  lemma SameHead(a: seq<int>, b: seq<int>)
    requires IsSorted(a) && IsSorted(b)
    requires multiset(a) == multiset(b) && a != [] && b != []
    ensures a[0] == b[0]
    ensures IsSorted(a[1..]) && IsSorted(b[1..])
    ensures multiset(a[1..]) == multiset(b[1..])
  {
    HeadIsLeast(b, a[0]);
    HeadIsLeast(a, b[0]);
    TailMultiset(a);
    TailMultiset(b);
    SortedTail(a);
    SortedTail(b);
  }

  /** The head of an ascending sequence is at most each of its values. */
  lemma HeadIsLeast(s: seq<int>, x: int)
    requires IsSorted(s) && x in multiset(s)
    ensures s[0] <= x
  {
    var k :| 0 <= k < |s| && s[k] == x;
  }

  lemma SortedTail(s: seq<int>)
    requires IsSorted(s) && s != []
    ensures IsSorted(s[1..])
  {
  }

  lemma TailMultiset(s: seq<int>)
    requires s != []
    ensures multiset(s[1..]) == multiset(s) - multiset{s[0]}
  {
    assert s == [s[0]] + s[1..];
  }

  /** Sorted position of the first value summed: five `itr++` past `begin()`, then one more. */
  const FIRST_KEPT: nat := 6

  /** Number of values summed. */
  const KEPT: nat := 9

  /**
   The average stored on a new record once the window is full: the integer mean of the
   values at ascending positions 6..14 of the 21 values, so that the 6 lowest and the 6
   highest are left out.
   */
  function TrimmedMean(values: seq<int>): int
    requires |values| == 21
  {
    Sum(SortAsc(values)[FIRST_KEPT..FIRST_KEPT + KEPT]) / KEPT
  }

  /**
   The summing loop of update_eosusd_oracle (contract/oracle.cpp:174-185) over the
   value index: skip five positions, then advance once before each of nine reads.
   */
  method SumTrimmed(sorted: seq<int>) returns (avg: int)
    requires |sorted| >= FIRST_KEPT + KEPT
    ensures avg == Sum(sorted[FIRST_KEPT..FIRST_KEPT + KEPT])
  {
    avg := 0;
    var itr := 0;
    itr := itr + 5;
    var i := 0;
    while i < KEPT
      invariant 0 <= i <= KEPT
      invariant itr == 5 + i
      invariant avg == Sum(sorted[FIRST_KEPT..itr + 1])
    {
      itr := itr + 1;
      assert sorted[FIRST_KEPT..itr + 1][..itr - FIRST_KEPT] == sorted[FIRST_KEPT..itr];
      avg := avg + sorted[itr];
      i := i + 1;
    }
  }

  /** Bounds on a sum from bounds on its elements. */
  lemma {:induction false} SumBounds(s: seq<int>, lo: int, hi: int)
    requires forall k :: 0 <= k < |s| ==> lo <= s[k] <= hi
    ensures |s| * lo <= Sum(s) <= |s| * hi
  {
    if s != [] {
      var init := s[..|s| - 1];
      SumBounds(init, lo, hi);
      assert |s| * lo == |init| * lo + lo;
      assert |s| * hi == |init| * hi + hi;
    }
  }

  /**
   The trimmed mean lies between the 7th and the 15th smallest value, and so within any
   range that holds every value.
   */
  lemma TrimmedMeanBounds(values: seq<int>, lo: int, hi: int)
    requires |values| == 21
    requires forall k :: 0 <= k < |values| ==> lo <= values[k] <= hi
    ensures SortAsc(values)[6] <= TrimmedMean(values) <= SortAsc(values)[14]
    ensures lo <= TrimmedMean(values) <= hi
  {
    var s := SortAsc(values);
    var kept := s[FIRST_KEPT..FIRST_KEPT + KEPT];
    forall k | 0 <= k < |kept|
      ensures s[6] <= kept[k] <= s[14]
    {
      assert kept[k] == s[6 + k];
    }
    SumBounds(kept, s[6], s[14]);
    ElementOfSorted(values, 6);
    ElementOfSorted(values, 14);
  }

  /** Each element of `SortAsc(values)` is one of the values. */
  lemma ElementOfSorted(values: seq<int>, k: nat)
    requires k < |values|
    ensures SortAsc(values)[k] in values
  {
    assert SortAsc(values)[k] in multiset(SortAsc(values));
  }

  /** An upper bound on every value bounds every sorted value. */
  lemma SortKeepsUpperBound(values: seq<int>, x: int)
    requires forall k :: 0 <= k < |values| ==> values[k] <= x
    ensures forall k :: 0 <= k < |values| ==> SortAsc(values)[k] <= x
  {
    forall k | 0 <= k < |values|
      ensures SortAsc(values)[k] <= x
    {
      ElementOfSorted(values, k);
    }
  }

  /** A lower bound on every value bounds every sorted value. */
  lemma SortKeepsLowerBound(values: seq<int>, x: int)
    requires forall k :: 0 <= k < |values| ==> x <= values[k]
    ensures forall k :: 0 <= k < |values| ==> x <= SortAsc(values)[k]
  {
    forall k | 0 <= k < |values|
      ensures x <= SortAsc(values)[k]
    {
      ElementOfSorted(values, k);
    }
  }

  /** The trimmed mean depends only on the multiset of values, not on their order. */
  lemma TrimmedMeanPermutation(a: seq<int>, b: seq<int>)
    requires |a| == 21
    requires multiset(a) == multiset(b)
    ensures |b| == 21
    ensures TrimmedMean(a) == TrimmedMean(b)
  {
    assert |b| == |multiset(b)| == |multiset(a)| == |a|;
    SortedUnique(SortAsc(a), SortAsc(b));
  }

  /**
   Given the 21 values in any order, the trimmed mean is the mean of the values at
   ascending positions 6..14.
   */
  lemma TrimmedMeanOfSorted(values: seq<int>, sorted: seq<int>)
    requires |values| == 21
    requires IsSorted(sorted) && multiset(sorted) == multiset(values)
    requires |sorted| == 21
    ensures TrimmedMean(values) == Sum(sorted[6..15]) / 9
  {
    SortedUnique(SortAsc(values), sorted);
  }

  /**
   A value at least as large as the other 20 does not move the trimmed mean, whatever it
   is: a single high outlier cannot raise the published average.
   */
  lemma HighOutlierIgnored(others: seq<int>, x: int)
    requires |others| == 20
    requires forall k :: 0 <= k < |others| ==> others[k] <= x
    ensures TrimmedMean(others + [x]) == Sum(SortAsc(others)[6..15]) / 9
  {
    var s := SortAsc(others);
    SortKeepsUpperBound(others, x);
    SortedSnoc(s, x);
    assert multiset(s + [x]) == multiset(others + [x]);
    TrimmedMeanOfSorted(others + [x], s + [x]);
    SliceBeforeLast(s, x, 6, 15);
  }

  lemma SliceBeforeLast(t: seq<int>, a: int, i: nat, j: nat)
    requires i <= j <= |t|
    ensures (t + [a])[i..j] == t[i..j]
  {
  }

  lemma SliceAfterFirst(a: int, t: seq<int>, i: nat, j: nat)
    requires 1 <= i <= j <= |t| + 1
    ensures ([a] + t)[i..j] == t[i - 1..j - 1]
  {
  }

  /**
   A value at most as large as the other 20 does not move the trimmed mean either: a
   single low outlier cannot lower the published average.
   */
  lemma LowOutlierIgnored(others: seq<int>, x: int)
    requires |others| == 20
    requires forall k :: 0 <= k < |others| ==> x <= others[k]
    ensures TrimmedMean(others + [x]) == Sum(SortAsc(others)[5..14]) / 9
  {
    var s := SortAsc(others);
    SortKeepsLowerBound(others, x);
    SortedCons(x, s);
    assert multiset([x] + s) == multiset(others + [x]);
    TrimmedMeanOfSorted(others + [x], [x] + s);
    SliceAfterFirst(x, s, 6, 15);
  }
}
