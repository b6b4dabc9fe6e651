/**
 * `calculateMedian` of src/lib/scrapers/scraper-service.ts: the list is
 * sorted in place in ascending numeric order, then its middle element (odd
 * length) or the mean of its two middle elements (even length) is returned.
 */
module Median {

  predicate Sorted(s: seq<int>) {
    forall i, j :: 0 <= i < j < |s| ==> s[i] <= s[j]
  }

  /** `x` put into a sorted list before the first element not below it */
  function Insert(x: int, s: seq<int>): (r: seq<int>)
    requires Sorted(s)
    ensures Sorted(r) && multiset(r) == multiset(s) + multiset{x} && |r| == |s| + 1
  {
    if s == [] then [x]
    else if x <= s[0] then
      BelowFirst(x, s);
      ConsSorted(x, s);
      [x] + s
    else
      SortedTail(s);
      var rest := Insert(x, s[1..]);
      BelowFirst(s[0], s);
      BoundedByElements(s[0], rest, s[1..], x);
      ConsSorted(s[0], rest);
      assert s == [s[0]] + s[1..];
      [s[0]] + rest
  }

  /** A value at most the first of a sorted list is at most each of its elements */
  lemma BelowFirst(x: int, s: seq<int>)
    requires Sorted(s) && s != [] && x <= s[0]
    ensures forall k :: 0 <= k < |s| ==> x <= s[k]
  {
  }

  /** A sorted list stays sorted with a value in front that is at most each of its elements */
  lemma ConsSorted(x: int, s: seq<int>)
    requires Sorted(s) && forall k :: 0 <= k < |s| ==> x <= s[k]
    ensures Sorted([x] + s)
  {
    forall i, j | 0 <= i < j < |[x] + s| ensures ([x] + s)[i] <= ([x] + s)[j] {
      assert ([x] + s)[j] == s[j - 1];
      if i > 0 {
        assert ([x] + s)[i] == s[i - 1];
      }
    }
  }

  /** A lower bound on the elements of `t` and on `x` bounds a list with the elements of `t` and `x` */
  lemma BoundedByElements(lo: int, r: seq<int>, t: seq<int>, x: int)
    requires multiset(r) == multiset(t) + multiset{x} && lo <= x
    requires forall k :: 0 <= k < |t| ==> lo <= t[k]
    ensures forall k :: 0 <= k < |r| ==> lo <= r[k]
  {
    forall k | 0 <= k < |r| ensures lo <= r[k] {
      assert r[k] in multiset(r);
      if r[k] != x {
        assert r[k] in multiset(t);
        var i :| 0 <= i < |t| && t[i] == r[k];
      }
    }
  }

  /** The ascending order of a list: a sorted permutation of it */
  function SortSeq(s: seq<int>): (r: seq<int>)
    ensures Sorted(r) && multiset(r) == multiset(s) && |r| == |s|
  {
    if s == [] then []
    else
      assert s == [s[0]] + s[1..];
      Insert(s[0], SortSeq(s[1..]))
  }

  /** Two sorted lists with the same elements are the same list */
  lemma {:induction false} SortedUnique(a: seq<int>, b: seq<int>)
    requires Sorted(a) && Sorted(b) && multiset(a) == multiset(b)
    ensures a == b
    decreases |a|
  {
    assert |a| == |multiset(a)| == |multiset(b)| == |b|;
    if a != [] {
      SameLeast(a, b);
      SortedUnique(a[1..], b[1..]);
      assert a == [a[0]] + a[1..] && b == [b[0]] + b[1..];
    }
  }

  /** Two non-empty sorted lists with the same elements start alike, and so do their tails */
  lemma SameLeast(a: seq<int>, b: seq<int>)
    requires Sorted(a) && Sorted(b) && multiset(a) == multiset(b) && a != [] && b != []
    ensures a[0] == b[0] && Sorted(a[1..]) && Sorted(b[1..]) && multiset(a[1..]) == multiset(b[1..])
  {
    LeastIsFirst(a, b);
    LeastIsFirst(b, a);
    SortedTail(a);
    SortedTail(b);
    TailMultiset(a);
    TailMultiset(b);
  }

  /** The first of a sorted list is at most every element of a list with the same elements */
  lemma LeastIsFirst(a: seq<int>, b: seq<int>)
    requires Sorted(a) && multiset(a) == multiset(b) && b != []
    ensures a != [] && a[0] <= b[0]
  {
    assert b[0] in multiset(a);
    var k :| 0 <= k < |a| && a[k] == b[0];
  }

  lemma SortedTail(a: seq<int>)
    requires Sorted(a) && a != []
    ensures Sorted(a[1..])
  {
    forall i, j | 0 <= i < j < |a[1..]| ensures a[1..][i] <= a[1..][j] {
      assert a[1..][i] == a[i + 1] && a[1..][j] == a[j + 1];
    }
  }

  lemma TailMultiset(a: seq<int>)
    requires a != []
    ensures multiset(a[1..]) == multiset(a) - multiset{a[0]}
  {
    assert a == [a[0]] + a[1..];
  }

  /** The middle of an ascending list, as `calculateMedian` reads it */
  function MiddleOf(sorted: seq<int>): real
    requires |sorted| > 0
  {
    var middle := |sorted| / 2;
    if |sorted| % 2 == 0 then (sorted[middle - 1] + sorted[middle]) as real / 2.0
    else sorted[middle] as real
  }

  /** The median of a non-empty list of numbers */
  function MedianOf(s: seq<int>): real
    requires |s| > 0
  {
    MiddleOf(SortSeq(s))
  }

  /**
   * `calculateMedian`: `numbers` is left sorted (Array.prototype.sort with a
   * numeric comparator), and the middle is read from it.
   */
  method CalculateMedian(numbers: array<int>) returns (median: real)
    requires numbers.Length > 0
    modifies numbers
    ensures Sorted(numbers[..]) && multiset(numbers[..]) == multiset(old(numbers[..]))
    ensures median == MedianOf(old(numbers[..]))
  {
    var sorted := SortSeq(numbers[..]);
    var i := 0;
    while i < numbers.Length
      invariant 0 <= i <= numbers.Length
      invariant forall k :: 0 <= k < i ==> numbers[k] == sorted[k]
    {
      numbers[i] := sorted[i];
      i := i + 1;
    }
    assert numbers[..] == sorted;
    var middle := numbers.Length / 2;
    if numbers.Length % 2 == 0 {
      median := (numbers[middle - 1] + numbers[middle]) as real / 2.0;
    } else {
      median := numbers[middle] as real;
    }
  }

  /** The median does not depend on the order of the numbers */
  lemma MedianIgnoresOrder(s: seq<int>, t: seq<int>)
    requires |s| > 0 && multiset(s) == multiset(t)
    ensures |t| > 0 && MedianOf(s) == MedianOf(t)
  {
    assert |s| == |multiset(s)| == |multiset(t)| == |t|;
    SortedUnique(SortSeq(s), SortSeq(t));
  }

  /** The median of a sorted list is its middle */
  lemma MedianOfSorted(s: seq<int>)
    requires |s| > 0 && Sorted(s)
    ensures MedianOf(s) == MiddleOf(s)
  {
    SortedUnique(SortSeq(s), s);
  }

  /** A one-element list has that element as its median */
  lemma MedianOfOne(x: int)
    ensures MedianOf([x]) == x as real
  {
    MedianOfSorted([x]);
  }

  /** An odd-length list has a median that is one of its elements */
  lemma OddMedianIsAnElement(s: seq<int>)
    requires |s| % 2 == 1
    ensures exists i :: 0 <= i < |s| && MedianOf(s) == s[i] as real
  {
    var r := SortSeq(s);
    var m := |s| / 2;
    assert r[m] in multiset(s);
    assert r[m] in s;
  }

  /** Bounds on the numbers bound their median */
  lemma MedianWithin(s: seq<int>, lo: int, hi: int)
    requires |s| > 0
    requires forall x :: x in s ==> lo <= x <= hi
    ensures lo as real <= MedianOf(s) <= hi as real
  {
    var r := SortSeq(s);
    forall k | 0 <= k < |r| ensures lo <= r[k] <= hi {
      assert r[k] in multiset(s);
      assert r[k] in s;
    }
  }

  /** The least number of a non-empty list */
  function Min(s: seq<int>): (m: int)
    requires |s| > 0
    ensures m in s && forall x :: x in s ==> m <= x
  {
    if |s| == 1 then s[0]
    else
      var rest := Min(s[1..]);
      assert s == [s[0]] + s[1..];
      if s[0] <= rest then s[0] else rest
  }

  /** The greatest number of a non-empty list */
  function Max(s: seq<int>): (m: int)
    requires |s| > 0
    ensures m in s && forall x :: x in s ==> x <= m
  {
    if |s| == 1 then s[0]
    else
      var rest := Max(s[1..]);
      assert s == [s[0]] + s[1..];
      if s[0] >= rest then s[0] else rest
  }

  /** The median lies between the least and the greatest number */
  lemma MedianBetweenMinAndMax(s: seq<int>)
    requires |s| > 0
    ensures Min(s) as real <= MedianOf(s) <= Max(s) as real
  {
    MedianWithin(s, Min(s), Max(s));
  }

  /** The sum of a list */
  function Sum(s: seq<int>): int {
    if s == [] then 0 else Sum(s[..|s| - 1]) + s[|s| - 1]
  }

  /** Bounds on the numbers bound their sum */
  lemma {:induction false} SumWithin(s: seq<int>, lo: int, hi: int)
    requires forall x :: x in s ==> lo <= x <= hi
    ensures |s| * lo <= Sum(s) <= |s| * hi
  {
    if s != [] {
      var front := s[..|s| - 1];
      assert forall x :: x in front ==> x in s;
      assert s[|s| - 1] in s;
      SumWithin(front, lo, hi);
      AddWithin(|front|, Sum(front), s[|s| - 1], lo, hi);
    }
  }

  lemma AddWithin(n: int, sum: int, x: int, lo: int, hi: int)
    requires n * lo <= sum <= n * hi && lo <= x <= hi
    ensures (n + 1) * lo <= sum + x <= (n + 1) * hi
  {
    assert (n + 1) * lo == n * lo + lo;
    assert (n + 1) * hi == n * hi + hi;
  }

  /** The mean of a non-empty list: its sum over its length */
  function Mean(s: seq<int>): real
    requires |s| > 0
  {
    Sum(s) as real / |s| as real
  }

  /** The mean lies between the least and the greatest number */
  lemma MeanBetweenMinAndMax(s: seq<int>)
    requires |s| > 0
    ensures Min(s) as real <= Mean(s) <= Max(s) as real
  {
    SumWithin(s, Min(s), Max(s));
    QuotientWithin(Sum(s), |s|, Min(s), Max(s));
  }

  lemma QuotientWithin(sum: int, n: int, lo: int, hi: int)
    requires n > 0 && n * lo <= sum <= n * hi
    ensures lo as real <= sum as real / n as real <= hi as real
  {
    assert (n * lo) as real == n as real * lo as real;
    assert (n * hi) as real == n as real * hi as real;
  }
}
