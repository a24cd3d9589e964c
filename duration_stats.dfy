/**
  The statistics the usage report prints for each step: the average and the
  median of the durations a step took, in whole nanoseconds. `java.time.Duration`
  arithmetic on non-negative durations is plain `nat` arithmetic here, and
  `Duration.dividedBy` truncates like `/` on naturals.
 */
module DurationStats {

  /** The sum of a list of durations. */
  function Sum(s: seq<nat>): nat
  {
    if |s| == 0 then 0 else Sum(s[..|s| - 1]) + s[|s| - 1]
  }

  predicate IsSorted(s: seq<nat>)
  {
    forall i, j :: 0 <= i < j < |s| ==> s[i] <= s[j]
  }

  /** The average `calculateAverage` reports: zero when the durations add up to
      zero (the empty list included), else the sum divided by the count. */
  function Average(s: seq<nat>): nat
  {
    if Sum(s) == 0 then 0 else Sum(s) / |s|
  }

  /** The average is zero for no durations, and otherwise the truncated
      quotient: the largest number whose product with the count does not
      exceed the sum. */
  lemma AverageIsQuotient(s: seq<nat>)
    ensures |s| == 0 ==> Average(s) == 0
    ensures |s| > 0 ==> Average(s) * |s| <= Sum(s) < (Average(s) + 1) * |s|
  {
    if |s| > 0 {
      if Sum(s) == 0 {
        ZeroBounds(|s|);
      } else {
        DivBounds(Sum(s), |s|);
      }
    }
  }

  lemma ZeroBounds(d: nat)
    ensures 0 * d == 0 && (0 + 1) * d == d
  {
  }

  lemma DivBounds(n: nat, d: nat)
    requires d > 0
    ensures (n / d) * d <= n < (n / d + 1) * d
  {
  }

  /** Every element is at least `lo`, so the sum is at least `|s| * lo`; every
      element is at most `hi`, so the sum is at most `|s| * hi`. */
  lemma {:induction false} SumBounds(s: seq<nat>, lo: nat, hi: nat)
    requires forall i :: 0 <= i < |s| ==> lo <= s[i] <= hi
    ensures lo * |s| <= Sum(s) <= hi * |s|
  {
    if |s| > 0 {
      SumBounds(s[..|s| - 1], lo, hi);
      MulSucc(lo, |s| - 1);
      MulSucc(hi, |s| - 1);
    }
  }

  lemma MulSucc(a: nat, n: nat)
    ensures a * n + a == a * (n + 1)
  {
  }

  /** The average of a non-empty list lies between its smallest and largest duration. */
  lemma AverageWithinBounds(s: seq<nat>, lo: nat, hi: nat)
    requires |s| > 0
    requires forall i :: 0 <= i < |s| ==> lo <= s[i] <= hi
    ensures lo <= Average(s) <= hi
  {
    SumBounds(s, lo, hi);
    AverageIsQuotient(s);
    var avg, n := Average(s), |s|;
    if avg < lo {
      MulMonotone(avg + 1, lo, n);
    }
    if avg > hi {
      MulMonotone(hi + 1, avg, n);
      MulSuccLeft(hi, n);
    }
  }

  lemma MulMonotone(a: nat, b: nat, n: nat)
    requires a <= b
    ensures a * n <= b * n
  {
  }

  lemma MulSuccLeft(a: nat, n: nat)
    ensures (a + 1) * n == a * n + n
  {
  }

  /** `x` inserted into the sorted list `s` at its place. */
  function Insert(x: nat, s: seq<nat>): (r: seq<nat>)
    requires IsSorted(s)
    ensures |r| == |s| + 1
    ensures r[0] == if |s| == 0 || x <= s[0] then x else s[0]
    ensures IsSorted(r)
    ensures multiset(r) == multiset(s) + multiset{x}
  {
    if |s| == 0 then [x]
    else if x <= s[0] then [x] + s
    else
      assert s == [s[0]] + s[1..];
      var rest := Insert(x, s[1..]);
      assert s[0] <= rest[0];
      [s[0]] + rest
  }

  /** The list in ascending order: what `Collections.sort` leaves in a list of durations. */
  function Sorted(s: seq<nat>): (r: seq<nat>)
    ensures IsSorted(r)
    ensures multiset(r) == multiset(s)
  {
    if |s| == 0 then []
    else
      assert s == s[..|s| - 1] + [s[|s| - 1]];
      Insert(s[|s| - 1], Sorted(s[..|s| - 1]))
  }

  /** Two ascending lists with the same elements are the same list: however the
      durations arrived, sorting them gives one result. */
  lemma {:induction false} SortedPermutationUnique(a: seq<nat>, b: seq<nat>)
    requires IsSorted(a) && IsSorted(b)
    requires multiset(a) == multiset(b)
    ensures a == b
  {
    assert |a| == |multiset(a)| == |multiset(b)| == |b|;
    if |a| > 0 {
      var x := a[0];
      assert x == b[0] by {
        assert x in multiset(b);
        var i :| 0 <= i < |b| && b[i] == x;
        assert b[0] in multiset(a);
        var j :| 0 <= j < |a| && a[j] == b[0];
      }
      assert a == [x] + a[1..] && b == [x] + b[1..];
      assert multiset(a[1..]) == multiset(b[1..]) by {
        assert multiset(a) == multiset{x} + multiset(a[1..]);
        assert multiset(b) == multiset{x} + multiset(b[1..]);
        forall y ensures multiset(a[1..])[y] == multiset(b[1..])[y] {
          assert multiset(a)[y] == multiset(b)[y];
        }
      }
      SortedPermutationUnique(a[1..], b[1..]);
    }
  }

  /** The median of an ascending list: zero for the empty list, the middle
      element for an odd count, the truncated mean of the two middle elements
      for an even count. */
  function MedianOfSorted(s: seq<nat>): nat
  {
    if |s| == 0 then 0
    else if |s| % 2 == 1 then s[|s| / 2]
    else (s[|s| / 2 - 1] + s[|s| / 2]) / 2
  }

  /** The median `calculateMedian` reports for a list of durations. */
  function Median(s: seq<nat>): nat
  {
    MedianOfSorted(Sorted(s))
  }

  /** The median does not depend on the order in which the durations were recorded. */
  lemma MedianOrderIndependent(s: seq<nat>, t: seq<nat>)
    requires multiset(s) == multiset(t)
    ensures Median(s) == Median(t)
  {
    SortedPermutationUnique(Sorted(s), Sorted(t));
  }

  /** The median of a non-empty list lies between its smallest and largest duration. */
  lemma MedianWithinBounds(s: seq<nat>, lo: nat, hi: nat)
    requires |s| > 0
    requires forall i :: 0 <= i < |s| ==> lo <= s[i] <= hi
    ensures lo <= Median(s) <= hi
  {
    var r := Sorted(s);
    assert |r| == |multiset(r)| == |multiset(s)| == |s|;
    forall k | 0 <= k < |r| ensures lo <= r[k] <= hi {
      assert r[k] in multiset(s);
    }
  }

  /** `calculateAverage`: one pass that adds the durations up, then the division. */
  method CalculateAverage(durations: seq<nat>) returns (avg: nat)
    ensures avg == Average(durations)
  {
    var sum := 0;
    for i := 0 to |durations|
      invariant sum == Sum(durations[..i])
    {
      assert durations[..i + 1][..i] == durations[..i];
      sum := sum + durations[i];
    }
    assert durations[..|durations|] == durations;
    if sum == 0 {
      avg := 0;
    } else {
      avg := sum / |durations|;
    }
  }

  /** Sorts the array in place by insertion: the `Collections.sort` that
      `calculateMedian` applies to its argument. */
  method SortInPlace(a: array<nat>)
    modifies a
    ensures IsSorted(a[..])
    ensures multiset(a[..]) == multiset(old(a[..]))
  {
    var i := 0;
    while i < a.Length
      invariant 0 <= i <= a.Length
      invariant forall p, q :: 0 <= p < q < i ==> a[p] <= a[q]
      invariant multiset(a[..]) == multiset(old(a[..]))
    {
      var j := i;
      while j > 0 && a[j - 1] > a[j]
        invariant 0 <= j <= i
        invariant forall p, q :: 0 <= p < q <= i && p != j && q != j ==> a[p] <= a[q]
        invariant forall q :: j < q <= i ==> a[j] <= a[q]
        invariant multiset(a[..]) == multiset(old(a[..]))
      {
        a[j - 1], a[j] := a[j], a[j - 1];
        j := j - 1;
      }
      i := i + 1;
    }
  }

  /** `calculateMedian`: sorts its argument in place, then reads the middle. The
      array is left as the ascending permutation of what it held, and the
      result is the median of the original durations whatever their order. */
  method CalculateMedian(a: array<nat>) returns (median: nat)
    modifies a
    ensures IsSorted(a[..]) && multiset(a[..]) == multiset(old(a[..]))
    ensures a.Length == 0 ==> median == 0
    ensures a.Length % 2 == 1 ==> median == a[a.Length / 2]
    ensures a.Length > 0 && a.Length % 2 == 0 ==> median == (a[a.Length / 2 - 1] + a[a.Length / 2]) / 2
    ensures median == Median(old(a[..]))
  {
    if a.Length == 0 {
      return 0;
    }
    ghost var before := a[..];
    SortInPlace(a);
    ghost var after := a[..];
    SortedPermutationUnique(after, Sorted(before));
    var middle := a.Length / 2;
    if a.Length % 2 == 1 {
      median := a[middle];
    } else {
      median := (a[middle - 1] + a[middle]) / 2;
    }
    assert median == MedianOfSorted(after);
  }
}
