// Reductions with statistical meaning: the ddof=1 sample variance behind
// pandas `Series.std()`, and numpy's `np.median` through a sorted copy.
module Statistics {
  import opened Series

  // ---------------------------------------------------------------------
  // Sample variance and the "std < tol" test.

  /** Sum of squared deviations of the points from `m`. */
  function SumSqDev(s: seq<real>, m: real): (r: real)
    ensures r >= 0.0
  {
    if |s| == 0 then 0.0
    else
      var d := s[0] - m;
      SquareNonNegative(d);
      d * d + SumSqDev(s[1..], m)
  }

  lemma MulMonotone(a: real, b: real, c: real)
    requires a <= b && c >= 0.0
    ensures a * c <= b * c
  {
  }

  lemma MulStrict(a: real, b: real, c: real)
    requires a < b && c > 0.0
    ensures a * c < b * c
  {
  }

  lemma SquareNonNegative(d: real)
    ensures d * d >= 0.0
  {
    if d < 0.0 {
      MulMonotone(d, 0.0, -d);
    } else {
      MulMonotone(0.0, d, d);
    }
  }

  /** Sample variance with one degree of freedom removed (pandas' default
      ddof=1); it is only defined for two or more points. */
  function SampleVariance(s: seq<real>): (v: real)
    requires |s| >= 2
    ensures v >= 0.0
  {
    SumSqDev(s, Mean(s)) / ((|s| - 1) as real)
  }

  lemma {:induction false} SumConstant(s: seq<real>, c: real)
    requires forall i :: 0 <= i < |s| ==> s[i] == c
    ensures Sum(s) == (|s| as real) * c
  {
    if |s| > 0 {
      SumConstant(s[1..], c);
    }
  }

  lemma {:induction false} SumSqDevConstant(s: seq<real>, c: real)
    requires forall i :: 0 <= i < |s| ==> s[i] == c
    ensures SumSqDev(s, c) == 0.0
  {
    if |s| > 0 {
      SumSqDevConstant(s[1..], c);
    }
  }

  /** A window that holds one value has no spread. */
  lemma VarianceOfConstant(s: seq<real>, c: real)
    requires |s| >= 2
    requires forall i :: 0 <= i < |s| ==> s[i] == c
    ensures SampleVariance(s) == 0.0
  {
    SumConstant(s, c);
    var n := |s| as real;
    assert Mean(s) == n * c / n == c;
    SumSqDevConstant(s, c);
  }

  /** A sum of squared deviations is zero only when every point equals `m`. */
  lemma {:induction false} SumSqDevZero(s: seq<real>, m: real)
    requires SumSqDev(s, m) == 0.0
    ensures forall i :: 0 <= i < |s| ==> s[i] == m
  {
    if |s| > 0 {
      var d := s[0] - m;
      SquareNonNegative(d);
      assert d * d == 0.0;
      if d != 0.0 {
        assert Abs(d) * Abs(d) == d * d;
        SquareStrict(0.0, Abs(d));
      }
      SumSqDevZero(s[1..], m);
      assert forall i :: 1 <= i < |s| ==> s[i] == s[1..][i - 1];
    }
  }

  /** The sample variance is zero exactly when every point holds one value. */
  lemma VarianceZeroIffConstant(s: seq<real>)
    requires |s| >= 2
    ensures SampleVariance(s) == 0.0 <==> forall i :: 0 <= i < |s| ==> s[i] == s[0]
  {
    if forall i :: 0 <= i < |s| ==> s[i] == s[0] {
      VarianceOfConstant(s, s[0]);
    }
    if SampleVariance(s) == 0.0 {
      var n1 := (|s| - 1) as real;
      assert SumSqDev(s, Mean(s)) == SampleVariance(s) * n1;
      SumSqDevZero(s, Mean(s));
    }
  }

  /** `std(s) < tol` as pandas evaluates it, with the square root taken out:
      one point gives a NaN standard deviation, and `NaN < tol` is false;
      for two or more points `sqrt(var) < tol` holds exactly when `tol` is
      positive and `var < tol * tol`. */
  predicate StdBelow(s: seq<real>, tol: real)
    ensures StdBelow(s, tol) ==> |s| >= 2 && tol > 0.0
  {
    |s| >= 2 && tol > 0.0 && SampleVariance(s) < tol * tol
  }

  /** StdBelow agrees with comparing the non-negative square root of the
      sample variance against the tolerance. */
  lemma StdBelowIsSqrtComparison(s: seq<real>, tol: real, std: real)
    requires |s| >= 2
    requires std >= 0.0 && std * std == SampleVariance(s)
    ensures StdBelow(s, tol) <==> std < tol
  {
    if std < tol {
      SquareStrict(std, tol);
    } else if tol > 0.0 {
      SquareMonotone(tol, std);
    }
  }

  /** Raising the tolerance keeps a passing window passing. */
  lemma StdBelowMonotone(s: seq<real>, tol1: real, tol2: real)
    requires tol1 <= tol2
    requires StdBelow(s, tol1)
    ensures StdBelow(s, tol2)
  {
    SquareMonotone(tol1, tol2);
  }

  lemma SquareStrict(a: real, b: real)
    requires 0.0 <= a < b
    ensures a * a < b * b
  {
    MulStrict(0.0, b - a, b + a);
    assert (b - a) * (b + a) == b * b - a * a;
  }

  lemma SquareMonotone(a: real, b: real)
    requires 0.0 <= a <= b
    ensures a * a <= b * b
  {
    MulMonotone(0.0, b - a, b + a);
    assert (b - a) * (b + a) == b * b - a * a;
  }

  // ---------------------------------------------------------------------
  // Sorting and the median.

  predicate IsSorted(s: seq<real>)
  {
    forall i, j :: 0 <= i < j < |s| ==> s[i] <= s[j]
  }

  /** Inserts `x` into a sorted sequence, keeping it sorted. */
  function Insert(x: real, s: seq<real>): (r: seq<real>)
    requires IsSorted(s)
    ensures IsSorted(r)
    ensures multiset(r) == multiset(s) + multiset{x}
  {
    if |s| == 0 then [x]
    else if x <= s[0] then [x] + s
    else
      assert s == [s[0]] + s[1..];
      var rest := Insert(x, s[1..]);
      LowerBoundOfSorted(s[0], rest, multiset(s[1..]) + multiset{x});
      [s[0]] + rest
  }

  /** Prepending a value no larger than every element keeps a sequence sorted. */
  lemma LowerBoundOfSorted(y: real, r: seq<real>, m: multiset<real>)
    requires IsSorted(r) && multiset(r) == m
    requires forall z :: z in m ==> y <= z
    ensures IsSorted([y] + r)
  {
    forall k | 0 <= k < |r|
      ensures y <= r[k]
    {
      assert r[k] in multiset(r);
    }
  }

  /** A sorted copy of `s` (numpy sorts before taking a median). */
  function SortAscending(s: seq<real>): (r: seq<real>)
    ensures |r| == |s|
    ensures IsSorted(r)
    ensures multiset(r) == multiset(s)
  {
    if |s| == 0 then []
    else
      assert s == [s[0]] + s[1..];
      var r := Insert(s[0], SortAscending(s[1..]));
      assert |multiset(r)| == |multiset(s)|;
      r
  }

  /** The middle of a sorted sequence: its middle element, or the mean of
      its two middle elements when the count is even. */
  function Middle(r: seq<real>): real
    requires |r| >= 1
  {
    var n := |r|;
    if n % 2 == 1 then r[n / 2] else (r[n / 2 - 1] + r[n / 2]) / 2.0
  }

  /** numpy `np.median`: the middle of the sorted copy. At least half the
      sorted copy (rounded up) lies at or below it and at least half at or
      above it; it lies between the smallest and the largest point, and for
      an odd count it is one of the points. */
  function Median(s: seq<real>): (med: real)
    requires |s| >= 1
    ensures forall k :: 0 <= k < (|s| + 1) / 2 ==> SortAscending(s)[k] <= med
    ensures forall k :: |s| / 2 <= k < |s| ==> med <= SortAscending(s)[k]
    ensures SeqMin(s) <= med <= SeqMax(s)
    ensures |s| % 2 == 1 ==> med in s
  {
    var r := SortAscending(s);
    MiddleSplitsSorted(r);
    SortedCopyWithin(s, r);
    MiddleWithin(r, SeqMin(s), SeqMax(s));
    assert |s| % 2 == 1 ==> r[|s| / 2] in multiset(s);
    Middle(r)
  }

  /** Every element of a permutation of `s` lies between `s`'s extremes. */
  lemma SortedCopyWithin(s: seq<real>, r: seq<real>)
    requires |s| >= 1 && multiset(r) == multiset(s)
    ensures forall k :: 0 <= k < |r| ==> SeqMin(s) <= r[k] <= SeqMax(s)
  {
    forall k | 0 <= k < |r|
      ensures SeqMin(s) <= r[k] <= SeqMax(s)
    {
      assert r[k] in multiset(s);
    }
  }

  /** The middle of a sequence lies within any bounds of its elements. */
  lemma MiddleWithin(r: seq<real>, lo: real, hi: real)
    requires |r| >= 1
    requires forall k :: 0 <= k < |r| ==> lo <= r[k] <= hi
    ensures lo <= Middle(r) <= hi
  {
  }

  /** In a sorted sequence, the first half (rounded up) lies at or below the
      middle and the second half at or above it. */
  lemma MiddleSplitsSorted(r: seq<real>)
    requires |r| >= 1 && IsSorted(r)
    ensures forall k :: 0 <= k < (|r| + 1) / 2 ==> r[k] <= Middle(r)
    ensures forall k :: |r| / 2 <= k < |r| ==> Middle(r) <= r[k]
  {
    var n := |r|;
    var med := Middle(r);
    if n % 2 == 0 {
      assert r[n / 2 - 1] <= med <= r[n / 2];
    }
    forall k | 0 <= k < (n + 1) / 2
      ensures r[k] <= med
    {
      if n % 2 == 1 && k < n / 2 {
        assert r[k] <= r[n / 2];
      } else if n % 2 == 0 && k < n / 2 - 1 {
        assert r[k] <= r[n / 2 - 1];
      }
    }
    forall k | n / 2 <= k < n
      ensures med <= r[k]
    {
      if k > n / 2 {
        assert r[n / 2] <= r[k];
      }
    }
  }
}
