// Elementwise and reducing operations on a sampled series (the pandas/numpy
// vocabulary the analysis scripts are written in): sums, max/min, boolean
// masks, and first-index scans.
module Series {

  datatype Option<T> = None | Some(value: T)

  function Abs(x: real): (r: real)
    ensures r >= 0.0 && (r == x || r == -x)
  {
    if x < 0.0 then -x else x
  }

  function Max(a: real, b: real): (r: real)
    ensures r >= a && r >= b && (r == a || r == b)
  {
    if a >= b then a else b
  }

  predicate NonDecreasing(s: seq<real>)
  {
    forall i, j :: 0 <= i <= j < |s| ==> s[i] <= s[j]
  }

  function Sum(s: seq<real>): real
  {
    if |s| == 0 then 0.0 else s[0] + Sum(s[1..])
  }

  /** Arithmetic mean (pandas `.mean()` of a non-empty window). */
  function Mean(s: seq<real>): real
    requires |s| > 0
  {
    Sum(s) / (|s| as real)
  }

  /** A sum of values that all lie in [lo, hi] lies in [n*lo, n*hi]. */
  lemma {:induction false} SumBounds(s: seq<real>, lo: real, hi: real)
    requires forall i :: 0 <= i < |s| ==> lo <= s[i] <= hi
    ensures (|s| as real) * lo <= Sum(s) <= (|s| as real) * hi
  {
    if |s| > 0 {
      SumBounds(s[1..], lo, hi);
    }
  }

  /** A mean lies between any lower and upper bound of its points. */
  lemma MeanBounds(s: seq<real>, lo: real, hi: real)
    requires |s| > 0
    requires forall i :: 0 <= i < |s| ==> lo <= s[i] <= hi
    ensures lo <= Mean(s) <= hi
  {
    SumBounds(s, lo, hi);
    var n := |s| as real;
    assert Sum(s) / n * n == Sum(s);
  }

  /** numpy `np.max`: the largest element of a non-empty series. */
  function SeqMax(s: seq<real>): (m: real)
    requires |s| > 0
    ensures m in s
    ensures forall i :: 0 <= i < |s| ==> s[i] <= m
  {
    if |s| == 1 then s[0]
    else
      var rest := SeqMax(s[1..]);
      if s[0] >= rest then s[0] else rest
  }

  /** numpy `np.min`: the smallest element of a non-empty series. */
  function SeqMin(s: seq<real>): (m: real)
    requires |s| > 0
    ensures m in s
    ensures forall i :: 0 <= i < |s| ==> m <= s[i]
  {
    if |s| == 1 then s[0]
    else
      var rest := SeqMin(s[1..]);
      if s[0] <= rest then s[0] else rest
  }

  // ---------------------------------------------------------------------
  // Boolean masks: `series >= c` and `series[mask]`.

  /** The elementwise comparison `s >= c`. */
  function AtLeast(s: seq<real>, c: real): (m: seq<bool>)
    ensures |m| == |s|
    ensures forall i :: 0 <= i < |s| ==> (m[i] <==> s[i] >= c)
  {
    seq(|s|, i requires 0 <= i < |s| => s[i] >= c)
  }

  /** Elementwise conjunction of two masks (`m1 & m2`). */
  function Both(m1: seq<bool>, m2: seq<bool>): (m: seq<bool>)
    requires |m1| == |m2|
    ensures |m| == |m1|
    ensures forall i :: 0 <= i < |m1| ==> (m[i] <==> m1[i] && m2[i])
  {
    seq(|m1|, i requires 0 <= i < |m1| => m1[i] && m2[i])
  }

  function CountTrue(m: seq<bool>): nat
  {
    if |m| == 0 then 0 else (if m[0] then 1 else 0) + CountTrue(m[1..])
  }

  /** Boolean indexing `s[m]`: the elements of `s` where `m` holds, in order. */
  function Where(s: seq<real>, m: seq<bool>): (r: seq<real>)
    requires |s| == |m|
    ensures |r| == CountTrue(m)
  {
    if |s| == 0 then []
    else (if m[0] then [s[0]] else []) + Where(s[1..], m[1..])
  }

  /** A mask selects nothing exactly when none of its entries holds. */
  lemma {:induction false} CountTrueZero(m: seq<bool>)
    ensures CountTrue(m) == 0 <==> forall i :: 0 <= i < |m| ==> !m[i]
  {
    if |m| > 0 {
      CountTrueZero(m[1..]);
      assert forall i :: 1 <= i < |m| ==> m[i] == m[1..][i - 1];
    }
  }

  /** Two distinct selected positions make at least two selected elements. */
  lemma {:induction false} CountTrueTwo(m: seq<bool>, i: nat, j: nat)
    requires i < j < |m| && m[i] && m[j]
    ensures CountTrue(m) >= 2
  {
    if i == 0 {
      CountTrueOne(m[1..], j - 1);
    } else {
      CountTrueTwo(m[1..], i - 1, j - 1);
    }
  }

  lemma {:induction false} CountTrueOne(m: seq<bool>, i: nat)
    requires i < |m| && m[i]
    ensures CountTrue(m) >= 1
  {
    if i > 0 {
      CountTrueOne(m[1..], i - 1);
    }
  }

  /** Where the `k`-th selected element comes from: a position `i` where `m`
      holds, with exactly `k` masked positions before it, so selection keeps
      the order of the series. */
  function SelectedPosition(s: seq<real>, m: seq<bool>, k: nat): (i: nat)
    requires |s| == |m| && k < CountTrue(m)
    ensures i < |s| && m[i] && k < |Where(s, m)| && Where(s, m)[k] == s[i]
    ensures CountTrue(m[..i]) == k
    decreases |s|
  {
    var head: seq<real> := if m[0] then [s[0]] else [];
    assert Where(s, m) == head + Where(s[1..], m[1..]);
    if m[0] && k == 0 then
      assert m[..0] == [];
      0
    else
      var j := SelectedPosition(s[1..], m[1..], if m[0] then k - 1 else k);
      assert m[..j + 1][1..] == m[1..][..j];
      j + 1
  }

  /** The first selected element is the element at the first masked position
      (what `.iloc[0]` of a masked series reads). */
  lemma WhereFirst(s: seq<real>, m: seq<bool>, k: nat)
    requires |s| == |m| && k < |m| && m[k]
    requires forall j :: 0 <= j < k ==> !m[j]
    ensures |Where(s, m)| > 0 && Where(s, m)[0] == s[k]
  {
    CountTrueOne(m, k);
    var i := SelectedPosition(s, m, 0);
    if i > k {
      CountTrueOne(m[..i], k);
    }
  }

  /** Every element at a position where `m` holds is selected. */
  lemma {:induction false} WhereContainsMasked(s: seq<real>, m: seq<bool>, i: nat)
    requires |s| == |m| && i < |s| && m[i]
    ensures s[i] in Where(s, m)
  {
    var head: seq<real> := if m[0] then [s[0]] else [];
    assert Where(s, m) == head + Where(s[1..], m[1..]);
    if i > 0 {
      WhereContainsMasked(s[1..], m[1..], i - 1);
    }
  }

  /** A mask that holds everywhere selects the whole series. */
  lemma {:induction false} WhereAll(s: seq<real>, m: seq<bool>)
    requires |s| == |m|
    requires forall i :: 0 <= i < |m| ==> m[i]
    ensures Where(s, m) == s
  {
    if |s| > 0 {
      WhereAll(s[1..], m[1..]);
    }
  }

  /** Selecting `t >= c` inside an already masked pair of series is one mask
      over the original series: `v[m][t[m] >= c] == v[m & (t >= c)]`. */
  lemma {:induction false} WhereCompose(t: seq<real>, v: seq<real>, m: seq<bool>, c: real)
    requires |t| == |v| == |m|
    ensures |Where(t, m)| == |Where(v, m)|
    ensures Where(Where(v, m), AtLeast(Where(t, m), c)) == Where(v, Both(m, AtLeast(t, c)))
  {
    if |t| > 0 {
      WhereCompose(t[1..], v[1..], m[1..], c);
      assert AtLeast(t[1..], c) == AtLeast(t, c)[1..];
      assert Both(m[1..], AtLeast(t[1..], c)) == Both(m, AtLeast(t, c))[1..];
      var tm := Where(t, m);
      var vm := Where(v, m);
      if m[0] {
        assert tm == [t[0]] + Where(t[1..], m[1..]);
        assert vm == [v[0]] + Where(v[1..], m[1..]);
        assert AtLeast(tm, c)[1..] == AtLeast(Where(t[1..], m[1..]), c);
        assert vm[1..] == Where(v[1..], m[1..]);
      } else {
        assert tm == Where(t[1..], m[1..]);
        assert vm == Where(v[1..], m[1..]);
      }
    }
  }

  // ---------------------------------------------------------------------
  // First-index scans.

  /** The tests the scripts scan a series with. */
  datatype Criterion =
    | DepartsFrom(base: real, tol: real)  // |x - base| > tol
    | Exceeds(level: real)                // x > level

  predicate Meets(c: Criterion, x: real)
  {
    match c
    case DepartsFrom(base, tol) => Abs(x - base) > tol
    case Exceeds(level) => x > level
  }

  /** The first index at or after `k` whose element meets `c`, if any. */
  function FirstMeeting(s: seq<real>, c: Criterion, k: nat): (r: Option<nat>)
    ensures r.Some? ==> k <= r.value < |s| && Meets(c, s[r.value])
    ensures r.Some? ==> forall j :: k <= j < r.value ==> !Meets(c, s[j])
    ensures r.None? <==> forall j :: k <= j < |s| ==> !Meets(c, s[j])
    decreases |s| - k
  {
    if k >= |s| then None
    else if Meets(c, s[k]) then Some(k)
    else FirstMeeting(s, c, k + 1)
  }

  // ---------------------------------------------------------------------
  // Re-basing a series at an origin value.

  /** `s - c`: every point moved by the same amount. */
  function Offset(s: seq<real>, c: real): (r: seq<real>)
    ensures |r| == |s|
    ensures forall i :: 0 <= i < |s| ==> r[i] == s[i] - c
    ensures forall i, j :: 0 <= i < |s| && 0 <= j < |s| ==> r[i] - r[j] == s[i] - s[j]
  {
    seq(|s|, i requires 0 <= i < |s| => s[i] - c)
  }

  /** Offsetting by the value at a position puts that position at zero and
      every other point at its distance from it. */
  lemma OffsetZeroAt(s: seq<real>, o: nat)
    requires o < |s|
    ensures Offset(s, s[o])[o] == 0.0
    ensures forall i :: 0 <= i < |s| ==> Offset(s, s[o])[i] == s[i] - s[o]
  {
  }

  /** Offsetting keeps a non-decreasing series non-decreasing; offset at
      position `o`, every point from `o` on is then at or above zero. */
  lemma OffsetKeepsOrder(s: seq<real>, o: nat)
    requires o < |s|
    ensures NonDecreasing(s) ==> NonDecreasing(Offset(s, s[o]))
    ensures NonDecreasing(s) ==> forall i :: o <= i < |s| ==> Offset(s, s[o])[i] >= 0.0
  {
    var r := Offset(s, s[o]);
    if NonDecreasing(s) {
      forall i, j | 0 <= i <= j < |r|
        ensures r[i] <= r[j]
      {
        assert r[j] - r[i] == s[j] - s[i];
      }
    }
  }
}
