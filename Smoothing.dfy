// The moving average both analysis scripts apply before looking for the
// origin: pandas `rolling(window=w, center=True, min_periods=1).mean()`.
module Smoothing {
  import opened Series

  /** First raw position averaged into output point `i`: `i - w/2`, clipped at 0. */
  function WindowStart(i: nat, w: nat): nat
  {
    if i >= w / 2 then i - w / 2 else 0
  }

  /** One past the last raw position averaged into output point `i`:
      `i + (w-1)/2 + 1`, clipped at the length `n`. */
  function WindowEnd(i: nat, w: nat, n: nat): nat
    requires w >= 1
  {
    var hi := i + (w - 1) / 2 + 1;
    if hi <= n then hi else n
  }

  /** The centred moving average with truncated edges. For a window of `w`
      points, output `i` averages raw positions `i - w/2 .. i + (w-1)/2`
      (so an even window reaches one point further back than forward), and
      at either end only the positions that exist are averaged. */
  function RollingMean(v: seq<real>, w: nat): (r: seq<real>)
    requires w >= 1
    ensures |r| == |v|
    ensures forall i :: 0 <= i < |v| ==>
              WindowStart(i, w) <= i < WindowEnd(i, w, |v|) <= |v| &&
              r[i] == Mean(v[WindowStart(i, w)..WindowEnd(i, w, |v|)])
  {
    seq(|v|, i requires 0 <= i < |v| => Mean(v[WindowStart(i, w)..WindowEnd(i, w, |v|)]))
  }

  /** Each output point averages at least one and at most `w` raw points,
      and always includes the raw point at its own position. */
  lemma WindowSize(v: seq<real>, w: nat, i: nat)
    requires w >= 1 && i < |v|
    ensures WindowStart(i, w) <= i < WindowEnd(i, w, |v|)
    ensures 1 <= WindowEnd(i, w, |v|) - WindowStart(i, w) <= w
    ensures WindowEnd(i, w, |v|) - WindowStart(i, w) == w <==>
              i >= w / 2 && i + (w - 1) / 2 < |v|
  {
  }

  /** A window of one point leaves the series unchanged. */
  lemma RollingMeanWindowOne(v: seq<real>)
    ensures RollingMean(v, 1) == v
  {
    var r := RollingMean(v, 1);
    forall i | 0 <= i < |v|
      ensures r[i] == v[i]
    {
      assert v[WindowStart(i, 1)..WindowEnd(i, 1, |v|)] == [v[i]];
      assert Sum([v[i]]) == v[i] + Sum([]);
    }
  }

  /** Smoothing never leaves the range of the raw values. */
  lemma RollingMeanWithinBounds(v: seq<real>, w: nat, lo: real, hi: real)
    requires w >= 1
    requires forall i :: 0 <= i < |v| ==> lo <= v[i] <= hi
    ensures forall i :: 0 <= i < |v| ==> lo <= RollingMean(v, w)[i] <= hi
  {
    var r := RollingMean(v, w);
    forall i | 0 <= i < |v|
      ensures lo <= r[i] <= hi
    {
      var win := v[WindowStart(i, w)..WindowEnd(i, w, |v|)];
      assert forall k :: 0 <= k < |win| ==> win[k] == v[WindowStart(i, w) + k];
      MeanBounds(win, lo, hi);
    }
  }

  /** A constant series stays constant, whatever the window. */
  lemma RollingMeanOfConstant(v: seq<real>, w: nat, c: real)
    requires w >= 1
    requires forall i :: 0 <= i < |v| ==> v[i] == c
    ensures RollingMean(v, w) == v
  {
    RollingMeanWithinBounds(v, w, c, c);
  }
}
