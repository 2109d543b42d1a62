// `detect_step_response`, identical (up to its log messages) in the GUI and
// the batch script: is there an excursion right after time zero, and does
// the signal then settle?
module StepResponse {
  import opened Series
  import opened Statistics

  /** The batch script's default thresholds. */
  const DefaultSettleTime: real := 2.0
  const DefaultSettleTolerance: real := 0.05
  const DefaultPeakTolerance: real := 0.3

  /** Why a trace is not a step response; one per early `return False`. */
  datatype Reason =
    | NoDataAfterZero    // "No data after time zero."
    | NoSignificantPeak  // "No significant overshoot or undershoot detected."
    | NoSettleData       // "Not enough data after settle time."
    | NotSettled         // "No steady state detected"

  datatype Verdict = StepResponse | NoStep(reason: Reason)

  /** `max(|max(w) - w[0]|, |min(w) - w[0]|)`: the largest distance of any
      point of the window from its first point. */
  function PeakVariation(w: seq<real>): (pv: real)
    requires |w| > 0
    ensures pv >= 0.0
    ensures forall i :: 0 <= i < |w| ==> Abs(w[i] - w[0]) <= pv
    ensures exists i :: 0 <= i < |w| && Abs(w[i] - w[0]) == pv
  {
    var initial := w[0];
    var peak, bottom := SeqMax(w), SeqMin(w);
    var pv := Max(Abs(peak - initial), Abs(bottom - initial));
    assert forall i :: 0 <= i < |w| ==> Abs(w[i] - initial) <= pv by {
      forall i | 0 <= i < |w|
        ensures Abs(w[i] - initial) <= pv
      {
        assert bottom <= w[i] <= peak;
      }
    }
    pv
  }

  /** `voltage_smoothed[time_shifted >= 0]`: the post-zero window. It is
      empty exactly when every shifted time is negative, it holds the value
      of every post-zero sample, and it starts with the value at the first
      post-zero position (`voltage_pos.iloc[0]`). */
  function PostZero(timeShifted: seq<real>, smoothed: seq<real>): (w: seq<real>)
    requires |timeShifted| == |smoothed|
    ensures |w| == 0 <==> forall i :: 0 <= i < |timeShifted| ==> timeShifted[i] < 0.0
    ensures forall i :: 0 <= i < |timeShifted| && timeShifted[i] >= 0.0 ==> smoothed[i] in w
    ensures forall k :: 0 <= k < |timeShifted| && timeShifted[k] >= 0.0 &&
                        (forall j :: 0 <= j < k ==> timeShifted[j] < 0.0) ==>
                        |w| > 0 && w[0] == smoothed[k]
  {
    var mask := AtLeast(timeShifted, 0.0);
    CountTrueZero(mask);
    assert forall i :: 0 <= i < |timeShifted| && timeShifted[i] >= 0.0 ==> smoothed[i] in Where(smoothed, mask) by {
      forall i | 0 <= i < |timeShifted| && timeShifted[i] >= 0.0
        ensures smoothed[i] in Where(smoothed, mask)
      {
        WhereContainsMasked(smoothed, mask, i);
      }
    }
    assert forall k :: 0 <= k < |timeShifted| && timeShifted[k] >= 0.0 &&
                       (forall j :: 0 <= j < k ==> timeShifted[j] < 0.0) ==>
                       |Where(smoothed, mask)| > 0 && Where(smoothed, mask)[0] == smoothed[k] by {
      forall k | 0 <= k < |timeShifted| && timeShifted[k] >= 0.0 &&
                 (forall j :: 0 <= j < k ==> timeShifted[j] < 0.0)
        ensures |Where(smoothed, mask)| > 0 && Where(smoothed, mask)[0] == smoothed[k]
      {
        WhereFirst(smoothed, mask, k);
      }
    }
    Where(smoothed, mask)
  }

  /** `voltage_pos[time_pos >= settle_time]`: the settle window, selected
      inside the post-zero window as the scripts do. It is the smoothed value
      at every position whose shifted time is both non-negative and at least
      the settle time, and it is empty exactly when there is no such
      position. */
  function SettleWindow(timeShifted: seq<real>, smoothed: seq<real>, settleTime: real): (w: seq<real>)
    requires |timeShifted| == |smoothed|
    ensures w == Where(smoothed, Both(AtLeast(timeShifted, 0.0), AtLeast(timeShifted, settleTime)))
    ensures |w| == 0 <==> forall i :: 0 <= i < |timeShifted| && timeShifted[i] >= 0.0 ==> timeShifted[i] < settleTime
  {
    var mask := AtLeast(timeShifted, 0.0);
    var timePos := Where(timeShifted, mask);
    var voltagePos := Where(smoothed, mask);
    WhereCompose(timeShifted, smoothed, mask, settleTime);
    CountTrueZero(Both(mask, AtLeast(timeShifted, settleTime)));
    Where(voltagePos, AtLeast(timePos, settleTime))
  }

  /** The classifier. The four `False` exits are taken in this order: no
      post-zero data, no excursion of at least `peakTolerance`, an empty
      settle window, a settle window whose standard deviation is not below
      `settleTolerance` (a single point has an undefined deviation and does
      not settle). */
  function DetectStepResponse(timeShifted: seq<real>, smoothed: seq<real>,
                              settleTime: real, settleTolerance: real, peakTolerance: real): (r: Verdict)
    requires |timeShifted| == |smoothed|
    ensures r == NoStep(NoDataAfterZero) <==>
              forall i :: 0 <= i < |timeShifted| ==> timeShifted[i] < 0.0
    ensures r == NoStep(NoSettleData) ==>
              forall i :: 0 <= i < |timeShifted| && timeShifted[i] >= 0.0 ==> timeShifted[i] < settleTime
    ensures r == StepResponse ==>
              |PostZero(timeShifted, smoothed)| > 0 &&
              PeakVariation(PostZero(timeShifted, smoothed)) >= peakTolerance &&
              |SettleWindow(timeShifted, smoothed, settleTime)| >= 2 &&
              settleTolerance > 0.0 &&
              SampleVariance(SettleWindow(timeShifted, smoothed, settleTime)) < settleTolerance * settleTolerance
  {
    var mask := AtLeast(timeShifted, 0.0);
    var voltagePos := Where(smoothed, mask);
    CountTrueZero(mask);
    if |voltagePos| == 0 then NoStep(NoDataAfterZero)
    else if PeakVariation(voltagePos) < peakTolerance then NoStep(NoSignificantPeak)
    else
      var settled := SettleWindow(timeShifted, smoothed, settleTime);
      if |settled| == 0 then NoStep(NoSettleData)
      else if StdBelow(settled, settleTolerance) then StepResponse
      else NoStep(NotSettled)
  }

  /** Each verdict and the condition under which it is returned: the four
      exits are tried in order, and only a trace that passes all four tests
      is a step response. */
  lemma VerdictPaths(timeShifted: seq<real>, smoothed: seq<real>,
                     settleTime: real, settleTolerance: real, peakTolerance: real)
    requires |timeShifted| == |smoothed|
    ensures var r := DetectStepResponse(timeShifted, smoothed, settleTime, settleTolerance, peakTolerance);
            var post := PostZero(timeShifted, smoothed);
            var settled := SettleWindow(timeShifted, smoothed, settleTime);
            var noData := forall i :: 0 <= i < |timeShifted| ==> timeShifted[i] < 0.0;
            var noSettle := forall i :: 0 <= i < |timeShifted| && timeShifted[i] >= 0.0 ==>
                              timeShifted[i] < settleTime;
            (r == NoStep(NoDataAfterZero) <==> noData) &&
            (r == NoStep(NoSignificantPeak) <==> !noData && PeakVariation(post) < peakTolerance) &&
            (r == NoStep(NoSettleData) <==> !noData && PeakVariation(post) >= peakTolerance && noSettle) &&
            (r == NoStep(NotSettled) <==> !noData && PeakVariation(post) >= peakTolerance && !noSettle &&
                                          !StdBelow(settled, settleTolerance)) &&
            (r == StepResponse <==> !noData && PeakVariation(post) >= peakTolerance && !noSettle &&
                                    StdBelow(settled, settleTolerance))
  {
    var mask := AtLeast(timeShifted, 0.0);
    CountTrueZero(mask);
  }

  /** The verdict depends only on the samples at or after time zero:
      classifying the post-zero window alone gives the same answer. */
  lemma DependsOnlyOnPostZero(timeShifted: seq<real>, smoothed: seq<real>,
                              settleTime: real, settleTolerance: real, peakTolerance: real)
    requires |timeShifted| == |smoothed|
    ensures var mask := AtLeast(timeShifted, 0.0);
            |Where(timeShifted, mask)| == |Where(smoothed, mask)| &&
            DetectStepResponse(Where(timeShifted, mask), Where(smoothed, mask),
                               settleTime, settleTolerance, peakTolerance)
            == DetectStepResponse(timeShifted, smoothed, settleTime, settleTolerance, peakTolerance)
  {
    var mask := AtLeast(timeShifted, 0.0);
    var timePos := Where(timeShifted, mask);
    var voltagePos := Where(smoothed, mask);
    var inner := AtLeast(timePos, 0.0);
    forall k | 0 <= k < |inner|
      ensures inner[k]
    {
      var i := SelectedPosition(timeShifted, mask, k);
    }
    WhereAll(timePos, inner);
    WhereAll(voltagePos, inner);
  }

  /** Raising the settle tolerance never turns a step response into a
      non-step. */
  lemma SettleToleranceMonotone(timeShifted: seq<real>, smoothed: seq<real>, settleTime: real,
                                tol1: real, tol2: real, peakTolerance: real)
    requires |timeShifted| == |smoothed|
    requires tol1 <= tol2
    requires DetectStepResponse(timeShifted, smoothed, settleTime, tol1, peakTolerance) == StepResponse
    ensures DetectStepResponse(timeShifted, smoothed, settleTime, tol2, peakTolerance) == StepResponse
  {
    StdBelowMonotone(SettleWindow(timeShifted, smoothed, settleTime), tol1, tol2);
  }

  /** Raising the peak tolerance never turns a non-step into a step
      response (stated in the contrapositive). */
  lemma PeakToleranceMonotone(timeShifted: seq<real>, smoothed: seq<real>, settleTime: real,
                              settleTolerance: real, peak1: real, peak2: real)
    requires |timeShifted| == |smoothed|
    requires peak1 <= peak2
    requires DetectStepResponse(timeShifted, smoothed, settleTime, settleTolerance, peak2) == StepResponse
    ensures DetectStepResponse(timeShifted, smoothed, settleTime, settleTolerance, peak1) == StepResponse
  {
  }

  /** Boundary of the excursion test: a peak variation equal to the
      tolerance passes it (the comparison is a strict `<`). */
  lemma PeakAtTolerancePasses(timeShifted: seq<real>, smoothed: seq<real>,
                              settleTime: real, settleTolerance: real, peakTolerance: real)
    requires |timeShifted| == |smoothed|
    requires |PostZero(timeShifted, smoothed)| > 0
    requires PeakVariation(PostZero(timeShifted, smoothed)) == peakTolerance
    ensures DetectStepResponse(timeShifted, smoothed, settleTime, settleTolerance, peakTolerance)
            !in {NoStep(NoDataAfterZero), NoStep(NoSignificantPeak)}
  {
  }

  /** Boundary of the settle test: a standard deviation equal to the
      tolerance fails it (the comparison is a strict `<`). */
  lemma StdAtToleranceFails(timeShifted: seq<real>, smoothed: seq<real>,
                            settleTime: real, settleTolerance: real, peakTolerance: real, std: real)
    requires |timeShifted| == |smoothed|
    requires |SettleWindow(timeShifted, smoothed, settleTime)| >= 2
    requires std >= 0.0 && std * std == SampleVariance(SettleWindow(timeShifted, smoothed, settleTime))
    requires std == settleTolerance
    ensures DetectStepResponse(timeShifted, smoothed, settleTime, settleTolerance, peakTolerance) != StepResponse
  {
    StdBelowIsSqrtComparison(SettleWindow(timeShifted, smoothed, settleTime), settleTolerance, std);
  }

  /** A post-zero window whose points all lie strictly within
      `peakTolerance` of one another is never a step response: it is
      rejected for having no data or no significant excursion. */
  lemma SmallSwingIsNotStep(timeShifted: seq<real>, smoothed: seq<real>,
                            settleTime: real, settleTolerance: real, peakTolerance: real)
    requires |timeShifted| == |smoothed|
    requires forall i, j ::
               (0 <= i < |timeShifted| && 0 <= j < |timeShifted| &&
                timeShifted[i] >= 0.0 && timeShifted[j] >= 0.0) ==>
               Abs(smoothed[i] - smoothed[j]) < peakTolerance
    ensures DetectStepResponse(timeShifted, smoothed, settleTime, settleTolerance, peakTolerance)
            in {NoStep(NoDataAfterZero), NoStep(NoSignificantPeak)}
  {
    var mask := AtLeast(timeShifted, 0.0);
    var post := Where(smoothed, mask);
    if |post| > 0 {
      var k :| 0 <= k < |post| && Abs(post[k] - post[0]) == PeakVariation(post);
      var i := SelectedPosition(smoothed, mask, k);
      var j := SelectedPosition(smoothed, mask, 0);
      assert Abs(smoothed[i] - smoothed[j]) < peakTolerance;
    }
  }

  /** The excursion test is measured from the first post-zero sample: with
      `k` the first position whose shifted time is non-negative, the verdict
      is "no significant excursion" exactly when every post-zero sample lies
      strictly within `peakTolerance` of the sample at `k`. */
  lemma NoSignificantPeakIff(timeShifted: seq<real>, smoothed: seq<real>,
                             settleTime: real, settleTolerance: real, peakTolerance: real, k: nat)
    requires |timeShifted| == |smoothed|
    requires k < |timeShifted| && timeShifted[k] >= 0.0
    requires forall j :: 0 <= j < k ==> timeShifted[j] < 0.0
    ensures DetectStepResponse(timeShifted, smoothed, settleTime, settleTolerance, peakTolerance)
              == NoStep(NoSignificantPeak)
            <==> forall i :: 0 <= i < |timeShifted| && timeShifted[i] >= 0.0 ==>
                   Abs(smoothed[i] - smoothed[k]) < peakTolerance
  {
    var mask := AtLeast(timeShifted, 0.0);
    var post := Where(smoothed, mask);
    WhereFirst(smoothed, mask, k);
    var pv := PeakVariation(post);
    if pv < peakTolerance {
      forall i | 0 <= i < |timeShifted| && timeShifted[i] >= 0.0
        ensures Abs(smoothed[i] - smoothed[k]) < peakTolerance
      {
        WhereContainsMasked(smoothed, mask, i);
        var a :| 0 <= a < |post| && post[a] == smoothed[i];
      }
    } else {
      var a :| 0 <= a < |post| && Abs(post[a] - post[0]) == pv;
      var i := SelectedPosition(smoothed, mask, a);
      assert timeShifted[i] >= 0.0 && Abs(smoothed[i] - smoothed[k]) >= peakTolerance;
    }
  }

  /** A constant post-zero window is not a step response whenever the peak
      tolerance is positive. */
  lemma ConstantIsNotStep(timeShifted: seq<real>, smoothed: seq<real>, c: real,
                          settleTime: real, settleTolerance: real, peakTolerance: real)
    requires |timeShifted| == |smoothed|
    requires peakTolerance > 0.0
    requires forall i :: 0 <= i < |timeShifted| && timeShifted[i] >= 0.0 ==> smoothed[i] == c
    ensures DetectStepResponse(timeShifted, smoothed, settleTime, settleTolerance, peakTolerance)
            in {NoStep(NoDataAfterZero), NoStep(NoSignificantPeak)}
  {
    SmallSwingIsNotStep(timeShifted, smoothed, settleTime, settleTolerance, peakTolerance);
  }

  /** A trace that swings by at least twice the peak tolerance after time
      zero and then holds one value at two or more samples from the settle
      time on is a step response, for any positive settle tolerance. */
  lemma SteadyJumpIsStep(timeShifted: seq<real>, smoothed: seq<real>, c: real,
                         settleTime: real, settleTolerance: real, peakTolerance: real,
                         lowAt: nat, highAt: nat, settle1: nat, settle2: nat)
    requires |timeShifted| == |smoothed|
    requires lowAt < |timeShifted| && highAt < |timeShifted|
    requires timeShifted[lowAt] >= 0.0 && timeShifted[highAt] >= 0.0
    requires Abs(smoothed[highAt] - smoothed[lowAt]) >= 2.0 * peakTolerance
    requires settle1 < settle2 < |timeShifted|
    requires timeShifted[settle1] >= 0.0 && timeShifted[settle1] >= settleTime
    requires timeShifted[settle2] >= 0.0 && timeShifted[settle2] >= settleTime
    requires forall i :: 0 <= i < |timeShifted| && timeShifted[i] >= 0.0 && timeShifted[i] >= settleTime ==>
               smoothed[i] == c
    requires settleTolerance > 0.0
    ensures DetectStepResponse(timeShifted, smoothed, settleTime, settleTolerance, peakTolerance) == StepResponse
  {
    var mask := AtLeast(timeShifted, 0.0);
    var post := Where(smoothed, mask);
    WhereContainsMasked(smoothed, mask, lowAt);
    WhereContainsMasked(smoothed, mask, highAt);
    var a :| 0 <= a < |post| && post[a] == smoothed[lowAt];
    var b :| 0 <= b < |post| && post[b] == smoothed[highAt];
    SwingRaisesPeak(post, a, b, peakTolerance);

    var both := Both(mask, AtLeast(timeShifted, settleTime));
    CountTrueTwo(both, settle1, settle2);
    MaskedConstantSettles(smoothed, both, c, settleTolerance);
  }

  /** A trace that swings by at least twice the peak tolerance after time
      zero but whose settle window (two or more samples) has a standard
      deviation of at least the settle tolerance did not settle. */
  lemma SwingWithoutSettlingIsNotSettled(timeShifted: seq<real>, smoothed: seq<real>,
                                         settleTime: real, settleTolerance: real, peakTolerance: real,
                                         lowAt: nat, highAt: nat, std: real)
    requires |timeShifted| == |smoothed|
    requires lowAt < |timeShifted| && highAt < |timeShifted|
    requires timeShifted[lowAt] >= 0.0 && timeShifted[highAt] >= 0.0
    requires Abs(smoothed[highAt] - smoothed[lowAt]) >= 2.0 * peakTolerance
    requires |SettleWindow(timeShifted, smoothed, settleTime)| >= 2
    requires std >= 0.0 && std * std == SampleVariance(SettleWindow(timeShifted, smoothed, settleTime))
    requires std >= settleTolerance
    ensures DetectStepResponse(timeShifted, smoothed, settleTime, settleTolerance, peakTolerance)
            == NoStep(NotSettled)
  {
    var mask := AtLeast(timeShifted, 0.0);
    var post := Where(smoothed, mask);
    WhereContainsMasked(smoothed, mask, lowAt);
    WhereContainsMasked(smoothed, mask, highAt);
    var a :| 0 <= a < |post| && post[a] == smoothed[lowAt];
    var b :| 0 <= b < |post| && post[b] == smoothed[highAt];
    SwingRaisesPeak(post, a, b, peakTolerance);
    StdBelowIsSqrtComparison(SettleWindow(timeShifted, smoothed, settleTime), settleTolerance, std);
  }

  /** Two points of a window that are `2 * p` apart force a peak variation
      of at least `p`, whichever point comes first. */
  lemma SwingRaisesPeak(w: seq<real>, a: nat, b: nat, p: real)
    requires a < |w| && b < |w|
    requires Abs(w[b] - w[a]) >= 2.0 * p
    ensures PeakVariation(w) >= p
  {
    var pv := PeakVariation(w);
    assert Abs(w[a] - w[0]) <= pv && Abs(w[b] - w[0]) <= pv;
  }

  /** Selecting two or more points that all hold one value gives a window
      whose deviation is below any positive tolerance. */
  lemma MaskedConstantSettles(s: seq<real>, m: seq<bool>, c: real, tol: real)
    requires |s| == |m| && CountTrue(m) >= 2
    requires forall i :: 0 <= i < |s| && m[i] ==> s[i] == c
    requires tol > 0.0
    ensures StdBelow(Where(s, m), tol)
  {
    var w := Where(s, m);
    forall k | 0 <= k < |w|
      ensures w[k] == c
    {
      var i := SelectedPosition(s, m, k);
    }
    VarianceOfConstant(w, c);
    SquareStrict(0.0, tol);
  }
}
