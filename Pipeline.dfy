// The two departure-policy flows: the GUI script's `analyze_file`
// (smooth -> origin -> shift -> classify, with parameters from the form)
// and the batch script's `main` (the same steps with its module constants).
module Pipeline {
  import opened Series
  import opened Smoothing
  import opened DepartureOrigin
  import opened StepResponse

  datatype Params = Params(
    movingAvg: int,      // moving-average window, in samples
    baselineTol: real,   // departure threshold for the origin [V]
    settleTime: real,    // settle window starts here, after the origin [s]
    settleTol: real,     // largest standard deviation that counts as settled [V]
    peakTol: real)       // smallest excursion that counts as a step [V]

  /** The batch script's constants, which are also the GUI form's defaults. */
  const MovingAverageWindow: nat := 5
  const VoltageTolerance: real := 0.02
  const Defaults: Params := Params(MovingAverageWindow, VoltageTolerance,
                                   DefaultSettleTime, DefaultSettleTolerance, DefaultPeakTolerance)

  datatype AnalysisError =
    | EmptyData              // no samples: reading the first one fails
    | InvalidWindow(w: int)  // the rolling window rejects a width below 1

  /** What one run computes: the smoothed voltage, the origin, the shifted
      time axis, the voltage that is plotted, and the verdict. */
  datatype Analysis = Analysis(
    smoothed: seq<real>,
    originIndex: nat,
    originTime: real,
    timeShifted: seq<real>,
    voltageShifted: seq<real>,
    verdict: Verdict)

  datatype AnalysisResult = Ok(analysis: Analysis) | Err(error: AnalysisError)

  /** `analyze_file` on already-parsed samples (time in seconds since the
      first sample). The voltage is plotted unshifted; only the time axis is
      moved. The origin sample is at time zero, so the post-zero window is
      never empty and the "no data after time zero" exit cannot be taken. */
  function AnalyzeFile(time: seq<real>, voltage: seq<real>, p: Params): (r: AnalysisResult)
    requires |time| == |voltage|
    ensures r == Err(EmptyData) <==> |voltage| == 0
    ensures r == Err(InvalidWindow(p.movingAvg)) <==> |voltage| > 0 && p.movingAvg < 1
    ensures r.Ok? ==>
              var a := r.analysis;
              a.smoothed == RollingMean(voltage, p.movingAvg as nat) &&
              a.originIndex == OriginIndex(a.smoothed, p.baselineTol) &&
              a.originTime == time[a.originIndex] &&
              |a.timeShifted| == |time| &&
              (forall i :: 0 <= i < |time| ==> a.timeShifted[i] == time[i] - a.originTime) &&
              a.timeShifted[a.originIndex] == 0.0 &&
              a.voltageShifted == voltage &&
              a.verdict == DetectStepResponse(a.timeShifted, a.smoothed, p.settleTime, p.settleTol, p.peakTol) &&
              a.verdict != NoStep(NoDataAfterZero)
    ensures r.Ok? && NonDecreasing(time) ==>
              var a := r.analysis;
              NonDecreasing(a.timeShifted) &&
              forall i :: a.originIndex <= i < |time| ==> a.timeShifted[i] >= 0.0
  {
    if |voltage| == 0 then Err(EmptyData)
    else if p.movingAvg < 1 then Err(InvalidWindow(p.movingAvg))
    else
      var smoothed := RollingMean(voltage, p.movingAvg as nat);
      var o := OriginIndex(smoothed, p.baselineTol);
      var originTime := time[o];
      var timeShifted := Offset(time, originTime);
      OffsetZeroAt(time, o);
      OffsetKeepsOrder(time, o);
      var verdict := DetectStepResponse(timeShifted, smoothed, p.settleTime, p.settleTol, p.peakTol);
      Ok(Analysis(smoothed, o, originTime, timeShifted, voltage, verdict))
  }

  /** The batch script's `main` on already-parsed samples: smooth with the
      constant window, run the inline origin search, shift, classify with the
      default thresholds. It computes exactly what `AnalyzeFile` computes
      with the defaults. */
  method AnalyzeWithDefaults(time: seq<real>, voltage: seq<real>) returns (r: AnalysisResult)
    requires |time| == |voltage|
    ensures r == AnalyzeFile(time, voltage, Defaults)
  {
    if |voltage| == 0 {
      return Err(EmptyData);
    }
    var smoothed := RollingMean(voltage, MovingAverageWindow);
    var originIndex, originTime, baseline := LocateOrigin(smoothed, time, VoltageTolerance);
    var timeShifted := Offset(time, originTime);
    var voltageShifted := voltage;
    var verdict := DetectStepResponse(timeShifted, smoothed, DefaultSettleTime,
                                      DefaultSettleTolerance, DefaultPeakTolerance);
    r := Ok(Analysis(smoothed, originIndex, originTime, timeShifted, voltageShifted, verdict));
  }

  /** A trace that sits at 0 V for three seconds and then holds 5 V: the
      origin is the jump at t = 3 s, and because the excursion is measured
      from the first post-zero sample (already 5 V) the peak variation is 0,
      so the verdict is "no significant overshoot or undershoot". */
  lemma JumpThenHoldScenario()
    ensures var r := AnalyzeFile([0.0, 1.0, 2.0, 3.0, 4.0, 5.0, 6.0],
                                 [0.0, 0.0, 0.0, 5.0, 5.0, 5.0, 5.0],
                                 Params(1, 0.1, 4.0, 0.5, 1.0));
            r.Ok? && r.analysis.originIndex == 3 && r.analysis.originTime == 3.0 &&
            r.analysis.timeShifted == [-3.0, -2.0, -1.0, 0.0, 1.0, 2.0, 3.0] &&
            r.analysis.verdict == NoStep(NoSignificantPeak)
  {
    var time := [0.0, 1.0, 2.0, 3.0, 4.0, 5.0, 6.0];
    var voltage := [0.0, 0.0, 0.0, 5.0, 5.0, 5.0, 5.0];
    RollingMeanWindowOne(voltage);
    var o := OriginIndex(voltage, 0.1);
    assert Abs(voltage[3] - voltage[0]) > 0.1;
    assert forall j :: 1 <= j < 3 ==> Abs(voltage[j] - voltage[0]) <= 0.1;
    assert o == 3;
    var shifted := Offset(time, time[3]);
    assert shifted == [-3.0, -2.0, -1.0, 0.0, 1.0, 2.0, 3.0];
    ConstantIsNotStep(shifted, voltage, 5.0, 4.0, 0.5, 1.0);
  }
}
