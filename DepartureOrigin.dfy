// Origin detection by departure from the first smoothed sample. The same
// scan appears as `detect_origin_time` in the GUI script and inline in the
// batch script's `main`; both are loops with an early `break`.
module DepartureOrigin {
  import opened Series

  /** The origin position: the first position `i >= 1` whose smoothed value
      differs from the first smoothed value by more than `tol`, or 0 when
      there is none (a fallback, not an error). */
  function OriginIndex(smoothed: seq<real>, tol: real): (i: nat)
    requires |smoothed| >= 1
    ensures i < |smoothed|
    ensures i > 0 ==> Abs(smoothed[i] - smoothed[0]) > tol
    ensures forall j :: 1 <= j < i ==> Abs(smoothed[j] - smoothed[0]) <= tol
    ensures i == 0 <==> forall j :: 1 <= j < |smoothed| ==> Abs(smoothed[j] - smoothed[0]) <= tol
  {
    match FirstMeeting(smoothed, DepartsFrom(smoothed[0], tol), 1)
    case Some(k) => k
    case None => 0
  }

  /** `detect_origin_time`: scans from position 1 and stops at the first
      departure; returns the time at that position, or the first time. */
  method DetectOriginTime(smoothed: seq<real>, time: seq<real>, baselineTol: real)
    returns (originTime: real)
    requires |smoothed| >= 1 && |time| == |smoothed|
    ensures originTime == time[OriginIndex(smoothed, baselineTol)]
  {
    var baseline := smoothed[0];
    var originIndex: Option<nat> := None;
    for i := 1 to |smoothed|
      invariant FirstMeeting(smoothed, DepartsFrom(baseline, baselineTol), 1)
             == FirstMeeting(smoothed, DepartsFrom(baseline, baselineTol), i)
    {
      if Abs(smoothed[i] - baseline) > baselineTol {
        originIndex := Some(i);
        break;
      }
    }
    if originIndex.Some? {
      originTime := time[originIndex.value];
    } else {
      originTime := time[0];
    }
  }

  /** The inline origin search of the batch script: the same scan, which also
      reports the origin position and re-reads the baseline at the origin.
      In both branches the baseline it leaves is the smoothed value at the
      origin (the fallback position 0 is where the baseline was read). */
  method LocateOrigin(smoothed: seq<real>, time: seq<real>, tolerance: real)
    returns (originIndex: nat, originTime: real, baseline: real)
    requires |smoothed| >= 1 && |time| == |smoothed|
    ensures originIndex == OriginIndex(smoothed, tolerance)
    ensures originTime == time[originIndex]
    ensures baseline == smoothed[originIndex]
  {
    baseline := smoothed[0];
    var found: Option<nat> := None;
    for i := 1 to |smoothed|
      invariant baseline == smoothed[0]
      invariant FirstMeeting(smoothed, DepartsFrom(baseline, tolerance), 1)
             == FirstMeeting(smoothed, DepartsFrom(baseline, tolerance), i)
    {
      if Abs(smoothed[i] - baseline) > tolerance {
        found := Some(i);
        break;
      }
    }
    if found.Some? {
      originIndex := found.value;
      originTime := time[originIndex];
      baseline := smoothed[originIndex];
    } else {
      originTime := time[0];
      originIndex := 0;
    }
  }
}
