// The revised script's origin policy: the baseline is the median of the
// first points, the origin is the sample just before the first raw value
// that rises above baseline + threshold, and both time and voltage are
// re-based at that origin.
module RiseOrigin {
  import opened Series
  import opened Statistics

  /** The revised script's constants: points used for the baseline, and the
      rise above the baseline that counts as the start of the event. */
  const BaselineCalcPoints: nat := 20
  const VoltageRiseThreshold: real := 0.5

  /** The median of the first `min(calcPoints, |voltage|)` raw voltages, or
      None when that count is zero (the script stops with an error rather
      than guessing a baseline). */
  function BaselineVoltage(voltage: seq<real>, calcPoints: nat): (r: Option<real>)
    ensures r.None? <==> calcPoints == 0 || |voltage| == 0
    ensures r.Some? ==>
              var n := if calcPoints <= |voltage| then calcPoints else |voltage|;
              r.value == Median(voltage[..n]) &&
              SeqMin(voltage[..n]) <= r.value <= SeqMax(voltage[..n])
  {
    var n := if calcPoints <= |voltage| then calcPoints else |voltage|;
    if n == 0 then None
    else Some(Median(voltage[..n]))
  }

  /** Where the rise starts: `index` is the origin position and
      `riseDetected` is false when no point crosses (the script's warning). */
  datatype RisePoint = RisePoint(index: nat, riseDetected: bool)

  /** `max(0, first_rise - 1)` for the first position whose raw voltage is
      strictly above `threshold`; position 0, with a warning, when none is. */
  function FindRiseOrigin(voltage: seq<real>, threshold: real): (o: RisePoint)
    requires |voltage| >= 1
    ensures o.index < |voltage|
    ensures !o.riseDetected <==> forall i :: 0 <= i < |voltage| ==> voltage[i] <= threshold
    ensures !o.riseDetected ==> o.index == 0
    ensures o.riseDetected ==>
              (o.index == 0 && voltage[0] > threshold) ||
              (o.index + 1 < |voltage| && voltage[o.index + 1] > threshold &&
               forall j :: 0 <= j <= o.index ==> voltage[j] <= threshold)
  {
    match FirstMeeting(voltage, Exceeds(threshold), 0)
    case None => RisePoint(0, false)
    case Some(firstRise) => RisePoint(if firstRise >= 1 then firstRise - 1 else 0, true)
  }

  /** The revised script's output: both axes re-based at the origin, with
      the baseline and origin it printed. */
  datatype Rebased = Rebased(time: seq<real>, voltage: seq<real>,
                             baseline: real, origin: RisePoint)

  datatype ProcessResult = Processed(data: Rebased) | NotEnoughData

  /** The analysis part of `load_and_process_data`. */
  function ProcessData(time: seq<real>, voltage: seq<real>,
                       calcPoints: nat, riseThreshold: real): (r: ProcessResult)
    requires |time| == |voltage|
    ensures r.NotEnoughData? <==> calcPoints == 0 || |voltage| == 0
    ensures r.Processed? ==>
              var d := r.data;
              var o := d.origin.index;
              o < |voltage| &&
              BaselineVoltage(voltage, calcPoints) == Some(d.baseline) &&
              d.origin == FindRiseOrigin(voltage, d.baseline + riseThreshold) &&
              |d.time| == |time| && |d.voltage| == |voltage| &&
              d.time[o] == 0.0 && d.voltage[o] == 0.0 &&
              (forall i :: 0 <= i < |time| ==> d.time[i] == time[i] - time[o]) &&
              (forall i :: 0 <= i < |voltage| ==> d.voltage[i] == voltage[i] - voltage[o])
  {
    match BaselineVoltage(voltage, calcPoints)
    case None => NotEnoughData
    case Some(baseline) =>
      var origin := FindRiseOrigin(voltage, baseline + riseThreshold);
      var o := origin.index;
      OffsetZeroAt(time, o);
      OffsetZeroAt(voltage, o);
      Processed(Rebased(Offset(time, time[o]), Offset(voltage, voltage[o]), baseline, origin))
  }

  /** Re-basing keeps every difference between two samples, on both axes,
      and keeps non-decreasing times non-decreasing. */
  lemma ProcessKeepsShape(time: seq<real>, voltage: seq<real>, calcPoints: nat, riseThreshold: real)
    requires |time| == |voltage|
    requires ProcessData(time, voltage, calcPoints, riseThreshold).Processed?
    ensures var d := ProcessData(time, voltage, calcPoints, riseThreshold).data;
            (forall i, j :: 0 <= i < |time| && 0 <= j < |time| ==>
               d.time[i] - d.time[j] == time[i] - time[j] &&
               d.voltage[i] - d.voltage[j] == voltage[i] - voltage[j]) &&
            (NonDecreasing(time) ==> NonDecreasing(d.time))
  {
    var d := ProcessData(time, voltage, calcPoints, riseThreshold).data;
    OffsetKeepsOrder(time, d.origin.index);
  }
}
