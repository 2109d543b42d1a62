# CSV2G analysis core in Dafny

CSV2G turns a voltage-vs-time trace into a plot aligned on the moment the
signal starts to move, and says whether the trace is a step response. The
analysis appears in three scripts: a GUI tool (`csv2g-gui.py`), a batch script
(`csv2g-nogui.py`) and a revised batch script (`csv2graphreviced.py`). This
project models that analysis on already-parsed samples: times in seconds since
the first sample and voltages, both as `seq<real>`.

The model has these parts:

- `Series`: the pandas/numpy operations the scripts use. These are sums and
  means, `np.max`/`np.min`, the mask `s >= c` and boolean indexing `s[mask]`,
  a first-index scan, and subtracting an origin value (`s - c`).
- `Statistics`: the ddof=1 sample variance behind `Series.std()`, and
  `np.median` computed from a sorted copy.
- `Smoothing`: `rolling(window=w, center=True, min_periods=1).mean()`.
- `DepartureOrigin`: the origin scan of the GUI and batch scripts. The origin
  is the first position from 1 on whose smoothed value is more than a
  tolerance away from the first smoothed value. If there is none, it is
  position 0. Both scan loops are `method`s with loop invariants, proved equal
  to the function `OriginIndex`.
- `StepResponse`: `detect_step_response` and its four "not a step" exits, as a
  `Verdict` datatype.
- `RiseOrigin`: the revised script's analysis (lines 41-75). The baseline is
  the median of the first points. The origin is the sample before the first
  raw value above baseline + 0.5. Both axes are then re-based at the origin.
- `Pipeline`: the GUI's `analyze_file` as a function, and the batch script's
  `main` as a method proved to compute the same thing with the default
  constants.

Where the code's behaviour differs from what one might expect of it, the
model follows the code:

- **A clean jump is not a step response.** A trace at 0 V for 3 s and then
  5 V (window 1, peak tolerance 1, settle start 4) looks like a step, but the
  code measures the excursion from the first post-zero sample, which is
  already 5 V. So the peak variation is 0, below the tolerance, and the code
  returns "no significant overshoot or undershoot". (With settle start 4 the
  settle window would also be empty.) `Pipeline.JumpThenHoldScenario` proves
  what the code returns.
- **Even smoothing windows.** These are not symmetric. For width `w`, point
  `i` averages positions `i - w/2 .. i + (w-1)/2`, as pandas does.
- **Single-sample settle window.** It never settles: pandas gives a NaN
  standard deviation for one sample, and `NaN < tol` is false.
- **Revised script's baseline and rise test.** Both use raw voltages, not
  smoothed ones. That script does no smoothing.
- **The rise origin as a position.** The revised script reads the first rise
  from an index label. The model reads it as a position, which is the same
  thing for the default index that `read_csv` produces.

Standard deviations are compared without a square root. "std < tol" is
modelled as: at least two points, `tol > 0`, and `variance < tol * tol`.
`Statistics.StdBelowIsSqrtComparison` proves this matches comparing any
non-negative square root of the variance with `tol`.

## Model

| member | source | states |
|---|---|---|
| `Smoothing.RollingMean` | csv2g-gui.py:21 | same length as the input; output `i` is the mean of raw positions `max(0, i - w/2) .. min(n-1, i + (w-1)/2)`, a non-empty window that contains `i` (also csv2g-nogui.py:81) |
| `Smoothing.WindowSize` | csv2g-gui.py:21 | every window holds between 1 and `w` points; it holds exactly `w` points iff it is not cut off at either end |
| `Smoothing.RollingMeanWindowOne` | csv2g-gui.py:21 | a window of 1 is the identity |
| `Smoothing.RollingMeanWithinBounds` | csv2g-gui.py:21 | if every raw value lies in `[lo, hi]`, so does every smoothed value |
| `Smoothing.RollingMeanOfConstant` | csv2g-gui.py:21 | a constant series is unchanged by smoothing, for any window |
| `Series.MeanBounds` | csv2g-gui.py:21 | a window mean lies between any bounds of its points |
| `Series.SeqMax` | csv2g-gui.py:59 | `np.max`: an element of the window, and no element is larger |
| `Series.SeqMin` | csv2g-gui.py:60 | `np.min`: an element of the window, and no element is smaller |
| `Series.Where` | csv2g-gui.py:52-53 | boolean indexing selects as many points as the mask has true entries |
| `Series.SelectedPosition` | csv2g-gui.py:52-53 | the `k`-th selected point is `s[i]` for a masked position `i` with exactly `k` masked positions before it, so selection keeps the series' order |
| `Series.WhereFirst` | csv2g-gui.py:58 | the first selected point is the point at the first masked position (`.iloc[0]` of the masked series) |
| `Series.WhereContainsMasked` | csv2g-gui.py:53 | every point where the mask holds is selected |
| `Series.WhereCompose` | csv2g-gui.py:66-67 | masking inside an already masked pair is one mask on the original: `v[m][t[m] >= c] == v[m & (t >= c)]` |
| `Series.FirstMeeting` | csv2g-gui.py:44-47 | the first index from `k` whose value meets the test: every earlier index fails it; None iff no index from `k` on meets it |
| `Series.Offset` | csv2g-gui.py:26 | `s - c`: same length, every point is `s[i] - c`, and every difference between two samples is kept |
| `Series.OffsetZeroAt` | csv2g-nogui.py:102 | shifting by the value at the origin puts the origin at zero and every point at its distance from the origin |
| `Series.OffsetKeepsOrder` | csv2g-gui.py:26 | non-decreasing times stay non-decreasing; every sample from the origin on is at time >= 0 |
| `DepartureOrigin.OriginIndex` | csv2g-gui.py:42-48 | a valid position; if positive, it departs from the first smoothed value by more than the tolerance and no position in `1..i-1` does; it is 0 iff no position from 1 on departs (fallback, not error) |
| `DepartureOrigin.DetectOriginTime` | csv2g-gui.py:41-48 | the loop with `break` returns `time[OriginIndex(smoothed, tol)]`, in both the found and the fallback branch |
| `DepartureOrigin.LocateOrigin` | csv2g-nogui.py:84-97 | the batch script's loop gives the same origin position as `OriginIndex`, its time, and a baseline equal to the smoothed value at the origin in both branches |
| `StepResponse.PeakVariation` | csv2g-gui.py:58-61 | `max(abs(max - v0), abs(min - v0))` is >= 0, bounds the distance of every post-zero point from the first one, and is reached by some point |
| `StepResponse.PostZero` | csv2g-gui.py:51-53 | the post-zero window is empty iff every shifted time is negative, holds the value of every post-zero sample, and starts with the value at the first post-zero position |
| `StepResponse.SettleWindow` | csv2g-gui.py:66-67 | the settle window, selected inside the post-zero window, equals one mask on the original series (shifted time >= 0 and >= settle time), and is empty iff no sample meets both |
| `StepResponse.DetectStepResponse` | csv2g-gui.py:50-74 | "no data after time zero" iff every shifted time is negative; "no settle data" only when no post-zero sample reaches the settle time; a step response implies peak variation >= peak tolerance, at least two settle samples, a positive tolerance and variance below its square |
| `StepResponse.VerdictPaths` | csv2g-nogui.py:29-60 | the four false exits, in order (no post-zero data, no significant excursion, no settle data, not settled), each iff its condition holds and the earlier tests passed; true iff all four tests pass |
| `StepResponse.DependsOnlyOnPostZero` | csv2g-gui.py:51-53 | classifying only the post-zero samples gives the same verdict as classifying the whole trace |
| `StepResponse.SettleToleranceMonotone` | csv2g-gui.py:72-74 | raising the settle tolerance never turns a step response into a non-step |
| `StepResponse.PeakToleranceMonotone` | csv2g-gui.py:63-64 | raising the peak tolerance never turns a non-step into a step response |
| `StepResponse.PeakAtTolerancePasses` | csv2g-nogui.py:41 | a peak variation equal to the tolerance passes the excursion test (strict `<`) |
| `StepResponse.StdAtToleranceFails` | csv2g-nogui.py:53-55 | a standard deviation equal to the tolerance fails the settle test (strict `<`) |
| `StepResponse.SmallSwingIsNotStep` | csv2g-gui.py:58-64 | post-zero points all strictly within the peak tolerance of each other give "no data" or "no significant peak", never a step |
| `StepResponse.NoSignificantPeakIff` | csv2g-gui.py:58-64 | with `k` the first post-zero position, the verdict is "no significant excursion" iff every post-zero sample is strictly within the peak tolerance of the sample at `k` |
| `StepResponse.ConstantIsNotStep` | csv2g-gui.py:58-64 | a constant post-zero window is not a step response when the peak tolerance is positive |
| `StepResponse.SwingRaisesPeak` | csv2g-gui.py:58-61 | two post-zero points `2p` apart force a peak variation of at least `p` |
| `StepResponse.MaskedConstantSettles` | csv2g-gui.py:72-74 | two or more selected points holding one value pass the settle test for any positive tolerance |
| `StepResponse.SteadyJumpIsStep` | csv2g-gui.py:50-74 | a post-zero swing of `2 * peak tolerance`, then one value held at two or more samples from the settle time on, is a step response |
| `StepResponse.SwingWithoutSettlingIsNotSettled` | csv2g-gui.py:50-74 | a post-zero swing of `2 * peak tolerance` whose settle window has two or more samples and a standard deviation at or above the settle tolerance is "not settled" |
| `Statistics.SumSqDev` | csv2g-gui.py:72 | a sum of squared deviations is never negative |
| `Statistics.SampleVariance` | csv2g-gui.py:72 | the ddof=1 variance of two or more points is never negative |
| `Statistics.VarianceOfConstant` | csv2g-gui.py:72 | a window holding one value has sample variance 0 |
| `Statistics.VarianceZeroIffConstant` | csv2g-gui.py:72 | the sample variance is 0 iff every point holds the same value |
| `Statistics.StdBelow` | csv2g-gui.py:72-74 | the settle test fails for a single point (NaN deviation) and for a tolerance <= 0 |
| `Statistics.StdBelowIsSqrtComparison` | csv2g-gui.py:72-74 | the square-root-free settle test agrees with `std < tol` for the non-negative square root of the variance |
| `Statistics.StdBelowMonotone` | csv2g-nogui.py:55 | a window below one tolerance is below every larger one |
| `Statistics.SortAscending` | csv2graphreviced.py:47 | the sorted copy has the input's length, is sorted and is a permutation of the input |
| `Statistics.Median` | csv2graphreviced.py:47 | the first half (rounded up) of the sorted copy is at or below the median and the second half at or above it; it lies between the min and max; for an odd count it is one of the points |
| `Statistics.MiddleSplitsSorted` | csv2graphreviced.py:47 | the value the median takes from a sorted copy has the first half (rounded up) of that copy at or below it and the second half at or above it |
| `RiseOrigin.BaselineVoltage` | csv2graphreviced.py:43-47 | the baseline is missing (the script's error exit) iff `min(20, n)` is 0; otherwise it is the median of the first `min(20, n)` raw voltages, so between their min and max |
| `RiseOrigin.FindRiseOrigin` | csv2graphreviced.py:52-64 | a valid position; "no rise" (warning, origin 0) iff no raw value is strictly above the threshold; with a rise, either the rise is at position 0 and the origin is 0, or `voltage[origin + 1]` is above the threshold and no point up to the origin is |
| `RiseOrigin.ProcessData` | csv2graphreviced.py:41-75 | error iff there are no baseline points; otherwise the baseline is `BaselineVoltage` (the median), the origin is `FindRiseOrigin` at baseline + rise threshold, lengths are kept, and time and voltage are both 0 at the origin and equal to their distance from the origin elsewhere |
| `RiseOrigin.ProcessKeepsShape` | csv2graphreviced.py:69-75 | re-basing keeps every difference between two samples on both axes, and keeps non-decreasing times non-decreasing |
| `Pipeline.AnalyzeFile` | csv2g-gui.py:16-30 | error for no samples or a window below 1; otherwise the smoothed series is `RollingMean` with the form's window, the origin is `OriginIndex` of it with the baseline tolerance, `originTime == time[origin]`, every shifted time is `time[i] - originTime` (0 at the origin), the plotted voltage is the raw voltage, the verdict is `DetectStepResponse` on the shifted time and smoothed voltage and is never "no data after time zero", and non-decreasing times stay non-decreasing and are >= 0 from the origin on |
| `Pipeline.AnalyzeWithDefaults` | csv2g-nogui.py:76-106 | the batch script's `main` (inline loop, constants) computes exactly `AnalyzeFile` with the default parameters; the baseline it re-reads at the origin changes nothing |
| `Pipeline.JumpThenHoldScenario` | csv2g-gui.py:16-30 | 0 V for 3 s then 5 V, window 1: origin position 3 at 3 s, shifted times -3..3, verdict "no significant peak" |

## Left out

- CSV reading, `skip_rows` parsing, column checks and `pd.to_datetime` are
  not modelled. They are file I/O and library parsing. The model takes
  already-parsed times in seconds and voltages.
- Plotting and the plot-range mask (`plot_and_save_graph` in both scripts,
  the plotting in the batch script's `main`) are not modelled. They only
  render.
- The tkinter GUI (`main_gui`, `select_file_and_analyze`, `show_graph`,
  `open_saves`) is not modelled. It is UI and OS calls. The form's parameters
  become the `Params` record.
- csv2graph.py is not modelled. Its only logic, zeroing time and voltage at
  the first sample, is the origin-0 case of `RiseOrigin.ProcessData`.
- `print`, `sys.exit` and `messagebox` are not modelled. They become result
  values: `Verdict` reasons, `RisePoint.riseDetected`, `NotEnoughData`,
  `AnalysisError`.
- Floating point is not modelled. Values are exact reals, and no NaN can enter
  the input. The one NaN the analysis itself can produce (the deviation of a
  single sample) is modelled as "not settled".
- `RiseOrigin.FindRiseOrigin` requires at least one sample. The script stops
  before this step when the baseline has no points.
- The index label behind `rise_start_indices[0]` is not modelled. The model
  uses the position, which is what the label is under the default index.
- Exceptions from malformed files, non-numeric columns or a failed
  conversion are not modelled. They happen while the input is read.
