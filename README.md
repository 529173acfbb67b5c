# Jiggler resonance bookkeeping, modelled in Dafny

The Jiggler is a torsion-oscillator instrument. A Python class `Jiggler`
drives it: it sweeps a frequency grid, reads comma-separated sample lines
from the instrument, filters the malformed ones, and reduces each
frequency's deflections to an amplitude. It then fits a parabola to the
resonance peak of the amplitude curve and records the resonance frequency
of every sweep, or of every imported curve. Each fit is passed through a
50-200 Hz plausibility filter.

This project models the deterministic core of that class:

- `frequency_grid.dfy`: the frequency grid (`frequency_steps`) and the byte
  strings sent for it (`range_byte_encoder`).
- `py_numbers.dfy` and `py_strings.dfy`: the parts of Python the row filter
  depends on. These are `str.split`, and the grammars of `int()` and
  `float()` on text. They also cover round-half-to-even division, which is
  what `np.round` of a mean and halving a `timedelta` perform.
- `row_filter.dfy`: the row rule of `data_filter`, and what the filter
  returns for a list of lines.
- `amplitude_max.dfy`: `Amplitude_max`, both as a specification function
  and as the histogram-and-scan method.
- `parabolic_peak.dfy`: the peak-window logic of `parabolic_fit`. This
  covers the first arg-max, the two shoulder levels, the threshold, the
  selected points and the vertex of the fitted parabola. The least-squares
  fit is a function parameter.
- `jiggler.dfy`: the class `Jiggler` and its fields. Its methods are the
  filter loop, the fit that appends to `res_freq_amp`, the per-sweep
  bookkeeping, and the per-curve import loop. The last two append
  plausibility-filtered resonances to `parabolic_res_freq` and
  `lorentz_res_freq`.

Values are exact: frequencies and amplitudes are `real`, and deflections and
times are `int`. The three crashes of the core are modelled as `Err`
results:

- `data_clean[0]` when every line is rejected;
- `A_max` unbound when no deviation level qualifies;
- the failures of `parabolic_fit`: a zero step, an empty curve, a shoulder
  index out of range, an empty selection after a NaN mean, and a degenerate
  fit.

Where the documented behaviour and the code differ, the model follows the
code:

- The docstring of `data_filter` speaks of three fields. The code demands
  five, because of the two temperature fields.
- `np.linspace` with one sample returns only the start point, even when the
  stop differs from it (`ShortRangeIsStartOnly`).
- The right shoulder is read at `Amax_ind + half_width - 1`. The left one
  is read at `Amax_ind - half_width`. With a zero half width and the peak
  at index 0, the right index is -1, which Python reads as the last point.
- The sweep's midpoint is computed as `start + (start - end) / 2`. This
  lies before the start of the sweep, not between start and end. It is
  modelled as written (`MidTime`, `MidTimeBeforeStart`).

## Model

| member | source | states |
|---|---|---|
| FrequencyGrid.Linspace | Jiggler_funcs_V1_02_with_temp.py:274 | `np.linspace`: num points, the start alone for one point, otherwise evenly spaced from the start to the stop |
| FrequencyGrid.Trunc | Jiggler_funcs_V1_02_with_temp.py:274 | `int()` of a float truncates toward zero: the result's magnitude is within one below the argument's, with the same sign |
| FrequencyGrid.FrequencySteps | Jiggler_funcs_V1_02_with_temp.py:264-276 | the grid fails exactly for a zero step or a negative sample count; otherwise it has `int(\|stop - start\| / step) + 1` points |
| FrequencyGrid.PositiveStepCount | Jiggler_funcs_V1_02_with_temp.py:274 | a positive step always gives a grid, of floor(\|stop - start\| / step) + 1 points |
| FrequencyGrid.GridShape | Jiggler_funcs_V1_02_with_temp.py:274 | the grid starts at the start frequency, ends at the stop frequency once it has two points, and is evenly spaced |
| FrequencyGrid.GridIncreasing | Jiggler_funcs_V1_02_with_temp.py:274 | an upward sweep with a positive step visits strictly increasing frequencies |
| FrequencyGrid.SpacingAtLeastStep | Jiggler_funcs_V1_02_with_temp.py:274 | neighbouring grid points are never closer than the step, since the count is rounded down |
| FrequencyGrid.ShortRangeIsStartOnly | Jiggler_funcs_V1_02_with_temp.py:274 | a range shorter than the step gives the start frequency alone |
| FrequencyGrid.DecodeEncode | Jiggler_funcs_V1_02_with_temp.py:294 | decoding the UTF-8 encoding of ASCII text gives the text back |
| FrequencyGrid.RangeByteEncoder | Jiggler_funcs_V1_02_with_temp.py:279-298 | one encoding per frequency, in grid order, each decoding to that frequency's text |
| PyStrings.Split | Jiggler_funcs_V1_02_with_temp.py:323 | `split(',')` gives one more piece than there are commas, and no piece holds a comma |
| PyStrings.JoinSplit | Jiggler_funcs_V1_02_with_temp.py:323 | joining the pieces with the separator gives the line back |
| PyStrings.SplitJoin | Jiggler_funcs_V1_02_with_temp.py:323 | splitting comma-free fields joined with commas gives the fields back |
| PyNumbers.ParseInt | Jiggler_funcs_V1_02_with_temp.py:331-358 | `int()` of a field: ASCII whitespace (tab, line feed, vertical tab, form feed, carriage return, space) around an optional sign and one digit group, underscores allowed between digits, at most 4300 digits; `None` is the `ValueError` the bare `except` catches |
| PyNumbers.ParseFloat | Jiggler_funcs_V1_02_with_temp.py:338-374 | `float()` of a field: the same whitespace around an optional sign and a decimal number with optional point and exponent, or `inf`, `infinity`, `nan` in any case; no digit limit |
| PyNumbers.IntTextRoundTrip | Jiggler_funcs_V1_02_with_temp.py:348-358 | `int()` reads back the decimal text of any integer of at most 4300 digits, with trailing whitespace such as the line ending, and refuses the text of a longer one |
| PyNumbers.DigitLengthBound | Jiggler_funcs_V1_02_with_temp.py:348-358 | an integer has at most k digits exactly when its magnitude is below 10^k, so the integers `int()` reads back are those below 10^4300 in magnitude |
| PyNumbers.DecimalTextRoundTrip | Jiggler_funcs_V1_02_with_temp.py:331-344 | `float()` reads back a fixed-point decimal exactly, with trailing ASCII whitespace, and `int()` refuses it |
| PyNumbers.IntLiteralIsFloatLiteral | Jiggler_funcs_V1_02_with_temp.py:331-344 | every text `int()` accepts, `float()` accepts with the same value |
| PyNumbers.IntTextFloat | Jiggler_funcs_V1_02_with_temp.py:338-344 | `float()` reads the decimal text of any integer, however long, as that integer |
| PyNumbers.SignedLiteralIsFloatLiteral | Jiggler_funcs_V1_02_with_temp.py:331-344 | `float()` reads a signed digit group of any length as its integer value, also where `int()` refuses it for its length |
| PyNumbers.RoundHalfEvenDiv | Jiggler_funcs_V1_02_with_temp.py:1235 | the result is within half a step of a / b, and a tie goes to the even neighbour |
| PyNumbers.RoundHalfEvenUnique | Jiggler_funcs_V1_02_with_temp.py:1235 | round half to even is the only integer that meets those two conditions |
| RowFilter.ParseRow | Jiggler_funcs_V1_02_with_temp.py:323-377 | the rule for one line: five fields; the first not an `int()` literal but a `float()` literal; the second and third `int()` literals; the last two `float()` literals; the kept row holds the converted values |
| RowFilter.FilterOutcome | Jiggler_funcs_V1_02_with_temp.py:319-382 | what `data_filter` returns: the kept rows in order and the rejected count, with a warning naming the first kept frequency when a line was rejected, or the `data_clean[0]` `IndexError` when none was kept |
| RowFilter.CountsAddUp | Jiggler_funcs_V1_02_with_temp.py:319-377 | every line is either kept or counted in `bad_count` |
| RowFilter.KeptAppend | Jiggler_funcs_V1_02_with_temp.py:321-377 | filtering two batches one after the other keeps the same rows, in order, as filtering them together |
| RowFilter.KeptMembership | Jiggler_funcs_V1_02_with_temp.py:321-377 | a row is in `data_clean` exactly when some line converts to it |
| RowFilter.FilterFailsIff | Jiggler_funcs_V1_02_with_temp.py:380-381 | the filter raises exactly when there is at least one line and every line is rejected |
| RowFilter.FilterReportCounts | Jiggler_funcs_V1_02_with_temp.py:380-382 | a report warns exactly when a line was rejected, and its counts add up to the number of lines |
| RowFilter.InstrumentLineKept | Jiggler_funcs_V1_02_with_temp.py:323-377 | a five-field line with a decimal frequency, integer time and deflection, decimal temperatures and an ASCII-whitespace line ending is kept with exactly those values when the time and deflection have at most 4300 digits, and rejected otherwise |
| RowFilter.IntegerFrequencyRejected | Jiggler_funcs_V1_02_with_temp.py:331-344 | a line whose frequency is an integer literal of at most 4300 digits is rejected, whatever its other fields; a longer one passes to `float()`, and the line is kept when its other fields convert |
| RowFilter.ThreeFieldLineRejected | Jiggler_funcs_V1_02_with_temp.py:326-329 | a line of three fields is rejected |
| AmplitudeMax.AmplitudeMaxSpec | Jiggler_funcs_V1_02_with_temp.py:1228-1247 | `Amplitude_max`: deviations from the half-to-even rounded mean, scanned from the largest down for the first level shared by more than 2% of the samples; no such level is the unbound-`A_max` error |
| AmplitudeMax.SearchFinds | Jiggler_funcs_V1_02_with_temp.py:1242-1246 | the downward scan stops at the highest qualifying level at or below its start, or finds none because none qualifies |
| AmplitudeMax.AmplitudeMaxIsLargestQualifying | Jiggler_funcs_V1_02_with_temp.py:1228-1247 | the result occurs among the deviations, more than 2% of the samples share it, and no larger level qualifies; it fails exactly when no level qualifies |
| AmplitudeMax.SmallBatchTakesLargestDeviation | Jiggler_funcs_V1_02_with_temp.py:1242-1246 | below 50 samples every occurring level qualifies, so the result is the largest deviation |
| AmplitudeMax.ShiftInvariant | Jiggler_funcs_V1_02_with_temp.py:1235-1237 | adding an even offset to every angle leaves the amplitude unchanged |
| AmplitudeMax.NegateInvariant | Jiggler_funcs_V1_02_with_temp.py:1235-1237 | flipping the sign of every angle leaves the amplitude unchanged |
| AmplitudeMax.TieRoundedDown | Jiggler_funcs_V1_02_with_temp.py:1235 | the batch 0, 0, 2, 4 has amplitude 2 |
| AmplitudeMax.TieRoundedUp | Jiggler_funcs_V1_02_with_temp.py:1235 | the same batch moved up by one has amplitude 3, so an odd offset can change the result |
| AmplitudeMax.Histogram | Jiggler_funcs_V1_02_with_temp.py:1240 | `np.bincount`: entry v counts the deviations equal to v |
| AmplitudeMax.ComputeAmplitudeMax | Jiggler_funcs_V1_02_with_temp.py:1228-1247 | the histogram-and-scan computation returns the largest qualifying level, or the unbound-`A_max` error |
| ParabolicPeak.HalfWidth | Jiggler_funcs_V1_02_with_temp.py:1257-1260 | `int(peak_width / (2 * step_size))`, truncated toward zero; a zero step is the `ZeroDivisionError` |
| ParabolicPeak.RightShoulder | Jiggler_funcs_V1_02_with_temp.py:1287-1293 | the mean of the last tenth of the curve when the half width exceeds the points from the peak to the end, otherwise the amplitude at peak + half width - 1, read with Python's wrap-around |
| ParabolicPeak.LeftShoulder | Jiggler_funcs_V1_02_with_temp.py:1295-1301 | the mean of points 1 to n/10 when the half width exceeds the points before the peak, otherwise the amplitude at peak - half width |
| ParabolicPeak.Threshold | Jiggler_funcs_V1_02_with_temp.py:1303-1305 | the half-maximum level: half the peak plus half the mean of the two shoulders |
| ParabolicPeak.PeakWindow | Jiggler_funcs_V1_02_with_temp.py:1266-1311 | the first peak, both shoulders, the threshold and the points at or above it; an empty curve, a shoulder read out of range, or a NaN shoulder mean (which selects nothing to fit) is an error |
| ParabolicPeak.Resonance | Jiggler_funcs_V1_02_with_temp.py:1314-1322 | the vertex of the fitted parabola and its height there; a zero leading coefficient is the degenerate fit |
| ParabolicPeak.CurveFit | Jiggler_funcs_V1_02_with_temp.py:1253-1326 | `parabolic_fit`: half width, window, `np.polyfit` of the selected points, then the resonance, failing at the first step that raises |
| ParabolicPeak.FirstArgMax | Jiggler_funcs_V1_02_with_temp.py:1267-1268 | the index holds the largest amplitude, and every earlier amplitude is strictly smaller |
| ParabolicPeak.PyIndex | Jiggler_funcs_V1_02_with_temp.py:1293 | Python indexing succeeds exactly for indices from -len to len - 1, and yields an element of the curve |
| ParabolicPeak.ComputeRightShoulder | Jiggler_funcs_V1_02_with_temp.py:1287-1293 | the `b_vals` loop and mean, or the single read, give the right shoulder level |
| ParabolicPeak.ComputeLeftShoulder | Jiggler_funcs_V1_02_with_temp.py:1295-1301 | the `a_vals` loop and mean, or the single read, give the left shoulder level |
| ParabolicPeak.Above | Jiggler_funcs_V1_02_with_temp.py:1308 | `np.where(amps >= threshold)` gives exactly the indices at or above the threshold, increasing |
| ParabolicPeak.ShouldersAtMostPeak | Jiggler_funcs_V1_02_with_temp.py:1287-1301 | both shoulder levels, when they are numbers, are at most the peak amplitude |
| ParabolicPeak.ThresholdBetween | Jiggler_funcs_V1_02_with_temp.py:1303-1305 | the threshold lies between the shoulders' mean and the peak |
| ParabolicPeak.PeakInWindow | Jiggler_funcs_V1_02_with_temp.py:1303-1311 | the peak is always selected, and x and y are taken at the same indices, all at or above the threshold |
| ParabolicPeak.ShoulderIndicesInRange | Jiggler_funcs_V1_02_with_temp.py:1287-1301 | with a non-negative half width neither shoulder read raises an IndexError |
| ParabolicPeak.EmptySelectionNeedsShortCurve | Jiggler_funcs_V1_02_with_temp.py:1275-1308 | with a non-negative half width, only a curve of fewer than ten points can leave nothing to fit |
| ParabolicPeak.VertexForm | Jiggler_funcs_V1_02_with_temp.py:1314-1322 | the fitted parabola is `c0 (x - v)^2 + P(v)` around its vertex v |
| ParabolicPeak.RootsMeanIsVertex | Jiggler_funcs_V1_02_with_temp.py:1315-1320 | the mean of two distinct roots at the threshold is the vertex, which is why the vertex models `np.mean(fit_x)` |
| ParabolicPeak.VertexIsPeak | Jiggler_funcs_V1_02_with_temp.py:1320-1322 | a downward parabola is highest at the vertex and symmetric about it |
| JigglerState.Plausible | Jiggler_funcs_V1_02_with_temp.py:676-681 | a fitted frequency is kept exactly when it lies strictly between 50 and 200 Hz |
| JigglerState.FailedLorentzIsNone | Jiggler_funcs_V1_02_with_temp.py:684-691 | a failed Lorentz fit is always recorded as None |
| JigglerState.MidTime | Jiggler_funcs_V1_02_with_temp.py:661 | the midpoint as written: start plus half of start minus end, rounded half to even to the microsecond |
| JigglerState.MidTimeBeforeStart | Jiggler_funcs_V1_02_with_temp.py:661 | the recorded midpoint lies before the start, half the sweep's length away, to the microsecond |
| JigglerState.CurveStep | Jiggler_funcs_V1_02_with_temp.py:941 | the step of an imported curve is its second frequency minus its first; a curve of fewer than two points has none (the `IndexError`) |
| JigglerState.ImportedFit | Jiggler_funcs_V1_02_with_temp.py:939-953 | importing one curve: its step, then the parabolic fit when enabled, giving the fit or the first error |
| JigglerState.OutcomeAt | Jiggler_funcs_V1_02_with_temp.py:939-963 | the outcome recorded for curve i is the import of curve i |
| JigglerState.ImportRecordsOnePerCurve | Jiggler_funcs_V1_02_with_temp.py:939-953 | with the parabolic fit on and every curve importing, one filtered resonance is recorded per curve, in curve order |
| JigglerState.ImportRecordsNoneWhenOff | Jiggler_funcs_V1_02_with_temp.py:939-944 | with the parabolic fit off, curves of at least two points all import and record no parabolic result |
| JigglerState.Jiggler.constructor | Jiggler_funcs_V1_02_with_temp.py:111-157 | a new object starts at loop 0 with the given step and fit options, and with empty result and time lists |
| JigglerState.Jiggler.NextLoop | Jiggler_funcs_V1_02_with_temp.py:724-725 | each sweep of the measurement loop raises the loop number by one |
| JigglerState.Jiggler.DataFilter | Jiggler_funcs_V1_02_with_temp.py:301-382 | the filter loop returns the kept rows, the rejected count and the warning, or the `data_clean[0]` error; the counts add up |
| JigglerState.Jiggler.ParabolicFit | Jiggler_funcs_V1_02_with_temp.py:1253-1326 | the fit returns the vertex and the parabola's height there, or its error; `res_freq_amp` gains the height only on success |
| JigglerState.Jiggler.RecordParabolic | Jiggler_funcs_V1_02_with_temp.py:676-681 | appends the filtered parabolic resonance and nothing else |
| JigglerState.Jiggler.RecordLorentz | Jiggler_funcs_V1_02_with_temp.py:684-691 | appends the filtered Lorentz resonance and nothing else |
| JigglerState.Jiggler.Sweep | Jiggler_funcs_V1_02_with_temp.py:613-698 | each enabled fit appends one filtered entry and the times are appended; it fails exactly when the enabled parabolic fit of lines 674-698 fails, and then records nothing |
| JigglerState.Jiggler.ImportCurve | Jiggler_funcs_V1_02_with_temp.py:939-963 | importing one curve gives that curve's outcome; on success each enabled fit appends one entry, and on error nothing changes |
| JigglerState.Jiggler.ImportFits | Jiggler_funcs_V1_02_with_temp.py:939-963 | the import succeeds exactly when no curve fails; the lists gain the filtered results of the curves before the first failure, in order |

## Left out

- Serial I/O, plotting, file export, `time.sleep` and the clock are left out. The lines a sweep reads, its start and end times, and its amplitude curve are parameters.
- Floating point is not modelled: values are exact reals. This leaves out double rounding, overflow to `inf`, signed zero and NaN in a fitted frequency.
- `float()` of text is modelled on ASCII input, which is all that `read_until` and an ASCII decode can give.
- `str(freq)` is a parameter of `RangeByteEncoder`, and the model assumes its text is ASCII.
- `np.polyfit` is a parameter. The Lorentz fit (`lorentz_fit`) is a parameter too: its result is a centre frequency or the failure sentinel.
- `np.roots` with a negative discriminant gives complex roots. The model takes their real part, the vertex, as their mean.
- The plotting outputs of `parabolic_fit` (`x_coords`, `y_fit`) and the stored `parabolic_fit_params` are left out.
- `data_formatter`, `Amplitude_solver`, `Average_Temp` and the temperature lists are left out. They are not part of this model.
- The `strftime` formatting of the three sweep times is left out. Times are integers in microseconds.
- AmplitudeMax.ShiftInvariant: stated for even offsets only. An odd offset can move a tie in the rounded mean (`TieRoundedDown`, `TieRoundedUp`).
- JigglerState.ImportRecordsOnePerCurve: stated for an import in which every curve succeeds. The partial case follows from `ImportFits`.
- The constructor does not compute `frequency_range` and `frequency_byte_list`. `FrequencySteps` and `RangeByteEncoder` model those two computations.
