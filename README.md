# Power electronics simulators, modelled in Dafny

The repository holds three small simulators:

- `Buck_Conversor_CC-CC.py`, a script for an ideal buck (step-down) DC-DC
  converter. It derives the load resistance, the duty cycle and the time step
  from its parameters. It then runs a forward-Euler simulation of the inductor
  and the capacitor on a fixed grid, switching an ideal PWM gate, and prints
  the steady-state mean and ripple of the output voltage and the ripple of the
  inductor current.
- `Test.py` and `Buck_Conversor.py`, two Tk applications named
  `CircuitoRetificadorApp`. Both simulate a half-wave rectifier with an LC
  filter and a resistive load. `calcular` validates five inputs, derives the
  peak voltage, the period, the angular frequency and the LC cut-off
  frequency, integrates the circuit on a 4000-point grid over four source
  periods, and reduces the samples from the last grid point not after two
  periods (2T) onwards to a report.
  `exportar_dados` produces a table with a header and one row per grid point.
  `Test.py` stores the last run in the object and exports that.
  `Buck_Conversor.py` stores nothing and recomputes the traces while exporting.

The Dafny modules follow that structure:

| module | file | models |
|---|---|---|
| `Outcomes` | `outcomes.dfy` | the error kinds and a `Result` type |
| `Numeric` | `numeric.dfy` | `int()`, `% 1.0`, `math.ceil`, slicing, `np.arange`, `np.linspace` |
| `Stats` | `stats.dfy` | `np.mean`, `np.max`, `np.min`, peak-to-peak ripple, ripple factor |
| `RealMath` | `realmath.dfy` | `math.sqrt`, `np.sin`, `math.pi` as a value with stated laws |
| `BuckConverter` | `buck.dfy` | the buck converter script |
| `Rectifier` | `rectifier.dfy` | the rectifier computations both applications share |
| `TestApp` | `testapp.dfy` | the application of `Test.py`, as a class with the stored run |
| `ConversorApp` | `conversorapp.dfy` | the export of `Buck_Conversor.py` |

Modelling choices:

- Floating point becomes exact `real` arithmetic.
- `sqrt`, `sin` and `pi` are fields of a `RealMath.Transcendental` value passed
  to every member that needs them. The predicate `Lawful` states the facts the
  proofs use: `pi > 3`, `sqrt` is a non-negative square root on
  non-negative arguments, and `-1 <= sin <= 1`.
- The ODE integrator `odeint` is not modelled. Its trajectory, one
  `(i_L, v_C)` pair per grid point, is an input `sol`. Its right-hand side
  `circuito_deriv` is modelled as `Rectifier.CircuitDeriv`.
- The buck script's loop writes five numpy arrays in place. The model keeps
  them as five Dafny arrays and proves the loop against a reference function
  `StateAt`, defined by recursion over the grid.
- Python's `x % 1.0` is `x - floor(x)`; `int(x)` truncates toward zero;
  `s[k:]` follows Python's slice rules for negative and too-large starts.
- A message box with an error becomes an `Err` value: `InvalidParameter` for
  the "values must be positive" check, `NoDataToExport` when `Test.py` has no
  stored run, `EmptyGrid` where the buck script's empty time grid makes
  `V_C[0] = 0.0` (line 31) raise `IndexError` before the loop, and
  `EmptyWindow` where `np.max` would raise on an empty window (`np.mean`
  alone would return `nan` there). Neither program's own grid reaches that
  case.
- The buck script has no input checks. Its members require `WellFormed`,
  non-zero values for the six divisors, for two different reasons:
  - `Iout` (line 8), `Vin` (line 10) and `fsw` (line 19) are divided as
    plain Python numbers; a zero there stops the script with
    `ZeroDivisionError`.
  - `L` (line 49), `Cout` (line 55) and `R_load` (line 52, zero when
    `Vout_desejado` is zero) divide numpy `float64` samples; a zero there
    yields `inf` or `nan` with a warning and the loop runs on. Non-finite
    floats are not modelled, so these cases are excluded too.
- The script does not reject `Vin <= Vout`. For `0 < Vin <= Vout` the duty
  cycle is 1 or more and the switch stays on; for a negative `Vin` and a
  positive `Vout` it is negative and the switch stays off. `GateExtremes`
  states both.
- Neither rectifier application checks the diode drops, so the model accepts
  any drop. The one property that needs a non-negative drop,
  `RectifyMonotone`, requires it.

## Model

| member | source | states |
|---|---|---|
| BuckConverter.WellFormed | Buck_Conversor_CC-CC.py:8-55 | the six divisors of lines 8, 10, 19, 49, 52 and 55 (Iout, Vin, fsw, L, R_load through Vout, Cout) are non-zero |
| BuckConverter.LoadResistance | Buck_Conversor_CC-CC.py:8 | R times Iout is the desired output voltage; positive for positive operands |
| BuckConverter.DutyCycle | Buck_Conversor_CC-CC.py:10 | D times Vin is Vout; strictly between 0 and 1 when 0 < Vout < Vin |
| BuckConverter.TimeStep | Buck_Conversor_CC-CC.py:19 | dt times fsw times 200 is 1, so one switching period is exactly 200 steps; positive for fsw > 0 |
| BuckConverter.TimeGrid | Buck_Conversor_CC-CC.py:20 | np.arange(0, t_sim, dt), as Numeric.Arange with the script's step |
| Numeric.Arange | Buck_Conversor_CC-CC.py:20 | the grid has ceil(stop/step) points (none when that is not positive), and point i is i times step |
| Numeric.ArangeCovers | Buck_Conversor_CC-CC.py:20 | every point lies in [0, stop), and the points reach stop once more is added |
| Numeric.Ceil | Buck_Conversor_CC-CC.py:20 | the result is the least integer not below x |
| BuckConverter.ScriptDesign | Buck_Conversor_CC-CC.py:5-20 | the script's values give D = 1/3, R = 6 ohm, dt = 0.1 microsecond and a 50000-point grid |
| BuckConverter.InductorVoltage | Buck_Conversor_CC-CC.py:43-46 | Vin - V_C[i-1] while the switch conducts, -V_C[i-1] otherwise |
| BuckConverter.InductorCurrent | Buck_Conversor_CC-CC.py:49 | I_L[i-1] + (V_L[i] / L) * dt |
| BuckConverter.CapacitorCurrent | Buck_Conversor_CC-CC.py:52 | I_L[i] - V_C[i-1] / R_load |
| BuckConverter.CapacitorVoltage | Buck_Conversor_CC-CC.py:55 | V_C[i-1] + (I_C[i] / Cout) * dt |
| BuckConverter.LoadVoltage | Buck_Conversor_CC-CC.py:58 | V_C[i] + I_C[i] * R_esr |
| BuckConverter.Step | Buck_Conversor_CC-CC.py:37-58 | one pass of the loop body, from row i-1 to row i, in the script's order |
| BuckConverter.StateAt | Buck_Conversor_CC-CC.py:23-58 | the reference trajectory: zero at index 0, then Step at each later grid point; Simulate and RecurrenceYieldsTrajectory relate it to the arrays |
| BuckConverter.Simulate | Buck_Conversor_CC-CC.py:23-58 | on a non-empty grid, the five arrays are new, have the grid's length, row 0 is all zeros, every row is the reference trajectory StateAt, and every later row is the loop-body update of the row before |
| BuckConverter.RowIs | Buck_Conversor_CC-CC.py:23-58 | row i of the five arrays (Vout, V_L, V_C, I_L, I_C) holds exactly the five fields of a Sample |
| BuckConverter.RowFollows | Buck_Conversor_CC-CC.py:43-58 | row i is the loop body applied to row i-1: the gate at t[i] picks V_L, then I_L, I_C, V_C and Vout follow line by line |
| BuckConverter.SetRow | Buck_Conversor_CC-CC.py:43-58 | row k of the five arrays holds the new sample and every other row is unchanged |
| BuckConverter.RowsFollowRecurrence | Buck_Conversor_CC-CC.py:35-58 | arrays holding the reference trajectory satisfy the loop's update rule at every index from 1 |
| BuckConverter.RecurrenceYieldsTrajectory | Buck_Conversor_CC-CC.py:31-58 | conversely, arrays that start at zero and satisfy the update rule hold the reference trajectory |
| BuckConverter.GateOn | Buck_Conversor_CC-CC.py:37-40 | the PWM condition: (t * fsw) % 1.0 below the duty cycle; its properties are stated by the gate lemmas below |
| BuckConverter.GatePeriodic | Buck_Conversor_CC-CC.py:37-40 | shifting the time by whole switching periods leaves the gate unchanged |
| BuckConverter.GateExtremes | Buck_Conversor_CC-CC.py:37-40 | a duty cycle <= 0 never turns the switch on; one >= 1 keeps it on |
| BuckConverter.GateAtStep | Buck_Conversor_CC-CC.py:37-40 | at t = i*dt with 200 steps per period the gate depends only on (i mod 200)/200 |
| BuckConverter.GateOnGrid | Buck_Conversor_CC-CC.py:19-40 | on grid point i the switch conducts exactly when (i mod 200)/200 is below the duty cycle |
| BuckConverter.ScriptGatePattern | Buck_Conversor_CC-CC.py:5-40 | with the script's values the switch conducts on the first 67 steps of every 200 |
| BuckConverter.NoDutyStaysDischarged | Buck_Conversor_CC-CC.py:35-58 | with a duty cycle <= 0 every sample of the trajectory stays zero |
| BuckConverter.SteadyStart | Buck_Conversor_CC-CC.py:116 | int(0.9 n) is an index into a non-empty trace and leaves between n/10 and n/10 + 1 samples |
| BuckConverter.FinalMetrics | Buck_Conversor_CC-CC.py:116-118 | empty traces give an error; otherwise the results meet MetricsFacts for the tail from int(0.9 n) and the whole current trace |
| BuckConverter.MetricsFacts | Buck_Conversor_CC-CC.py:116-118 | the mean is np.mean of the voltage tail and lies between its extremes; the voltage ripple is the spread of the tail only, the current ripple the spread of the whole run |
| BuckConverter.MetricsFactsHold | Buck_Conversor_CC-CC.py:116-118 | the mean and the two peak-to-peak values of the script meet MetricsFacts |
| BuckConverter.CurrentRippleCoversTail | Buck_Conversor_CC-CC.py:100 | the whole-run current ripple bounds the ripple of every tail of the current trace |
| BuckConverter.Run | Buck_Conversor_CC-CC.py:17-118 | the grid is TimeGrid, the arrays are new and hold the reference trajectory; an empty grid, where the script fails at line 31, is the EmptyGrid error, and otherwise the metrics are FinalMetrics of the traces |
| Numeric.FracPart | Buck_Conversor_CC-CC.py:37 | x % 1.0 lies in [0, 1) and differs from x by an integer |
| Numeric.FracPartShift | Buck_Conversor_CC-CC.py:37 | adding an integer to x leaves x % 1.0 unchanged |
| Numeric.FracOfRatio | Buck_Conversor_CC-CC.py:37 | the fractional part of i/m is (i mod m)/m |
| Numeric.QuotientBelowOne | Buck_Conversor_CC-CC.py:10 | b/a lies strictly between 0 and 1 when 0 < b < a |
| Rectifier.ValidIffNoneNonPositive | Test.py:244-246 | the inputs are valid exactly when none of Vrms, f, R, L, C is <= 0 |
| Rectifier.Valid | Test.py:244 | every one of Vrms, f, R, L, C is positive; ValidIffNoneNonPositive relates it to the check as written |
| Rectifier.PeakVoltage | Test.py:249 | Vp squared is 2 Vrms squared, and Vp > 0 for Vrms > 0 |
| RealMath.SqrtPositive | Test.py:249 | the square root of a positive number is positive |
| Rectifier.Period | Test.py:250 | T times f is 1, and T > 0 for f > 0 |
| Rectifier.AngularFrequency | Test.py:251 | omega times T is 2 pi, and omega > 0 for f > 0 |
| Rectifier.CutoffFrequency | Test.py:254 | fc > 0 and (2 pi fc) squared times L C is 1 |
| Rectifier.CutoffSquare | Test.py:254 | the algebra that turns 1/(2 pi sqrt(L C)) into (2 pi fc)^2 L C = 1 |
| Rectifier.Grid | Test.py:257 | the simulation grid has 4000 points |
| Rectifier.GridShape | Test.py:257 | the grid starts at 0, ends at 4T and has the uniform step 4T/3999 |
| Numeric.Linspace | Test.py:257 | linspace has num points |
| Numeric.LinspaceShape | Test.py:257 | with at least two points the grid starts at start, ends at stop and is uniform |
| Rectifier.Rectify | Test.py:264-267 | above the conducting drop the output is the input minus that drop and positive; otherwise it is minus the freewheeling drop |
| Rectifier.RectifyWithin | Test.py:264-267 | an input not above the peak gives an output between RectLow and RectHigh |
| Rectifier.Derivative | Test.py:269-272 | di_L/dt times L is v_rect - v_C, and dv_C/dt times C is i_L - v_C/R |
| Rectifier.CircuitDeriv | Test.py:260-272 | the right-hand side handed to the integrator, per branch of the diode rule, with the capacitor equation multiplied out |
| Rectifier.SourceVoltage | Test.py:262 | the source Vp * sin(omega * t) |
| Rectifier.SourceTrace | Test.py:307 | one source sample Vp sin(omega t) per grid point, in order |
| Rectifier.SourceBelowPeak | Test.py:262 | the source never exceeds its peak |
| Rectifier.RectifiedTrace | Test.py:279-281 | one rectified sample per grid point, each the diode rule applied to the source, each positive or the freewheeling clamp |
| Rectifier.RectifiedWithin | Test.py:279-281 | every rectified sample lies between RectLow and RectHigh of the peak |
| Rectifier.SteadyStart | Test.py:284 | int(2T / (t[1] - t[0])); its value on the grid is stated by SteadyStartOnGrid |
| Rectifier.SteadyStartOnGrid | Test.py:284 | the window starts at index 1999, the last grid point not after 2T, leaving 2001 samples |
| Rectifier.WindowFacts | Test.py:285-289 | each mean is np.mean of its window and lies between its extremes; the ripple is the spread of the load-voltage window; the ripple factor is RippleFactor of ripple and mean load voltage |
| Rectifier.WindowFactsHold | Test.py:285-289 | the means, the ripple and the ripple factor of the windows meet WindowFacts |
| Rectifier.WindowReport | Test.py:285-289 | an empty window is an error; otherwise the report carries the given peak and cut-off and meets WindowFacts |
| Rectifier.RectifiedWindowWithin | Test.py:279-285 | the extremes of any tail of the rectified trace lie between RectLow and RectHigh |
| Rectifier.Calculate | Buck_Conversor.py:189-252 | InvalidParameter exactly for invalid inputs; otherwise the report is WindowReport of the rectified trace, the current column and the voltage column of sol from index 1999 on, and it meets ReportBounds |
| Rectifier.ReportBounds | Buck_Conversor.py:205-252 | the peak and the cut-off are the derived values, the mean rectified voltage lies between RectLow and RectHigh, the ripple is non-negative, and the ripple factor is RippleFactor of ripple and mean load voltage |
| Rectifier.RectifyMonotone | Buck_Conversor.py:225-228 | with a non-negative freewheeling drop the diode rule is monotone |
| Rectifier.EquilibriumIff | Buck_Conversor.py:231-234 | both derivatives vanish exactly when v_C is the rectified voltage and i_L R = v_C |
| Rectifier.CurrentColumn | Buck_Conversor.py:238 | sol[:, 0], element by element |
| Rectifier.VoltageColumn | Buck_Conversor.py:239 | sol[:, 1], element by element |
| Numeric.SliceFrom | Buck_Conversor.py:248-251 | Python's s[k:]: a suffix of s; s[k..] for 0 <= k <= len; empty past the end; the last -k elements for negative k |
| Numeric.Trunc | Buck_Conversor.py:247 | int(x) truncates toward zero |
| Stats.Max | Buck_Conversor.py:251 | np.max is an element of the window that no element exceeds |
| Stats.Min | Buck_Conversor.py:251 | np.min is an element of the window that no element is below |
| Stats.PeakToPeak | Buck_Conversor.py:251 | max - min is non-negative, bounds the difference of any two samples, and is the difference of some two samples |
| Stats.IsSpread | Buck_Conversor.py:251 | r is the spread of a window: a bound on every difference of two samples, attained by one pair |
| Stats.PeakToPeakIsSpread | Buck_Conversor.py:251 | max - min is the spread of its window |
| Stats.SpreadUnique | Buck_Conversor.py:251 | a window has only one spread, so IsSpread pins the ripple to max - min |
| Stats.Mean | Buck_Conversor.py:248-250 | np.mean: the sum of the window over its length; its bounds are in MeanWithin and MeanBetweenMinAndMax |
| Stats.RippleFactor | Buck_Conversor.py:252 | 0 for a zero mean; otherwise the factor times the mean is the ripple; non-negative for a positive mean |
| Stats.Sum | Buck_Conversor.py:248-250 | the sum of the window's samples, the numerator of np.mean; SumBounds and MeanWithin state its bounds |
| Stats.SumBounds | Buck_Conversor.py:248-250 | samples in [lo, hi] sum to between n lo and n hi |
| Stats.MeanWithin | Buck_Conversor.py:248-250 | samples in [lo, hi] have their mean in [lo, hi] |
| Stats.MeanBetweenMinAndMax | Buck_Conversor.py:248-251 | the mean lies between np.min and np.max of the window |
| Stats.MeanOfConstant | Buck_Conversor.py:248-250 | the mean of a constant window is that constant |
| Stats.RippleZeroIffConstant | Buck_Conversor.py:251 | the ripple is zero exactly when all samples are equal |
| Stats.SuffixPeakToPeak | Buck_Conversor_CC-CC.py:117-118 | a suffix never has a larger peak-to-peak spread than the whole trace |
| TestApp.RectifierApp.constructor | Test.py:33-42 | a new window has run calcular on the default inputs and stores the default grid, the source and rectified traces on it, and the load voltage |
| TestApp.RectifierApp.Calculate | Test.py:232-309 | the report is Rectifier.Calculate; invalid inputs leave the stored run unchanged; valid ones store the grid, the source, the rectified and the load traces |
| TestApp.RectifierApp.StoreRun | Test.py:306-309 | the four stored traces are the grid, the source trace, the rectified trace and the load voltage |
| TestApp.RectifierApp.Export | Test.py:422-439 | no stored run gives NoDataToExport; otherwise the header followed by one row per stored sample |
| Rectifier.Row | Test.py:434-439 | one data row [t, v_ac, v_rect, v_load] |
| Rectifier.Table | Test.py:429-439 | the header (the constant Header, Test.py:430), then row i+1 built from sample i of the four traces |
| Rectifier.TableColumns | Test.py:429-439 | reading the four columns back out of the data rows recovers the four traces |
| Rectifier.ColumnOf | Test.py:433-439 | rows whose cell j is sample i of a trace have that trace as column j |
| Rectifier.SampleRow | Buck_Conversor.py:355-361 | the exported row of one grid point: time, source, the diode rule applied to the source, load voltage |
| Rectifier.ExportTable | Buck_Conversor.py:349-361 | the header, then one row per grid point holding time, source, rectified and load voltage |
| Rectifier.ExportTableUnique | Buck_Conversor.py:349-361 | any list of the header followed by every grid point's sample row, in grid order, equals the exported table |
| ConversorApp.ExportRow | Buck_Conversor.py:355-361 | one pass of the export loop builds SampleRow of its grid point |
| ConversorApp.Export | Buck_Conversor.py:310-361 | invalid inputs give InvalidParameter; otherwise the rows are ExportTable, the same as the stored application exports after a run |

## Left out

- The Tk interface, the circuit drawing, the tooltips and all plotting are left out, because they only display values the model computes.
- The mean of the second half of the load voltage, drawn as a line on the plot (`Test.py:349`, `Buck_Conversor.py:298`), is left out for the same reason.
- The file dialog and the CSV writing are left out as I/O; the model stops at the list of rows handed to `csv.writer`.
- The text formatting of the results (`:.2f`, `:.4f`) and the message texts are left out; errors are `Outcomes.Error` values.
- `odeint` is left out as a foreign numerical solver; its trajectory is an input.
- IEEE floating point is left out: rounding in `np.linspace`, in `1 / (fsw * 200)`, in `t_sim / dt`, in the gate's `(t[i] * fsw) % 1.0` and in `int(2 * T / (t[1] - t[0]))` is not modelled. In exact arithmetic the rectifier window starts at 1999. In floats it starts at 1999 too: `2 * T / (t[1] - t[0])` is 2T divided by the grid step 4T/3999 (that is, T/999.75), which is 1999.5 up to rounding error, far from any whole number, so `int` gives 1999.
- BuckConverter.GateOnGrid: holds in exact arithmetic; in doubles `t[i] * fsw` at the start of a period can come out just below a whole number, so `% 1.0` gives a value near 1 and the script's switch is off on a step where this lemma says on.
- BuckConverter.ScriptGatePattern: the same exact-arithmetic proviso as GateOnGrid; with doubles some period starts are off steps.
- `sqrt`, `sin` and `pi` are known only through the laws in `RealMath.Lawful`, so no property depends on their exact values.
- A frequency-response (Bode) analysis and a numerical-instability error are not part of the three source files, so they are not part of this model.
- The buck script stops with `ZeroDivisionError` for a zero `Iout`, `Vin` or `fsw`, and produces non-finite samples for a zero `L`, `Cout` or `R_load`; the model does neither and requires all six non-zero (`WellFormed`).
- BuckConverter.Simulate: states the final contents of the five arrays, not that rows after the one being written are still zero during the loop.
- BuckConverter.Simulate: computes the five values of a row into locals and writes them together, where the script writes each array as it goes; the resulting arrays are the same.
