/** The buck (step-down) DC-DC converter script: parameter derivations, an
    ideal PWM gate rebuilt from absolute time, a fixed-step forward-Euler
    simulation over five sample arrays, and the final steady-state metrics. */
module BuckConverter {
  import opened Numeric
  import opened Stats
  import opened Outcomes

  /** The script's module-level parameters. */
  datatype Converter = Converter(
    Vin: real,         // input voltage
    VoutTarget: real,  // desired output voltage
    Iout: real,        // output current
    Fsw: real,         // switching frequency
    L: real,           // inductance
    Cout: real,        // output capacitance
    Resr: real,        // capacitor equivalent series resistance
    TSim: real)        // simulated time span

  /** The values the script is written with. */
  const Script := Converter(36.0, 12.0, 2.0, 50000.0, 0.000220, 0.000047, 0.01, 0.005)

  /** Time steps per switching period. */
  const StepsPerPeriod := 200

  /** Every division the script performs has a non-zero divisor. A zero
      `Iout`, `Vin` or `Fsw` makes the script stop with a division error; a
      zero `L` or `Cout` (or a zero load resistance, from a zero `VoutTarget`)
      makes its samples infinite or undefined while the loop runs on. */
  predicate WellFormed(c: Converter)
  {
    c.Vin != 0.0 && c.VoutTarget != 0.0 && c.Iout != 0.0 && c.Fsw != 0.0 && c.L != 0.0 && c.Cout != 0.0
  }

  /** Load resistance from Ohm's law at the desired operating point. */
  function LoadResistance(c: Converter): (r: real)
    requires c.Iout != 0.0
    ensures r * c.Iout == c.VoutTarget
    ensures c.VoutTarget > 0.0 && c.Iout > 0.0 ==> r > 0.0
  {
    c.VoutTarget / c.Iout
  }

  /** Duty cycle: the ideal buck ratio of output to input voltage. */
  function DutyCycle(c: Converter): (d: real)
    requires c.Vin != 0.0
    ensures d * c.Vin == c.VoutTarget
    ensures c.Vin > c.VoutTarget > 0.0 ==> 0.0 < d < 1.0
  {
    QuotientBelowOne(c.Vin, c.VoutTarget);
    c.VoutTarget / c.Vin
  }

  /** Fixed integration step: a switching period split into `StepsPerPeriod` steps. */
  function TimeStep(c: Converter): (dt: real)
    requires c.Fsw != 0.0
    ensures dt * c.Fsw * StepsPerPeriod as real == 1.0
    ensures c.Fsw > 0.0 ==> dt > 0.0
  {
    1.0 / (c.Fsw * StepsPerPeriod as real)
  }

  /** The time grid `np.arange(0, t_sim, dt)`. */
  function TimeGrid(c: Converter): seq<real>
    requires c.Fsw != 0.0
  {
    Arange(c.TSim, TimeStep(c))
  }

  /** Ideal PWM: the switch conducts while the fractional part of the elapsed
      switching periods is below the duty cycle. */
  predicate GateOn(t: real, fsw: real, d: real)
  {
    FracPart(t * fsw) < d
  }

  /** One row of the five sample arrays. */
  datatype Sample = Sample(vL: real, iL: real, iC: real, vC: real, vout: real)

  const Discharged := Sample(0.0, 0.0, 0.0, 0.0, 0.0)

  // One function per line of the loop body, so that the loop and its
  // specification share the same terms.

  /** Inductor voltage: the input minus the previous capacitor voltage while
      the switch conducts, minus the previous capacitor voltage alone otherwise. */
  function InductorVoltage(c: Converter, on: bool, vCPrev: real): real
  {
    if on then c.Vin - vCPrev else -vCPrev
  }

  function InductorCurrent(c: Converter, iLPrev: real, vL: real): real
    requires WellFormed(c)
  {
    iLPrev + (vL / c.L) * TimeStep(c)
  }

  function CapacitorCurrent(c: Converter, iL: real, vCPrev: real): real
    requires WellFormed(c)
  {
    iL - vCPrev / LoadResistance(c)
  }

  function CapacitorVoltage(c: Converter, vCPrev: real, iC: real): real
    requires WellFormed(c)
  {
    vCPrev + (iC / c.Cout) * TimeStep(c)
  }

  function LoadVoltage(c: Converter, vC: real, iC: real): real
  {
    vC + iC * c.Resr
  }

  /** One forward-Euler step at time `ti` from the previous sample. */
  function Step(c: Converter, prev: Sample, ti: real): Sample
    requires WellFormed(c)
  {
    var vL := InductorVoltage(c, GateOn(ti, c.Fsw, DutyCycle(c)), prev.vC);
    var iL := InductorCurrent(c, prev.iL, vL);
    var iC := CapacitorCurrent(c, iL, prev.vC);
    var vC := CapacitorVoltage(c, prev.vC, iC);
    Sample(vL, iL, iC, vC, LoadVoltage(c, vC, iC))
  }

  /** Reference definition of the trajectory: sample `i` of a run over grid `t`. */
  function StateAt(c: Converter, t: seq<real>, i: nat): Sample
    requires WellFormed(c) && i < |t|
  {
    if i == 0 then Discharged else Step(c, StateAt(c, t, i - 1), t[i])
  }

  /** Row `k` of the five arrays holds sample `s`. */
  predicate RowIs(vout: array<real>, vL: array<real>, vC: array<real>, iL: array<real>, iC: array<real>,
                  k: nat, s: Sample)
    reads vout, vL, vC, iL, iC
    requires k < vout.Length && k < vL.Length && k < vC.Length && k < iL.Length && k < iC.Length
  {
    vL[k] == s.vL && iL[k] == s.iL && iC[k] == s.iC && vC[k] == s.vC && vout[k] == s.vout
  }

  /** Row `k` (k >= 1) of the five arrays is the loop's update of row `k - 1`. */
  predicate RowFollows(c: Converter, t: seq<real>,
                       vout: array<real>, vL: array<real>, vC: array<real>, iL: array<real>, iC: array<real>,
                       k: nat)
    reads vout, vL, vC, iL, iC
    requires WellFormed(c)
    requires vout.Length == vL.Length == vC.Length == iL.Length == iC.Length == |t|
    requires 1 <= k < |t|
  {
    && vL[k] == InductorVoltage(c, GateOn(t[k], c.Fsw, DutyCycle(c)), vC[k - 1])
    && iL[k] == InductorCurrent(c, iL[k - 1], vL[k])
    && iC[k] == CapacitorCurrent(c, iL[k], vC[k - 1])
    && vC[k] == CapacitorVoltage(c, vC[k - 1], iC[k])
    && vout[k] == LoadVoltage(c, vC[k], iC[k])
  }

  /** Arrays whose rows are the reference trajectory obey, row by row, the
      update the loop performs. */
  lemma RowsFollowRecurrence(c: Converter, t: seq<real>,
                             vout: array<real>, vL: array<real>, vC: array<real>, iL: array<real>, iC: array<real>)
    requires WellFormed(c)
    requires vout.Length == vL.Length == vC.Length == iL.Length == iC.Length == |t|
    requires forall i :: 0 <= i < |t| ==> RowIs(vout, vL, vC, iL, iC, i, StateAt(c, t, i))
    ensures forall i :: 1 <= i < |t| ==> RowFollows(c, t, vout, vL, vC, iL, iC, i)
  {
    forall i | 1 <= i < |t|
      ensures RowFollows(c, t, vout, vL, vC, iL, iC, i)
    {
      assert RowIs(vout, vL, vC, iL, iC, i - 1, StateAt(c, t, i - 1));
      assert RowIs(vout, vL, vC, iL, iC, i, StateAt(c, t, i));
    }
  }

  /** Conversely, arrays that start discharged and follow the recurrence hold
      the reference trajectory. */
  lemma {:induction false} RecurrenceYieldsTrajectory(c: Converter, t: seq<real>,
                                  vout: array<real>, vL: array<real>, vC: array<real>, iL: array<real>, iC: array<real>,
                                  k: nat)
    requires WellFormed(c)
    requires vout.Length == vL.Length == vC.Length == iL.Length == iC.Length == |t|
    requires |t| > 0 ==> RowIs(vout, vL, vC, iL, iC, 0, Discharged)
    requires forall i :: 1 <= i < |t| ==> RowFollows(c, t, vout, vL, vC, iL, iC, i)
    requires k < |t|
    ensures RowIs(vout, vL, vC, iL, iC, k, StateAt(c, t, k))
  {
    if k > 0 {
      RecurrenceYieldsTrajectory(c, t, vout, vL, vC, iL, iC, k - 1);
      assert RowFollows(c, t, vout, vL, vC, iL, iC, k);
    }
  }

  /** Writes sample `s` into row `k` of the five arrays, leaving every other row alone. */
  method SetRow(vout: array<real>, vL: array<real>, vC: array<real>, iL: array<real>, iC: array<real>,
                k: nat, s: Sample)
    requires k < vout.Length && k < vL.Length && k < vC.Length && k < iL.Length && k < iC.Length
    requires vout != vL && vout != vC && vout != iL && vout != iC && vL != vC && vL != iL && vL != iC
    requires vC != iL && vC != iC && iL != iC
    modifies vout, vL, vC, iL, iC
    ensures RowIs(vout, vL, vC, iL, iC, k, s)
    ensures forall j :: 0 <= j < vL.Length && j != k ==> vL[j] == old(vL[j])
    ensures forall j :: 0 <= j < iL.Length && j != k ==> iL[j] == old(iL[j])
    ensures forall j :: 0 <= j < iC.Length && j != k ==> iC[j] == old(iC[j])
    ensures forall j :: 0 <= j < vC.Length && j != k ==> vC[j] == old(vC[j])
    ensures forall j :: 0 <= j < vout.Length && j != k ==> vout[j] == old(vout[j])
  {
    vL[k] := s.vL;
    iL[k] := s.iL;
    iC[k] := s.iC;
    vC[k] := s.vC;
    vout[k] := s.vout;
  }

  /** Allocates the five arrays zeroed, then fills indices 1..n-1 in order,
      each from the row before it. */
  method Simulate(c: Converter, t: seq<real>)
    returns (vout: array<real>, vL: array<real>, vC: array<real>, iL: array<real>, iC: array<real>)
    requires WellFormed(c) && |t| > 0
    ensures fresh(vout) && fresh(vL) && fresh(vC) && fresh(iL) && fresh(iC)
    ensures vout.Length == vL.Length == vC.Length == iL.Length == iC.Length == |t|
    ensures RowIs(vout, vL, vC, iL, iC, 0, Discharged)
    ensures forall i :: 0 <= i < |t| ==> RowIs(vout, vL, vC, iL, iC, i, StateAt(c, t, i))
    ensures forall i :: 1 <= i < |t| ==> RowFollows(c, t, vout, vL, vC, iL, iC, i)
  {
    var n := |t|;
    vout, vL, vC, iL, iC := new real[n], new real[n], new real[n], new real[n], new real[n];
    forall k | 0 <= k < n {
      vout[k] := 0.0;
    }
    forall k | 0 <= k < n {
      vL[k] := 0.0;
    }
    forall k | 0 <= k < n {
      vC[k] := 0.0;
    }
    forall k | 0 <= k < n {
      iL[k] := 0.0;
    }
    forall k | 0 <= k < n {
      iC[k] := 0.0;
    }
    var d := DutyCycle(c);
    var state := 0;
    var i := 1;
    while i < n
      invariant 1 <= i <= n
      invariant forall k :: 0 <= k < i ==> RowIs(vout, vL, vC, iL, iC, k, StateAt(c, t, k))
    {
      assert RowIs(vout, vL, vC, iL, iC, i - 1, StateAt(c, t, i - 1));
      if GateOn(t[i], c.Fsw, d) {
        state := 1;
      } else {
        state := 0;
      }
      var vLi := InductorVoltage(c, state == 1, vC[i - 1]);
      var iLi := InductorCurrent(c, iL[i - 1], vLi);
      var iCi := CapacitorCurrent(c, iLi, vC[i - 1]);
      var vCi := CapacitorVoltage(c, vC[i - 1], iCi);
      var row := Sample(vLi, iLi, iCi, vCi, LoadVoltage(c, vCi, iCi));
      assert row == StateAt(c, t, i);
      SetRow(vout, vL, vC, iL, iC, i, row);
      i := i + 1;
    }
    assert StateAt(c, t, 0) == Discharged;
    RowsFollowRecurrence(c, t, vout, vL, vC, iL, iC);
  }

  // ---- Gate timing -------------------------------------------------------

  /** The gate pattern repeats every switching period. */
  lemma GatePeriodic(t: real, fsw: real, d: real, k: int)
    requires fsw != 0.0
    ensures GateOn(t + k as real / fsw, fsw, d) <==> GateOn(t, fsw, d)
  {
    assert (t + k as real / fsw) * fsw == t * fsw + k as real;
    FracPartShift(t * fsw, k);
  }

  /** A non-positive duty cycle never turns the switch on; a duty cycle of at
      least one keeps it on. */
  lemma GateExtremes(t: real, fsw: real, d: real)
    ensures d <= 0.0 ==> !GateOn(t, fsw, d)
    ensures d >= 1.0 ==> GateOn(t, fsw, d)
  {
  }

  /** On grid point `i` the gate depends only on the step's position
      `i % StepsPerPeriod` inside its switching period. */
  lemma GateOnGrid(c: Converter, i: nat)
    requires WellFormed(c)
    ensures GateOn(i as real * TimeStep(c), c.Fsw, DutyCycle(c))
            <==> (i % StepsPerPeriod) as real / StepsPerPeriod as real < DutyCycle(c)
  {
    GateAtStep(i as real * TimeStep(c), TimeStep(c), c.Fsw, DutyCycle(c), i);
  }

  /** The same, for time `t = i * dt` with any step `dt` that divides a period
      into `StepsPerPeriod` parts. */
  lemma GateAtStep(t: real, dt: real, fsw: real, d: real, i: nat)
    requires dt * fsw * StepsPerPeriod as real == 1.0
    requires t == i as real * dt
    ensures GateOn(t, fsw, d) <==> (i % StepsPerPeriod) as real / StepsPerPeriod as real < d
  {
    assert t * fsw == i as real / StepsPerPeriod as real;
    GateByPhase(t, fsw, d);
    FracPartCongruent(t * fsw, i as real / StepsPerPeriod as real);
    FracOfRatio(i, StepsPerPeriod);
  }

  /** Unfolds `GateOn` in a context of its own, where the solver does not
      rewrite the product `t * fsw` through equalities about `t`. */
  lemma GateByPhase(t: real, fsw: real, d: real)
    ensures GateOn(t, fsw, d) <==> FracPart(t * fsw) < d
  {
  }

  // ---- The script's operating point --------------------------------------

  /** The derived quantities of the script's parameters: a one-third duty
      cycle, a 6 ohm load, a 0.1 microsecond step and 50000 grid points. */
  lemma ScriptDesign()
    ensures WellFormed(Script)
    ensures DutyCycle(Script) == 1.0 / 3.0
    ensures LoadResistance(Script) == 6.0
    ensures TimeStep(Script) == 0.0000001
    ensures |TimeGrid(Script)| == 50000
  {
    assert Script.TSim / TimeStep(Script) == 50000.0;
  }

  /** With the script's values the switch conducts on the first 67 of every
      200 steps. */
  lemma ScriptGatePattern(i: nat)
    ensures GateOn(i as real * TimeStep(Script), Script.Fsw, DutyCycle(Script)) <==> i % 200 < 67
  {
    ScriptDesign();
    GateOnGrid(Script, i);
    var r := i % 200;
    assert (r as real / 200.0 < 1.0 / 3.0) <==> 3 * r < 200;
  }

  /** A converter whose duty cycle is not positive never leaves the
      discharged state. */
  lemma {:induction false} NoDutyStaysDischarged(c: Converter, t: seq<real>, i: nat)
    requires WellFormed(c) && DutyCycle(c) <= 0.0 && i < |t|
    ensures StateAt(c, t, i) == Discharged
  {
    if i > 0 {
      NoDutyStaysDischarged(c, t, i - 1);
      GateExtremes(t[i], c.Fsw, DutyCycle(c));
    }
  }

  // ---- Final metrics -----------------------------------------------------

  /** The three printed results. */
  datatype Metrics = Metrics(meanVout: real, rippleVout: real, rippleIL: real)

  /** `int(0.9 * n)`: the first index of the last tenth of the trace. */
  function SteadyStart(n: nat): (k: nat)
    ensures k <= n && (n > 0 ==> k < n)
    ensures n as real / 10.0 <= (n - k) as real < n as real / 10.0 + 1.0
  {
    Trunc(0.9 * n as real)
  }

  /** What the printed results promise: the mean is `np.mean` of the
      output-voltage tail and lies between its extremes, and each ripple is
      the spread of its own window, the tail for the voltage and the whole
      run for the current. */
  predicate MetricsFacts(mt: Metrics, tail: seq<real>, iL: seq<real>)
    requires |tail| > 0 && |iL| > 0
  {
    && mt.meanVout == Mean(tail)
    && Min(tail) <= mt.meanVout <= Max(tail)
    && IsSpread(tail, mt.rippleVout) && IsSpread(iL, mt.rippleIL)
    && mt.rippleVout >= 0.0 && mt.rippleIL >= 0.0
  }

  /** The reductions of the script meet `MetricsFacts`. */
  lemma MetricsFactsHold(tail: seq<real>, iL: seq<real>)
    requires |tail| > 0 && |iL| > 0
    ensures MetricsFacts(Metrics(Mean(tail), PeakToPeak(tail), PeakToPeak(iL)), tail, iL)
  {
    MeanBetweenMinAndMax(tail);
    PeakToPeakIsSpread(tail);
    PeakToPeakIsSpread(iL);
  }

  /** Mean and peak-to-peak of the output voltage over the last tenth of the
      run, and peak-to-peak of the inductor current over the whole run. An
      empty run has no samples to reduce. */
  function FinalMetrics(vout: seq<real>, iL: seq<real>): (r: Result<Metrics>)
    ensures r.Err? <==> |vout| == 0 || |iL| == 0
    ensures r.Err? ==> r.error == EmptyWindow
    ensures r.Ok? ==> MetricsFacts(r.value, vout[SteadyStart(|vout|)..], iL)
  {
    if |vout| == 0 || |iL| == 0 then Err(EmptyWindow)
    else
      var tail := vout[SteadyStart(|vout|)..];
      MetricsFactsHold(tail, iL);
      Ok(Metrics(Mean(tail), PeakToPeak(tail), PeakToPeak(iL)))
  }

  /** The voltage ripple is taken on the tail only, while the current ripple
      spans the whole run, start-up transient included; the latter therefore
      bounds the ripple of any tail of the current trace. */
  lemma CurrentRippleCoversTail(vout: seq<real>, iL: seq<real>, k: nat)
    requires FinalMetrics(vout, iL).Ok? && k < |iL|
    ensures PeakToPeak(iL[k..]) <= FinalMetrics(vout, iL).value.rippleIL
  {
    SuffixPeakToPeak(iL, k);
  }

  /** The whole script: build the grid, simulate on it, reduce the traces.
      On an empty grid the script fails setting the initial sample, before
      the loop; here that is the `EmptyGrid` error, with empty arrays. */
  method Run(c: Converter)
    returns (t: seq<real>, vout: array<real>, vL: array<real>, vC: array<real>, iL: array<real>, iC: array<real>,
             metrics: Result<Metrics>)
    requires WellFormed(c)
    ensures t == TimeGrid(c)
    ensures fresh(vout) && fresh(vL) && fresh(vC) && fresh(iL) && fresh(iC)
    ensures vout.Length == vL.Length == vC.Length == iL.Length == iC.Length == |t|
    ensures forall i :: 0 <= i < |t| ==> RowIs(vout, vL, vC, iL, iC, i, StateAt(c, t, i))
    ensures |t| == 0 ==> metrics == Err(EmptyGrid)
    ensures |t| > 0 ==> metrics == FinalMetrics(vout[..], iL[..])
    ensures metrics.Err? <==> |t| == 0
  {
    t := TimeGrid(c);
    if |t| == 0 {
      vout, vL, vC, iL, iC := new real[0], new real[0], new real[0], new real[0], new real[0];
      metrics := Err(EmptyGrid);
      return;
    }
    vout, vL, vC, iL, iC := Simulate(c, t);
    metrics := FinalMetrics(vout[..], iL[..]);
  }
}
