/** The half-wave rectifier with an LC filter shared by both rectifier
    applications: parameter validation, the derived quantities, the diode
    rule, the right-hand side handed to the ODE integrator, the rectified
    trace on the simulation grid, and the steady-state reductions. The
    integrator itself is not modelled: its trajectory `(i_L, v_C)`, one row
    per grid point, is an input. */
module Rectifier {
  import opened Numeric
  import opened Stats
  import opened RealMath
  import opened Outcomes

  /** The seven values read from the input fields. */
  datatype Params = Params(
    Vrms: real,    // RMS source voltage
    F: real,       // source frequency
    R: real,       // load resistance
    L: real,       // filter inductance
    C: real,       // filter capacitance
    VdOn: real,    // drop of the conducting (Schottky) diode
    VdFree: real)  // drop of the freewheeling diode

  /** The values the input fields start with. */
  const Defaults := Params(36.0, 60.0, 10.0, 1.0, 0.001, 0.3, 0.7)

  /** Points of the simulation grid. */
  const GridPoints := 4000

  /** The five values the validation inspects; the diode drops are not among them. */
  function Checked(p: Params): seq<real>
  {
    [p.Vrms, p.F, p.R, p.L, p.C]
  }

  /** No inspected value is zero or negative. */
  predicate Valid(p: Params)
  {
    p.Vrms > 0.0 && p.F > 0.0 && p.R > 0.0 && p.L > 0.0 && p.C > 0.0
  }

  /** `Valid` is exactly the negation of "some inspected value is <= 0". */
  lemma ValidIffNoneNonPositive(p: Params)
    ensures Valid(p) <==> !(exists v :: v in Checked(p) && v <= 0.0)
  {
    var s := Checked(p);
    if !Valid(p) {
      if p.Vrms <= 0.0 { assert s[0] in s; }
      else if p.F <= 0.0 { assert s[1] in s; }
      else if p.R <= 0.0 { assert s[2] in s; }
      else if p.L <= 0.0 { assert s[3] in s; }
      else { assert s[4] in s; }
    }
  }

  /** Peak of the sinusoidal source, `Vrms * sqrt(2)`. */
  function PeakVoltage(p: Params, m: Transcendental): (vp: real)
    requires Lawful(m)
    ensures vp * vp == 2.0 * p.Vrms * p.Vrms
    ensures p.Vrms > 0.0 ==> vp > 0.0
  {
    var s := m.Sqrt(2.0);
    assert s * s == 2.0;
    SqrtPositive(m, 2.0);
    MulPositive(p.Vrms, s);
    p.Vrms * s
  }

  /** The source period `1 / f`. */
  function Period(p: Params): (T: real)
    requires p.F != 0.0
    ensures T * p.F == 1.0
    ensures p.F > 0.0 ==> T > 0.0
  {
    1.0 / p.F
  }

  /** Angular frequency `2 * pi * f`. */
  function AngularFrequency(p: Params, m: Transcendental): (w: real)
    requires Lawful(m)
    ensures p.F != 0.0 ==> w * Period(p) == 2.0 * m.Pi
    ensures p.F > 0.0 ==> w > 0.0
  {
    MulPositive(2.0 * m.Pi, p.F);
    2.0 * m.Pi * p.F
  }

  /** Cut-off frequency of the LC filter, `1 / (2 * pi * sqrt(L * C))`:
      positive, and its angular frequency squared is `1 / (L * C)`. */
  function CutoffFrequency(p: Params, m: Transcendental): (fc: real)
    requires Lawful(m) && p.L > 0.0 && p.C > 0.0
    ensures fc > 0.0
    ensures (2.0 * m.Pi * fc) * (2.0 * m.Pi * fc) * (p.L * p.C) == 1.0
  {
    MulPositive(p.L, p.C);
    var s := m.Sqrt(p.L * p.C);
    SqrtPositive(m, p.L * p.C);
    var k := 2.0 * m.Pi * s;
    MulPositive(2.0 * m.Pi, s);
    var fc := 1.0 / k;
    CutoffSquare(2.0 * m.Pi, s, p.L * p.C, fc);
    fc
  }

  /** Algebra behind `CutoffFrequency`: with `s * s == x` and `fc * (a * s) == 1`,
      `(a * fc)^2 * x == 1`. */
  lemma CutoffSquare(a: real, s: real, x: real, fc: real)
    requires a > 0.0 && s > 0.0 && s * s == x && fc == 1.0 / (a * s)
    ensures (a * fc) * (a * fc) * x == 1.0
  {
    assert fc * (a * s) == 1.0;
    assert (a * fc) * s == 1.0;
    calc {
      (a * fc) * (a * fc) * x;
      == (a * fc) * (a * fc) * (s * s);
      == ((a * fc) * s) * ((a * fc) * s);
      == 1.0;
    }
  }

  /** Source voltage `Vp * sin(omega * t)` at time `t`. */
  function SourceVoltage(p: Params, m: Transcendental, t: real): (v: real)
    requires Lawful(m)
  {
    PeakVoltage(p, m) * m.Sin(AngularFrequency(p, m) * t)
  }

  /** The diode rule: the conducting diode passes the input minus its drop
      while the input exceeds that drop; otherwise the freewheeling diode
      clamps the output at minus its own drop. */
  function Rectify(vin: real, vdOn: real, vdFree: real): (r: real)
    ensures r > 0.0 || r == -vdFree
    ensures vin > vdOn ==> r > 0.0 && r + vdOn == vin
    ensures vin <= vdOn ==> r == -vdFree
  {
    if vin > vdOn then vin - vdOn else -vdFree
  }

  /** With a non-negative freewheeling drop the rule is monotone in the input. */
  lemma RectifyMonotone(v1: real, v2: real, vdOn: real, vdFree: real)
    requires vdFree >= 0.0 && v1 <= v2
    ensures Rectify(v1, vdOn, vdFree) <= Rectify(v2, vdOn, vdFree)
  {
  }

  /** Lowest value the rule can produce. */
  function RectLow(vdFree: real): real
  {
    if -vdFree < 0.0 then -vdFree else 0.0
  }

  /** Highest value the rule can produce from an input no larger than `vp`. */
  function RectHigh(vp: real, vdOn: real, vdFree: real): real
  {
    if vp - vdOn > -vdFree then vp - vdOn else -vdFree
  }

  /** An input of at most `vp` gives an output between `RectLow` and `RectHigh`. */
  lemma RectifyWithin(vin: real, vp: real, vdOn: real, vdFree: real)
    requires vin <= vp
    ensures RectLow(vdFree) <= Rectify(vin, vdOn, vdFree) <= RectHigh(vp, vdOn, vdFree)
  {
  }

  /** The RLC derivatives `((v_rect - v_C) / L, (i_L - v_C / R) / C)`. */
  function Derivative(p: Params, vRect: real, iL: real, vC: real): (d: (real, real))
    requires p.L != 0.0 && p.C != 0.0 && p.R != 0.0
    ensures d.0 * p.L == vRect - vC
    ensures d.1 * p.C == iL - vC / p.R
  {
    ((vRect - vC) / p.L, (iL - vC / p.R) / p.C)
  }

  /** The circuit is at rest exactly when the capacitor holds the rectified
      voltage and the inductor carries the load current. */
  lemma EquilibriumIff(p: Params, vRect: real, iL: real, vC: real)
    requires p.L != 0.0 && p.C != 0.0 && p.R != 0.0
    ensures Derivative(p, vRect, iL, vC) == (0.0, 0.0) <==> vC == vRect && iL * p.R == vC
  {
    var d := Derivative(p, vRect, iL, vC);
    if vC == vRect && iL * p.R == vC {
      assert iL == vC / p.R;
    }
    if d == (0.0, 0.0) {
      assert iL - vC / p.R == 0.0;
      assert iL * p.R == (vC / p.R) * p.R;
    }
  }

  /** The right-hand side `circuito_deriv(y, t)` handed to the integrator:
      the derivatives driven by the diode rule applied to the source. */
  function CircuitDeriv(p: Params, m: Transcendental, y: (real, real), t: real): (d: (real, real))
    requires Valid(p) && Lawful(m)
    ensures SourceVoltage(p, m, t) > p.VdOn ==> d.0 * p.L == SourceVoltage(p, m, t) - p.VdOn - y.1
    ensures SourceVoltage(p, m, t) <= p.VdOn ==> d.0 * p.L == -p.VdFree - y.1
    ensures d.1 * p.C * p.R == y.0 * p.R - y.1
  {
    var d := Derivative(p, Rectify(SourceVoltage(p, m, t), p.VdOn, p.VdFree), y.0, y.1);
    assert d.1 * p.C == y.0 - y.1 / p.R;
    assert (y.1 / p.R) * p.R == y.1;
    d
  }

  /** The simulation grid `np.linspace(0, 4T, 4000)`: four source periods. */
  function Grid(p: Params): (t: seq<real>)
    requires p.F != 0.0
    ensures |t| == GridPoints
  {
    Linspace(0.0, 4.0 * Period(p), GridPoints)
  }

  /** The grid starts at 0, ends at `4T`, and its step is `4T / 3999`. */
  lemma GridShape(p: Params)
    requires Valid(p)
    ensures Grid(p)[0] == 0.0 && Grid(p)[GridPoints - 1] == 4.0 * Period(p)
    ensures forall i :: 0 <= i < GridPoints - 1 ==>
              Grid(p)[i + 1] - Grid(p)[i] == 4.0 * Period(p) / 3999.0
  {
    LinspaceShape(0.0, 4.0 * Period(p), GridPoints);
  }

  /** The source sampled on a grid, `Vp * np.sin(omega * t)`. */
  function SourceTrace(p: Params, m: Transcendental, t: seq<real>): (v: seq<real>)
    requires Lawful(m)
    ensures |v| == |t|
    ensures forall i :: 0 <= i < |t| ==> v[i] == SourceVoltage(p, m, t[i])
  {
    seq(|t|, i requires 0 <= i < |t| => SourceVoltage(p, m, t[i]))
  }

  /** The rectified voltage, one entry per grid point in order; each entry is
      positive or the freewheeling clamp. */
  function RectifiedTrace(p: Params, m: Transcendental, t: seq<real>): (v: seq<real>)
    requires Lawful(m)
    ensures |v| == |t|
    ensures forall i :: 0 <= i < |t| ==> v[i] == Rectify(SourceVoltage(p, m, t[i]), p.VdOn, p.VdFree)
    ensures forall i :: 0 <= i < |t| ==> v[i] > 0.0 || v[i] == -p.VdFree
  {
    seq(|t|, i requires 0 <= i < |t| => Rectify(SourceVoltage(p, m, t[i]), p.VdOn, p.VdFree))
  }

  /** The source never exceeds its peak. */
  lemma SourceBelowPeak(p: Params, m: Transcendental, t: real)
    requires Lawful(m) && p.Vrms > 0.0
    ensures SourceVoltage(p, m, t) <= PeakVoltage(p, m)
  {
    var vp := PeakVoltage(p, m);
    var s := m.Sin(AngularFrequency(p, m) * t);
    assert s <= 1.0;
    MulNonNegative(vp, 1.0 - s);
  }

  /** Every rectified sample, hence the mean of any window of them, lies
      between `RectLow` and `RectHigh` of the peak voltage. */
  lemma RectifiedWithin(p: Params, m: Transcendental, t: seq<real>)
    requires Lawful(m) && p.Vrms > 0.0
    ensures forall i :: 0 <= i < |t| ==>
              RectLow(p.VdFree) <= RectifiedTrace(p, m, t)[i] <= RectHigh(PeakVoltage(p, m), p.VdOn, p.VdFree)
  {
    var v := RectifiedTrace(p, m, t);
    forall i | 0 <= i < |t|
      ensures RectLow(p.VdFree) <= v[i] <= RectHigh(PeakVoltage(p, m), p.VdOn, p.VdFree)
    {
      SourceBelowPeak(p, m, t[i]);
      RectifyWithin(SourceVoltage(p, m, t[i]), PeakVoltage(p, m), p.VdOn, p.VdFree);
    }
  }

  /** First sample of the steady-state window, `int(2T / (t[1] - t[0]))`:
      the two first periods are skipped. */
  function SteadyStart(p: Params): (k: int)
    requires Valid(p)
  {
    var t := Grid(p);
    LinspaceShape(0.0, 4.0 * Period(p), GridPoints);
    Trunc(2.0 * Period(p) / (t[1] - t[0]))
  }

  /** On the 4000-point grid the window starts at index 1999, the last grid
      point not after `2T`, so it holds the last 2001 samples. */
  lemma SteadyStartOnGrid(p: Params)
    requires Valid(p)
    ensures SteadyStart(p) == 1999
    ensures Grid(p)[SteadyStart(p)] <= 2.0 * Period(p) < Grid(p)[SteadyStart(p) + 1]
    ensures GridPoints - SteadyStart(p) == 2001
  {
    var T := Period(p);
    var t := Grid(p);
    LinspaceShape(0.0, 4.0 * T, GridPoints);
    var h := 4.0 * T / 3999.0;
    assert t[1] - t[0] == h;
    assert h * 1999.5 == 2.0 * T;
    assert 2.0 * T / h == 1999.5;
    assert t[1999] == 1999.0 * h;
    assert t[2000] == 2000.0 * h;
  }

  /** The inductor-current column of the integrator's trajectory. */
  function CurrentColumn(sol: seq<(real, real)>): (c: seq<real>)
    ensures |c| == |sol| && forall i :: 0 <= i < |sol| ==> c[i] == sol[i].0
  {
    seq(|sol|, i requires 0 <= i < |sol| => sol[i].0)
  }

  /** The capacitor-voltage column of the integrator's trajectory. */
  function VoltageColumn(sol: seq<(real, real)>): (c: seq<real>)
    ensures |c| == |sol| && forall i :: 0 <= i < |sol| ==> c[i] == sol[i].1
  {
    seq(|sol|, i requires 0 <= i < |sol| => sol[i].1)
  }

  /** The seven reported results. */
  datatype Report = Report(
    peak: real,          // Vp
    meanRect: real,      // mean rectified voltage over the window
    meanLoad: real,      // mean load (capacitor) voltage over the window
    meanCurrent: real,   // mean inductor current over the window
    ripple: real,        // load-voltage ripple over the window
    rippleFactor: real,  // ripple over mean load voltage, 0 for a zero mean
    cutoff: real)        // LC cut-off frequency

  /** What the reported window results promise about the three windows:
      each mean is `np.mean` of its window and lies between the window's
      extremes, the ripple is the spread of the load voltage, and the ripple
      factor is the guarded ratio of the two. */
  predicate WindowFacts(rep: Report, wr: seq<real>, wi: seq<real>, w: seq<real>)
    requires |wr| > 0 && |wi| > 0 && |w| > 0
  {
    && rep.meanRect == Mean(wr) && Min(wr) <= rep.meanRect <= Max(wr)
    && rep.meanCurrent == Mean(wi) && Min(wi) <= rep.meanCurrent <= Max(wi)
    && rep.meanLoad == Mean(w) && Min(w) <= rep.meanLoad <= Max(w)
    && rep.ripple >= 0.0 && IsSpread(w, rep.ripple)
    && rep.rippleFactor == RippleFactor(rep.ripple, rep.meanLoad)
  }

  /** The means, the ripple and the ripple factor of the windows satisfy `WindowFacts`. */
  lemma WindowFactsHold(wr: seq<real>, wi: seq<real>, w: seq<real>, vp: real, fc: real)
    requires |wr| > 0 && |wi| > 0 && |w| > 0
    ensures var ripple := PeakToPeak(w);
            WindowFacts(Report(vp, Mean(wr), Mean(w), Mean(wi), ripple, RippleFactor(ripple, Mean(w)), fc), wr, wi, w)
  {
    MeanBetweenMinAndMax(w);
    MeanBetweenMinAndMax(wi);
    MeanBetweenMinAndMax(wr);
    PeakToPeakIsSpread(w);
  }

  /** The window reductions over the tails `wr` (rectified voltage), `wi`
      (inductor current) and `w` (load voltage): means, the load-voltage
      ripple and the guarded ripple factor. `np.max` of an empty window raises. */
  function WindowReport(wr: seq<real>, wi: seq<real>, w: seq<real>, vp: real, fc: real): (r: Result<Report>)
    requires |wr| == |wi| == |w|
    ensures r.Err? <==> |w| == 0
    ensures r.Err? ==> r.error == EmptyWindow
    ensures r.Ok? ==> r.value.peak == vp && r.value.cutoff == fc && WindowFacts(r.value, wr, wi, w)
  {
    if |w| == 0 then Err(EmptyWindow)
    else
      WindowFactsHold(wr, wi, w, vp, fc);
      var ripple := PeakToPeak(w);
      Ok(Report(vp, Mean(wr), Mean(w), Mean(wi), ripple, RippleFactor(ripple, Mean(w)), fc))
  }

  /** What a report on valid inputs promises beyond its windows: the peak and
      the cut-off are the derived values, the mean rectified voltage lies
      between the bounds of the diode rule, the ripple is not negative, and
      the ripple factor is the guarded ratio of ripple to mean load voltage:
      `RippleFactor`'s contract makes it 0 for a zero mean and otherwise the
      number that times the mean gives the ripple. */
  predicate ReportBounds(p: Params, m: Transcendental, rep: Report)
    requires Lawful(m) && Valid(p)
  {
    && rep.peak == PeakVoltage(p, m) && rep.peak > 0.0
    && rep.cutoff == CutoffFrequency(p, m)
    && RectLow(p.VdFree) <= rep.meanRect <= RectHigh(PeakVoltage(p, m), p.VdOn, p.VdFree)
    && rep.ripple >= 0.0
    && rep.rippleFactor == RippleFactor(rep.ripple, rep.meanLoad)
  }

  /** `calcular`: validate, derive, rectify on the grid and reduce the
      steady-state window, from index 1999 on, of the rectified trace and of
      the integrator's trajectory `sol`. */
  function Calculate(p: Params, m: Transcendental, sol: seq<(real, real)>): (r: Result<Report>)
    requires Lawful(m) && |sol| == GridPoints
    ensures r.Err? <==> !Valid(p)
    ensures r.Err? ==> r.error == InvalidParameter
    ensures r.Ok? ==> ReportBounds(p, m, r.value)
    ensures Valid(p) ==>
              r == WindowReport(SliceFrom(RectifiedTrace(p, m, Grid(p)), 1999), SliceFrom(CurrentColumn(sol), 1999),
                                SliceFrom(VoltageColumn(sol), 1999), PeakVoltage(p, m), CutoffFrequency(p, m))
  {
    if !Valid(p) then Err(InvalidParameter)
    else
      var t := Grid(p);
      var vRect := RectifiedTrace(p, m, t);
      SteadyStartOnGrid(p);
      var k := SteadyStart(p);
      var wr := SliceFrom(vRect, k);
      var w := SliceFrom(VoltageColumn(sol), k);
      var res := WindowReport(wr, SliceFrom(CurrentColumn(sol), k), w, PeakVoltage(p, m), CutoffFrequency(p, m));
      RectifiedWindowWithin(p, m, t, k);
      res
  }

  /** The extremes of any non-empty tail of the rectified trace lie between
      `RectLow` and `RectHigh` of the peak voltage. */
  lemma RectifiedWindowWithin(p: Params, m: Transcendental, t: seq<real>, k: nat)
    requires Lawful(m) && p.Vrms > 0.0 && k < |t|
    ensures RectLow(p.VdFree) <= Min(SliceFrom(RectifiedTrace(p, m, t), k))
    ensures Max(SliceFrom(RectifiedTrace(p, m, t), k)) <= RectHigh(PeakVoltage(p, m), p.VdOn, p.VdFree)
  {
    var v := RectifiedTrace(p, m, t);
    var wr := SliceFrom(v, k);
    RectifiedWithin(p, m, t);
    var lo :| lo in wr && lo == Min(wr);
    var hi :| hi in wr && hi == Max(wr);
    assert lo in v && hi in v;
  }

  /** One exported table cell: a header label or a number. */
  datatype Cell = Text(caption: string) | Num(x: real)

  /** Header row of the exported table. */
  const Header: seq<Cell> :=
    [Text("Tempo (s)"), Text("Tensão AC (V)"), Text("Tensão Retificada (V)"), Text("Tensão na Carga (V)")]

  /** One data row `[t, v_ac, v_rect, v_load]`. */
  function Row(t: real, vac: real, vRect: real, vLoad: real): seq<Cell>
  {
    [Num(t), Num(vac), Num(vRect), Num(vLoad)]
  }

  /** The exported table: the header, then row `i + 1` built from sample `i`
      of the four traces. */
  function Table(t: seq<real>, vac: seq<real>, vRect: seq<real>, vLoad: seq<real>): (rows: seq<seq<Cell>>)
    requires |t| == |vac| == |vRect| == |vLoad|
    ensures |rows| == |t| + 1 && rows[0] == Header
    ensures forall i :: 0 <= i < |t| ==> rows[i + 1] == Row(t[i], vac[i], vRect[i], vLoad[i])
  {
    [Header] + seq(|t|, i requires 0 <= i < |t| => Row(t[i], vac[i], vRect[i], vLoad[i]))
  }

  /** Column `j` of the data rows as numbers (0 where a cell is not a number). */
  function Column(rows: seq<seq<Cell>>, j: nat): (c: seq<real>)
    ensures |c| == |rows|
  {
    seq(|rows|, i requires 0 <= i < |rows| => if j < |rows[i]| && rows[i][j].Num? then rows[i][j].x else 0.0)
  }

  /** Reading the columns back out of the data rows recovers the four traces. */
  lemma TableColumns(t: seq<real>, vac: seq<real>, vRect: seq<real>, vLoad: seq<real>)
    requires |t| == |vac| == |vRect| == |vLoad|
    ensures Column(Table(t, vac, vRect, vLoad)[1..], 0) == t
    ensures Column(Table(t, vac, vRect, vLoad)[1..], 1) == vac
    ensures Column(Table(t, vac, vRect, vLoad)[1..], 2) == vRect
    ensures Column(Table(t, vac, vRect, vLoad)[1..], 3) == vLoad
  {
    var rows := Table(t, vac, vRect, vLoad);
    var data := rows[1..];
    assert forall i :: 0 <= i < |t| ==> data[i] == rows[i + 1];
    ColumnOf(data, 0, t);
    ColumnOf(data, 1, vac);
    ColumnOf(data, 2, vRect);
    ColumnOf(data, 3, vLoad);
  }

  /** Rows whose cell `j` holds `Num(col[i])` have `col` as their column `j`. */
  lemma ColumnOf(rows: seq<seq<Cell>>, j: nat, col: seq<real>)
    requires |rows| == |col|
    requires forall i :: 0 <= i < |rows| ==> j < |rows[i]| && rows[i][j] == Num(col[i])
    ensures Column(rows, j) == col
  {
  }

  /** The table both export routines produce for valid parameters. */
  function ExportTable(p: Params, m: Transcendental, sol: seq<(real, real)>): (rows: seq<seq<Cell>>)
    requires Valid(p) && Lawful(m) && |sol| == GridPoints
    ensures |rows| == GridPoints + 1 && rows[0] == Header
    ensures forall k :: 0 <= k < GridPoints ==> rows[k + 1] == SampleRow(p, m, Grid(p)[k], sol[k].1)
  {
    var t := Grid(p);
    Table(t, SourceTrace(p, m, t), RectifiedTrace(p, m, t), VoltageColumn(sol))
  }

  /** A list of rows with the header followed by the sample rows of the
      whole grid, in grid order, is the exported table. */
  lemma ExportTableUnique(p: Params, m: Transcendental, sol: seq<(real, real)>, rows: seq<seq<Cell>>)
    requires Valid(p) && Lawful(m) && |sol| == GridPoints
    requires |rows| == GridPoints + 1 && rows[0] == Header
    requires forall k :: 0 <= k < GridPoints ==> rows[k + 1] == SampleRow(p, m, Grid(p)[k], sol[k].1)
    ensures rows == ExportTable(p, m, sol)
  {
    var e := ExportTable(p, m, sol);
    forall j | 1 <= j <= GridPoints
      ensures rows[j] == e[j]
    {
      var k := j - 1;
      assert rows[k + 1] == SampleRow(p, m, Grid(p)[k], sol[k].1) == e[k + 1];
    }
    assert rows == [rows[0]] + rows[1..] && e == [e[0]] + e[1..];
    assert rows[1..] == e[1..];
  }

  /** The exported row of the sample at time `t` with load voltage `vLoad`:
      time, source voltage, rectified voltage, load voltage. */
  function SampleRow(p: Params, m: Transcendental, t: real, vLoad: real): seq<Cell>
    requires Lawful(m)
  {
    var vin := SourceVoltage(p, m, t);
    Row(t, vin, Rectify(vin, p.VdOn, p.VdFree), vLoad)
  }
}
