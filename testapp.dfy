/** The rectifier application that keeps its last run: `calcular` stores the
    grid and three traces in the object, and `exportar_dados` turns the stored
    traces into the rows of the exported table. */
module TestApp {
  import opened Outcomes
  import opened RealMath
  import opened Rectifier

  datatype Option<T> = None | Some(value: T)

  class RectifierApp {
    /** The stored run: the time grid, the source voltage, the rectified
        voltage and the load voltage, or nothing before the first run. */
    var currentT: Option<seq<real>>
    var currentVac: Option<seq<real>>
    var currentVRect: Option<seq<real>>
    var currentVR: Option<seq<real>>

    /** Either no run is stored, or all four traces are, with equal lengths. */
    ghost predicate Valid()
      reads this
    {
      || (currentT.None? && currentVac.None? && currentVRect.None? && currentVR.None?)
      || (&& currentT.Some? && currentVac.Some? && currentVRect.Some? && currentVR.Some?
          && |currentT.value| == |currentVac.value| == |currentVRect.value| == |currentVR.value|)
    }

    /** A new window stores nothing and then runs `calcular` once on the
        default inputs. */
    constructor (m: Transcendental, sol: seq<(real, real)>)
      requires Lawful(m) && |sol| == GridPoints
      ensures Valid()
      ensures currentT == Some(Grid(Defaults))
      ensures currentVac == Some(SourceTrace(Defaults, m, Grid(Defaults)))
      ensures currentVRect == Some(RectifiedTrace(Defaults, m, Grid(Defaults)))
      ensures currentVR == Some(VoltageColumn(sol))
    {
      currentT, currentVac, currentVRect, currentVR := None, None, None, None;
      new;
      var _ := Calculate(Defaults, m, sol);
    }

    /** `calcular` on inputs `p`, with `sol` the integrator's trajectory: an
        invalid input changes nothing; otherwise the report is produced and
        the grid and the three traces are stored. */
    method Calculate(p: Params, m: Transcendental, sol: seq<(real, real)>) returns (r: Result<Report>)
      requires Lawful(m) && |sol| == GridPoints && Valid()
      modifies this
      ensures Valid()
      ensures r == Rectifier.Calculate(p, m, sol)
      ensures r.Err? ==> currentT == old(currentT) && currentVac == old(currentVac)
                         && currentVRect == old(currentVRect) && currentVR == old(currentVR)
      ensures r.Ok? ==>
                && currentT == Some(Grid(p))
                && currentVac == Some(SourceTrace(p, m, Grid(p)))
                && currentVRect == Some(RectifiedTrace(p, m, Grid(p)))
                && currentVR == Some(VoltageColumn(sol))
    {
      r := Rectifier.Calculate(p, m, sol);
      if r.Ok? {
        StoreRun(p, m, sol);
      }
    }

    /** Stores the grid and the three traces of a run on valid inputs `p`. */
    method StoreRun(p: Params, m: Transcendental, sol: seq<(real, real)>)
      requires Rectifier.Valid(p) && Lawful(m) && |sol| == GridPoints
      modifies this
      ensures Valid()
      ensures currentT == Some(Grid(p))
      ensures currentVac == Some(SourceTrace(p, m, Grid(p)))
      ensures currentVRect == Some(RectifiedTrace(p, m, Grid(p)))
      ensures currentVR == Some(VoltageColumn(sol))
    {
      var t := Grid(p);
      currentT := Some(t);
      currentVac := Some(SourceTrace(p, m, t));
      currentVRect := Some(RectifiedTrace(p, m, t));
      currentVR := Some(VoltageColumn(sol));
    }

    /** `exportar_dados`: refused before any run; otherwise the header
        followed by one row per stored sample. */
    method Export() returns (r: Result<seq<seq<Cell>>>)
      requires Valid()
      ensures currentT.None? <==> r.Err?
      ensures r.Err? ==> r.error == NoDataToExport
      ensures r.Ok? ==> r.value == Table(currentT.value, currentVac.value, currentVRect.value, currentVR.value)
    {
      if currentT.None? {
        return Err(NoDataToExport);
      }
      var t, vac, vRect, vR := currentT.value, currentVac.value, currentVRect.value, currentVR.value;
      var rows := [Header];
      var i := 0;
      while i < |t|
        invariant 0 <= i <= |t|
        invariant |rows| == i + 1 && rows[0] == Header
        invariant forall k :: 0 <= k < i ==> rows[k + 1] == Row(t[k], vac[k], vRect[k], vR[k])
      {
        rows := rows + [Row(t[i], vac[i], vRect[i], vR[i])];
        i := i + 1;
      }
      return Ok(rows);
    }
  }
}
