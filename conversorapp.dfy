/** The rectifier application that stores no run: its `exportar_dados`
    validates the inputs again, rebuilds the grid, and recomputes the source
    and rectified voltages sample by sample while it appends the rows. Its
    `calcular` is `Rectifier.Calculate`. */
module ConversorApp {
  import opened Outcomes
  import opened RealMath
  import opened Rectifier

  /** `exportar_dados` on inputs `p`, with `sol` the integrator's trajectory:
      refused for an invalid input; otherwise the same table the storing
      application exports after a run on `p`. */
  method Export(p: Params, m: Transcendental, sol: seq<(real, real)>) returns (r: Result<seq<seq<Cell>>>)
    requires Lawful(m) && |sol| == GridPoints
    ensures r.Err? <==> !Valid(p)
    ensures r.Err? ==> r.error == InvalidParameter
    ensures r.Ok? ==> r.value == ExportTable(p, m, sol)
  {
    if !Valid(p) {
      return Err(InvalidParameter);
    }
    var t := Grid(p);
    var vC := VoltageColumn(sol);
    var rows := [Header];
    var i := 0;
    while i < |t|
      invariant 0 <= i <= |t|
      invariant |rows| == i + 1 && rows[0] == Header
      invariant forall k :: 0 <= k < i ==> rows[k + 1] == SampleRow(p, m, t[k], sol[k].1)
    {
      var row := ExportRow(p, m, t[i], vC[i]);
      rows := rows + [row];
      i := i + 1;
    }
    ExportTableUnique(p, m, sol, rows);
    return Ok(rows);
  }

  /** One pass of the export loop: the source voltage at `t`, the diode rule
      applied to it with the two drops, and the load voltage `vLoad`. */
  method ExportRow(p: Params, m: Transcendental, t: real, vLoad: real) returns (row: seq<Cell>)
    requires Lawful(m)
    ensures row == SampleRow(p, m, t, vLoad)
  {
    var vin := SourceVoltage(p, m, t);
    var vRect;
    if vin > p.VdOn {
      vRect := vin - p.VdOn;
    } else {
      vRect := -p.VdFree;
    }
    row := [Num(t), Num(vin), Num(vRect), Num(vLoad)];
  }
}
