/** The cell arithmetic of `get_coupled_flux`: runoff volume at cells coupled
    for runoff plus discharge volume routed one cell downstream from cells
    coupled for discharge. */
module Flux {
  import opened Grids

  type RealGrid = seq<seq<real>>

  /** A value read from the running engine, which may be NaN. */
  datatype Sample = NaN | Num(x: real)

  /** `np.nan_to_num` on a finite-or-NaN value. */
  function NanToNum(s: Sample): real {
    match s
    case NaN => 0.0
    case Num(x) => x
  }

  /** Coupling roles in the coupled mask. */
  const RunoffRole: int := 1
  const DischargeRole: int := 2

  /** Discharge is a rate per second; one model day is this many seconds. */
  const SecondsPerDay: real := 86400.0

  /** A one-step downstream routing of a grid of volumes, as the drainage
      structure provides it; it keeps the shape of its argument. */
  ghost predicate Routes(route: RealGrid -> RealGrid, rows: nat, cols: nat) {
    forall q :: Rectangular(q, rows, cols) ==> Rectangular(route(q), rows, cols)
  }

  /** Runoff volume per day at runoff-coupled cells, zero elsewhere. */
  function RunoffVolume(mask: Grid, runoff: seq<seq<Sample>>, area: RealGrid, rows: nat, cols: nat): (v: RealGrid)
    requires Rectangular(mask, rows, cols) && Rectangular(runoff, rows, cols) && Rectangular(area, rows, cols)
    ensures Rectangular(v, rows, cols)
  {
    seq(rows, i requires 0 <= i < rows =>
      seq(cols, j requires 0 <= j < cols =>
        if mask[i][j] == RunoffRole then NanToNum(runoff[i][j]) * area[i][j] else 0.0))
  }

  /** Discharge volume per day at discharge-coupled cells, zero elsewhere. */
  function DischargeVolume(mask: Grid, discharge: seq<seq<Sample>>, rows: nat, cols: nat): (v: RealGrid)
    requires Rectangular(mask, rows, cols) && Rectangular(discharge, rows, cols)
    ensures Rectangular(v, rows, cols)
  {
    seq(rows, i requires 0 <= i < rows =>
      seq(cols, j requires 0 <= j < cols =>
        if mask[i][j] == DischargeRole then NanToNum(discharge[i][j]) * SecondsPerDay else 0.0))
  }

  /** `(runoff + dd_flux(q_out)) * dt`. */
  function TotalFlux(mask: Grid, runoff: seq<seq<Sample>>, area: RealGrid, discharge: seq<seq<Sample>>,
                     route: RealGrid -> RealGrid, dt: int, rows: nat, cols: nat): (f: RealGrid)
    requires Rectangular(mask, rows, cols) && Rectangular(runoff, rows, cols)
    requires Rectangular(area, rows, cols) && Rectangular(discharge, rows, cols)
    requires Routes(route, rows, cols)
    ensures Rectangular(f, rows, cols)
    ensures var routed := route(DischargeVolume(mask, discharge, rows, cols));
            forall i, j :: 0 <= i < rows && 0 <= j < cols ==>
              f[i][j] == ((if mask[i][j] == RunoffRole then NanToNum(runoff[i][j]) * area[i][j] else 0.0)
                          + routed[i][j]) * dt as real
  {
    var ro := RunoffVolume(mask, runoff, area, rows, cols);
    var routed := route(DischargeVolume(mask, discharge, rows, cols));
    seq(rows, i requires 0 <= i < rows =>
      seq(cols, j requires 0 <= j < cols => (ro[i][j] + routed[i][j]) * dt as real))
  }

  /** NaN samples count as zero: replacing every NaN by 0 leaves the flux unchanged. */
  function ZeroNaN(g: seq<seq<Sample>>): (z: seq<seq<Sample>>)
    ensures |z| == |g|
    ensures forall i :: 0 <= i < |g| ==> |z[i]| == |g[i]|
    ensures forall i, j :: 0 <= i < |g| && 0 <= j < |g[i]| ==> z[i][j].Num? && NanToNum(z[i][j]) == NanToNum(g[i][j])
  {
    seq(|g|, i requires 0 <= i < |g| => seq(|g[i]|, j requires 0 <= j < |g[i]| => Num(NanToNum(g[i][j]))))
  }

  lemma FluxIgnoresNaN(mask: Grid, runoff: seq<seq<Sample>>, area: RealGrid, discharge: seq<seq<Sample>>,
                       route: RealGrid -> RealGrid, dt: int, rows: nat, cols: nat)
    requires Rectangular(mask, rows, cols) && Rectangular(runoff, rows, cols)
    requires Rectangular(area, rows, cols) && Rectangular(discharge, rows, cols)
    requires Routes(route, rows, cols)
    ensures TotalFlux(mask, ZeroNaN(runoff), area, ZeroNaN(discharge), route, dt, rows, cols)
         == TotalFlux(mask, runoff, area, discharge, route, dt, rows, cols)
  {
    GridsEqual(DischargeVolume(mask, ZeroNaN(discharge), rows, cols), DischargeVolume(mask, discharge, rows, cols));
    var z := ZeroNaN(runoff);
    forall i, j | 0 <= i < rows && 0 <= j < cols
      ensures RunoffVolume(mask, z, area, rows, cols)[i][j] == RunoffVolume(mask, runoff, area, rows, cols)[i][j]
    {
      assert NanToNum(z[i][j]) == NanToNum(runoff[i][j]);
    }
    GridsEqual(RunoffVolume(mask, z, area, rows, cols), RunoffVolume(mask, runoff, area, rows, cols));
    GridsEqual(TotalFlux(mask, ZeroNaN(runoff), area, ZeroNaN(discharge), route, dt, rows, cols),
               TotalFlux(mask, runoff, area, discharge, route, dt, rows, cols));
  }

  /** A cell not coupled for runoff contributes nothing of its own: its flux
      is only what the routing brings in. */
  lemma UncoupledCellOnlyInflow(mask: Grid, runoff: seq<seq<Sample>>, area: RealGrid, discharge: seq<seq<Sample>>,
                                route: RealGrid -> RealGrid, dt: int, rows: nat, cols: nat, i: nat, j: nat)
    requires Rectangular(mask, rows, cols) && Rectangular(runoff, rows, cols)
    requires Rectangular(area, rows, cols) && Rectangular(discharge, rows, cols)
    requires Routes(route, rows, cols)
    requires i < rows && j < cols && mask[i][j] != RunoffRole
    ensures TotalFlux(mask, runoff, area, discharge, route, dt, rows, cols)[i][j]
         == route(DischargeVolume(mask, discharge, rows, cols))[i][j] * dt as real
  {
  }

  /** A runoff-coupled cell that receives no routed inflow yields its runoff
      (NaN as zero) times its area, times dt. */
  lemma RunoffCellWithoutInflow(mask: Grid, runoff: seq<seq<Sample>>, area: RealGrid, discharge: seq<seq<Sample>>,
                                route: RealGrid -> RealGrid, dt: int, rows: nat, cols: nat, i: nat, j: nat)
    requires Rectangular(mask, rows, cols) && Rectangular(runoff, rows, cols)
    requires Rectangular(area, rows, cols) && Rectangular(discharge, rows, cols)
    requires Routes(route, rows, cols)
    requires i < rows && j < cols && mask[i][j] == RunoffRole
    requires route(DischargeVolume(mask, discharge, rows, cols))[i][j] == 0.0
    ensures TotalFlux(mask, runoff, area, discharge, route, dt, rows, cols)[i][j]
         == NanToNum(runoff[i][j]) * area[i][j] * dt as real
  {
  }

  /** The flux scales linearly with the timestep multiplier: it is dt times
      the flux for dt = 1. */
  lemma FluxScalesWithDt(mask: Grid, runoff: seq<seq<Sample>>, area: RealGrid, discharge: seq<seq<Sample>>,
                         route: RealGrid -> RealGrid, dt: int, rows: nat, cols: nat, i: nat, j: nat)
    requires Rectangular(mask, rows, cols) && Rectangular(runoff, rows, cols)
    requires Rectangular(area, rows, cols) && Rectangular(discharge, rows, cols)
    requires Routes(route, rows, cols)
    requires i < rows && j < cols
    ensures TotalFlux(mask, runoff, area, discharge, route, dt, rows, cols)[i][j]
         == TotalFlux(mask, runoff, area, discharge, route, 1, rows, cols)[i][j] * dt as real
  {
  }
}
