/** The PCR-GLOBWB adapter: construction (directory defaults, landmask and
    drainage map lookup), routing deactivation by pit editing of the LDD map,
    and the coupling guard of the flux aggregator.

    Files are a `Disk` mapping paths to grids: `isfile(p)` is `p in disk`,
    reading a map is a lookup and writing one is an update. */
module PcrModel {
  import opened Wrappers
  import opened Paths
  import opened Configuration
  import opened Grids
  import opened Ldd
  import Flux

  type Disk = map<string, Grid>

  const GlobalOptions: string := "globalOptions"
  const RoutingOptions: string := "routingOptions"
  const InputDirKey: string := "inputDir"
  const OutputDirKey: string := "outputDir"
  const StartTimeKey: string := "startTime"
  const EndTimeKey: string := "endTime"
  const LandmaskKey: string := "landmask"
  const LddMapKey: string := "lddMap"

  /** Constructor defaults. */
  const DefaultMissingValue: int := -999
  const DefaultLandmaskMv: int := 255
  const DefaultDt: int := 1
  const DefaultTScale: real := 86400.0

  /** What the adapter raises. */
  datatype Error =
    | KeyMissing(section: string, key: string)   // KeyError on the configuration
    | LandmaskNotFound(path: string)             // IOError: landmask file not found
    | LddNotFound(path: string)                  // IOError: ldd map file not found
    | NotCoupledForRouting                       // AssertionError: must be coupled before deactivating routing
    | AlreadyInitialized                         // AssertionError: LDD can only be edited before initialization
    | EmptySelection                             // ValueError: unpacking the rows and cols of no indices
    | NotCoupledForFlux                          // AssertionError: must be coupled before computing the flux

  datatype Options = Options(dt: int, tscale: real, missingValue: int, landmaskMv: int)

  /** The adapter's state. `coupledDict` holds the keys of the coupling
      association and `coupledMask` the role grid; both are set by the
      coupling framework. `initialized` is set when the engine starts. */
  datatype Wrapper = Wrapper(
    config: Config,
    options: Options,
    outDir: string,
    initialized: bool,
    coupledDict: Option<set<Cell>>,
    coupledMask: Option<Grid>,
    landmaskPath: string,
    gridShape: (nat, nat),
    dd: Grid)

  /** `model_config[section][key]`, raising `KeyError` when absent. */
  function Lookup(c: Config, section: string, key: string): (r: Result<string, Error>)
    ensures r.Success? <==> Get(c, section, key).Some?
    ensures r.Success? ==> r.value == Get(c, section, key).value
    ensures r.Failure? ==> r.error == KeyMissing(section, key)
  {
    match Get(c, section, key)
    case Some(v) => Success(v)
    case None => Failure(KeyMissing(section, key))
  }

  /** The (rows, cols) of a rectangular raster. */
  function ShapeOf(g: Grid): (nat, nat) {
    if g == [] then (0, 0) else (|g|, |g[0]|)
  }

  /** The path of the LDD map: `routingOptions.lddMap`, joined onto
      `globalOptions.inputDir` unless it is absolute. */
  function ResolveLdd(c: Config): (r: Result<string, Error>)
    ensures Get(c, RoutingOptions, LddMapKey).None? ==> r == Failure(KeyMissing(RoutingOptions, LddMapKey))
    ensures Get(c, RoutingOptions, LddMapKey).Some? && IsAbs(Get(c, RoutingOptions, LddMapKey).value) ==>
              r == Success(Get(c, RoutingOptions, LddMapKey).value)
    ensures Get(c, RoutingOptions, LddMapKey).Some? && !IsAbs(Get(c, RoutingOptions, LddMapKey).value) ==>
              if Get(c, GlobalOptions, InputDirKey).None? then r == Failure(KeyMissing(GlobalOptions, InputDirKey))
              else r == Success(Join(Get(c, GlobalOptions, InputDirKey).value, Get(c, RoutingOptions, LddMapKey).value))
    // an absolute input directory makes the resolved path absolute
    ensures r.Success? && Get(c, GlobalOptions, InputDirKey).Some? && IsAbs(Get(c, GlobalOptions, InputDirKey).value) ==>
              IsAbs(r.value)
  {
    var fn :- Lookup(c, RoutingOptions, LddMapKey);
    if IsAbs(fn) then Success(fn)
    else
      var dir :- Lookup(c, GlobalOptions, InputDirKey);
      Success(Join(dir, fn))
  }

  /** `get_model_grid`: the landmask path and the grid shape read from it. */
  function ModelGrid(c: Config, disk: Disk): (r: Result<(string, (nat, nat)), Error>)
    ensures Get(c, GlobalOptions, InputDirKey).None? ==> r == Failure(KeyMissing(GlobalOptions, InputDirKey))
    ensures Get(c, GlobalOptions, InputDirKey).Some? && Get(c, GlobalOptions, LandmaskKey).None? ==>
              r == Failure(KeyMissing(GlobalOptions, LandmaskKey))
    ensures r.Success? ==> r.value.0 in disk && r.value.1 == ShapeOf(disk[r.value.0])
    ensures r.Success? <==> (Get(c, GlobalOptions, InputDirKey).Some? && Get(c, GlobalOptions, LandmaskKey).Some?
              && Join(Get(c, GlobalOptions, InputDirKey).value, Get(c, GlobalOptions, LandmaskKey).value) in disk)
    ensures r.Success? ==> r.value.0 == Join(Get(c, GlobalOptions, InputDirKey).value, Get(c, GlobalOptions, LandmaskKey).value)
    ensures r.Failure? && Get(c, GlobalOptions, InputDirKey).Some? && Get(c, GlobalOptions, LandmaskKey).Some? ==>
              r.error == LandmaskNotFound(Join(Get(c, GlobalOptions, InputDirKey).value, Get(c, GlobalOptions, LandmaskKey).value))
  {
    var dir :- Lookup(c, GlobalOptions, InputDirKey);
    var name :- Lookup(c, GlobalOptions, LandmaskKey);
    var fn := Join(dir, name);
    if fn !in disk then Failure(LandmaskNotFound(fn))
    else Success((fn, ShapeOf(disk[fn])))
  }

  /** `get_drainage_direction`: the LDD grid at the resolved path. */
  function DrainageDirection(c: Config, disk: Disk): (r: Result<Grid, Error>)
    ensures ResolveLdd(c).Failure? ==> r == Failure(ResolveLdd(c).error)
    ensures ResolveLdd(c).Success? && ResolveLdd(c).value !in disk ==> r == Failure(LddNotFound(ResolveLdd(c).value))
    ensures r.Success? <==> ResolveLdd(c).Success? && ResolveLdd(c).value in disk
    ensures r.Success? ==> r.value == disk[ResolveLdd(c).value]
  {
    var fn :- ResolveLdd(c);
    if fn !in disk then Failure(LddNotFound(fn)) else Success(disk[fn])
  }

  /** The configuration after construction merges the run's settings into
      `globalOptions`; forcing data default to the model data directory. */
  function InitConfig(c: Config, modelDataDir: string, outDir: string, startTime: string, endTime: string,
                      forcingDataDir: Option<string>): (r: Config)
    ensures var inputDir := if forcingDataDir.None? then modelDataDir else forcingDataDir.value;
            && Get(r, GlobalOptions, InputDirKey) == Some(inputDir)
            && Get(r, GlobalOptions, OutputDirKey) == Some(outDir)
            && Get(r, GlobalOptions, StartTimeKey) == Some(startTime)
            && Get(r, GlobalOptions, EndTimeKey) == Some(endTime)
    ensures r.Keys == c.Keys + {GlobalOptions}
    ensures forall s :: s in c && s != GlobalOptions ==> r[s] == c[s]
    ensures forall k :: k !in {InputDirKey, OutputDirKey, StartTimeKey, EndTimeKey} ==>
              Get(r, GlobalOptions, k) == Get(c, GlobalOptions, k)
  {
    var inputDir := forcingDataDir.GetOr(modelDataDir);
    Merge(c, GlobalOptions, map[InputDirKey := inputDir, OutputDirKey := outDir,
                                StartTimeKey := startTime, EndTimeKey := endTime])
  }

  /** `PCR_model(...)`: sets the configuration up, then reads the grid and the
      drainage map; either failure aborts construction. */
  function Init(c: Config, modelDataDir: string, outDir: string, startTime: string, endTime: string,
                disk: Disk, missingValue: int := DefaultMissingValue, landmaskMv: int := DefaultLandmaskMv,
                forcingDataDir: Option<string> := None): (r: Result<Wrapper, Error>)
    ensures r.Success? ==> r.value.config == InitConfig(c, modelDataDir, outDir, startTime, endTime, forcingDataDir)
    ensures var cfg := InitConfig(c, modelDataDir, outDir, startTime, endTime, forcingDataDir);
            r.Success? <==> (ModelGrid(cfg, disk).Success? && DrainageDirection(cfg, disk).Success?)
    ensures var cfg := InitConfig(c, modelDataDir, outDir, startTime, endTime, forcingDataDir);
            r.Success? ==> r.value.landmaskPath == ModelGrid(cfg, disk).value.0
    ensures var cfg := InitConfig(c, modelDataDir, outDir, startTime, endTime, forcingDataDir);
            (ModelGrid(cfg, disk).Success? && DrainageDirection(cfg, disk).Failure?) ==>
              r == Failure(DrainageDirection(cfg, disk).error)
    ensures r.Success? ==> r.value.options == Options(DefaultDt, DefaultTScale, missingValue, landmaskMv)
    ensures r.Success? ==> !r.value.initialized && r.value.coupledDict.None? && r.value.coupledMask.None?
    ensures r.Success? ==> r.value.outDir == outDir
    ensures r.Success? ==> r.value.landmaskPath in disk && r.value.gridShape == ShapeOf(disk[r.value.landmaskPath])
    ensures r.Success? ==> (ResolveLdd(r.value.config).Success? && ResolveLdd(r.value.config).value in disk
              && r.value.dd == disk[ResolveLdd(r.value.config).value])
    ensures Get(c, GlobalOptions, LandmaskKey).None? ==> r == Failure(KeyMissing(GlobalOptions, LandmaskKey))
    ensures var inputDir := if forcingDataDir.None? then modelDataDir else forcingDataDir.value;
            Get(c, GlobalOptions, LandmaskKey).Some? && Join(inputDir, Get(c, GlobalOptions, LandmaskKey).value) !in disk ==>
              r == Failure(LandmaskNotFound(Join(inputDir, Get(c, GlobalOptions, LandmaskKey).value)))
  {
    var config := InitConfig(c, modelDataDir, outDir, startTime, endTime, forcingDataDir);
    var grid :- ModelGrid(config, disk);
    var dd :- DrainageDirection(config, disk);
    Success(Wrapper(config, Options(DefaultDt, DefaultTScale, missingValue, landmaskMv), outDir,
                    false, None, None, grid.0, grid.1, dd))
  }

  /** The cells an edit targets: the explicit indices, else the coupled
      cells; with neither, the coupling guard fails. */
  function EffectiveSelection(w: Wrapper, indices: Option<Selection>): (r: Result<Selection, Error>)
    ensures indices.Some? ==> r == Success(indices.value)
    ensures indices.None? && w.coupledDict.Some? ==> r == Success(Listed(w.coupledDict.value))
    ensures indices.None? && w.coupledDict.None? ==> r == Failure(NotCoupledForRouting)
  {
    match indices
    case Some(sel) => Success(sel)
    case None =>
      if w.coupledDict.None? then Failure(NotCoupledForRouting)
      else Success(Listed(w.coupledDict.value))
  }

  /** Every index of the selection lies inside the LDD map it will edit
      (negative indices are not wrapped around). Only asked of a call that
      gets past both guards, since those fail before any index is used. */
  predicate SelectionFits(w: Wrapper, disk: Disk, indices: Option<Selection>) {
    var sel := EffectiveSelection(w, indices);
    var fn := ResolveLdd(w.config);
    !w.initialized && sel.Success? && sel.value.Listed? && fn.Success? && fn.value in disk ==>
      forall c :: c in sel.value.cells ==> InGrid(disk[fn.value], c)
  }

  /** Where the edited copy of the LDD map at `src` is written: directly in
      the output directory, under the map's own file name. */
  function LddCopyPath(w: Wrapper, src: string): (p: string)
    ensures p == w.outDir + Basename(src) || p == w.outDir + [Sep] + Basename(src)
    ensures p == w.outDir + Basename(src) <==> (w.outDir == [] || w.outDir[|w.outDir| - 1] == Sep)
    ensures Basename(p) == Basename(src)
    ensures |w.outDir| <= |p| && p[..|w.outDir|] == w.outDir
    ensures IsAbs(w.outDir) ==> IsAbs(p)
  {
    BasenameOfJoin(w.outDir, Basename(src));
    Join(w.outDir, Basename(src))
  }

  /** Every guard of `deactivate_routing` passes: a selection exists, the
      model is not initialized, the LDD map resolves to an existing file and
      the selection is not an empty index collection. */
  predicate Deactivatable(w: Wrapper, disk: Disk, indices: Option<Selection>) {
    && EffectiveSelection(w, indices).Success?
    && !w.initialized
    && ResolveLdd(w.config).Success? && ResolveLdd(w.config).value in disk
    && EffectiveSelection(w, indices).value != Listed({})
  }

  /** `deactivate_routing`: turns the selected cells of the LDD map into pits,
      writes the result under the output directory and repoints
      `routingOptions.lddMap` at it. */
  function DeactivateRouting(w: Wrapper, disk: Disk, indices: Option<Selection>): (r: Result<(Wrapper, Disk), Error>)
    requires SelectionFits(w, disk, indices)
    // the coupling guard runs first, then the initialization guard
    ensures indices.None? && w.coupledDict.None? ==> r == Failure(NotCoupledForRouting)
    ensures (indices.Some? || w.coupledDict.Some?) && w.initialized ==> r == Failure(AlreadyInitialized)
    ensures (indices.Some? || w.coupledDict.Some?) && !w.initialized && ResolveLdd(w.config).Failure? ==>
              r == Failure(ResolveLdd(w.config).error)
    ensures ((indices.Some? || w.coupledDict.Some?) && !w.initialized && ResolveLdd(w.config).Success?
              && ResolveLdd(w.config).value !in disk) ==> r == Failure(LddNotFound(ResolveLdd(w.config).value))
    ensures r.Success? <==> Deactivatable(w, disk, indices)
    ensures (r.Failure? && EffectiveSelection(w, indices) == Success(Listed({})) && !w.initialized
              && ResolveLdd(w.config).Success? && ResolveLdd(w.config).value in disk) ==> r.error == EmptySelection
    ensures r.Success? ==>
              var src := ResolveLdd(w.config).value;
              var tmp := LddCopyPath(w, src);
              var sel := EffectiveSelection(w, indices).value;
              && r.value.1 == disk[tmp := Edit(disk[src], sel, w.options.landmaskMv)]
              && Get(r.value.0.config, RoutingOptions, LddMapKey) == Some(tmp)
              && r.value.0 == w.(config := r.value.0.config)
              && r.value.0.config.Keys == w.config.Keys + {RoutingOptions}
              && (forall s :: s in w.config && s != RoutingOptions ==> r.value.0.config[s] == w.config[s])
              && (forall k :: k != LddMapKey ==>
                    Get(r.value.0.config, RoutingOptions, k) == Get(w.config, RoutingOptions, k))
  {
    var sel :- EffectiveSelection(w, indices);
    if w.initialized then Failure(AlreadyInitialized)
    else
      var src :- ResolveLdd(w.config);
      if src !in disk then Failure(LddNotFound(src))
      else if sel == Listed({}) then Failure(EmptySelection)
      else
        var edited := Edit(disk[src], sel, w.options.landmaskMv);
        var tmp := LddCopyPath(w, src);
        var config := Merge(w.config, RoutingOptions, map[LddMapKey := tmp]);
        Success((w.(config := config), disk[tmp := edited]))
  }

  /** Proof helper: the state a successful deactivation produces, in closed
      form, for use by the lemmas that reason about repeated calls. */
  lemma DeactivateResult(w: Wrapper, disk: Disk, indices: Option<Selection>)
    requires SelectionFits(w, disk, indices)
    requires Deactivatable(w, disk, indices)
    ensures var src := ResolveLdd(w.config).value;
            var tmp := LddCopyPath(w, src);
            && src in disk
            && EffectiveSelection(w, indices).Success?
            && DeactivateRouting(w, disk, indices).value
                 == (w.(config := Merge(w.config, RoutingOptions, map[LddMapKey := tmp])),
                     disk[tmp := Edit(disk[src], EffectiveSelection(w, indices).value, w.options.landmaskMv)])
  {
  }

  /** A deactivation whose configuration already points at a map that the
      edit leaves unchanged, at the path the copy would be written to, is a
      no-op. */
  lemma DeactivateFixpoint(w: Wrapper, disk: Disk, indices: Option<Selection>, p: string)
    requires SelectionFits(w, disk, indices)
    requires !w.initialized
    requires EffectiveSelection(w, indices).Success? && EffectiveSelection(w, indices).value != Listed({})
    requires Get(w.config, RoutingOptions, LddMapKey) == Some(p) && IsAbs(p) && p in disk
    requires LddCopyPath(w, p) == p
    requires Edit(disk[p], EffectiveSelection(w, indices).value, w.options.landmaskMv) == disk[p]
    ensures DeactivateRouting(w, disk, indices) == Success((w, disk))
  {
    DeactivateResult(w, disk, indices);
    MergeHeld(w.config, RoutingOptions, map[LddMapKey := p]);
    assert disk[p := disk[p]] == disk;
  }

  /** `get_coupled_flux`: requires the coupled mask, then combines runoff and
      routed discharge at the coupled cells. The one-step routing is supplied
      by the drainage structure as `route`. */
  function CoupledFlux(w: Wrapper, runoff: seq<seq<Flux.Sample>>, area: Flux.RealGrid,
                       discharge: seq<seq<Flux.Sample>>, route: Flux.RealGrid -> Flux.RealGrid): (r: Result<Flux.RealGrid, Error>)
    requires w.coupledMask.Some? ==> Rectangular(w.coupledMask.value, w.gridShape.0, w.gridShape.1)
    requires Rectangular(runoff, w.gridShape.0, w.gridShape.1) && Rectangular(area, w.gridShape.0, w.gridShape.1)
    requires Rectangular(discharge, w.gridShape.0, w.gridShape.1)
    requires Flux.Routes(route, w.gridShape.0, w.gridShape.1)
    ensures r.Failure? <==> w.coupledMask.None?
    ensures r.Failure? ==> r.error == NotCoupledForFlux
    ensures r.Success? ==> Rectangular(r.value, w.gridShape.0, w.gridShape.1)
    ensures r.Success? ==> r.value == Flux.TotalFlux(w.coupledMask.value, runoff, area, discharge, route,
                                                     w.options.dt, w.gridShape.0, w.gridShape.1)
  {
    if w.coupledMask.None? then Failure(NotCoupledForFlux)
    else Success(Flux.TotalFlux(w.coupledMask.value, runoff, area, discharge, route,
                                w.options.dt, w.gridShape.0, w.gridShape.1))
  }
}
