# PCR-GLOBWB adapter: drainage-map editing and grid-index logic

This project models the decision logic of `PCR_model`, the GLOFRIM adapter
that drives the PCR-GLOBWB hydrological model through a Basic Model Interface.
The adapter is mostly glue around native libraries. The part with real rules
is:

- **Construction.** The forcing directory defaults to the model data
  directory, and that directory becomes `globalOptions.inputDir`, together
  with the output directory and the start and end dates. The constructor then
  looks up the landmask map and the local drainage direction (LDD) map. A
  missing key or a missing file aborts construction.
- **LDD path resolution.** A relative `routingOptions.lddMap` is joined onto
  `globalOptions.inputDir`. An absolute one is used as it is.
- **Routing deactivation** (`deactivate_routing`). The selected cells of the
  LDD map become pits (code 5), except no-data cells. The selection is either
  every cell (`'all'`) or a collection of (row, col) indices, and it defaults
  to the coupled cells. The guards run in this order:
  1. the model must be coupled when no indices are given;
  2. the model must not be initialized;
  3. the map must exist.

  The edited copy is written under the output directory, and
  `routingOptions.lddMap` is repointed at it.
- **Validity mask** (`model_2d_index`). A point is valid exactly when its
  (row, col) is inside the grid and the landmask value there is 1.
- **Coupled flux** (`get_coupled_flux`). It needs the coupled mask. It adds
  runoff volume at runoff-coupled cells to the discharge volume of
  discharge-coupled cells, routed one cell downstream.

Files are modelled as a map `Disk` from path to grid. `isfile(p)` is
membership, reading a map is a lookup, and writing one is an update. Grids are
`seq<seq<int>>`. The adapter's state is the immutable record
`PcrModel.Wrapper`. Each operation returns a `Result` whose error names the
exception the adapter raises.

Modules, one file each:

- `Wrappers`: `Option`/`Result`.
- `Paths`: POSIX `isabs`, `join` and `basename`.
- `Configuration`: the configuration store, with `set_config` as a
  section-level partial merge.
- `Grids`: grids, grid indices and their shape predicates.
- `Ldd`: the pit edit.
- `DomainMask`: `model_2d_index`.
- `Flux`: the flux arithmetic.
- `PcrModel`: the adapter's operations.
- `RoutingProperties`: properties that relate several calls.

Two consequences of the code are worth stating:

- The edited copy goes to `join(out_dir, basename(path))`
  (glofrim_pcr.py:159-162). When the output directory is the map's own
  directory, that is the original path, and the original is replaced.
  `DeactivateRouting` states the write as `disk[copy := edited]`, which covers
  that case.
- An empty index list, or an empty coupling association, is not a no-op.
  Unpacking `zip(*indices)` into rows and columns raises a `ValueError`
  (glofrim_pcr.py:155), which is modelled as `EmptySelection`.

## Model

| member | source | states |
|---|---|---|
| Paths.Join | glofrim-py/glofrim/glofrim_pcr.py:79-81 | an absolute second component replaces the directory; otherwise the result is the directory followed by the name, with exactly one separator inserted between them unless the directory is empty or already ends in one; an absolute directory gives an absolute result |
| Paths.Basename | glofrim-py/glofrim/glofrim_pcr.py:159 | the basename is a separator-free suffix of the path, preceded by a separator whenever it is shorter than the path, so it is the longest such suffix |
| Paths.BasenameOfJoin | glofrim-py/glofrim/glofrim_pcr.py:159 | a separator-free file name joined onto any directory has that name as its basename, so the copy keeps the original's file name |
| Configuration.Get | glofrim-py/glofrim/glofrim_pcr.py:78 | a configuration value is present exactly when both its section and key exist, and then it is the stored value |
| Configuration.Merge | glofrim-py/glofrim/glofrim_pcr.py:32-38 | merging entries into a section sets exactly those keys, keeps the section's other keys and every other section, and creates the section if needed |
| Configuration.MergeHeld | glofrim-py/glofrim/glofrim_pcr.py:164-165 | merging entries that the configuration already holds leaves it unchanged |
| Ldd.EditRow | glofrim-py/glofrim/glofrim_pcr.py:153 | in one row, selected non-no-data cells become pits and every other cell keeps its value; the length is kept |
| Ldd.Edit | glofrim-py/glofrim/glofrim_pcr.py:152-157 | the edit keeps the grid's shape (so a rectangular map stays rectangular with the same dimensions); a selected cell that is not no-data becomes 5; a no-data cell or an unselected cell keeps its value; no value other than 5 is ever written (with `'all'`, every non-no-data cell becomes 5) |
| Ldd.EditIdempotent | glofrim-py/glofrim/glofrim_pcr.py:152-157 | applying the same edit twice gives the same grid as applying it once |
| Ldd.EditCompose | glofrim-py/glofrim/glofrim_pcr.py:155-157 | editing with indices b after indices a equals one edit with the union, so a later edit never undoes an earlier one |
| Ldd.AllIsEveryCell | glofrim-py/glofrim/glofrim_pcr.py:152-157 | the `'all'` marker gives the same grid as listing every in-range index of the map |
| Ldd.EditAddCell | glofrim-py/glofrim/glofrim_pcr.py:157 | adding one in-range cell to the selection changes the result at that cell only, which then gets the cell's original value turned into a pit |
| Ldd.PitListed | glofrim-py/glofrim/glofrim_pcr.py:155-157 | writing the listed cells one at a time, each value taken from the unedited map, gives the set-based edit of the listed cells, whatever their order or repetitions |
| DomainMask.ModelIndex | glofrim-py/glofrim/glofrim_pcr.py:103-114 | one index pair and one flag per input point; a flag is true exactly when 0 <= r < nrows, 0 <= c < ncols and the landmask there is 1; a valid index always lies inside the landmask |
| Flux.RunoffCellWithoutInflow | glofrim-py/glofrim/glofrim_pcr.py:173-177 | a runoff-coupled cell that receives no routed inflow has flux equal to its runoff (NaN as 0) times its cell area times dt |
| Flux.FluxScalesWithDt | glofrim-py/glofrim/glofrim_pcr.py:173-177 | the flux is linear in the timestep multiplier: every cell's flux is dt times its flux for dt = 1 |
| Flux.FluxIgnoresNaN | glofrim-py/glofrim/glofrim_pcr.py:173-174 | replacing every NaN in runoff and discharge by 0 leaves the flux unchanged |
| Flux.UncoupledCellOnlyInflow | glofrim-py/glofrim/glofrim_pcr.py:173-176 | a cell that is not runoff-coupled contributes nothing of its own; its flux is only the routed inflow times dt |
| PcrModel.Lookup | glofrim-py/glofrim/glofrim_pcr.py:142-145 | a configuration lookup succeeds exactly when the key exists, and otherwise raises a key error naming that section and key |
| PcrModel.ResolveLdd | glofrim-py/glofrim/glofrim_pcr.py:142-145 | a missing `lddMap` is a key error; an absolute `lddMap` is returned unchanged without consulting `inputDir`; a relative one is joined onto `inputDir`, or is a key error on `inputDir` when that key is missing; under an absolute `inputDir` the result is absolute |
| PcrModel.ModelGrid | glofrim-py/glofrim/glofrim_pcr.py:58-67 | the landmask path is `inputDir` joined with `landmask`; the call succeeds exactly when both keys exist and that file exists, and otherwise fails with the first missing key or "landmask not found"; on success the shape is the map's shape |
| PcrModel.DrainageDirection | glofrim-py/glofrim/glofrim_pcr.py:76-84 | succeeds exactly when the LDD path resolves and the file exists, and then yields that file's grid; otherwise the resolution error or "ldd map not found" for the resolved path |
| PcrModel.InitConfig | glofrim-py/glofrim/glofrim_pcr.py:23-38 | without a forcing directory, `inputDir` is the model data directory, otherwise the forcing directory; `outputDir`, `startTime` and `endTime` are set; every other key of `globalOptions` and every other section is kept |
| PcrModel.Init | glofrim-py/glofrim/glofrim_pcr.py:11-42 | the configuration is the one `InitConfig` builds; dt is 1 and tscale 86400; the wrapper starts uninitialized and uncoupled; construction succeeds exactly when both the landmask lookup and the LDD lookup succeed on that configuration; a missing landmask key or file aborts first; when the landmask is found but the LDD map is not, the LDD step's error (missing key or "ldd map not found") is returned; on success the landmask path is the one the grid step found, the grid shape is that map's shape, and the drainage grid is the LDD map read from disk |
| PcrModel.EffectiveSelection | glofrim-py/glofrim/glofrim_pcr.py:130-135 | explicit indices are used as given and need no coupling; without them the coupled cells are used, or the coupling guard fails when there are none |
| PcrModel.LddCopyPath | glofrim-py/glofrim/glofrim_pcr.py:159 | the copy lies directly in the output directory: its path is the output directory followed by the original map's basename, with one separator between them unless the directory is empty or already ends in one; so it starts with the output directory, keeps the original's basename, and is absolute under an absolute output directory |
| PcrModel.DeactivateRouting | glofrim-py/glofrim/glofrim_pcr.py:117-165 | the coupling guard fails first, then the initialized guard, then path resolution, then a missing map, then an empty selection; success happens exactly when all of these pass; on success the only file written is the copy, holding the pit edit of the original; only `routingOptions.lddMap` changes, now pointing at the copy, and no other key of that section is added, removed or altered; the rest of the wrapper is unchanged |
| PcrModel.DeactivateFixpoint | glofrim-py/glofrim/glofrim_pcr.py:142-165 | when the configuration already names an absolute map path that is the copy's own path, and the edit leaves that map unchanged, deactivation returns the state unchanged |
| PcrModel.CoupledFlux | glofrim-py/glofrim/glofrim_pcr.py:167-177 | fails with the coupling error exactly when no coupled mask is set; otherwise returns a grid of the model's shape, computed by the flux arithmetic |
| RoutingProperties.InitResolvesAgainstModelData | glofrim-py/glofrim/glofrim_pcr.py:23-33 | without a forcing directory, a relative LDD map is read from the model data directory |
| RoutingProperties.RepointedMapIsEdited | glofrim-py/glofrim/glofrim_pcr.py:159-165 | after an edit under an absolute output directory, the configuration resolves to the copy, and reading the map it names gives exactly the edited grid |
| RoutingProperties.SelectionFitsCopy | glofrim-py/glofrim/glofrim_pcr.py:155-161 | the copy has the original's shape, so a selection that fits the original also fits the copy |
| RoutingProperties.DeactivateTwiceIsOnce | glofrim-py/glofrim/glofrim_pcr.py:142-165 | a second deactivation with the same selection reads the copy the first wrote and changes neither the files nor the wrapper |
| RoutingProperties.SuccessiveEditsAccumulate | glofrim-py/glofrim/glofrim_pcr.py:142-165 | deactivating indices a and then indices b leaves the copy equal to one edit of the original with a and b together; the original is never restored between calls |

## Left out

- Raster I/O: `rasterio.open` and the pcraster `readmap`, `pcr2numpy`, `numpy2pcr` and `report` calls are foreign libraries. Files are a map from path to an integer grid, and the map codec is taken to be lossless. Missing-value cells are assumed to have already been read as the no-data value.
- Georeferencing: the raster's resolution, bounds, affine transform and coordinate-to-index function (`ds.index`) come from rasterio. `DomainMask.ModelIndex` takes the row and column arrays that function produces, and it takes the landmask as a grid of the model's shape.
- `astype(int)` on the computed indices, and the failure of `model_2d_index` on an empty list of points (it comes from calling the index function with no coordinates) are not modelled.
- `read_dd_pcraster` and `dd_flux` belong to the external `nb` routing library. `PcrModel.Wrapper.dd` keeps the LDD codes the structure is built from, and the one-step downstream routing is a parameter `route` of `Flux.TotalFlux`, assumed only to preserve shape.
- Floating point: flux values are mathematical reals, and NaN is a separate `Sample` constructor. `np.nan_to_num`'s replacement of infinities by large finite numbers is not modelled.
- `abspath` normalisation of the joined LDD path is not modelled: the joined path is used as it is.
- The base constructor `BMI_model_wrapper.__init__` is not part of this model. It is assumed to load `config_fn` into the configuration `c` that `PcrModel.Init` takes, and to store `model_data_dir`, `forcing_data_dir` and `out_dir` unchanged, so `PcrModel.Init` uses those arguments directly where the code reads the stored attributes.
- Date formatting: `strftime("%Y-%m-%d")` is not modelled. `PcrModel.Init` takes the start and end dates as already formatted strings.
- The native `pcrglobwb_bmi` engine, its lifecycle and `initialize` are not modelled. `initialized`, `coupledDict` and `coupledMask` are fields that the engine lifecycle and the coupling framework set.
- `set_config` and `ConfigParser` live in modules that are not part of this model. `Configuration.Merge` assumes a key-level merge within one section, and parsing of the `.ini` file is not modelled.
- The `_fn_ldd_tmp` attribute is not modelled separately: the copy's path is kept only in `routingOptions.lddMap`, where the code also stores it.
- Logging is not modelled.
- PcrModel.DeactivateRouting: requires every listed or coupled index to lie inside the LDD map (`SelectionFits`), but only for a call on an uninitialized wrapper whose map path resolves to an existing file; the guard failures are modelled for every input. numpy would raise `IndexError` for a too-large index and would wrap a negative one around; neither is modelled.
- Ldd.PitListed: requires every listed index to lie inside the grid, for the same reason.
- RoutingProperties.RepointedMapIsEdited, RoutingProperties.SelectionFitsCopy, RoutingProperties.DeactivateTwiceIsOnce and RoutingProperties.SuccessiveEditsAccumulate assume an absolute output directory. With a relative one, the repointed `lddMap` would be resolved against `inputDir`.
