/** Properties that relate several calls of the adapter: what the repointed
    configuration reads back, and what repeated routing deactivation does. */
module RoutingProperties {
  import opened Wrappers
  import opened Paths
  import opened Configuration
  import opened Grids
  import opened Ldd
  import opened PcrModel

  /** With no separate forcing directory, a relative LDD map is looked up in
      the model data directory. */
  lemma InitResolvesAgainstModelData(c: Config, modelDataDir: string, outDir: string, startTime: string,
                                     endTime: string, missingValue: int, landmaskMv: int, disk: Disk)
    requires Get(c, RoutingOptions, LddMapKey).Some? && !IsAbs(Get(c, RoutingOptions, LddMapKey).value)
    requires Init(c, modelDataDir, outDir, startTime, endTime, disk, missingValue, landmaskMv, None).Success?
    ensures var w := Init(c, modelDataDir, outDir, startTime, endTime, disk, missingValue, landmaskMv, None).value;
            ResolveLdd(w.config) == Success(Join(modelDataDir, Get(c, RoutingOptions, LddMapKey).value))
            && w.dd == disk[Join(modelDataDir, Get(c, RoutingOptions, LddMapKey).value)]
  {
    var w := Init(c, modelDataDir, outDir, startTime, endTime, disk, missingValue, landmaskMv, None).value;
    assert Get(w.config, RoutingOptions, LddMapKey) == Get(c, RoutingOptions, LddMapKey) by {
      assert RoutingOptions != GlobalOptions;
    }
  }

  /** After a successful edit under an absolute output directory, the
      configuration names the written copy, and reading the map it names
      yields exactly the edited grid. */
  lemma {:induction false} RepointedMapIsEdited(w: Wrapper, disk: Disk, indices: Option<Selection>)
    requires SelectionFits(w, disk, indices)
    requires Deactivatable(w, disk, indices)
    requires IsAbs(w.outDir)
    ensures var (w1, d1) := DeactivateRouting(w, disk, indices).value;
            var src := ResolveLdd(w.config).value;
            && ResolveLdd(w1.config) == Success(LddCopyPath(w, src))
            && DrainageDirection(w1.config, d1)
                 == Success(Edit(disk[src], EffectiveSelection(w, indices).value, w.options.landmaskMv))
  {
    DeactivateResult(w, disk, indices);
    var src := ResolveLdd(w.config).value;
    var tmp := LddCopyPath(w, src);
    var sel := EffectiveSelection(w, indices).value;
    var w1 := w.(config := Merge(w.config, RoutingOptions, map[LddMapKey := tmp]));
    var d1 := disk[tmp := Edit(disk[src], sel, w.options.landmaskMv)];
    assert DeactivateRouting(w, disk, indices).value == (w1, d1);
    assert Get(w1.config, RoutingOptions, LddMapKey) == Some(tmp);
    assert ResolveLdd(w1.config) == Success(tmp);
    assert DrainageDirection(w1.config, d1) == Success(d1[tmp]);
  }

  /** The copy a deactivation writes has the original's shape, so the same
      selection also fits the copy. */
  lemma {:induction false} SelectionFitsCopy(w: Wrapper, disk: Disk, indices: Option<Selection>)
    requires SelectionFits(w, disk, indices)
    requires Deactivatable(w, disk, indices)
    requires IsAbs(w.outDir)
    ensures var (w1, d1) := DeactivateRouting(w, disk, indices).value;
            SelectionFits(w1, d1, indices)
  {
    DeactivateResult(w, disk, indices);
    RepointedMapIsEdited(w, disk, indices);
    var src := ResolveLdd(w.config).value;
    var tmp := LddCopyPath(w, src);
    var sel := EffectiveSelection(w, indices).value;
    var (w1, d1) := DeactivateRouting(w, disk, indices).value;
    assert EffectiveSelection(w1, indices) == Success(sel);
    if sel.Listed? {
      forall c | c in sel.cells
        ensures InGrid(d1[tmp], c)
      {
        assert InGrid(disk[src], c);
      }
    }
  }

  /** Deactivating routing again with the same selection reads the copy the
      first call wrote, and changes neither the files nor the adapter. */
  lemma {:induction false} DeactivateTwiceIsOnce(w: Wrapper, disk: Disk, indices: Option<Selection>)
    requires SelectionFits(w, disk, indices)
    requires Deactivatable(w, disk, indices)
    requires IsAbs(w.outDir)
    ensures var (w1, d1) := DeactivateRouting(w, disk, indices).value;
            SelectionFits(w1, d1, indices) && DeactivateRouting(w1, d1, indices) == Success((w1, d1))
  {
    DeactivateResult(w, disk, indices);
    RepointedMapIsEdited(w, disk, indices);
    SelectionFitsCopy(w, disk, indices);
    var src := ResolveLdd(w.config).value;
    var tmp := LddCopyPath(w, src);
    var sel := EffectiveSelection(w, indices).value;
    var (w1, d1) := DeactivateRouting(w, disk, indices).value;
    assert EffectiveSelection(w1, indices) == Success(sel);
    // a second edit of the copy changes nothing, and lands on the same path
    EditIdempotent(disk[src], sel, w.options.landmaskMv);
    BasenameOfJoin(w.outDir, Basename(src));
    DeactivateFixpoint(w1, d1, indices, tmp);
  }

  /** Edits accumulate: a second deactivation with indices `b` after one with
      indices `a` leaves the copy equal to one edit of the original with both.
      The original map is never restored between calls. */
  lemma {:induction false} SuccessiveEditsAccumulate(w: Wrapper, disk: Disk, a: set<Cell>, b: set<Cell>)
    requires SelectionFits(w, disk, Some(Listed(a)))
    requires Deactivatable(w, disk, Some(Listed(a)))
    requires IsAbs(w.outDir) && b != {}
    requires forall c :: c in b ==> InGrid(disk[ResolveLdd(w.config).value], c)
    ensures var (w1, d1) := DeactivateRouting(w, disk, Some(Listed(a))).value;
            var src := ResolveLdd(w.config).value;
            && SelectionFits(w1, d1, Some(Listed(b)))
            && DeactivateRouting(w1, d1, Some(Listed(b))).Success?
            && DeactivateRouting(w1, d1, Some(Listed(b))).value.1[LddCopyPath(w, src)]
                 == Edit(disk[src], Listed(a + b), w.options.landmaskMv)
  {
    DeactivateResult(w, disk, Some(Listed(a)));
    var src := ResolveLdd(w.config).value;
    var tmp := LddCopyPath(w, src);
    var w1 := w.(config := Merge(w.config, RoutingOptions, map[LddMapKey := tmp]));
    var d1 := disk[tmp := Edit(disk[src], Listed(a), w.options.landmaskMv)];
    assert Get(w1.config, RoutingOptions, LddMapKey) == Some(tmp);
    assert ResolveLdd(w1.config) == Success(tmp);
    assert SelectionFits(w1, d1, Some(Listed(b))) by {
      forall c | c in b
        ensures InGrid(d1[tmp], c)
      {
        assert InGrid(disk[src], c);
      }
    }
    DeactivateResult(w1, d1, Some(Listed(b)));
    BasenameOfJoin(w.outDir, Basename(src));
    assert LddCopyPath(w1, tmp) == tmp;
    EditCompose(disk[src], a, b, w.options.landmaskMv);
  }
}
