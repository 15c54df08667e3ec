/**
 * The result containers of the experimental analysis:
 * `SegmentationData.add_density` (cells per unit area, frame by frame),
 * `VariationData` (a quantity against density, raw or binned) and
 * `AutocorrelationData` (correlations keyed by observable name, with an
 * overwrite guard and a log of when each was computed).
 */
module DataClass {
  import opened Wrappers
  import opened Num
  import opened Masked
  import opened Dispatch
  import DensityBins

  // ---------------------------------------------------------------------
  // SegmentationData.add_density
  // ---------------------------------------------------------------------

  /** Every row of `a` has a mask row of its length. */
  predicate RowsAligned(a: Masked2D)
  {
    |a.vals| == |a.mask| && forall f :: 0 <= f < |a.vals| ==> |a.vals[f]| == |a.mask[f]|
  }

  /**
   * One frame of `10**6 * Ncells / Acells`: the number of unmasked cell
   * areas over their sum.  A frame with no unmasked area has a masked sum,
   * and a zero sum is outside the domain of masked division: either way the
   * entry is masked.
   */
  function FrameDensity(areas: seq<real>, mask: seq<bool>): (r: Option<real>)
    requires |areas| == |mask|
    ensures r == DensityOf(|Compress(areas, mask)|, Sum(Compress(areas, mask)))
  {
    DensityOf(CountValid(mask), Sum(Compress(areas, mask)))
  }

  /** `10**6 * n / total`, masked when `n` is zero or `total` is. */
  function DensityOf(n: nat, total: real): Option<real>
  {
    if n == 0 || total == 0.0 then None else Some(1000000.0 * (n as real) / total)
  }

  /** `add_density`: the density of every frame of the cell areas `A`. */
  function SegmentationDensity(A: Masked2D): (r: seq<Option<real>>)
    requires RowsAligned(A)
    ensures |r| == |A.vals|
    ensures forall f :: 0 <= f < |r| ==> r[f] == FrameDensity(A.vals[f], A.mask[f])
  {
    seq(|A.vals|, f requires 0 <= f < |A.vals| && RowsAligned(A) => FrameDensity(A.vals[f], A.mask[f]))
  }

  /**
   * Over the unmasked areas `c` of a frame, the density is unmasked exactly
   * when there is an area and they do not sum to zero, and it is then
   * `10**6` over the mean cell area: density times mean area is `10**6`.
   */
  lemma DensityTimesMeanArea(c: seq<real>)
    ensures DensityOf(|c|, Sum(c)).Some? <==> |c| > 0 && Sum(c) != 0.0
    ensures DensityOf(|c|, Sum(c)).Some? ==> Mean(c).Finite? && DensityOf(|c|, Sum(c)).value * Mean(c).value == 1000000.0
  {
    if |c| > 0 && Sum(c) != 0.0 {
      DensityTimesMean(|c| as real, Sum(c));
    }
  }

  /** `(10**6 * n / total) * (total / n) == 10**6` for non-zero `n` and `total`. */
  lemma DensityTimesMean(n: real, total: real)
    requires n != 0.0 && total != 0.0
    ensures (1000000.0 * n / total) * (total / n) == 1000000.0
  {
    var d, m := 1000000.0 * n / total, total / n;
    assert d * total == 1000000.0 * n;
    assert m * n == total;
    assert (d * m) * n == d * total;
  }

  /** With positive cell areas, every frame with an unmasked cell has a positive density. */
  lemma DensityPositive(areas: seq<real>, mask: seq<bool>)
    requires |areas| == |mask| && CountValid(mask) > 0
    requires forall i :: 0 <= i < |Compress(areas, mask)| ==> Compress(areas, mask)[i] > 0.0
    ensures FrameDensity(areas, mask).Some? && FrameDensity(areas, mask).value > 0.0
  {
    var c := Compress(areas, mask);
    SumPositive(c, 0);
    var n := CountValid(mask) as real;
    MulPos(1000000.0, n);
    assert 1000000.0 * n / Sum(c) > 0.0;
  }

  // ---------------------------------------------------------------------
  // VariationData
  // ---------------------------------------------------------------------

  /**
   * The data kept for one way of measuring the quantity (per pixel, per
   * disk or per cell): `var_*`, `h_*` and `svar_*`, each absent until set.
   */
  datatype Measurement = Measurement(variation: Option<seq<real>>, height: Option<seq<real>>, svariation: Option<seq<real>>)

  const Unset := Measurement(None, None, None)

  /**
   * A quantity and its spread against cell density.  `dataType` says which
   * kind of data was added last: "empty", "unbinned" or "binned".
   */
  class VariationData {
    var dataType: string
    var path: string
    var density: Option<seq<real>>
    var pixel: Measurement
    var disk: Measurement
    var cell: Measurement

    /** A container for a path that is not an existing file. */
    constructor (path: string)
      ensures this.dataType == "empty" && this.path == path && density == None
      ensures pixel == Unset && disk == Unset && cell == Unset
    {
      this.dataType := "empty";
      this.path := path;
      density := None;
      pixel, disk, cell := Unset, Unset, Unset;
    }

    /**
     * `add_unbinned_data`: sets the datatype and the densities, and the
     * variation and height of the measurement `measure` names; an unknown
     * `measure` sets no measurement.
     */
    method AddUnbinnedData(density: seq<real>, height: seq<real>, variation: seq<real>, measure: string)
      modifies this
      ensures this.dataType == "unbinned" && this.density == Some(density) && path == old(path)
      ensures pixel == if measure == "pixel" then old(pixel).(variation := Some(variation), height := Some(height)) else old(pixel)
      ensures disk == if measure == "disk" then old(disk).(variation := Some(variation), height := Some(height)) else old(disk)
      ensures cell == if measure == "cell" then old(cell).(variation := Some(variation), height := Some(height)) else old(cell)
    {
      this.dataType := "unbinned";
      this.density := Some(density);
      if measure == "pixel" {
        pixel := pixel.(variation := Some(variation), height := Some(height));
      } else if measure == "disk" {
        disk := disk.(variation := Some(variation), height := Some(height));
      } else if measure == "cell" {
        cell := cell.(variation := Some(variation), height := Some(height));
      }
    }

    /**
     * `add_binned_data`: sets the datatype and the densities, and the
     * variation and its spread for the measurement `measure` names.
     */
    method AddBinnedData(density: seq<real>, variation: seq<real>, svariation: seq<real>, measure: string)
      modifies this
      ensures this.dataType == "binned" && this.density == Some(density) && path == old(path)
      ensures pixel == if measure == "pixel" then old(pixel).(variation := Some(variation), svariation := Some(svariation)) else old(pixel)
      ensures disk == if measure == "disk" then old(disk).(variation := Some(variation), svariation := Some(svariation)) else old(disk)
      ensures cell == if measure == "cell" then old(cell).(variation := Some(variation), svariation := Some(svariation)) else old(cell)
    {
      this.dataType := "binned";
      this.density := Some(density);
      if measure == "pixel" {
        pixel := pixel.(variation := Some(variation), svariation := Some(svariation));
      } else if measure == "disk" {
        disk := disk.(variation := Some(variation), svariation := Some(svariation));
      } else if measure == "cell" {
        cell := cell.(variation := Some(variation), svariation := Some(svariation));
      }
    }

    /**
     * `bin_data(variable, bin_size)`: bins `variable` by the stored
     * densities.  Before any data was added there are no densities and the
     * attribute lookup fails.
     */
    method BinData(variable: seq<real>, binSize: nat, sqrt: real -> real) returns (r: Result<DensityBins.Binned>)
      requires binSize >= 1
      ensures density.None? ==> r == Err(AttributeError)
      ensures density.Some? ==> r == DensityBins.BinDataSpec(density.value, variable, binSize, sqrt)
    {
      if density.None? {
        return Err(AttributeError);
      }
      r := DensityBins.BinData(density.value, variable, binSize, sqrt);
    }
  }

  // ---------------------------------------------------------------------
  // AutocorrelationData
  // ---------------------------------------------------------------------

  /**
   * The dictionaries of an `AutocorrelationData`: correlations, their time
   * and distance axes, and the log, whose entries "t" and "r" map a name to
   * the date its temporal or spatial correlation was computed.
   */
  datatype Store = Store(
    temporal: map<string, Grid>,
    spatial: map<string, Grid>,
    tArray: map<string, seq<int>>,
    rArray: map<string, seq<real>>,
    log: map<string, map<string, string>>)

  /** Empty dictionaries, and a log with empty "t" and "r" entries. */
  const EmptyStore := Store(map[], map[], map[], map[], map["t" := map[], "r" := map[]])

  /** What the spatial correlation routine returns that the object keeps. */
  datatype SpatialResult = SpatialResult(cNorm: Grid, rBinCenters: seq<real>)

  /**
   * The spatial correlation routine, from the two position components, the
   * observable, `dr`, `r_max` and `t_avrg`; it is not part of this model
   * and may raise.
   */
  type SpatialRoutine = (Masked2D, Masked2D, Observable, real, real, bool) -> Result<SpatialResult>

  /** The temporal correlation routine, from the observable, `t_max` and `t_avrg`; its `C_norm`. */
  type TemporalRoutine = (Observable, int, bool) -> Result<Grid>

  /** `variable.shape[-2]`: the frame count, for an array of rank at least 2. */
  function FrameAxis(v: Observable): (r: Option<nat>)
    ensures v.Scalar? ==> r == Some(|v.a.vals|)
    ensures v.Vector? ==> r == Some(|v.x.vals|)
    ensures r.None? <==> v.OtherRank? && |v.shape| < 2
  {
    match v
    case Scalar(a) => Some(|a.vals|)
    case Vector(x, _) => Some(|x.vals|)
    case OtherRank(shape) => if |shape| >= 2 then Some(shape[|shape| - 2]) else None
  }

  /**
   * `compute_spatial` on the dictionaries `st`, at date `now`: what it
   * returns or raises, and the dictionaries afterwards.  Without
   * `overwrite` a name already in `spatial` is left alone.  Otherwise the
   * first `shape[-2]` frames of each position component are correlated and
   * the result stored under the name; a log without an "r" entry raises
   * after the two stores.
   */
  function SpatialStep(st: Store, positions: seq<Masked2D>, variable: Observable, name: string,
                       dr: real, rMax: real, tAvrg: bool, overwrite: bool, now: string,
                       correlate: SpatialRoutine): (Outcome, Store)
  {
    if !overwrite && name in st.spatial then (Pass, st)
    else
      match FrameAxis(variable)
      case None => (Fail(IndexError), st)
      case Some(fmax) =>
        if |positions| < 2 then (Fail(IndexError), st)
        else
          match correlate(TakeFrames(positions[0], fmax), TakeFrames(positions[1], fmax), variable, dr, rMax, tAvrg)
          case Err(e) => (Fail(e), st)
          case Ok(cr) =>
            var stored := st.(spatial := st.spatial[name := cr.cNorm], rArray := st.rArray[name := cr.rBinCenters]);
            if "r" in st.log then (Pass, stored.(log := st.log["r" := st.log["r"][name := now]]))
            else (Fail(KeyError), stored)
  }

  /**
   * `compute_temporal` on the dictionaries `st`, at date `now`.  Without
   * `overwrite` a name already in `temporal` is left alone; otherwise the
   * correlation is stored with the time axis `arange(t_max)`.
   */
  function TemporalStep(st: Store, variable: Observable, name: string, tMax: int, tAvrg: bool,
                        overwrite: bool, now: string, correlate: TemporalRoutine): (Outcome, Store)
  {
    if !overwrite && name in st.temporal then (Pass, st)
    else
      match correlate(variable, tMax, tAvrg)
      case Err(e) => (Fail(e), st)
      case Ok(c) =>
        var stored := st.(temporal := st.temporal[name := c], tArray := st.tArray[name := DensityBins.IntArange(0, tMax, 1)]);
        if "t" in st.log then (Pass, stored.(log := st.log["t" := st.log["t"][name := now]]))
        else (Fail(KeyError), stored)
  }

  /**
   * Correlations of one data set, keyed by observable name.  The clock and
   * the correlation routines are parameters of the methods.
   */
  class AutocorrelationData {
    var path: string
    var temporal: map<string, Grid>
    var spatial: map<string, Grid>
    var tArray: map<string, seq<int>>
    var rArray: map<string, seq<real>>
    var log: map<string, map<string, string>>

    /** The dictionaries, as one value. */
    function Contents(): Store
      reads this
    {
      Store(temporal, spatial, tArray, rArray, log)
    }

    /** A container for a path that is not an existing file: everything empty. */
    constructor (path: string)
      ensures this.path == path && Contents() == EmptyStore
    {
      this.path := path;
      temporal, spatial, tArray, rArray := map[], map[], map[], map[];
      log := map["t" := map[], "r" := map[]];
    }

    /** `compute_spatial(positions, variable, name, dr, r_max, t_avrg, overwrite)`. */
    method ComputeSpatial(positions: seq<Masked2D>, variable: Observable, name: string, dr: real, rMax: real,
                          tAvrg: bool, overwrite: bool, now: string, correlate: SpatialRoutine)
      returns (r: Outcome)
      modifies this
      ensures path == old(path)
      ensures (r, Contents()) == SpatialStep(old(Contents()), positions, variable, name, dr, rMax, tAvrg, overwrite, now, correlate)
    {
      if !overwrite && name in spatial {
        return Pass;
      }
      var fmax := FrameAxis(variable);
      if fmax.None? || |positions| < 2 {
        return Fail(IndexError);
      }
      var cr := correlate(TakeFrames(positions[0], fmax.value), TakeFrames(positions[1], fmax.value), variable, dr, rMax, tAvrg);
      if cr.Err? {
        return Fail(cr.error);
      }
      spatial := spatial[name := cr.value.cNorm];
      rArray := rArray[name := cr.value.rBinCenters];
      if "r" !in log {
        return Fail(KeyError);
      }
      log := log["r" := log["r"][name := now]];
      r := Pass;
    }

    /** `compute_temporal(variable, name, t_max, t_avrg, overwrite)`. */
    method ComputeTemporal(variable: Observable, name: string, tMax: int, tAvrg: bool, overwrite: bool,
                           now: string, correlate: TemporalRoutine)
      returns (r: Outcome)
      modifies this
      ensures path == old(path)
      ensures (r, Contents()) == TemporalStep(old(Contents()), variable, name, tMax, tAvrg, overwrite, now, correlate)
    {
      if !overwrite && name in temporal {
        return Pass;
      }
      var c := correlate(variable, tMax, tAvrg);
      if c.Err? {
        return Fail(c.error);
      }
      temporal := temporal[name := c.value];
      tArray := tArray[name := DensityBins.IntArange(0, tMax, 1)];
      if "t" !in log {
        return Fail(KeyError);
      }
      log := log["t" := log["t"][name := now]];
      r := Pass;
    }
  }

  /** Without `overwrite`, a name already computed leaves every dictionary as it was. */
  lemma SpatialGuard(st: Store, positions: seq<Masked2D>, variable: Observable, name: string,
                     dr: real, rMax: real, tAvrg: bool, now: string, correlate: SpatialRoutine)
    requires name in st.spatial
    ensures SpatialStep(st, positions, variable, name, dr, rMax, tAvrg, false, now, correlate) == (Pass, st)
  {
  }

  /** Without `overwrite`, a name already computed leaves every dictionary as it was. */
  lemma TemporalGuard(st: Store, variable: Observable, name: string, tMax: int, tAvrg: bool,
                      now: string, correlate: TemporalRoutine)
    requires name in st.temporal
    ensures TemporalStep(st, variable, name, tMax, tAvrg, false, now, correlate) == (Pass, st)
  {
  }

  /** `compute_spatial` never touches `temporal`, `t_array` or the log's "t" entry. */
  lemma SpatialKeepsTemporal(st: Store, positions: seq<Masked2D>, variable: Observable, name: string,
                             dr: real, rMax: real, tAvrg: bool, overwrite: bool, now: string,
                             correlate: SpatialRoutine)
    ensures SpatialStep(st, positions, variable, name, dr, rMax, tAvrg, overwrite, now, correlate).1.temporal == st.temporal
    ensures SpatialStep(st, positions, variable, name, dr, rMax, tAvrg, overwrite, now, correlate).1.tArray == st.tArray
    ensures "t" in st.log ==>
              "t" in SpatialStep(st, positions, variable, name, dr, rMax, tAvrg, overwrite, now, correlate).1.log
              && SpatialStep(st, positions, variable, name, dr, rMax, tAvrg, overwrite, now, correlate).1.log["t"] == st.log["t"]
  {
  }

  /**
   * A `compute_spatial` that gets past the guard, finds its inputs and a log
   * with an "r" entry, and whose routine returns `cr`, completes: it has
   * stored `cr`'s `C_norm` and `r_bin_centers` under the name and logged
   * `now`, every other name keeping its entries.
   */
  lemma SpatialCompletes(st: Store, positions: seq<Masked2D>, variable: Observable, name: string,
                         dr: real, rMax: real, tAvrg: bool, overwrite: bool, now: string,
                         correlate: SpatialRoutine, fmax: nat, cr: SpatialResult)
    requires overwrite || name !in st.spatial
    requires FrameAxis(variable) == Some(fmax) && |positions| >= 2 && "r" in st.log
    requires correlate(TakeFrames(positions[0], fmax), TakeFrames(positions[1], fmax), variable, dr, rMax, tAvrg) == Ok(cr)
    ensures SpatialStep(st, positions, variable, name, dr, rMax, tAvrg, overwrite, now, correlate).0 == Pass
    ensures SpatialCompleted(st, SpatialStep(st, positions, variable, name, dr, rMax, tAvrg, overwrite, now, correlate).1, name, cr, now)
  {
  }

  /**
   * `after` is `before` with the spatial result `cr` stored under `name`
   * and `now` logged for it: the name is present, and every other name's
   * entries are unchanged.
   */
  ghost predicate SpatialCompleted(before: Store, after: Store, name: string, cr: SpatialResult, now: string)
  {
    && after.spatial.Keys == before.spatial.Keys + {name} && after.spatial[name] == cr.cNorm
    && after.rArray.Keys == before.rArray.Keys + {name} && after.rArray[name] == cr.rBinCenters
    && "r" in before.log && "r" in after.log
    && after.log["r"].Keys == before.log["r"].Keys + {name} && after.log["r"][name] == now
    && (forall k :: k in before.spatial && k != name ==> after.spatial[k] == before.spatial[k])
    && (forall k :: k in before.rArray && k != name ==> after.rArray[k] == before.rArray[k])
    && (forall k :: k in before.log["r"] && k != name ==> after.log["r"][k] == before.log["r"][k])
  }

  /** `compute_temporal` never touches `spatial`, `r_array` or the log's "r" entry. */
  lemma TemporalKeepsSpatial(st: Store, variable: Observable, name: string, tMax: int, tAvrg: bool,
                             overwrite: bool, now: string, correlate: TemporalRoutine)
    ensures TemporalStep(st, variable, name, tMax, tAvrg, overwrite, now, correlate).1.spatial == st.spatial
    ensures TemporalStep(st, variable, name, tMax, tAvrg, overwrite, now, correlate).1.rArray == st.rArray
    ensures "r" in st.log ==>
              "r" in TemporalStep(st, variable, name, tMax, tAvrg, overwrite, now, correlate).1.log
              && TemporalStep(st, variable, name, tMax, tAvrg, overwrite, now, correlate).1.log["r"] == st.log["r"]
  {
  }

  /**
   * A `compute_temporal` that gets past the guard, finds a log with a "t"
   * entry and whose routine returns `c`, completes: it has stored `c` under
   * the name with the time axis `0, .., t_max - 1` and logged `now`.
   */
  lemma TemporalCompletes(st: Store, variable: Observable, name: string, tMax: int, tAvrg: bool,
                          overwrite: bool, now: string, correlate: TemporalRoutine, c: Grid)
    requires (overwrite || name !in st.temporal) && "t" in st.log && correlate(variable, tMax, tAvrg) == Ok(c)
    ensures TemporalStep(st, variable, name, tMax, tAvrg, overwrite, now, correlate).0 == Pass
    ensures TemporalCompleted(st, TemporalStep(st, variable, name, tMax, tAvrg, overwrite, now, correlate).1, name, c, tMax, now)
  {
    TimeAxis(tMax);
  }

  /**
   * `after` is `before` with the temporal correlation `c` stored under
   * `name`, its time axis `0, .., t_max - 1` (empty for `t_max <= 0`) and
   * `now` logged for it; every other name keeps its entries.
   */
  ghost predicate TemporalCompleted(before: Store, after: Store, name: string, c: Grid, tMax: int, now: string)
  {
    && after.temporal.Keys == before.temporal.Keys + {name} && after.temporal[name] == c
    && after.tArray.Keys == before.tArray.Keys + {name}
    && |after.tArray[name]| == (if tMax > 0 then tMax else 0)
    && (forall i :: 0 <= i < |after.tArray[name]| ==> after.tArray[name][i] == i)
    && "t" in before.log && "t" in after.log
    && after.log["t"].Keys == before.log["t"].Keys + {name} && after.log["t"][name] == now
    && (forall k :: k in before.temporal && k != name ==> after.temporal[k] == before.temporal[k])
    && (forall k :: k in before.tArray && k != name ==> after.tArray[k] == before.tArray[k])
    && (forall k :: k in before.log["t"] && k != name ==> after.log["t"][k] == before.log["t"][k])
  }

  /** `np.arange(t_max)` is `0, 1, .., t_max - 1`, and empty for `t_max <= 0`. */
  lemma TimeAxis(tMax: int)
    ensures |DensityBins.IntArange(0, tMax, 1)| == (if tMax > 0 then tMax else 0)
    ensures forall i :: 0 <= i < |DensityBins.IntArange(0, tMax, 1)| ==> DensityBins.IntArange(0, tMax, 1)[i] == i
  {
    if tMax > 0 {
      DensityBins.ArangeOfMultiples(0, tMax, 1);
    }
  }

  /**
   * A fresh container, then `compute_spatial` without `overwrite`: the first
   * call stores the name, and a repeated call with the same name changes
   * nothing, whatever the routine would return the second time.
   */
  lemma SpatialComputedOnce(positions: seq<Masked2D>, variable: Observable, name: string, dr: real, rMax: real,
                            tAvrg: bool, now: string, later: string, correlate: SpatialRoutine, again: SpatialRoutine)
    requires FrameAxis(variable).Some? && |positions| >= 2
    requires correlate(TakeFrames(positions[0], FrameAxis(variable).value), TakeFrames(positions[1], FrameAxis(variable).value),
                       variable, dr, rMax, tAvrg).Ok?
    ensures SpatialStep(EmptyStore, positions, variable, name, dr, rMax, tAvrg, false, now, correlate).0 == Pass
    ensures name in SpatialStep(EmptyStore, positions, variable, name, dr, rMax, tAvrg, false, now, correlate).1.spatial
    ensures SpatialStep(SpatialStep(EmptyStore, positions, variable, name, dr, rMax, tAvrg, false, now, correlate).1,
                        positions, variable, name, dr, rMax, tAvrg, false, later, again)
            == (Pass, SpatialStep(EmptyStore, positions, variable, name, dr, rMax, tAvrg, false, now, correlate).1)
  {
    var fmax := FrameAxis(variable).value;
    var cr := correlate(TakeFrames(positions[0], fmax), TakeFrames(positions[1], fmax), variable, dr, rMax, tAvrg).value;
    SpatialCompletes(EmptyStore, positions, variable, name, dr, rMax, tAvrg, false, now, correlate, fmax, cr);
  }
}
