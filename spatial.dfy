/**
 * The spatial correlation drivers (`scalar_spatial_correlation`,
 * `scalar_vector_spatial_correlation`, `vector_spatial_correlation`).  The
 * three share one structure, modelled once over `Operands`: for every
 * `every_n_frames`-th frame whose reference row has a valid entry, compress
 * the positions and observables, run the kernel, store its counts and values
 * with their masks in row `f`, and unmask `frame_axis[f]`; finally divide the
 * value array by the count array as masked arrays.
 */
module Spatial {
  import opened Wrappers
  import opened Num
  import opened Masked
  import opened Operands
  import opened Bins
  import opened SpatialKernel

  // ---- the products and squared rms of the three kernels ----

  /** `var1f[j] * var2f[k]`: the first scalar at the centre, the second at the neighbour. */
  function ScalarProducts(v1: seq<real>, v2: seq<real>): (r: seq<seq<real>>)
    requires |v1| == |v2|
    ensures |r| == |v1| && forall j :: 0 <= j < |r| ==> |r[j]| == |v1|
  {
    seq(|v1|, j requires 0 <= j < |v1| => seq(|v1|, k requires 0 <= k < |v1| => v1[j] * v2[k]))
  }

  /** `var1f[k] * var2xf[j] + var1f[k] * var2yf[j]`: the scalar at the neighbour, the vector at the centre. */
  function ScalarVectorProducts(s: seq<real>, vx: seq<real>, vy: seq<real>): (r: seq<seq<real>>)
    requires |s| == |vx| == |vy|
    ensures |r| == |s| && forall j :: 0 <= j < |r| ==> |r[j]| == |s|
  {
    seq(|s|, j requires 0 <= j < |s| => seq(|s|, k requires 0 <= k < |s| => s[k] * vx[j] + s[k] * vy[j]))
  }

  /** `var1xf[k] * var2xf[j] + var1yf[k] * var2yf[j]`: the first vector at the neighbour, the second at the centre. */
  function VectorProducts(x1: seq<real>, y1: seq<real>, x2: seq<real>, y2: seq<real>): (r: seq<seq<real>>)
    requires |x1| == |y1| == |x2| == |y2|
    ensures |r| == |x1| && forall j :: 0 <= j < |r| ==> |r[j]| == |x1|
  {
    seq(|x1|, j requires 0 <= j < |x1| => seq(|x1|, k requires 0 <= k < |x1| => x1[k] * x2[j] + y1[k] * y2[j]))
  }

  /** `rms**2` with `rms = np.sqrt(abs(mean))`: the absolute value of the mean. */
  function AbsoluteSquare(mean: Num): (r: Num)
    ensures r.Finite? <==> mean.Finite?
    ensures r.Finite? ==> r.value >= 0.0 && (r.value == mean.value || r.value == -mean.value)
  {
    match mean
    case Finite(m) => Finite(Abs(m))
    case NonFinite => NonFinite
  }

  /** `rms**2` with `rms = np.sqrt(mean)`: the mean itself, but NaN when it is negative. */
  function SignedSquare(mean: Num): (r: Num)
    ensures r.Finite? <==> mean.Finite? && mean.value >= 0.0
    ensures r.Finite? ==> r.value == mean.value
  {
    match mean
    case Finite(m) => if m >= 0.0 then Finite(m) else NonFinite
    case NonFinite => NonFinite
  }

  // ---- the inputs ----

  /** Positions and observables share the reference mask and the frame-by-entity shape. */
  ghost predicate SpatialInputs(x: Masked2D, y: Masked2D, ops: Operands)
  {
    && WellShaped(ops) && SharedMask(ops)
    && Shaped(x, Frames(ops), Entities(ops)) && Shaped(y, Frames(ops), Entities(ops))
    && x.mask == Reference(ops).mask && y.mask == Reference(ops).mask
  }

  /** `np.arange(start, stop, step)` on integers. */
  function NatArange(start: nat, stop: nat, step: nat): (r: seq<nat>)
    requires step >= 1
    ensures forall i :: 0 <= i < |r| ==> start <= r[i] < stop
    ensures start < stop ==> |r| > 0 && r[0] == start
    decreases stop - start
  {
    if stop <= start then [] else [start] + NatArange(start + step, stop, step)
  }

  /** `frame_axis = np.arange(0, Nframes, every_n_frames)`: the frames the driver visits. */
  function VisitedFrames(ops: Operands, everyN: nat): (r: seq<nat>)
    requires everyN >= 1
    ensures forall i :: 0 <= i < |r| ==> r[i] < Frames(ops)
  {
    NatArange(0, Frames(ops), everyN)
  }

  /** A visited frame with a valid reference entry: the only frames the driver writes. */
  predicate Processed(ops: Operands, f: nat, everyN: nat)
    requires WellShaped(ops) && f < Frames(ops) && everyN >= 1
  {
    f in VisitedFrames(ops, everyN) && Valid(ops, f) > 0
  }

  /** A processed frame with at least `Nmax` entities, where the source subsamples. */
  predicate Oversized(ops: Operands, f: nat, everyN: nat, nMax: Option<nat>)
    requires WellShaped(ops) && f < Frames(ops) && everyN >= 1
  {
    Processed(ops, f, everyN) && nMax.Some? && Valid(ops, f) >= nMax.value
  }

  predicate AnyOversized(ops: Operands, everyN: nat, nMax: Option<nat>)
    requires WellShaped(ops) && everyN >= 1
  {
    exists f :: 0 <= f < Frames(ops) && Oversized(ops, f, everyN, nMax)
  }

  lemma SharedRows(x: Masked2D, y: Masked2D, ops: Operands, f: nat)
    requires SpatialInputs(x, y, ops) && f < Frames(ops)
    ensures |Row(x, f)| == |Row(y, f)| == Valid(ops, f)
    ensures ops.ScalarScalar? ==> |Row(ops.v1, f)| == |Row(ops.v2, f)| == Valid(ops, f)
    ensures ops.ScalarVector? ==> |Row(ops.s, f)| == |Row(ops.vx, f)| == |Row(ops.vy, f)| == Valid(ops, f)
    ensures ops.VectorVector? ==> |Row(ops.x1, f)| == |Row(ops.y1, f)| == |Row(ops.x2, f)| == |Row(ops.y2, f)| == Valid(ops, f)
  {
  }

  /** The compressed frame handed to the kernel. */
  function FrameOf(x: Masked2D, y: Masked2D, ops: Operands, f: nat): (r: Frame)
    requires SpatialInputs(x, y, ops) && f < Frames(ops)
    ensures Square(r) && Size(r) == Valid(ops, f)
  {
    SharedRows(x, y, ops, f);
    var xs := Row(x, f);
    var ys := Row(y, f);
    match ops
    case ScalarScalar(v1, v2) => Frame(xs, ys, ScalarProducts(Row(v1, f), Row(v2, f)))
    case ScalarVector(s, vx, vy) => Frame(xs, ys, ScalarVectorProducts(Row(s, f), Row(vx, f), Row(vy, f)))
    case VectorVector(x1, y1, x2, y2) => Frame(xs, ys, VectorProducts(Row(x1, f), Row(y1, f), Row(x2, f), Row(y2, f)))
  }

  /** The squared rms the kernel divides by: `abs` for two scalars, the signed mean otherwise. */
  function NormOf(x: Masked2D, y: Masked2D, ops: Operands, f: nat): Num
    requires SpatialInputs(x, y, ops) && f < Frames(ops)
  {
    SharedRows(x, y, ops, f);
    match ops
    case ScalarScalar(v1, v2) => AbsoluteSquare(Mean(Times(Row(v1, f), Row(v2, f))))
    case ScalarVector(s, vx, vy) =>
      SignedSquare(Mean(Plus(Times(Row(s, f), Row(vx, f)), Times(Row(s, f), Row(vy, f)))))
    case VectorVector(x1, y1, x2, y2) =>
      SignedSquare(Mean(Plus(Times(Row(x1, f), Row(x2, f)), Times(Row(y1, f), Row(y2, f)))))
  }

  // ---- the outputs ----

  /** `C_norm`, `N_pairs_in_rbin`, `r_bin_centers` and `frame_axis`; `None` is a masked entry. */
  datatype SpatialOut = SpatialOut(
    cNorm: seq<seq<Option<real>>>,
    pairs: seq<seq<Option<nat>>>,
    centres: seq<real>,
    frameAxis: seq<Option<nat>>)

  /** The kernel's values with their mask, as stored in a row of `C_norm`. */
  function ValueRow(k: KernelOut): (r: seq<Option<Num>>)
    requires |k.values| == |k.masked|
    ensures |r| == |k.values|
    ensures forall b :: 0 <= b < |r| ==> r[b] == (if k.masked[b] then None else Some(k.values[b]))
  {
    seq(|k.values|, b requires 0 <= b < |k.values| => if k.masked[b] then None else Some(k.values[b]))
  }

  /** The kernel's counts with their mask, as stored in a row of `N_in_rbin`. */
  function CountRow(k: KernelOut): (r: seq<Option<nat>>)
    requires |k.counts| == |k.masked|
    ensures |r| == |k.counts|
    ensures forall b :: 0 <= b < |r| ==> r[b] == (if k.masked[b] then None else Some(k.counts[b]))
  {
    seq(|k.counts|, b requires 0 <= b < |k.counts| => if k.masked[b] then None else Some(k.counts[b]))
  }

  /**
   * One entry of `C_norm / N_in_rbin` on masked arrays: masked when either
   * operand is masked, when the count is zero, or when the quotient is not
   * finite.
   */
  function MaskedQuotient(c: Option<Num>, n: Option<nat>): (r: Option<real>)
    ensures r.Some? <==> c.Some? && c.value.Finite? && n.Some? && n.value > 0
    ensures r.Some? ==> r.value * (n.value as real) == c.value.value
  {
    match c
    case Some(Finite(v)) =>
      (match n
       case Some(k) => if k == 0 then None else Some(v / (k as real))
       case None => None)
    case _ => None
  }

  function Divide(cRows: seq<seq<Option<Num>>>, nRows: seq<seq<Option<nat>>>, nb: nat): (r: seq<seq<Option<real>>>)
    requires |nRows| == |cRows|
    requires forall f :: 0 <= f < |cRows| ==> |cRows[f]| == nb && |nRows[f]| == nb
    ensures |r| == |cRows| && forall f :: 0 <= f < |r| ==> |r[f]| == nb
  {
    seq(|cRows|, f requires 0 <= f < |cRows| =>
      seq(nb, b requires 0 <= b < nb => MaskedQuotient(cRows[f][b], nRows[f][b])))
  }

  function FrameKernel(x: Masked2D, y: Masked2D, ops: Operands, f: nat, edges: seq<real>): (r: KernelOut)
    requires SpatialInputs(x, y, ops) && f < Frames(ops) && |edges| >= 1
    ensures |r.counts| == |r.values| == |r.masked| == |edges| - 1
  {
    KernelSpec(FrameOf(x, y, ops, f), NormOf(x, y, ops, f), edges)
  }

  /** Row `f` of `C_norm` before the division. */
  function SpecValueRow(x: Masked2D, y: Masked2D, ops: Operands, f: nat, edges: seq<real>, everyN: nat): (r: seq<Option<Num>>)
    requires SpatialInputs(x, y, ops) && f < Frames(ops) && |edges| >= 1 && everyN >= 1
    ensures |r| == |edges| - 1
  {
    if Processed(ops, f, everyN) then ValueRow(FrameKernel(x, y, ops, f, edges)) else Nones(|edges| - 1)
  }

  /** Row `f` of `N_in_rbin`. */
  function SpecCountRow(x: Masked2D, y: Masked2D, ops: Operands, f: nat, edges: seq<real>, everyN: nat): (r: seq<Option<nat>>)
    requires SpatialInputs(x, y, ops) && f < Frames(ops) && |edges| >= 1 && everyN >= 1
    ensures |r| == |edges| - 1
  {
    if Processed(ops, f, everyN) then CountRow(FrameKernel(x, y, ops, f, edges)) else Nones(|edges| - 1)
  }

  /** What the drivers return when no frame needs subsampling. */
  function SpatialSpec(x: Masked2D, y: Masked2D, ops: Operands, dr: real, rMax: real, everyN: nat): (r: SpatialOut)
    requires SpatialInputs(x, y, ops) && dr > 0.0 && everyN >= 1
    ensures |r.cNorm| == |r.pairs| == |r.frameAxis| == Frames(ops)
    ensures |r.centres| == |BinEdges(dr, rMax)| - 1
    ensures forall f :: 0 <= f < Frames(ops) ==> |r.cNorm[f]| == |r.pairs[f]| == |r.centres|
  {
    var edges := BinEdges(dr, rMax);
    var nb := |edges| - 1;
    var frames := Frames(ops);
    var cRows := seq(frames, f requires 0 <= f < frames => SpecValueRow(x, y, ops, f, edges, everyN));
    var nRows := seq(frames, f requires 0 <= f < frames => SpecCountRow(x, y, ops, f, edges, everyN));
    SpatialOut(
      Divide(cRows, nRows, nb),
      nRows,
      BinCentres(edges),
      seq(frames, f requires 0 <= f < frames => if Processed(ops, f, everyN) then Some(f) else None))
  }

  /** `C_norm` before the division once the frames in `done` have been visited. */
  function ValueRowsAfter(x: Masked2D, y: Masked2D, ops: Operands, edges: seq<real>, everyN: nat, done: seq<nat>)
    : (r: seq<seq<Option<Num>>>)
    requires SpatialInputs(x, y, ops) && |edges| >= 1 && everyN >= 1
    ensures |r| == Frames(ops)
  {
    seq(Frames(ops), g requires 0 <= g < Frames(ops) =>
      if g in done then SpecValueRow(x, y, ops, g, edges, everyN) else Nones(|edges| - 1))
  }

  /** `N_in_rbin` once the frames in `done` have been visited. */
  function CountRowsAfter(x: Masked2D, y: Masked2D, ops: Operands, edges: seq<real>, everyN: nat, done: seq<nat>)
    : (r: seq<seq<Option<nat>>>)
    requires SpatialInputs(x, y, ops) && |edges| >= 1 && everyN >= 1
    ensures |r| == Frames(ops)
  {
    seq(Frames(ops), g requires 0 <= g < Frames(ops) =>
      if g in done then SpecCountRow(x, y, ops, g, edges, everyN) else Nones(|edges| - 1))
  }

  /** `frame_axis_masked` once the frames in `done` have been visited. */
  function AxisAfter(ops: Operands, done: seq<nat>): (r: seq<Option<nat>>)
    requires WellShaped(ops)
    ensures |r| == Frames(ops)
  {
    seq(Frames(ops), g requires 0 <= g < Frames(ops) => if g in done && Valid(ops, g) > 0 then Some(g) else None)
  }

  lemma VisitStep(x: Masked2D, y: Masked2D, ops: Operands, edges: seq<real>, everyN: nat, done: seq<nat>, f: nat)
    requires SpatialInputs(x, y, ops) && |edges| >= 1 && everyN >= 1
    requires f in VisitedFrames(ops, everyN)
    ensures Processed(ops, f, everyN) <==> Valid(ops, f) > 0
    ensures ValueRowsAfter(x, y, ops, edges, everyN, done + [f]) ==
            if Processed(ops, f, everyN)
            then ValueRowsAfter(x, y, ops, edges, everyN, done)[f := SpecValueRow(x, y, ops, f, edges, everyN)]
            else ValueRowsAfter(x, y, ops, edges, everyN, done)
    ensures CountRowsAfter(x, y, ops, edges, everyN, done + [f]) ==
            if Processed(ops, f, everyN)
            then CountRowsAfter(x, y, ops, edges, everyN, done)[f := SpecCountRow(x, y, ops, f, edges, everyN)]
            else CountRowsAfter(x, y, ops, edges, everyN, done)
    ensures AxisAfter(ops, done + [f]) ==
            if Processed(ops, f, everyN) then AxisAfter(ops, done)[f := Some(f)] else AxisAfter(ops, done)
  {
    ValueRowsStep(x, y, ops, edges, everyN, done, f);
    CountRowsStep(x, y, ops, edges, everyN, done, f);
    AxisStep(ops, everyN, done, f);
  }

  lemma ValueRowsStep(x: Masked2D, y: Masked2D, ops: Operands, edges: seq<real>, everyN: nat, done: seq<nat>, f: nat)
    requires SpatialInputs(x, y, ops) && |edges| >= 1 && everyN >= 1
    requires f in VisitedFrames(ops, everyN)
    ensures ValueRowsAfter(x, y, ops, edges, everyN, done + [f]) ==
            if Processed(ops, f, everyN)
            then ValueRowsAfter(x, y, ops, edges, everyN, done)[f := SpecValueRow(x, y, ops, f, edges, everyN)]
            else ValueRowsAfter(x, y, ops, edges, everyN, done)
  {
    var before := ValueRowsAfter(x, y, ops, edges, everyN, done);
    var after := ValueRowsAfter(x, y, ops, edges, everyN, done + [f]);
    forall g | 0 <= g < Frames(ops)
      ensures after[g] == if g == f then SpecValueRow(x, y, ops, f, edges, everyN) else before[g]
    {
      assert g in done + [f] <==> g in done || g == f;
    }
  }

  lemma CountRowsStep(x: Masked2D, y: Masked2D, ops: Operands, edges: seq<real>, everyN: nat, done: seq<nat>, f: nat)
    requires SpatialInputs(x, y, ops) && |edges| >= 1 && everyN >= 1
    requires f in VisitedFrames(ops, everyN)
    ensures CountRowsAfter(x, y, ops, edges, everyN, done + [f]) ==
            if Processed(ops, f, everyN)
            then CountRowsAfter(x, y, ops, edges, everyN, done)[f := SpecCountRow(x, y, ops, f, edges, everyN)]
            else CountRowsAfter(x, y, ops, edges, everyN, done)
  {
    var before := CountRowsAfter(x, y, ops, edges, everyN, done);
    var after := CountRowsAfter(x, y, ops, edges, everyN, done + [f]);
    forall g | 0 <= g < Frames(ops)
      ensures after[g] == if g == f then SpecCountRow(x, y, ops, f, edges, everyN) else before[g]
    {
      assert g in done + [f] <==> g in done || g == f;
    }
  }

  lemma AxisStep(ops: Operands, everyN: nat, done: seq<nat>, f: nat)
    requires WellShaped(ops) && everyN >= 1
    requires f in VisitedFrames(ops, everyN)
    ensures AxisAfter(ops, done + [f]) ==
            if Processed(ops, f, everyN) then AxisAfter(ops, done)[f := Some(f)] else AxisAfter(ops, done)
  {
    var before := AxisAfter(ops, done);
    var after := AxisAfter(ops, done + [f]);
    forall g | 0 <= g < Frames(ops)
      ensures after[g] == if g == f && Processed(ops, f, everyN) then Some(f) else before[g]
    {
      assert g in done + [f] <==> g in done || g == f;
    }
  }

  lemma ProcessedRows(x: Masked2D, y: Masked2D, ops: Operands, f: nat, edges: seq<real>, everyN: nat, out: KernelOut)
    requires SpatialInputs(x, y, ops) && f < Frames(ops) && |edges| >= 1 && everyN >= 1
    requires Processed(ops, f, everyN)
    requires out == KernelSpec(FrameOf(x, y, ops, f), NormOf(x, y, ops, f), edges)
    ensures ValueRow(out) == SpecValueRow(x, y, ops, f, edges, everyN)
    ensures CountRow(out) == SpecCountRow(x, y, ops, f, edges, everyN)
  {
  }

  lemma AllVisited(x: Masked2D, y: Masked2D, ops: Operands, dr: real, rMax: real, everyN: nat)
    requires SpatialInputs(x, y, ops) && dr > 0.0 && everyN >= 1
    ensures var edges, visit := BinEdges(dr, rMax), VisitedFrames(ops, everyN);
            SpatialSpec(x, y, ops, dr, rMax, everyN) ==
            SpatialOut(
              Divide(ValueRowsAfter(x, y, ops, edges, everyN, visit), CountRowsAfter(x, y, ops, edges, everyN, visit), |edges| - 1),
              CountRowsAfter(x, y, ops, edges, everyN, visit),
              BinCentres(edges),
              AxisAfter(ops, visit))
  {
    var edges, visit := BinEdges(dr, rMax), VisitedFrames(ops, everyN);
    var spec := SpatialSpec(x, y, ops, dr, rMax, everyN);
    var frames := Frames(ops);
    var cRows := seq(frames, f requires 0 <= f < frames => SpecValueRow(x, y, ops, f, edges, everyN));
    assert ValueRowsAfter(x, y, ops, edges, everyN, visit) == cRows;
    assert CountRowsAfter(x, y, ops, edges, everyN, visit) == spec.pairs;
    assert AxisAfter(ops, visit) == spec.frameAxis;
  }

  /**
   * One pass of the frame loop over visited frame `visit[i]`: a frame with valid
   * reference entries is binned, unless it has `nMax` or more of them, where
   * the pass fails.
   */
  method SpatialFrame(x: Masked2D, y: Masked2D, ops: Operands, edges: seq<real>, everyN: nat, nMax: Option<nat>,
                      visit: seq<nat>, i: nat,
                      cRows0: seq<seq<Option<Num>>>, nRows0: seq<seq<Option<nat>>>, axis0: seq<Option<nat>>)
    returns (failed: bool, cRows: seq<seq<Option<Num>>>, nRows: seq<seq<Option<nat>>>, axis: seq<Option<nat>>)
    requires SpatialInputs(x, y, ops) && |edges| >= 1 && everyN >= 1
    requires visit == VisitedFrames(ops, everyN) && i < |visit|
    requires cRows0 == ValueRowsAfter(x, y, ops, edges, everyN, visit[..i])
    requires nRows0 == CountRowsAfter(x, y, ops, edges, everyN, visit[..i])
    requires axis0 == AxisAfter(ops, visit[..i])
    ensures failed <==> Oversized(ops, visit[i], everyN, nMax)
    ensures !failed ==> cRows == ValueRowsAfter(x, y, ops, edges, everyN, visit[..i + 1])
    ensures !failed ==> nRows == CountRowsAfter(x, y, ops, edges, everyN, visit[..i + 1])
    ensures !failed ==> axis == AxisAfter(ops, visit[..i + 1])
  {
    failed, cRows, nRows, axis := false, cRows0, nRows0, axis0;
    var f := visit[i];
    assert visit[..i + 1] == visit[..i] + [f];
    VisitStep(x, y, ops, edges, everyN, visit[..i], f);
    var nok := CountValid(Reference(ops).mask[f]);
    if nok > 0 {
      if nMax.Some? && nok >= nMax.value {
        return true, cRows, nRows, axis;
      }
      axis := axis[f := Some(f)];
      var fr := FrameOf(x, y, ops, f);
      var out := BinKernel(fr, NormOf(x, y, ops, f), edges);
      ProcessedRows(x, y, ops, f, edges, everyN, out);
      cRows := cRows[f := ValueRow(out)];
      nRows := nRows[f := CountRow(out)];
    }
  }

  /**
   * The spatial correlation of one observable pair.  The scalar–scalar
   * routine subsamples frames with `Nmax` or more entities at random, which
   * the model excludes; the scalar–vector routine fails with a NameError on
   * such a frame; the vector–vector routine has no limit (`nMax` is `None`).
   */
  method SpatialCorrelation(x: Masked2D, y: Masked2D, ops: Operands, dr: real, rMax: real, nMax: Option<nat>, everyN: nat)
    returns (r: Result<SpatialOut>)
    requires SpatialInputs(x, y, ops) && dr > 0.0 && everyN >= 1
    requires !ops.ScalarVector? ==> !AnyOversized(ops, everyN, nMax)
    ensures r == if AnyOversized(ops, everyN, nMax) then Err(NameError) else Ok(SpatialSpec(x, y, ops, dr, rMax, everyN))
  {
    var edges := BinEdges(dr, rMax);
    var failed, cRows, nRows, axis := SpatialFrames(x, y, ops, edges, everyN, nMax);
    if failed {
      return Err(NameError);
    }
    SpatialDone(x, y, ops, dr, rMax, everyN, nMax, VisitedFrames(ops, everyN), cRows, nRows, axis);
    r := Ok(SpatialOut(Divide(cRows, nRows, |BinCentres(edges)|), nRows, BinCentres(edges), axis));
  }

  /** The tables before the frame loop: no row and no axis entry written yet. */
  method Blank(x: Masked2D, y: Masked2D, ops: Operands, edges: seq<real>, everyN: nat)
    returns (cRows: seq<seq<Option<Num>>>, nRows: seq<seq<Option<nat>>>, axis: seq<Option<nat>>)
    requires SpatialInputs(x, y, ops) && |edges| >= 1 && everyN >= 1
    ensures cRows == ValueRowsAfter(x, y, ops, edges, everyN, [])
    ensures nRows == CountRowsAfter(x, y, ops, edges, everyN, [])
    ensures axis == AxisAfter(ops, [])
  {
    cRows := seq(Frames(ops), _ => Nones(|edges| - 1));
    nRows := seq(Frames(ops), _ => Nones(|edges| - 1));
    axis := Nones(Frames(ops));
  }

  /**
   * The loop over the visited frames, from tables of masked entries; it
   * stops at the first frame over the limit.
   */
  method SpatialFrames(x: Masked2D, y: Masked2D, ops: Operands, edges: seq<real>, everyN: nat, nMax: Option<nat>)
    returns (failed: bool, cRows: seq<seq<Option<Num>>>, nRows: seq<seq<Option<nat>>>, axis: seq<Option<nat>>)
    requires SpatialInputs(x, y, ops) && |edges| >= 1 && everyN >= 1
    ensures failed ==> AnyOversized(ops, everyN, nMax)
    ensures !failed ==>
              var done := VisitedFrames(ops, everyN);
              && cRows == ValueRowsAfter(x, y, ops, edges, everyN, done)
              && nRows == CountRowsAfter(x, y, ops, edges, everyN, done)
              && axis == AxisAfter(ops, done)
              && forall k :: 0 <= k < |done| ==> !Oversized(ops, done[k], everyN, nMax)
  {
    cRows, nRows, axis := Blank(x, y, ops, edges, everyN);
    failed := false;
    var visit := VisitedFrames(ops, everyN);
    for i := 0 to |visit|
      invariant cRows == ValueRowsAfter(x, y, ops, edges, everyN, visit[..i])
      invariant nRows == CountRowsAfter(x, y, ops, edges, everyN, visit[..i])
      invariant axis == AxisAfter(ops, visit[..i])
      invariant forall k :: 0 <= k < i ==> !Oversized(ops, visit[k], everyN, nMax)
    {
      failed, cRows, nRows, axis := SpatialFrame(x, y, ops, edges, everyN, nMax, visit, i, cRows, nRows, axis);
      if failed {
        return;
      }
    }
    assert visit[..|visit|] == visit;
  }

  /** After the frame loop: every visited frame was binned, so the tables are the specification's. */
  lemma SpatialDone(x: Masked2D, y: Masked2D, ops: Operands, dr: real, rMax: real, everyN: nat, nMax: Option<nat>,
                    done: seq<nat>, cRows: seq<seq<Option<Num>>>, nRows: seq<seq<Option<nat>>>, axis: seq<Option<nat>>)
    requires SpatialInputs(x, y, ops) && dr > 0.0 && everyN >= 1
    requires done == VisitedFrames(ops, everyN)
    requires cRows == ValueRowsAfter(x, y, ops, BinEdges(dr, rMax), everyN, done)
    requires nRows == CountRowsAfter(x, y, ops, BinEdges(dr, rMax), everyN, done)
    requires axis == AxisAfter(ops, done)
    requires forall k :: 0 <= k < |done| ==> !Oversized(ops, done[k], everyN, nMax)
    ensures !AnyOversized(ops, everyN, nMax)
    ensures |nRows| == |cRows| && forall f :: 0 <= f < |cRows| ==> |cRows[f]| == |nRows[f]| == |BinEdges(dr, rMax)| - 1
    ensures SpatialOut(Divide(cRows, nRows, |BinEdges(dr, rMax)| - 1), nRows, BinCentres(BinEdges(dr, rMax)), axis) ==
            SpatialSpec(x, y, ops, dr, rMax, everyN)
  {
    AllVisited(x, y, ops, dr, rMax, everyN);
  }

  // ---- properties of the spatial correlation ----

  /** A positive `r_max` leaves at least one bin after the zero bin's edge. */
  lemma PositiveRangeHasBins(dr: real, rMax: real)
    requires dr > 0.0 && rMax > 0.0
    ensures |BinEdges(dr, rMax)| >= 2
  {
  }

  /** One entry of `C_norm` and of `N_in_rbin`, in terms of the frame's kernel. */
  lemma SpecCell(x: Masked2D, y: Masked2D, ops: Operands, dr: real, rMax: real, everyN: nat, f: nat, b: nat)
    requires SpatialInputs(x, y, ops) && dr > 0.0 && everyN >= 1
    requires f < Frames(ops) && b < |BinEdges(dr, rMax)| - 1
    ensures var spec, edges := SpatialSpec(x, y, ops, dr, rMax, everyN), BinEdges(dr, rMax);
            var k := FrameKernel(x, y, ops, f, edges);
            && spec.pairs[f][b] == (if Processed(ops, f, everyN) && !k.masked[b] then Some(k.counts[b]) else None)
            && spec.cNorm[f][b] ==
                 (if Processed(ops, f, everyN) && !k.masked[b]
                  then MaskedQuotient(Some(k.values[b]), Some(k.counts[b])) else None)
  {
  }

  /**
   * Which entries the driver unmasks.  `frame_axis[f]` is `f` exactly for the
   * processed frames; a pair count is present exactly when the frame is
   * processed and the bin received a pair, and is then the bin's pair count;
   * the zero bin of a processed frame always holds at least its `Nok` self
   * pairs; and a correlation entry is present only where its count is.
   */
  lemma SpatialMasks(x: Masked2D, y: Masked2D, ops: Operands, dr: real, rMax: real, everyN: nat, f: nat, b: nat)
    requires SpatialInputs(x, y, ops) && dr > 0.0 && everyN >= 1
    requires f < Frames(ops) && b < |BinEdges(dr, rMax)| - 1
    ensures var spec, edges := SpatialSpec(x, y, ops, dr, rMax, everyN), BinEdges(dr, rMax);
            var fr := FrameOf(x, y, ops, f);
            && (spec.frameAxis[f] == if Processed(ops, f, everyN) then Some(f) else None)
            && (spec.pairs[f][b].Some? <==> Processed(ops, f, everyN) && BinCount(fr, edges, b, Size(fr)) > 0)
            && (spec.pairs[f][b].Some? ==> spec.pairs[f][b].value == BinCount(fr, edges, b, Size(fr)))
            && (Processed(ops, f, everyN) ==> spec.pairs[f][0].Some? && spec.pairs[f][0].value >= Valid(ops, f))
            && (spec.cNorm[f][b].Some? ==> spec.pairs[f][b].Some?)
  {
    var edges := BinEdges(dr, rMax);
    var fr := FrameOf(x, y, ops, f);
    SpecCell(x, y, ops, dr, rMax, everyN, f, b);
    if Processed(ops, f, everyN) {
      SpecCell(x, y, ops, dr, rMax, everyN, f, 0);
      ZeroBinHoldsSelfPairs(fr, edges, Size(fr));
    }
  }

  /**
   * The value of a processed bin with pairs: the sum of the products of its
   * pairs divided by `rms**2` and by its pair count, or masked when `rms**2`
   * is zero or not finite.
   */
  lemma SpatialCellValue(x: Masked2D, y: Masked2D, ops: Operands, dr: real, rMax: real, everyN: nat, f: nat, b: nat)
    requires SpatialInputs(x, y, ops) && dr > 0.0 && everyN >= 1
    requires f < Frames(ops) && b < |BinEdges(dr, rMax)| - 1
    requires Processed(ops, f, everyN)
    requires BinCount(FrameOf(x, y, ops, f), BinEdges(dr, rMax), b, Valid(ops, f)) > 0
    ensures var edges, fr, norm2 := BinEdges(dr, rMax), FrameOf(x, y, ops, f), NormOf(x, y, ops, f);
            var count := BinCount(fr, edges, b, Size(fr));
            SpatialSpec(x, y, ops, dr, rMax, everyN).cNorm[f][b] ==
              if norm2.Finite? && norm2.value != 0.0
              then Some((BinSum(fr, edges, b, Size(fr)) / norm2.value) / (count as real))
              else None
  {
    var edges, fr, norm2 := BinEdges(dr, rMax), FrameOf(x, y, ops, f), NormOf(x, y, ops, f);
    SpecCell(x, y, ops, dr, rMax, everyN, f, b);
    BinValueClosedForm(fr, norm2, edges, b, Size(fr));
    var count := BinCount(fr, edges, b, Size(fr));
    var k := FrameKernel(x, y, ops, f, edges);
    assert k.counts[b] == count && !k.masked[b];
    assert k.values[b] == Div(Finite(BinSum(fr, edges, b, Size(fr))), norm2);
    QuotientOfBin(BinSum(fr, edges, b, Size(fr)), norm2, count);
  }

  lemma QuotientOfBin(sum: real, norm2: Num, count: nat)
    requires count > 0
    ensures MaskedQuotient(Some(Div(Finite(sum), norm2)), Some(count)) ==
            if norm2.Finite? && norm2.value != 0.0 then Some((sum / norm2.value) / (count as real)) else None
  {
    if norm2.Finite? && norm2.value != 0.0 {
      assert Div(Finite(sum), norm2) == Finite(sum / norm2.value);
      QuotientOfFinite(sum / norm2.value, count);
    }
  }

  lemma QuotientOfFinite(q: real, count: nat)
    requires count > 0
    ensures MaskedQuotient(Some(Finite(q)), Some(count)) == Some(q / (count as real))
  {
  }

  lemma NormTimesSize(fr: Frame, norm2: Num, d: seq<real>)
    requires Square(fr) && |d| == Size(fr) > 0 && DiagonalSum(fr, Size(fr)) == Sum(d)
    requires norm2 == Finite(Sum(d) / (|d| as real))
    ensures norm2.value * (Size(fr) as real) == DiagonalSum(fr, Size(fr))
  {
    var n := |d| as real;
    calc {
      norm2.value * n;
      == (Sum(d) / n) * n;
      == Sum(d);
    }
  }

  lemma QuotientOfSelf(n: nat)
    requires n > 0
    ensures MaskedQuotient(Some(Finite(n as real)), Some(n)) == Some(1.0)
  {
    assert (n as real) / (n as real) == 1.0;
  }

  lemma {:induction false} DiagonalIsSum(fr: Frame, d: seq<real>, m: nat)
    requires Square(fr) && m <= Size(fr) && |d| == Size(fr)
    requires forall j :: 0 <= j < Size(fr) ==> fr.prods[j][j] == d[j]
    ensures DiagonalSum(fr, m) == Sum(d[..m])
  {
    if m > 0 {
      DiagonalIsSum(fr, d, m - 1);
      assert d[..m][..m - 1] == d[..m - 1];
    }
  }

  /**
   * The zero bin of a processed frame is exactly 1 when the self products
   * `d` have a non-zero non-negative sum, `rms**2` is their mean and no two
   * entities share a position.
   */
  lemma ZeroBinFromDiagonal(x: Masked2D, y: Masked2D, ops: Operands, dr: real, rMax: real, everyN: nat, f: nat, d: seq<real>)
    requires SpatialInputs(x, y, ops) && dr > 0.0 && everyN >= 1 && rMax > 0.0
    requires f < Frames(ops) && Processed(ops, f, everyN)
    requires DistinctPositions(FrameOf(x, y, ops, f))
    requires |d| == Valid(ops, f) && forall j :: 0 <= j < |d| ==> FrameOf(x, y, ops, f).prods[j][j] == d[j]
    requires Sum(d) > 0.0 && NormOf(x, y, ops, f) == Finite(Sum(d) / (|d| as real))
    ensures SpatialSpec(x, y, ops, dr, rMax, everyN).cNorm[f][0] == Some(1.0)
  {
    var edges, fr, norm2 := BinEdges(dr, rMax), FrameOf(x, y, ops, f), NormOf(x, y, ops, f);
    PositiveRangeHasBins(dr, rMax);
    SpecCell(x, y, ops, dr, rMax, everyN, f, 0);
    DiagonalIsSum(fr, d, |d|);
    assert d[..|d|] == d;
    NormTimesSize(fr, norm2, d);
    ZeroBinIsOne(fr, norm2, edges);
    var k := FrameKernel(x, y, ops, f, edges);
    assert k.counts[0] == |d| && k.values[0] == Finite(|d| as real);
    QuotientOfSelf(|d|);
  }

  /** The self products of a scalar frame and its `rms**2`. */
  lemma ScalarSelfFrame(x: Masked2D, y: Masked2D, v: Masked2D, f: nat)
    requires SpatialInputs(x, y, ScalarScalar(v, v)) && f < Frames(ScalarScalar(v, v))
    ensures var ops, d := ScalarScalar(v, v), Times(Row(v, f), Row(v, f));
            && |d| == Valid(ops, f) && Sum(d) >= 0.0
            && (forall j :: 0 <= j < |d| ==> FrameOf(x, y, ops, f).prods[j][j] == d[j])
            && (|d| > 0 ==> NormOf(x, y, ops, f) == Finite(Sum(d) / (|d| as real)))
  {
    SharedRows(x, y, ScalarScalar(v, v), f);
    SumOfSquaresNonNegative(Row(v, f));
  }

  /** The self products of a vector frame and its `rms**2`. */
  lemma VectorSelfFrame(x: Masked2D, y: Masked2D, vx: Masked2D, vy: Masked2D, f: nat)
    requires SpatialInputs(x, y, VectorVector(vx, vy, vx, vy)) && f < Frames(VectorVector(vx, vy, vx, vy))
    ensures var ops, d := VectorVector(vx, vy, vx, vy), Plus(Times(Row(vx, f), Row(vx, f)), Times(Row(vy, f), Row(vy, f)));
            && |d| == Valid(ops, f) && Sum(d) >= 0.0
            && (forall j :: 0 <= j < |d| ==> FrameOf(x, y, ops, f).prods[j][j] == d[j])
            && (|d| > 0 ==> NormOf(x, y, ops, f) == Finite(Sum(d) / (|d| as real)))
  {
    var ops := VectorVector(vx, vy, vx, vy);
    SharedRows(x, y, ops, f);
    var a, c := Row(vx, f), Row(vy, f);
    var d := Plus(Times(a, a), Times(c, c));
    forall j | 0 <= j < |d| ensures d[j] >= 0.0 {
      SquareNonNegative(a[j]);
      SquareNonNegative(c[j]);
    }
    SumNonNegative(d);
  }

  /**
   * Scalar self-correlation: with `var2 == var1`, distinct positions and a
   * non-zero mean square, the zero-distance bin of every processed frame is
   * exactly 1.
   */
  lemma ScalarZeroBinIsOne(x: Masked2D, y: Masked2D, v: Masked2D, dr: real, rMax: real, everyN: nat, f: nat)
    requires SpatialInputs(x, y, ScalarScalar(v, v)) && dr > 0.0 && everyN >= 1 && rMax > 0.0
    requires f < Frames(ScalarScalar(v, v)) && Processed(ScalarScalar(v, v), f, everyN)
    requires DistinctPositions(FrameOf(x, y, ScalarScalar(v, v), f))
    requires Sum(Times(Row(v, f), Row(v, f))) != 0.0
    ensures SpatialSpec(x, y, ScalarScalar(v, v), dr, rMax, everyN).cNorm[f][0] == Some(1.0)
  {
    var d := Times(Row(v, f), Row(v, f));
    ScalarSelfFrame(x, y, v, f);
    assert |d| > 0;
    ZeroBinFromDiagonal(x, y, ScalarScalar(v, v), dr, rMax, everyN, f, d);
  }

  /**
   * Vector self-correlation: with `vec2 == vec1`, distinct positions and a
   * non-zero mean squared length, the zero-distance bin is exactly 1.
   */
  lemma VectorZeroBinIsOne(x: Masked2D, y: Masked2D, vx: Masked2D, vy: Masked2D, dr: real, rMax: real, everyN: nat, f: nat)
    requires SpatialInputs(x, y, VectorVector(vx, vy, vx, vy)) && dr > 0.0 && everyN >= 1 && rMax > 0.0
    requires f < Frames(VectorVector(vx, vy, vx, vy)) && Processed(VectorVector(vx, vy, vx, vy), f, everyN)
    requires DistinctPositions(FrameOf(x, y, VectorVector(vx, vy, vx, vy), f))
    requires Sum(Plus(Times(Row(vx, f), Row(vx, f)), Times(Row(vy, f), Row(vy, f)))) != 0.0
    ensures SpatialSpec(x, y, VectorVector(vx, vy, vx, vy), dr, rMax, everyN).cNorm[f][0] == Some(1.0)
  {
    var d := Plus(Times(Row(vx, f), Row(vx, f)), Times(Row(vy, f), Row(vy, f)));
    VectorSelfFrame(x, y, vx, vy, f);
    assert |d| > 0;
    ZeroBinFromDiagonal(x, y, VectorVector(vx, vy, vx, vy), dr, rMax, everyN, f, d);
  }
}
