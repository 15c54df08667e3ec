/**
 * `general_temporal_correlation` and `general_spatial_correlation`: pick the
 * scalar–scalar, scalar–vector or vector–vector routine from the ranks of the
 * two observables and call it.  A rank-2 array (frames by entities) is a
 * scalar observable, a rank-3 array a vector observable whose first two
 * components are its x and y parts.
 */
module Dispatch {
  import opened Wrappers
  import opened Num
  import opened Masked
  import opened Operands
  import opened Temporal
  import opened Spatial

  /**
   * An observable as the dispatchers see it: by its rank.  An array of any
   * other rank keeps only its shape.
   */
  datatype Observable =
    | Scalar(a: Masked2D)
    | Vector(x: Masked2D, y: Masked2D)
    | OtherRank(shape: seq<nat>)

  /** `var2`, which defaults to `var1`. */
  function Second(var1: Observable, var2: Option<Observable>): Observable
  {
    if var2.None? then var1 else var2.value
  }

  /**
   * The routine and operands a pair of observables is dispatched to.  A
   * vector first and a scalar second go to the scalar–vector routine with the
   * two swapped; any rank other than 2 or 3 fails the assertion.
   */
  function Route(var1: Observable, var2: Option<Observable>): (r: Result<Operands>)
    ensures r.Err? <==> var1.OtherRank? || Second(var1, var2).OtherRank?
    ensures r.Err? ==> r.error == AssertionError
  {
    match (var1, Second(var1, var2))
    case (Scalar(a), Scalar(b)) => Ok(ScalarScalar(a, b))
    case (Scalar(a), Vector(x, y)) => Ok(ScalarVector(a, x, y))
    case (Vector(x, y), Scalar(b)) => Ok(ScalarVector(b, x, y))
    case (Vector(x1, y1), Vector(x2, y2)) => Ok(VectorVector(x1, y1, x2, y2))
    case _ => Err(AssertionError)
  }

  /** Without `var2` an observable is correlated with itself. */
  lemma RouteDefault(v: Observable)
    ensures Route(v, None) == Route(v, Some(v))
    ensures v.Scalar? ==> Route(v, None) == Ok(ScalarScalar(v.a, v.a))
    ensures v.Vector? ==> Route(v, None) == Ok(VectorVector(v.x, v.y, v.x, v.y))
  {
  }

  /** A scalar and a vector reach the same routine with the same operands in either order. */
  lemma RouteMixedSymmetric(s: Masked2D, x: Masked2D, y: Masked2D)
    ensures Route(Scalar(s), Some(Vector(x, y))) == Route(Vector(x, y), Some(Scalar(s)))
    ensures Route(Scalar(s), Some(Vector(x, y))) == Ok(ScalarVector(s, x, y))
  {
  }

  /**
   * `general_temporal_correlation`: the dispatched routine's `C_norm`, `N`
   * and `delta_f`, each cut to `t_max` columns.
   */
  method GeneralTemporalCorrelation(var1: Observable, var2: Option<Observable>, tMax: Option<int>, sqrt: real -> real)
    returns (r: Result<TemporalOut>)
    requires Route(var1, var2).Ok? ==> WellShaped(Route(var1, var2).value) && Covered(Route(var1, var2).value)
    ensures Route(var1, var2).Err? ==> r == Err(AssertionError)
    ensures Route(var1, var2).Ok? ==> r == Ok(TemporalSpec(Route(var1, var2).value, tMax, sqrt))
  {
    var route := Route(var1, var2);
    if route.Err? {
      return Err(route.error);
    }
    var out := TemporalCorrelation(route.value, tMax, sqrt);
    r := Ok(out);
  }

  /**
   * The `Nmax` each spatial routine runs with when called from the
   * dispatcher: the default 5000 for the routines that have one, none for
   * the vector–vector routine.
   */
  function SubsampleLimit(ops: Operands): (r: Option<nat>)
    ensures r.None? <==> ops.VectorVector?
  {
    if ops.VectorVector? then None else Some(5000)
  }

  /**
   * `general_spatial_correlation`: the dispatched routine's `C_norm`,
   * `N_pairs_in_rbin`, `r_bin_centers` and `frame_axis`, every frame visited.
   */
  method GeneralSpatialCorrelation(x: Masked2D, y: Masked2D, var1: Observable, var2: Option<Observable>, dr: real, rMax: real)
    returns (r: Result<SpatialOut>)
    requires Route(var1, var2).Ok? ==>
               var ops := Route(var1, var2).value;
               && SpatialInputs(x, y, ops) && dr > 0.0
               && (!ops.ScalarVector? ==> !AnyOversized(ops, 1, SubsampleLimit(ops)))
    ensures Route(var1, var2).Err? ==> r == Err(AssertionError)
    ensures Route(var1, var2).Ok? ==>
              var ops := Route(var1, var2).value;
              r == if AnyOversized(ops, 1, SubsampleLimit(ops)) then Err(NameError) else Ok(SpatialSpec(x, y, ops, dr, rMax, 1))
  {
    var route := Route(var1, var2);
    if route.Err? {
      return Err(route.error);
    }
    r := SpatialCorrelation(x, y, route.value, dr, rMax, SubsampleLimit(route.value), 1);
  }

  /**
   * `general_temporal_correlation(var)` of a scalar: every frame with a valid
   * non-zero entry has `C_norm[i, 0] == 1`.
   */
  lemma GeneralScalarLagZero(v: Masked2D, tMax: Option<int>, sqrt: real -> real, i: nat, e: nat)
    requires IsSqrt(sqrt) && WellShaped(ScalarScalar(v, v))
    requires i < |v.vals| && 0 < SliceStop(tMax, |v.vals|)
    requires e < Entities(ScalarScalar(v, v)) && !v.mask[i][e] && v.vals[i][e] != 0.0
    ensures Route(Scalar(v), None).Ok?
    ensures TemporalSpec(Route(Scalar(v), None).value, tMax, sqrt).cNorm[i][0] == Some(Finite(1.0))
  {
    RouteDefault(Scalar(v));
    ScalarLagZeroIsOne(v, tMax, sqrt, i, e);
  }

  /**
   * `general_temporal_correlation(vec)` of a vector: every frame with an
   * entity whose components are valid and not both zero has `C_norm[i, 0] == 1`.
   */
  lemma GeneralVectorLagZero(vx: Masked2D, vy: Masked2D, tMax: Option<int>, sqrt: real -> real, i: nat, e: nat)
    requires IsSqrt(sqrt) && WellShaped(VectorVector(vx, vy, vx, vy))
    requires i < |vx.vals| && 0 < SliceStop(tMax, |vx.vals|)
    requires e < Entities(VectorVector(vx, vy, vx, vy)) && !vx.mask[i][e] && !vy.mask[i][e]
    requires vx.vals[i][e] != 0.0 || vy.vals[i][e] != 0.0
    ensures Route(Vector(vx, vy), None).Ok?
    ensures TemporalSpec(Route(Vector(vx, vy), None).value, tMax, sqrt).cNorm[i][0] == Some(Finite(1.0))
  {
    RouteDefault(Vector(vx, vy));
    VectorLagZeroIsOne(vx, vy, tMax, sqrt, i, e);
  }
}
