/**
 * The pair of observables a correlation is computed between, after the
 * dispatch on array rank: scalar with scalar, scalar with planar vector, or
 * vector with vector.  A vector observable is its x and y components, each a
 * masked frame-by-entity array with a mask of its own.
 */
module Operands {
  import opened Masked

  datatype Operands =
    | ScalarScalar(v1: Masked2D, v2: Masked2D)
    | ScalarVector(s: Masked2D, vx: Masked2D, vy: Masked2D)
    | VectorVector(x1: Masked2D, y1: Masked2D, x2: Masked2D, y2: Masked2D)

  /**
   * The array whose mask decides whether a frame has a valid entry, and whose
   * valid count is the frame's entity count: `var1`, the vector's x component
   * (`var2x`), or the first vector's x component (`var1x`).
   */
  function Reference(ops: Operands): Masked2D
  {
    match ops
    case ScalarScalar(v1, _) => v1
    case ScalarVector(_, vx, _) => vx
    case VectorVector(x1, _, _, _) => x1
  }

  function Frames(ops: Operands): nat
  {
    |Reference(ops).vals|
  }

  function Entities(ops: Operands): nat
  {
    if |Reference(ops).vals| > 0 then |Reference(ops).vals[0]| else 0
  }

  /** `Nok`: the number of valid reference entries in frame `f`. */
  function Valid(ops: Operands, f: nat): nat
    requires WellShaped(ops) && f < Frames(ops)
  {
    CountValid(Reference(ops).mask[f])
  }

  /** Every component is a `Frames(ops)` by `Entities(ops)` masked array. */
  ghost predicate WellShaped(ops: Operands)
  {
    var frames, entities := Frames(ops), Entities(ops);
    match ops
    case ScalarScalar(v1, v2) => Shaped(v1, frames, entities) && Shaped(v2, frames, entities)
    case ScalarVector(s, vx, vy) =>
      Shaped(s, frames, entities) && Shaped(vx, frames, entities) && Shaped(vy, frames, entities)
    case VectorVector(x1, y1, x2, y2) =>
      && Shaped(x1, frames, entities) && Shaped(y1, frames, entities)
      && Shaped(x2, frames, entities) && Shaped(y2, frames, entities)
  }

  /**
   * Whether entity `e` takes part in frame `f` of a temporal correlation:
   * valid in `var1` for scalars, and valid in both the x and the y mask of
   * the vector that supplies the reference for the vector forms.
   */
  predicate Selected(ops: Operands, f: nat, e: nat)
    requires WellShaped(ops) && f < Frames(ops) && e < Entities(ops)
  {
    match ops
    case ScalarScalar(v1, _) => !v1.mask[f][e]
    case ScalarVector(_, vx, vy) => !vx.mask[f][e] && !vy.mask[f][e]
    case VectorVector(x1, y1, _, _) => !x1.mask[f][e] && !y1.mask[f][e]
  }

  /**
   * The other components are valid wherever an entity is selected, so that
   * compressing every component with the selection keeps them aligned (when
   * they are not, the source's compressed arrays differ in length and numpy
   * refuses to multiply them).
   */
  ghost predicate Covered(ops: Operands)
    requires WellShaped(ops)
  {
    forall f, e :: 0 <= f < Frames(ops) && 0 <= e < Entities(ops) && Selected(ops, f, e) ==> OthersValid(ops, f, e)
  }

  /** The components outside the selection are valid at entity `e` of frame `f`. */
  predicate OthersValid(ops: Operands, f: nat, e: nat)
    requires WellShaped(ops) && f < Frames(ops) && e < Entities(ops)
  {
    match ops
    case ScalarScalar(_, v2) => !v2.mask[f][e]
    case ScalarVector(s, _, _) => !s.mask[f][e]
    case VectorVector(_, _, x2, y2) => !x2.mask[f][e] && !y2.mask[f][e]
  }

  /**
   * All components share the reference mask, so that compressing each row
   * by its own mask (as the spatial routines do) keeps entities aligned.
   */
  predicate SharedMask(ops: Operands)
  {
    match ops
    case ScalarScalar(v1, v2) => v2.mask == v1.mask
    case ScalarVector(s, vx, vy) => s.mask == vx.mask && vy.mask == vx.mask
    case VectorVector(x1, y1, x2, y2) => y1.mask == x1.mask && x2.mask == x1.mask && y2.mask == x1.mask
  }

  /**
   * The temporal contraction of entity `e` with the first observable taken at
   * frame `a` and the second at frame `b`: `var1*var2` for scalars, the
   * additive `var1*(var2x + var2y)` for scalar with vector, and the dot
   * product `var1x*var2x + var1y*var2y` for two vectors.
   */
  function Contract(ops: Operands, a: nat, b: nat, e: nat): real
    requires WellShaped(ops) && a < Frames(ops) && b < Frames(ops) && e < Entities(ops)
  {
    match ops
    case ScalarScalar(v1, v2) => v1.vals[a][e] * v2.vals[b][e]
    case ScalarVector(s, vx, vy) => s.vals[a][e] * (vx.vals[b][e] + vy.vals[b][e])
    case VectorVector(x1, y1, x2, y2) => x1.vals[a][e] * x2.vals[b][e] + y1.vals[a][e] * y2.vals[b][e]
  }
}
