/**
 * Masked observables: a frame-by-entity array of values with a mask of the
 * same shape, where a mask bit `true` marks an invalid entry, as in
 * `numpy.ma`.
 */
module Masked {
  import opened Wrappers

  datatype Masked2D = Masked2D(vals: seq<seq<real>>, mask: seq<seq<bool>>)

  /** The array has `frames` rows of `entities` entries, in values and in mask. */
  ghost predicate Shaped(a: Masked2D, frames: nat, entities: nat)
  {
    && |a.vals| == frames && |a.mask| == frames
    && (forall f :: 0 <= f < frames ==> |a.vals[f]| == entities)
    && (forall f :: 0 <= f < frames ==> |a.mask[f]| == entities)
  }

  /** Number of valid (unmasked) entries of a mask row. */
  function CountValid(mask: seq<bool>): nat
  {
    if |mask| == 0 then 0
    else CountValid(mask[..|mask| - 1]) + (if mask[|mask| - 1] then 0 else 1)
  }

  /**
   * `row.compressed()`: the valid entries of a row, in order.  There are
   * `CountValid(mask)` of them; `CompressedEntry` and `CompressKeepsOrder`
   * say where each lands.
   */
  function Compress(vals: seq<real>, mask: seq<bool>): (r: seq<real>)
    requires |vals| == |mask|
    ensures |r| == CountValid(mask)
  {
    if |vals| == 0 then []
    else
      var init := Compress(vals[..|vals| - 1], mask[..|mask| - 1]);
      if mask[|mask| - 1] then init else init + [vals[|vals| - 1]]
  }

  /** A valid entry `i` of the row sits in `.compressed()` at the number of valid entries before it. */
  lemma {:induction false} CompressedEntry(vals: seq<real>, mask: seq<bool>, i: nat)
    requires |vals| == |mask| && i < |vals| && !mask[i]
    ensures CountValid(mask[..i]) < |Compress(vals, mask)|
    ensures Compress(vals, mask)[CountValid(mask[..i])] == vals[i]
  {
    var n := |vals|;
    if i < n - 1 {
      CompressedEntry(vals[..n - 1], mask[..n - 1], i);
      assert mask[..n - 1][..i] == mask[..i];
    } else {
      assert mask[..n - 1] == mask[..i];
    }
  }

  /** Valid entries are counted in order: a longer prefix has at least as many. */
  lemma {:induction false} CountValidPrefix(mask: seq<bool>, i: nat, j: nat)
    requires i <= j <= |mask|
    ensures CountValid(mask[..i]) <= CountValid(mask[..j])
    decreases j - i
  {
    if i < j {
      CountValidPrefix(mask, i, j - 1);
      assert mask[..j][..j - 1] == mask[..j - 1];
    }
  }

  /** `.compressed()` keeps the valid entries in their order: an earlier valid entry lands at an earlier position. */
  lemma CompressKeepsOrder(vals: seq<real>, mask: seq<bool>, i: nat, j: nat)
    requires |vals| == |mask| && i < j < |mask| && !mask[i] && !mask[j]
    ensures CountValid(mask[..i]) < CountValid(mask[..j]) < |Compress(vals, mask)|
    ensures Compress(vals, mask)[CountValid(mask[..i])] == vals[i]
    ensures Compress(vals, mask)[CountValid(mask[..j])] == vals[j]
  {
    assert mask[..i + 1][..i] == mask[..i];
    CountValidPrefix(mask, i + 1, j);
    CompressedEntry(vals, mask, i);
    CompressedEntry(vals, mask, j);
  }

  /** `a[f,:].compressed()`. */
  function Row(a: Masked2D, f: nat): seq<real>
    requires f < |a.vals| && f < |a.mask| && |a.vals[f]| == |a.mask[f]|
  {
    Compress(a.vals[f], a.mask[f])
  }

  /** `.compressed()` of a one-dimensional masked array held as options. */
  function Unmasked(s: seq<Option<real>>): (r: seq<real>)
    ensures |r| <= |s|
  {
    if |s| == 0 then []
    else
      var init := Unmasked(s[..|s| - 1]);
      match s[|s| - 1]
      case None => init
      case Some(v) => init + [v]
  }

  /** A masked two-dimensional array of floats, row by row; `None` is a masked entry. */
  type Grid = seq<seq<Option<real>>>

  /** `.compressed()` of a masked two-dimensional array: its unmasked entries in row-major order. */
  function CompressGrid(g: Grid): (r: seq<real>)
  {
    if |g| == 0 then [] else CompressGrid(g[..|g| - 1]) + Unmasked(g[|g| - 1])
  }

  /** `a[:k]`: the first `k` frames (all of them when there are fewer). */
  function TakeFrames(a: Masked2D, k: nat): (r: Masked2D)
    ensures |r.vals| == (if k < |a.vals| then k else |a.vals|)
    ensures |r.mask| == (if k < |a.mask| then k else |a.mask|)
    ensures r.vals == a.vals[..|r.vals|] && r.mask == a.mask[..|r.mask|]
  {
    Masked2D(a.vals[..if k < |a.vals| then k else |a.vals|], a.mask[..if k < |a.mask| then k else |a.mask|])
  }

  /** A row of `k` masked entries. */
  function Nones<T>(k: nat): (r: seq<Option<T>>)
    ensures |r| == k && forall i :: 0 <= i < k ==> r[i] == None
  {
    seq(k, _ => None)
  }

  /** Every entry of a fully unmasked array survives `.compressed()`. */
  lemma {:induction false} UnmaskedOfAllSome(s: seq<Option<real>>)
    requires forall i :: 0 <= i < |s| ==> s[i].Some?
    ensures |Unmasked(s)| == |s|
    ensures forall i :: 0 <= i < |s| ==> Unmasked(s)[i] == s[i].value
  {
    if |s| > 0 {
      UnmaskedOfAllSome(s[..|s| - 1]);
    }
  }
}
