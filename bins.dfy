/**
 * The radial bins of the spatial correlation: the edges are a zero edge
 * followed by `np.arange(0, r_max, dr)`, bin 0 holds the pairs at distance
 * exactly zero, and every later bin `b` holds the pairs whose distance lies
 * in the half-open interval `(edges[b], edges[b+1]]`.  Distances enter the
 * model squared, so that no square root is needed: for non-negative edges
 * `e < d <= e'` holds exactly when `e*e < d*d <= e'*e'`.
 */
module Bins {
  import opened Num

  /** The smallest integer not below `x`. */
  function Ceil(x: real): (r: int)
    ensures x <= r as real < x + 1.0
  {
    -((-x).Floor)
  }

  /** Number of entries of `np.arange(start, stop, step)`: `ceil((stop - start) / step)`, or none. */
  function ArangeLength(start: real, stop: real, step: real): (r: nat)
    requires step > 0.0
  {
    if stop <= start then 0 else Ceil((stop - start) / step)
  }

  /** `np.arange(start, stop, step)` for a positive step. */
  function Arange(start: real, stop: real, step: real): (r: seq<real>)
    requires step > 0.0
    ensures forall k :: 0 <= k < |r| ==> r[k] == start + (k as real) * step
    ensures forall k :: 0 <= k < |r| ==> r[k] < stop
    ensures stop <= start + (|r| as real) * step
  {
    var n := ArangeLength(start, stop, step);
    ArangeBounds(start, stop, step);
    seq(n, k requires 0 <= k < n => Step(start, step, k))
  }

  /** The `k`-th entry of an arithmetic progression. */
  function Step(start: real, step: real, k: nat): real
  {
    start + (k as real) * step
  }

  lemma ArangeBounds(start: real, stop: real, step: real)
    requires step > 0.0
    ensures forall k: nat :: k < ArangeLength(start, stop, step) ==> Step(start, step, k) < stop
    ensures stop <= Step(start, step, ArangeLength(start, stop, step))
  {
    var n := ArangeLength(start, stop, step);
    if start < stop {
      var q := (stop - start) / step;
      assert q * step == stop - start;
      forall k: nat | k < n ensures Step(start, step, k) < stop {
        assert (k as real) < q;
        MulPos(q - k as real, step);
      }
      if (n as real) > q {
        MulPos(n as real - q, step);
      }
    }
  }

  /** `np.concatenate(([0], np.arange(0, r_max, dr)))`. */
  function BinEdges(dr: real, rMax: real): (r: seq<real>)
    requires dr > 0.0
    ensures |r| >= 1 && r[0] == 0.0
    ensures forall b :: 1 <= b < |r| ==> r[b] == ((b - 1) as real) * dr
    ensures forall b :: 1 <= b < |r| ==> r[b] < rMax
    ensures rMax <= ((|r| - 1) as real) * dr
  {
    [0.0] + Arange(0.0, rMax, dr)
  }

  /** The edges never decrease and never go below zero. */
  ghost predicate Ascending(edges: seq<real>)
  {
    && (forall b :: 0 <= b < |edges| ==> 0.0 <= edges[b])
    && (forall b, c :: 0 <= b <= c < |edges| ==> edges[b] <= edges[c])
  }

  lemma BinEdgesAscending(dr: real, rMax: real)
    requires dr > 0.0
    ensures Ascending(BinEdges(dr, rMax))
  {
    var e := BinEdges(dr, rMax);
    forall b | 0 <= b < |e| ensures 0.0 <= e[b] {
      if b >= 1 {
        if b > 1 { MulPos((b - 1) as real, dr); }
      }
    }
    forall b, c | 0 <= b <= c < |e| ensures e[b] <= e[c] {
      if 1 <= b < c {
        MulPos((c - b) as real, dr);
        assert e[c] - e[b] == ((c - b) as real) * dr;
      } else if b == 0 && c > 1 {
        MulPos((c - 1) as real, dr);
      }
    }
  }

  /** `(r_bin_edges[1:] + r_bin_edges[:-1]) / 2`: the midpoints of consecutive edges. */
  function BinCentres(edges: seq<real>): (r: seq<real>)
    requires |edges| >= 1
    ensures |r| == |edges| - 1
  {
    seq(|edges| - 1, b requires 0 <= b < |edges| - 1 => (edges[b] + edges[b + 1]) / 2.0)
  }

  /**
   * For the edges of the spatial correlation there is one centre per bin;
   * the first centre is 0 and every later centre is the midpoint
   * `(b - 1/2) * dr` of its bin, so it lies inside that bin.
   */
  lemma CentresOfBinEdges(dr: real, rMax: real)
    requires dr > 0.0
    ensures var e := BinEdges(dr, rMax);
            var c := BinCentres(e);
            && |c| == |e| - 1
            && (|c| > 0 ==> c[0] == 0.0)
            && (forall b :: 1 <= b < |c| ==> c[b] == ((2 * b - 1) as real) * dr / 2.0)
            && (forall b :: 1 <= b < |c| ==> e[b] < c[b] <= e[b + 1])
  {
    var e := BinEdges(dr, rMax);
    var c := BinCentres(e);
    forall b | 1 <= b < |c|
      ensures c[b] == ((2 * b - 1) as real) * dr / 2.0
      ensures e[b] < c[b] <= e[b + 1]
    {
      assert e[b] == ((b - 1) as real) * dr;
      assert e[b + 1] == (b as real) * dr;
      assert e[b + 1] == e[b] + dr;
    }
  }

  /** Whether a pair at squared distance `d2` falls in bin `b`. */
  predicate InBin(d2: real, edges: seq<real>, b: nat)
    requires b + 1 < |edges|
  {
    if b == 0 then d2 == 0.0
    else edges[b] * edges[b] < d2 <= edges[b + 1] * edges[b + 1]
  }

  /** With the true square root, the squared test is the source's test on distances. */
  lemma InBinMatchesDistance(sqrt: real -> real, d2: real, edges: seq<real>, b: nat)
    requires IsSqrt(sqrt) && 0.0 <= d2
    requires b + 1 < |edges| && Ascending(edges)
    ensures InBin(d2, edges, b) <==>
              (if b == 0 then sqrt(d2) == 0.0 else edges[b] < sqrt(d2) <= edges[b + 1])
  {
    var d := sqrt(d2);
    assert d * d == d2 && 0.0 <= d;
    if b == 0 {
      if d != 0.0 {
        calc {
          d2;
          == d * d;
          > { MulPos(d, d); } 0.0;
        }
      }
    } else {
      var lo, hi := edges[b], edges[b + 1];
      assert 0.0 <= lo && 0.0 <= hi;
      if lo < d { SquareMonotone(lo, d); } else if d < lo { SquareMonotone(d, lo); }
      if d < hi { SquareMonotone(d, hi); } else if hi < d { SquareMonotone(hi, d); }
    }
  }

  /** Number of the bins `0 .. m-1` that a pair at squared distance `d2` falls in. */
  function BinsHolding(d2: real, edges: seq<real>, m: nat): nat
    requires m < |edges|
  {
    if m == 0 then 0
    else BinsHolding(d2, edges, m - 1) + (if InBin(d2, edges, m - 1) then 1 else 0)
  }

  lemma SquareMonotoneWeak(a: real, b: real)
    requires 0.0 <= a <= b
    ensures a * a <= b * b
  {
    if a < b { SquareMonotone(a, b); }
  }

  /** The half-open bins `1 .. m-1` tile `(edges[1], edges[m]]` without overlap. */
  lemma {:induction false} HalfOpenBinsTile(d2: real, edges: seq<real>, m: nat)
    requires 1 <= m < |edges| && Ascending(edges)
    ensures BinsHolding(d2, edges, m) ==
            BinsHolding(d2, edges, 1)
            + (if edges[1] * edges[1] < d2 <= edges[m] * edges[m] then 1 else 0)
  {
    if m > 1 {
      HalfOpenBinsTile(d2, edges, m - 1);
      SquareMonotoneWeak(edges[1], edges[m - 1]);
      SquareMonotoneWeak(edges[m - 1], edges[m]);
    }
  }

  /**
   * Every pair lands in exactly one bin when its distance is at most the last
   * edge, and in no bin otherwise: the bins are disjoint, and the pairs
   * beyond the last edge (including those between it and `r_max`) are
   * dropped.
   */
  lemma ExactlyOneBin(d2: real, dr: real, rMax: real)
    requires dr > 0.0 && 0.0 <= d2
    ensures var e := BinEdges(dr, rMax);
            BinsHolding(d2, e, |e| - 1) ==
              (if |e| >= 2 && d2 <= e[|e| - 1] * e[|e| - 1] then 1 else 0)
  {
    var e := BinEdges(dr, rMax);
    BinEdgesAscending(dr, rMax);
    if |e| >= 2 {
      HalfOpenBinsTile(d2, e, |e| - 1);
    }
  }
}
