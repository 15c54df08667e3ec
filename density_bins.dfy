/**
 * `VariationData.bin_data`: bucket a quantity by cell density.  The bucket
 * edges are multiples of `bin_size` from the minimum density's multiple
 * upwards, `np.digitize` assigns every density the number of edges at or
 * below it, and every bucket reports the mean and the sample standard
 * deviation of the quantity over its members.
 */
module DensityBins {
  import opened Wrappers
  import opened Num

  /** Python's `int()` of a float: truncation toward zero. */
  function Trunc(x: real): (r: int)
    ensures x >= 0.0 ==> r >= 0 && r as real <= x < r as real + 1.0
    ensures x < 0.0 ==> r <= 0 && r as real - 1.0 < x <= r as real
  {
    if x >= 0.0 then x.Floor else -((-x).Floor)
  }

  /** `np.min` of a non-empty array. */
  function MinOf(s: seq<real>): (r: real)
    requires |s| > 0
    ensures r in s && forall i :: 0 <= i < |s| ==> r <= s[i]
  {
    if |s| == 1 then s[0]
    else
      var m := MinOf(s[..|s| - 1]);
      assert forall i :: 0 <= i < |s| - 1 ==> s[..|s| - 1][i] == s[i];
      if s[|s| - 1] < m then s[|s| - 1] else m
  }

  /** `np.max` of a non-empty array. */
  function MaxOf(s: seq<real>): (r: real)
    requires |s| > 0
    ensures r in s && forall i :: 0 <= i < |s| ==> s[i] <= r
  {
    if |s| == 1 then s[0]
    else
      var m := MaxOf(s[..|s| - 1]);
      assert forall i :: 0 <= i < |s| - 1 ==> s[..|s| - 1][i] == s[i];
      if s[|s| - 1] > m then s[|s| - 1] else m
  }

  /** `np.arange(start, stop, step)` on integers with a positive step. */
  function IntArange(start: int, stop: int, step: nat): (r: seq<int>)
    requires step >= 1
    ensures forall k :: 0 <= k < |r| ==> start <= r[k] < stop
    ensures |r| == 0 <==> start >= stop
    decreases stop - start
  {
    if start >= stop then [] else [start] + IntArange(start + step, stop, step)
  }

  /** The `c` consecutive multiples of `s` from `q * s` on. */
  function Multiples(q: int, c: nat, s: nat): (r: seq<int>)
    ensures |r| == c && forall k :: 0 <= k < c ==> r[k] == (q + k) * s
  {
    seq(c, k => (q + k) * s)
  }

  /** `np.arange(q * s, (q + c) * s, s)` is `c` consecutive multiples of `s`. */
  lemma {:induction false} ArangeOfMultiples(q: int, c: nat, s: nat)
    requires s >= 1
    ensures IntArange(q * s, (q + c) * s, s) == Multiples(q, c, s)
    decreases c
  {
    if c == 0 {
      assert (q + c) * s == q * s;
    } else {
      assert q * s < (q + c) * s by {
        MulMonotone(q, q + c, s);
      }
      assert q * s + s == (q + 1) * s;
      assert (q + 1 + (c - 1)) * s == (q + c) * s;
      ArangeOfMultiples(q + 1, c - 1, s);
      assert Multiples(q, c, s) == [q * s] + Multiples(q + 1, c - 1, s);
    }
  }

  lemma {:induction false} MulMonotone(a: int, b: int, s: nat)
    requires a < b && s >= 1
    ensures a * s < b * s
    decreases b - a
  {
    assert (a + 1) * s == a * s + s;
    if a + 1 < b {
      MulMonotone(a + 1, b, s);
    }
  }

  /** `int(density / bin_size)`: the density's bucket multiple. */
  function BucketOf(x: real, binSize: nat): int
    requires binSize >= 1
  {
    Trunc(x / (binSize as real))
  }

  /**
   * The edges as written, from the smallest density `lo` and the largest `hi`:
   * `np.arange(min_bin, max_bin + bin_size, bin_size)` with `min_bin` and
   * `max_bin` the two truncated to a multiple of `bin_size`.  The last edge is
   * `max_bin` itself.
   */
  function SourceEdges(lo: real, hi: real, binSize: nat): seq<int>
    requires binSize >= 1
  {
    IntArange(BucketOf(lo, binSize) * binSize, BucketOf(hi, binSize) * binSize + 1 * binSize, binSize)
  }

  /**
   * The edges as evidently intended: one more multiple of `bin_size`, so that
   * the last bucket `[max_bin, max_bin + bin_size)` holds the largest densities.
   */
  function DensityEdges(lo: real, hi: real, binSize: nat): seq<int>
    requires binSize >= 1
  {
    IntArange(BucketOf(lo, binSize) * binSize, BucketOf(hi, binSize) * binSize + 2 * binSize, binSize)
  }

  predicate Increasing(edges: seq<int>)
  {
    forall a, b :: 0 <= a < b < |edges| ==> edges[a] < edges[b]
  }

  /** `np.digitize(x, edges)` for increasing edges: the number of edges at or below `x`. */
  function Digitize(x: real, edges: seq<int>): (r: nat)
    ensures r <= |edges|
  {
    if |edges| == 0 then 0
    else Digitize(x, edges[..|edges| - 1]) + (if edges[|edges| - 1] as real <= x then 1 else 0)
  }

  /** On increasing edges, `x` is in bucket `i` exactly when `edges[i-1] <= x < edges[i]`. */
  lemma {:induction false} DigitizeBetween(x: real, edges: seq<int>, i: nat)
    requires Increasing(edges) && 1 <= i < |edges|
    ensures Digitize(x, edges) == i <==> edges[i - 1] as real <= x < edges[i] as real
  {
    DigitizeCounts(x, edges);
  }

  /** On increasing edges, `Digitize` counts a prefix: edges below it are at most `x`, the rest above. */
  lemma {:induction false} DigitizeCounts(x: real, edges: seq<int>)
    requires Increasing(edges)
    ensures forall k :: 0 <= k < Digitize(x, edges) ==> edges[k] as real <= x
    ensures forall k :: Digitize(x, edges) <= k < |edges| ==> x < edges[k] as real
  {
    if |edges| > 0 {
      var init := edges[..|edges| - 1];
      assert Increasing(init);
      DigitizeCounts(x, init);
    }
  }

  /** `np.where(idx == i)[0]` over the first `n` densities: those in bucket `i`, in order. */
  function InBucket(density: seq<real>, edges: seq<int>, i: nat, n: nat): (r: seq<nat>)
    requires n <= |density|
    ensures forall k :: 0 <= k < |r| ==> r[k] < n
  {
    if n == 0 then []
    else
      var init := InBucket(density, edges, i, n - 1);
      if Digitize(density[n - 1], edges) == i then init + [n - 1] else init
  }

  /**
   * `np.where(density_idx == i)[0]` holds, in increasing order, exactly the
   * indices whose density `np.digitize` puts in bucket `i`.
   */
  lemma {:induction false} InBucketMembers(density: seq<real>, edges: seq<int>, i: nat, n: nat)
    requires n <= |density|
    ensures var r := InBucket(density, edges, i, n);
            && (forall k :: 0 <= k < |r| ==> Digitize(density[r[k]], edges) == i)
            && (forall k :: 0 <= k < n && Digitize(density[k], edges) == i ==> k in r)
            && (forall a, b :: 0 <= a < b < |r| ==> r[a] < r[b])
  {
    if n > 0 {
      InBucketMembers(density, edges, i, n - 1);
    }
  }

  /** `variable[idx]`. */
  function Pick(variable: seq<real>, idx: seq<nat>): (r: seq<real>)
    requires forall k :: 0 <= k < |idx| ==> idx[k] < |variable|
    ensures |r| == |idx| && forall k :: 0 <= k < |idx| ==> r[k] == variable[idx[k]]
  {
    seq(|idx|, k requires 0 <= k < |idx| => variable[idx[k]])
  }

  /**
   * Every member of bucket `i` is an index into `variable`, so that
   * `variable[idx_in_bin]` raises no IndexError.
   */
  predicate Indexable(density: seq<real>, variable: seq<real>, edges: seq<int>, i: nat)
  {
    var idx := InBucket(density, edges, i, |density|);
    forall k :: 0 <= k < |idx| ==> idx[k] < |variable|
  }

  /** No bucket `1 .. len(bins)-1` raises an IndexError. */
  predicate AllIndexable(density: seq<real>, variable: seq<real>, edges: seq<int>)
  {
    forall i :: 1 <= i < |edges| ==> Indexable(density, variable, edges, i)
  }

  /** The quantity's values over the members of bucket `i`. */
  function Members(density: seq<real>, variable: seq<real>, edges: seq<int>, i: nat): (r: seq<real>)
    requires Indexable(density, variable, edges, i)
    ensures |r| == |InBucket(density, edges, i, |density|)|
  {
    Pick(variable, InBucket(density, edges, i, |density|))
  }

  /** `mean_variable[i-1]`: the members' mean, 0 for an empty bucket. */
  function BucketMean(vs: seq<real>): real
  {
    if |vs| == 0 then 0.0 else Mean(vs).value
  }

  /** `std_variable[i-1]`: `np.std(ddof=1)` of the members, 0 for fewer than two. */
  function BucketStd(vs: seq<real>, sqrt: real -> real): real
  {
    if |vs| > 1 then sqrt(Sum(SquaredDeviations(vs, Mean(vs).value)) / ((|vs| - 1) as real)) else 0.0
  }

  /** What `bin_data` returns: the edges, and per bucket the mean and the std. */
  datatype Binned = Binned(densityBins: seq<int>, mean: seq<real>, std: seq<real>)

  /**
   * Bucket `b + 1` has `count` members, over which `variable` has mean `mean`
   * and std `std`.
   */
  ghost predicate BucketAt(density: seq<real>, variable: seq<real>, edges: seq<int>, sqrt: real -> real,
                           b: nat, count: nat, mean: real, std: real)
    requires Indexable(density, variable, edges, b + 1)
  {
    var vs := Members(density, variable, edges, b + 1);
    count == |vs| && mean == BucketMean(vs) && std == BucketStd(vs, sqrt)
  }

  /**
   * The bucket loop of `bin_data`, for given edges: bucket `i` (between
   * `edges[i-1]` and `edges[i]`) gives entry `i-1` of the results, an empty
   * bucket leaving mean and std at 0.  `ok` is false when some bucket's members do not all
   * index into `variable` (an IndexError).
   */
  method BucketStatistics(density: seq<real>, variable: seq<real>, edges: seq<int>, sqrt: real -> real)
    returns (ok: bool, mean: seq<real>, std: seq<real>, counts: seq<nat>)
    requires |edges| >= 1
    ensures ok <==> AllIndexable(density, variable, edges)
    ensures ok ==> |mean| == |std| == |counts| == |edges| - 1
    ensures ok ==> forall b :: 0 <= b < |mean| ==> BucketAt(density, variable, edges, sqrt, b, counts[b], mean[b], std[b])
  {
    ok, mean, std, counts := true, [], [], [];
    for i := 1 to |edges|
      invariant |mean| == |std| == |counts| == i - 1
      invariant forall b :: 1 <= b < i ==> Indexable(density, variable, edges, b)
      invariant forall b :: 0 <= b < i - 1 ==> BucketAt(density, variable, edges, sqrt, b, counts[b], mean[b], std[b])
    {
      var inRange, count, m, sd := Bucket(density, variable, edges, i, sqrt);
      if !inRange {
        return false, [], [], [];
      }
      counts, mean, std := counts + [count], mean + [m], std + [sd];
    }
  }

  /**
   * One pass of the bucket loop: the size of bucket `i`, and the members'
   * mean and std, each 0 where the loop skips them; `ok` is false when a
   * member is past the end of `variable`.
   */
  method Bucket(density: seq<real>, variable: seq<real>, edges: seq<int>, i: nat, sqrt: real -> real)
    returns (ok: bool, count: nat, mean: real, std: real)
    requires i >= 1
    ensures ok <==> Indexable(density, variable, edges, i)
    ensures ok ==> BucketAt(density, variable, edges, sqrt, i - 1, count, mean, std)
  {
    mean, std := 0.0, 0.0;
    var idxInBin := InBucket(density, edges, i, |density|);
    count := |idxInBin|;
    ok := forall k :: 0 <= k < count ==> idxInBin[k] < |variable|;
    if !ok || count == 0 {
      return;
    }
    var vs := Pick(variable, idxInBin);
    mean := Mean(vs).value;
    if count > 1 {
      std := sqrt(Sum(SquaredDeviations(vs, mean)) / ((count - 1) as real));
    }
  }

  /**
   * The buckets' means: entry `b` is the mean of the quantity over the
   * members of bucket `b + 1`.
   */
  function BucketMeans(density: seq<real>, variable: seq<real>, edges: seq<int>): (r: seq<real>)
    requires AllIndexable(density, variable, edges)
    ensures |edges| >= 1 ==> |r| == |edges| - 1
  {
    if |edges| == 0 then []
    else seq(|edges| - 1, b requires 0 <= b < |edges| - 1 => BucketMean(Members(density, variable, edges, b + 1)))
  }

  /** The buckets' standard deviations, as `BucketMeans`. */
  function BucketStds(density: seq<real>, variable: seq<real>, edges: seq<int>, sqrt: real -> real): (r: seq<real>)
    requires AllIndexable(density, variable, edges)
    ensures |edges| >= 1 ==> |r| == |edges| - 1
  {
    if |edges| == 0 then []
    else seq(|edges| - 1, b requires 0 <= b < |edges| - 1 => BucketStd(Members(density, variable, edges, b + 1), sqrt))
  }

  /**
   * What `bin_data` returns or raises, as a value: a ValueError for no
   * densities (`np.min` of an empty array), an IndexError when a bucket's
   * members do not all index into `variable`, otherwise the edges and each
   * bucket's mean and std.
   */
  function BinDataSpec(density: seq<real>, variable: seq<real>, binSize: nat, sqrt: real -> real): Result<Binned>
    requires binSize >= 1
  {
    if |density| == 0 then Err(ValueError)
    else
      var edges := DensityEdges(MinOf(density), MaxOf(density), binSize);
      if !AllIndexable(density, variable, edges) then Err(IndexError)
      else Ok(Binned(edges, BucketMeans(density, variable, edges), BucketStds(density, variable, edges, sqrt)))
  }

  /**
   * `bin_data(variable, bin_size)` on the densities: the edges run from
   * `min_bin` to `max_bin + bin_size`, and the bucket loop fills in each
   * bucket's mean and std.
   */
  method BinData(density: seq<real>, variable: seq<real>, binSize: nat, sqrt: real -> real) returns (r: Result<Binned>)
    requires binSize >= 1
    ensures r == BinDataSpec(density, variable, binSize, sqrt)
  {
    if |density| == 0 {
      return Err(ValueError);
    }
    var minBin := BucketOf(MinOf(density), binSize) * binSize;
    var maxBin := BucketOf(MaxOf(density), binSize) * binSize;
    var bins := IntArange(minBin, maxBin + 2 * binSize, binSize);
    EdgesLength(MinOf(density), MaxOf(density), binSize);
    assert bins == DensityEdges(MinOf(density), MaxOf(density), binSize);
    var ok, mean, std, counts := BucketStatistics(density, variable, bins, sqrt);
    if !ok {
      return Err(IndexError);
    }
    BucketStatisticsAre(density, variable, bins, sqrt, mean, std, counts);
    r := Ok(Binned(bins, mean, std));
  }

  /** Per-bucket statistics, gathered, are the sequences of means and stds. */
  lemma BucketStatisticsAre(density: seq<real>, variable: seq<real>, edges: seq<int>, sqrt: real -> real,
                            mean: seq<real>, std: seq<real>, counts: seq<nat>)
    requires |edges| >= 1 && AllIndexable(density, variable, edges)
    requires |mean| == |std| == |counts| == |edges| - 1
    requires forall b :: 0 <= b < |edges| - 1 ==> BucketAt(density, variable, edges, sqrt, b, counts[b], mean[b], std[b])
    ensures mean == BucketMeans(density, variable, edges) && std == BucketStds(density, variable, edges, sqrt)
  {
    var ms, ss := BucketMeans(density, variable, edges), BucketStds(density, variable, edges, sqrt);
    forall b | 0 <= b < |edges| - 1
      ensures mean[b] == ms[b] && std[b] == ss[b]
    {
      var vs := Members(density, variable, edges, b + 1);
      assert BucketAt(density, variable, edges, sqrt, b, counts[b], mean[b], std[b]);
      assert ms[b] == BucketMean(vs) && ss[b] == BucketStd(vs, sqrt);
    }
  }

  /**
   * The shape of `bin_data`'s result: it raises a ValueError exactly for no
   * densities and an IndexError exactly when some bucket indexes past
   * `variable`; otherwise the edges are the intended ones, there is one mean
   * and one std per bucket, and they are the statistics of its members.
   */
  lemma BinDataShape(density: seq<real>, variable: seq<real>, binSize: nat, sqrt: real -> real)
    requires binSize >= 1
    ensures BinDataSpec(density, variable, binSize, sqrt) == Err(ValueError) <==> |density| == 0
    ensures |density| > 0 ==>
              (BinDataSpec(density, variable, binSize, sqrt) == Err(IndexError)
               <==> !AllIndexable(density, variable, DensityEdges(MinOf(density), MaxOf(density), binSize)))
    ensures BinDataSpec(density, variable, binSize, sqrt).Ok? ==>
              var b := BinDataSpec(density, variable, binSize, sqrt).value;
              && |density| > 0
              && b.densityBins == DensityEdges(MinOf(density), MaxOf(density), binSize)
              && |b.densityBins| >= 2 && |b.mean| == |b.std| == |b.densityBins| - 1
              && AllIndexable(density, variable, b.densityBins)
              && forall k :: 0 <= k < |b.mean| ==>
                   b.mean[k] == BucketMean(Members(density, variable, b.densityBins, k + 1))
                   && b.std[k] == BucketStd(Members(density, variable, b.densityBins, k + 1), sqrt)
  {
    if |density| > 0 {
      var edges := DensityEdges(MinOf(density), MaxOf(density), binSize);
      EdgesLength(MinOf(density), MaxOf(density), binSize);
      if AllIndexable(density, variable, edges) {
        BinnedMeans(density, variable, edges);
        BinnedStds(density, variable, edges, sqrt);
      }
    }
  }

  /** The per-bucket means of `BinDataSpec`, for edges every member can be indexed with. */
  lemma BinnedMeans(density: seq<real>, variable: seq<real>, edges: seq<int>)
    requires |edges| >= 1 && AllIndexable(density, variable, edges)
    ensures forall k :: 0 <= k < |edges| - 1 ==>
              BucketMeans(density, variable, edges)[k] == BucketMean(Members(density, variable, edges, k + 1))
  {
    var ms := BucketMeans(density, variable, edges);
    forall k | 0 <= k < |edges| - 1 ensures ms[k] == BucketMean(Members(density, variable, edges, k + 1)) {
    }
  }

  /** The per-bucket standard deviations of `BinDataSpec`, as `BinnedMeans`. */
  lemma BinnedStds(density: seq<real>, variable: seq<real>, edges: seq<int>, sqrt: real -> real)
    requires |edges| >= 1 && AllIndexable(density, variable, edges)
    ensures forall k :: 0 <= k < |edges| - 1 ==>
              BucketStds(density, variable, edges, sqrt)[k] == BucketStd(Members(density, variable, edges, k + 1), sqrt)
  {
    var ss := BucketStds(density, variable, edges, sqrt);
    forall k | 0 <= k < |edges| - 1 ensures ss[k] == BucketStd(Members(density, variable, edges, k + 1), sqrt) {
    }
  }

  /**
   * With the intended edges and non-negative densities, `bin_data` raises an
   * IndexError exactly when `variable` is shorter than `density`.
   */
  lemma IndexErrorExactly(density: seq<real>, variable: seq<real>, binSize: nat)
    requires |density| > 0 && binSize >= 1 && MinOf(density) >= 0.0
    ensures AllIndexable(density, variable, DensityEdges(MinOf(density), MaxOf(density), binSize)) <==> |variable| >= |density|
  {
    var edges := DensityEdges(MinOf(density), MaxOf(density), binSize);
    if |variable| < |density| {
      var k := |variable|;
      assert MinOf(density) <= density[k] <= MaxOf(density);
      IntendedEdgesCover(MinOf(density), MaxOf(density), binSize, density[k]);
      var i := Digitize(density[k], edges);
      var idx := InBucket(density, edges, i, |density|);
      InBucketMembers(density, edges, i, |density|);
      assert k in idx;
      assert !Indexable(density, variable, edges, i);
    }
  }

  // ---- the edges ----

  /** The truncated multiples of non-negative densities: `min_bin <= lo` and `max_bin <= hi < max_bin + bin_size`. */
  lemma BucketBounds(lo: real, hi: real, binSize: nat, nq: int, mq: int)
    requires 0.0 <= lo <= hi && binSize >= 1
    requires nq == BucketOf(lo, binSize) && mq == BucketOf(hi, binSize)
    ensures 0 <= nq <= mq
    ensures (nq * binSize) as real <= lo
    ensures (mq * binSize) as real <= hi < ((mq + 1) * binSize) as real
  {
    assert 0 <= nq <= mq by {
      var s := binSize as real;
      DivideMonotone(lo, hi, s);
      TruncMonotone(lo / s, hi / s);
    }
    TruncScaled(lo, binSize, nq);
    TruncScaled(hi, binSize, mq);
  }

  lemma TruncMonotone(a: real, b: real)
    requires a <= b
    ensures Trunc(a) <= Trunc(b)
  {
  }

  lemma CastProduct(q: int, n: nat)
    ensures (q * n) as real == q as real * n as real
  {
  }

  lemma DivideMonotone(a: real, b: real, s: real)
    requires a <= b && s > 0.0
    ensures a / s <= b / s
    ensures 0.0 <= a ==> 0.0 <= a / s
  {
  }

  /** `min_bin <= max_bin`, so the edges as written hold at least one edge and the intended ones two. */
  lemma EdgesLength(lo: real, hi: real, binSize: nat)
    requires lo <= hi && binSize >= 1
    ensures |SourceEdges(lo, hi, binSize)| >= 1 && |DensityEdges(lo, hi, binSize)| >= 2
  {
    var nq, mq := BucketOf(lo, binSize), BucketOf(hi, binSize);
    assert nq <= mq by {
      var s := binSize as real;
      DivideMonotone(lo, hi, s);
      TruncMonotone(lo / s, hi / s);
    }
    ArangeShape(nq, mq, 1, binSize);
    ArangeShape(nq, mq, 2, binSize);
  }

  /** `q = int(x / n)` for non-negative `x` puts `x` in `[q*n, (q+1)*n)`. */
  lemma TruncScaled(x: real, n: nat, q: int)
    requires x >= 0.0 && n >= 1 && q == BucketOf(x, n)
    ensures (q * n) as real <= x < ((q + 1) * n) as real
  {
    DivideMonotone(0.0, x, n as real);
    MultipleBounds(x, n, q);
  }

  /** From `q <= x / n < q + 1` to `q * n <= x < (q + 1) * n`. */
  lemma MultipleBounds(x: real, n: nat, q: int)
    requires n >= 1 && q as real <= x / (n as real) < q as real + 1.0
    ensures (q * n) as real <= x < ((q + 1) * n) as real
  {
    LowerBound(x, n, q);
    UpperBound(x, n, q + 1);
  }

  lemma LowerBound(x: real, n: nat, q: int)
    requires n >= 1 && q as real <= x / (n as real)
    ensures (q * n) as real <= x
  {
    var s := n as real;
    CastProduct(q, n);
    MulRight(q as real, x / s, s);
    DivideThenMultiply(x, s);
  }

  lemma UpperBound(x: real, n: nat, q: int)
    requires n >= 1 && x / (n as real) < q as real
    ensures x < (q * n) as real
  {
    var s := n as real;
    CastProduct(q, n);
    MulRight(x / s, q as real, s);
    DivideThenMultiply(x, s);
  }

  lemma DivideThenMultiply(x: real, s: real)
    requires s > 0.0
    ensures (x / s) * s == x
  {
  }

  lemma MulRight(a: real, b: real, s: real)
    requires a <= b && s > 0.0
    ensures a * s <= b * s
    ensures a < b ==> a * s < b * s
  {
    assert b * s - a * s == (b - a) * s;
    if a < b {
      MulPos(b - a, s);
    }
  }

  /** The edges as written: consecutive multiples ending at `max_bin`. */
  lemma SourceEdgesShape(lo: real, hi: real, binSize: nat, nq: int, mq: int)
    requires 0.0 <= lo <= hi && binSize >= 1
    requires nq == BucketOf(lo, binSize) && mq == BucketOf(hi, binSize)
    ensures nq <= mq && SourceEdges(lo, hi, binSize) == Multiples(nq, mq - nq + 1, binSize)
  {
    assert nq <= mq by {
      BucketBounds(lo, hi, binSize, nq, mq);
    }
    ArangeShape(nq, mq, 1, binSize);
  }

  /** The intended edges: one multiple more, ending at `max_bin + bin_size`. */
  lemma DensityEdgesShape(lo: real, hi: real, binSize: nat, nq: int, mq: int)
    requires 0.0 <= lo <= hi && binSize >= 1
    requires nq == BucketOf(lo, binSize) && mq == BucketOf(hi, binSize)
    ensures nq <= mq && DensityEdges(lo, hi, binSize) == Multiples(nq, mq - nq + 2, binSize)
  {
    assert nq <= mq by {
      BucketBounds(lo, hi, binSize, nq, mq);
    }
    ArangeShape(nq, mq, 2, binSize);
  }

  /** `np.arange(nq * s, mq * s + extra * s, s)` is the multiples from `nq * s` to `(mq + extra - 1) * s`. */
  lemma ArangeShape(nq: int, mq: int, extra: nat, s: nat)
    requires nq <= mq && s >= 1
    ensures IntArange(nq * s, mq * s + extra * s, s) == Multiples(nq, mq - nq + extra, s)
  {
    var c := mq - nq + extra;
    var stop := mq * s + extra * s;
    StopIsMultiple(nq, mq, extra, s);
    ArangeOfMultiples(nq, c, s);
  }

  lemma StopIsMultiple(nq: int, mq: int, extra: nat, s: nat)
    ensures mq * s + extra * s == (nq + (mq - nq + extra)) * s
  {
    assert nq + (mq - nq + extra) == mq + extra;
  }

  lemma MultiplesIncreasing(nq: int, c: nat, s: nat)
    requires s >= 1
    ensures Increasing(Multiples(nq, c, s))
  {
    var e := Multiples(nq, c, s);
    forall a, b | 0 <= a < b < c ensures e[a] < e[b] {
      MulMonotone(nq + a, nq + b, s);
    }
  }

  /**
   * With the intended edges every value between the smallest and the largest
   * non-negative density falls in one of the buckets `1 .. len(bins)-1`.
   */
  lemma IntendedEdgesCover(lo: real, hi: real, binSize: nat, x: real)
    requires 0.0 <= lo <= x <= hi && binSize >= 1
    ensures 1 <= Digitize(x, DensityEdges(lo, hi, binSize)) < |DensityEdges(lo, hi, binSize)|
  {
    var edges := DensityEdges(lo, hi, binSize);
    var nq, mq := BucketOf(lo, binSize), BucketOf(hi, binSize);
    BucketBounds(lo, hi, binSize, nq, mq);
    DensityEdgesShape(lo, hi, binSize, nq, mq);
    MultiplesIncreasing(nq, mq - nq + 2, binSize);
    DigitizeCounts(x, edges);
    assert edges[0] == nq * binSize;
    assert edges[|edges| - 1] == (mq + 1) * binSize;
  }

  // ---- bucket counts ----

  /** Bucket sizes `len(idx_in_bin)` of buckets `1 .. m` over the first `n` densities. */
  function CountsUpTo(density: seq<real>, edges: seq<int>, m: nat, n: nat): nat
    requires n <= |density|
  {
    if m == 0 then 0 else CountsUpTo(density, edges, m - 1, n) + |InBucket(density, edges, m, n)|
  }

  /** The densities among the first `n` whose bucket number is one of `1 .. m`. */
  function BinnedUpTo(density: seq<real>, edges: seq<int>, m: nat, n: nat): nat
    requires n <= |density|
  {
    if n == 0 then 0
    else BinnedUpTo(density, edges, m, n - 1) + (if 1 <= Digitize(density[n - 1], edges) <= m then 1 else 0)
  }

  /** Buckets are disjoint: their sizes add up to the number of densities in some bucket. */
  lemma {:induction false} CountsAreBinned(density: seq<real>, edges: seq<int>, m: nat, n: nat)
    requires n <= |density|
    ensures CountsUpTo(density, edges, m, n) == BinnedUpTo(density, edges, m, n)
    decreases m, n
  {
    if n == 0 {
      EmptyCounts(density, edges, m);
    } else {
      CountsStep(density, edges, m, n);
      CountsAreBinned(density, edges, m, n - 1);
    }
  }

  lemma {:induction false} EmptyCounts(density: seq<real>, edges: seq<int>, m: nat)
    ensures CountsUpTo(density, edges, m, 0) == 0
  {
    if m > 0 {
      EmptyCounts(density, edges, m - 1);
    }
  }

  /** Adding density `n-1` adds one to its own bucket's size and to no other. */
  lemma {:induction false} CountsStep(density: seq<real>, edges: seq<int>, m: nat, n: nat)
    requires 0 < n <= |density|
    ensures CountsUpTo(density, edges, m, n) ==
            CountsUpTo(density, edges, m, n - 1) + (if 1 <= Digitize(density[n - 1], edges) <= m then 1 else 0)
  {
    if m > 0 {
      CountsStep(density, edges, m - 1, n);
    }
  }

  lemma {:induction false} AllBinned(density: seq<real>, edges: seq<int>, m: nat, n: nat)
    requires n <= |density|
    requires forall k :: 0 <= k < n ==> 1 <= Digitize(density[k], edges) <= m
    ensures BinnedUpTo(density, edges, m, n) == n
  {
    if n > 0 {
      AllBinned(density, edges, m, n - 1);
    }
  }

  lemma {:induction false} BinnedAtMost(density: seq<real>, edges: seq<int>, m: nat, n: nat)
    requires n <= |density|
    ensures BinnedUpTo(density, edges, m, n) <= n
  {
    if n > 0 {
      BinnedAtMost(density, edges, m, n - 1);
    }
  }

  /**
   * With the intended edges, for non-negative densities the bucket sizes add
   * up to the number of densities: every density is in exactly one bucket.
   */
  lemma IntendedCountsTotal(density: seq<real>, binSize: nat, edges: seq<int>)
    requires |density| > 0 && binSize >= 1 && MinOf(density) >= 0.0
    requires edges == DensityEdges(MinOf(density), MaxOf(density), binSize)
    ensures |edges| >= 2 && CountsUpTo(density, edges, |edges| - 1, |density|) == |density|
  {
    var lo, hi := MinOf(density), MaxOf(density);
    IntendedEdgesCover(lo, hi, binSize, lo);
    forall k | 0 <= k < |density| ensures 1 <= Digitize(density[k], edges) <= |edges| - 1 {
      IntendedEdgesCover(lo, hi, binSize, density[k]);
    }
    AllBinned(density, edges, |edges| - 1, |density|);
    CountsAreBinned(density, edges, |edges| - 1, |density|);
  }

  // ---- the edges as written ----

  /**
   * As written, the largest density is at or above the last edge, so
   * `np.digitize` puts it past the last bucket: it is in no bucket.
   */
  lemma SourceMissesLargest(lo: real, hi: real, binSize: nat)
    requires 0.0 <= lo <= hi && binSize >= 1
    ensures |SourceEdges(lo, hi, binSize)| >= 1
    ensures Digitize(hi, SourceEdges(lo, hi, binSize)) == |SourceEdges(lo, hi, binSize)|
  {
    var edges := SourceEdges(lo, hi, binSize);
    var nq, mq := BucketOf(lo, binSize), BucketOf(hi, binSize);
    BucketBounds(lo, hi, binSize, nq, mq);
    SourceEdgesShape(lo, hi, binSize, nq, mq);
    MultiplesIncreasing(nq, mq - nq + 1, binSize);
    DigitizeCounts(hi, edges);
    assert edges[|edges| - 1] == mq * binSize;
  }

  /** As written, the bucket sizes add up to fewer than the number of densities. */
  lemma SourceCountsShort(density: seq<real>, binSize: nat, edges: seq<int>)
    requires |density| > 0 && binSize >= 1 && MinOf(density) >= 0.0
    requires edges == SourceEdges(MinOf(density), MaxOf(density), binSize)
    ensures |edges| >= 1 && CountsUpTo(density, edges, |edges| - 1, |density|) < |density|
  {
    var hi := MaxOf(density);
    SourceMissesLargest(MinOf(density), hi, binSize);
    var m := |edges| - 1;
    var top :| 0 <= top < |density| && density[top] == hi;
    BinnedSkipping(density, edges, m, |density|, top);
    CountsAreBinned(density, edges, m, |density|);
  }

  /** A density outside the buckets `1 .. m` leaves at least one density unbinned. */
  lemma {:induction false} BinnedSkipping(density: seq<real>, edges: seq<int>, m: nat, n: nat, top: nat)
    requires n <= |density| && top < n && !(1 <= Digitize(density[top], edges) <= m)
    ensures BinnedUpTo(density, edges, m, n) < n
  {
    if top == n - 1 {
      BinnedAtMost(density, edges, m, n - 1);
    } else {
      BinnedSkipping(density, edges, m, n - 1, top);
    }
  }

  /**
   * A single density of 150 with buckets of 100: as written the edges are
   * `[100]`, no bucket at all, and the density is counted nowhere; with the
   * intended edges `[100, 200]` it is counted once, in the first bucket.
   */
  lemma SourceSingleDensity()
    ensures SourceEdges(MinOf([150.0]), MaxOf([150.0]), 100) == [100]
    ensures CountsUpTo([150.0], [100], 0, 1) == 0
    ensures DensityEdges(MinOf([150.0]), MaxOf([150.0]), 100) == [100, 200]
    ensures CountsUpTo([150.0], [100, 200], 1, 1) == 1
  {
    assert MinOf([150.0]) == 150.0 && MaxOf([150.0]) == 150.0;
    assert BucketOf(150.0, 100) == 1 by {
      assert 150.0 / (100 as real) == 1.5;
    }
    assert IntArange(200, 200, 100) == [];
    assert IntArange(300, 300, 100) == [];
    assert Digitize(150.0, [100, 200]) == 1 by {
      assert [100, 200][..1] == [100];
      assert [100][..0] == [];
    }
    assert InBucket([150.0], [100, 200], 1, 1) == [0] by {
      assert InBucket([150.0], [100, 200], 1, 0) == [];
    }
  }

  // ---- the statistics ----

  /** The bucket mean times the bucket size is the members' sum, and the members' common value when they agree. */
  lemma BucketMeanProperties(vs: seq<real>, c: real)
    ensures BucketMean(vs) * (|vs| as real) == Sum(vs)
    ensures |vs| > 0 && (forall i :: 0 <= i < |vs| ==> vs[i] == c) ==> BucketMean(vs) == c
  {
    if |vs| > 0 && forall i :: 0 <= i < |vs| ==> vs[i] == c {
      MeanOfConstant(vs, c);
    }
  }

  /** The bucket std is non-negative, and 0 when all members agree. */
  lemma BucketStdProperties(vs: seq<real>, sqrt: real -> real)
    requires IsSqrt(sqrt)
    ensures BucketStd(vs, sqrt) >= 0.0
    ensures (forall i, j :: 0 <= i < |vs| && 0 <= j < |vs| ==> vs[i] == vs[j]) ==> BucketStd(vs, sqrt) == 0.0
  {
    if |vs| > 1 {
      var m := Mean(vs).value;
      SquaredDeviationsSum(vs, m);
      var q := Sum(SquaredDeviations(vs, m)) / ((|vs| - 1) as real);
      assert q >= 0.0;
      if forall i, j :: 0 <= i < |vs| && 0 <= j < |vs| ==> vs[i] == vs[j] {
        MeanOfConstant(vs, vs[0]);
        SquaredDeviationsSum(vs, vs[0]);
        SqrtOfZero(sqrt);
      }
    }
  }
}
