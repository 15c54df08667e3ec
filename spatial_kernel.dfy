/**
 * The per-frame kernel of the spatial correlation (the three `*_loopv2`
 * routines).  For every bin and every centre entity `j` it selects the
 * neighbours `k` (the centre itself included) whose distance from `j` falls in
 * the bin, adds their number to the bin's pair count, adds the sum of their
 * products divided by the squared rms to the bin's value, and unmasks the bin.
 * The three routines differ only in the product and the squared rms, so the
 * model takes both as inputs: `prods[j][k]` is the product of centre `j` with
 * neighbour `k`, and `norm2` is `rms**2`.
 */
module SpatialKernel {
  import opened Num
  import opened Bins

  /** The compressed positions of one frame and the pair products. */
  datatype Frame = Frame(xs: seq<real>, ys: seq<real>, prods: seq<seq<real>>)

  /** `n` positions and an `n` by `n` product matrix. */
  predicate Square(fr: Frame)
  {
    && |fr.ys| == |fr.xs| && |fr.prods| == |fr.xs|
    && forall j :: 0 <= j < |fr.prods| ==> |fr.prods[j]| == |fr.xs|
  }

  function Size(fr: Frame): nat
  {
    |fr.xs|
  }

  /** Squared distance from centre `j` to neighbour `k`. */
  function Dist2(fr: Frame, j: nat, k: nat): (r: real)
    requires Square(fr) && j < Size(fr) && k < Size(fr)
    ensures r >= 0.0
    ensures j == k ==> r == 0.0
  {
    var dx := fr.xs[k] - fr.xs[j];
    var dy := fr.ys[k] - fr.ys[j];
    SquareNonNegative(dx);
    SquareNonNegative(dy);
    dx * dx + dy * dy
  }

  /** `np.sum(bool_in_bin)` over the neighbours `0 .. m-1` of centre `j`. */
  function RowCount(fr: Frame, edges: seq<real>, b: nat, j: nat, m: nat): nat
    requires Square(fr) && j < Size(fr) && m <= Size(fr) && b + 1 < |edges|
  {
    if m == 0 then 0
    else RowCount(fr, edges, b, j, m - 1) + (if InBin(Dist2(fr, j, m - 1), edges, b) then 1 else 0)
  }

  /** Sum of the products of centre `j` with its neighbours `0 .. m-1` in bin `b`. */
  function RowSum(fr: Frame, edges: seq<real>, b: nat, j: nat, m: nat): real
    requires Square(fr) && j < Size(fr) && m <= Size(fr) && b + 1 < |edges|
  {
    if m == 0 then 0.0
    else RowSum(fr, edges, b, j, m - 1) + (if InBin(Dist2(fr, j, m - 1), edges, b) then fr.prods[j][m - 1] else 0.0)
  }

  /** `np.sum(products / rms**2)` over the neighbours `0 .. m-1` of centre `j` in bin `b`. */
  function RowValue(fr: Frame, norm2: Num, edges: seq<real>, b: nat, j: nat, m: nat): Num
    requires Square(fr) && j < Size(fr) && m <= Size(fr) && b + 1 < |edges|
  {
    if m == 0 then Finite(0.0)
    else
      var acc := RowValue(fr, norm2, edges, b, j, m - 1);
      if InBin(Dist2(fr, j, m - 1), edges, b) then Add(acc, Div(Finite(fr.prods[j][m - 1]), norm2)) else acc
  }

  /** Pairs in bin `b` whose centre is one of `0 .. m-1`. */
  function BinCount(fr: Frame, edges: seq<real>, b: nat, m: nat): nat
    requires Square(fr) && m <= Size(fr) && b + 1 < |edges|
  {
    if m == 0 then 0
    else BinCount(fr, edges, b, m - 1) + RowCount(fr, edges, b, m - 1, Size(fr))
  }

  /** Sum of the products of the pairs in bin `b` whose centre is one of `0 .. m-1`. */
  function BinSum(fr: Frame, edges: seq<real>, b: nat, m: nat): real
    requires Square(fr) && m <= Size(fr) && b + 1 < |edges|
  {
    if m == 0 then 0.0
    else BinSum(fr, edges, b, m - 1) + RowSum(fr, edges, b, m - 1, Size(fr))
  }

  /** The accumulated value of bin `b` after the centres `0 .. m-1`. */
  function BinValue(fr: Frame, norm2: Num, edges: seq<real>, b: nat, m: nat): Num
    requires Square(fr) && m <= Size(fr) && b + 1 < |edges|
  {
    if m == 0 then Finite(0.0)
    else
      var acc := BinValue(fr, norm2, edges, b, m - 1);
      if RowCount(fr, edges, b, m - 1, Size(fr)) > 0 then Add(acc, RowValue(fr, norm2, edges, b, m - 1, Size(fr)))
      else acc
  }

  /** What a kernel returns: pair counts, values, and the mask shared by both. */
  datatype KernelOut = KernelOut(counts: seq<nat>, values: seq<Num>, masked: seq<bool>)

  /** The kernel's result for a frame: per bin, its count, its value, and masked when empty. */
  function KernelSpec(fr: Frame, norm2: Num, edges: seq<real>): (r: KernelOut)
    requires Square(fr) && |edges| >= 1
    ensures |r.counts| == |r.values| == |r.masked| == |edges| - 1
  {
    var nb := |edges| - 1;
    KernelOut(
      seq(nb, b requires 0 <= b < nb => BinCount(fr, edges, b, Size(fr))),
      seq(nb, b requires 0 <= b < nb => BinValue(fr, norm2, edges, b, Size(fr))),
      seq(nb, b requires 0 <= b < nb => BinCount(fr, edges, b, Size(fr)) == 0))
  }

  /**
   * The neighbours of centre `j` in bin `b`: their number (`np.sum(bool_in_bin)`)
   * and the sum of their products divided by `rms**2`.
   */
  method Neighbours(fr: Frame, norm2: Num, edges: seq<real>, b: nat, j: nat) returns (inBin: nat, acc: Num)
    requires Square(fr) && j < Size(fr) && b + 1 < |edges|
    ensures inBin == RowCount(fr, edges, b, j, Size(fr))
    ensures acc == RowValue(fr, norm2, edges, b, j, Size(fr))
  {
    inBin, acc := 0, Finite(0.0);
    for k := 0 to Size(fr)
      invariant inBin == RowCount(fr, edges, b, j, k)
      invariant acc == RowValue(fr, norm2, edges, b, j, k)
    {
      if InBin(Dist2(fr, j, k), edges, b) {
        inBin := inBin + 1;
        acc := Add(acc, Div(Finite(fr.prods[j][k]), norm2));
      }
    }
  }

  /**
   * The centre loop of bin `b`: every centre with neighbours in the bin adds
   * their number and normalised products to the bin and unmasks it.  The
   * other bins are left alone.
   */
  method BinRow(fr: Frame, norm2: Num, edges: seq<real>, b: nat, counts: array<nat>, values: array<Num>, masked: array<bool>)
    requires Square(fr) && b + 1 < |edges| && b < counts.Length == values.Length == masked.Length
    requires counts[b] == 0 && values[b] == Finite(0.0) && masked[b]
    modifies counts, values, masked
    ensures counts[b] == BinCount(fr, edges, b, Size(fr))
    ensures values[b] == BinValue(fr, norm2, edges, b, Size(fr))
    ensures masked[b] == (BinCount(fr, edges, b, Size(fr)) == 0)
    ensures forall c :: 0 <= c < counts.Length && c != b ==>
              counts[c] == old(counts[c]) && values[c] == old(values[c]) && masked[c] == old(masked[c])
  {
    for j := 0 to Size(fr)
      invariant counts[b] == BinCount(fr, edges, b, j)
      invariant values[b] == BinValue(fr, norm2, edges, b, j)
      invariant masked[b] == (BinCount(fr, edges, b, j) == 0)
      invariant forall c :: 0 <= c < counts.Length && c != b ==>
                  counts[c] == old(counts[c]) && values[c] == old(values[c]) && masked[c] == old(masked[c])
    {
      var inBin, acc := Neighbours(fr, norm2, edges, b, j);
      if inBin > 0 {
        masked[b] := false;
        counts[b] := counts[b] + inBin;
        values[b] := Add(values[b], acc);
      }
    }
  }

  /**
   * `*_correlation_loopv2`: starts from zero counts and values with every bin
   * masked, and accumulates bin by bin and centre by centre.
   */
  method BinKernel(fr: Frame, norm2: Num, edges: seq<real>) returns (out: KernelOut)
    requires Square(fr) && |edges| >= 1
    ensures out == KernelSpec(fr, norm2, edges)
  {
    var nb := |edges| - 1;
    var n := Size(fr);
    var counts := new nat[nb](_ => 0);
    var values := new Num[nb](_ => Finite(0.0));
    var masked := new bool[nb](_ => true);
    for b := 0 to nb
      invariant forall c :: 0 <= c < b ==> counts[c] == BinCount(fr, edges, c, n)
      invariant forall c :: 0 <= c < b ==> values[c] == BinValue(fr, norm2, edges, c, n)
      invariant forall c :: 0 <= c < b ==> masked[c] == (BinCount(fr, edges, c, n) == 0)
      invariant forall c :: b <= c < nb ==> counts[c] == 0 && values[c] == Finite(0.0) && masked[c]
    {
      BinRow(fr, norm2, edges, b, counts, values, masked);
    }
    out := KernelOut(counts[..], values[..], masked[..]);
  }

  lemma DivideSum(a: real, p: real, n: real)
    requires n != 0.0
    ensures a / n + p / n == (a + p) / n
  {
  }

  /**
   * Dividing each product by `rms**2` and summing is dividing the sum: a row
   * with neighbours in the bin is worth `RowSum / rms**2` (non-finite when
   * `rms**2` is zero or not finite), and a row without is worth 0.
   */
  lemma {:induction false} RowValueClosedForm(fr: Frame, norm2: Num, edges: seq<real>, b: nat, j: nat, m: nat)
    requires Square(fr) && j < Size(fr) && m <= Size(fr) && b + 1 < |edges|
    ensures RowCount(fr, edges, b, j, m) == 0 ==> RowSum(fr, edges, b, j, m) == 0.0
    ensures RowValue(fr, norm2, edges, b, j, m) ==
            if RowCount(fr, edges, b, j, m) == 0 then Finite(0.0)
            else Div(Finite(RowSum(fr, edges, b, j, m)), norm2)
  {
    if m > 0 {
      RowValueClosedForm(fr, norm2, edges, b, j, m - 1);
      if InBin(Dist2(fr, j, m - 1), edges, b) && norm2.Finite? && norm2.value != 0.0 {
        DivideSum(RowSum(fr, edges, b, j, m - 1), fr.prods[j][m - 1], norm2.value);
      }
    }
  }

  /**
   * The value of a bin is the sum of the products of all its pairs divided by
   * `rms**2`, or 0 for a bin without pairs.
   */
  lemma {:induction false} BinValueClosedForm(fr: Frame, norm2: Num, edges: seq<real>, b: nat, m: nat)
    requires Square(fr) && m <= Size(fr) && b + 1 < |edges|
    ensures BinCount(fr, edges, b, m) == 0 ==> BinSum(fr, edges, b, m) == 0.0
    ensures BinValue(fr, norm2, edges, b, m) ==
            if BinCount(fr, edges, b, m) == 0 then Finite(0.0)
            else Div(Finite(BinSum(fr, edges, b, m)), norm2)
  {
    if m > 0 {
      BinValueClosedForm(fr, norm2, edges, b, m - 1);
      RowValueClosedForm(fr, norm2, edges, b, m - 1, Size(fr));
      if RowCount(fr, edges, b, m - 1, Size(fr)) > 0 && norm2.Finite? && norm2.value != 0.0 {
        DivideSum(BinSum(fr, edges, b, m - 1), RowSum(fr, edges, b, m - 1, Size(fr)), norm2.value);
      }
    }
  }

  /** Every centre is its own neighbour at distance zero, so it contributes to bin 0. */
  lemma {:induction false} SelfPairInZeroBin(fr: Frame, edges: seq<real>, j: nat, m: nat)
    requires Square(fr) && j < m <= Size(fr) && 1 < |edges|
    ensures RowCount(fr, edges, 0, j, m) >= 1
  {
    if m - 1 > j {
      SelfPairInZeroBin(fr, edges, j, m - 1);
    }
  }

  /** Bin 0 holds at least the `n` self pairs, so in a frame with entities it is never masked. */
  lemma {:induction false} ZeroBinHoldsSelfPairs(fr: Frame, edges: seq<real>, m: nat)
    requires Square(fr) && m <= Size(fr) && 1 < |edges|
    ensures BinCount(fr, edges, 0, m) >= m
  {
    if m > 0 {
      ZeroBinHoldsSelfPairs(fr, edges, m - 1);
      SelfPairInZeroBin(fr, edges, m - 1, Size(fr));
    }
  }

  /** No two entities of the frame share a position. */
  predicate DistinctPositions(fr: Frame)
    requires Square(fr)
  {
    forall j, k :: 0 <= j < Size(fr) && 0 <= k < Size(fr) && j != k ==> Dist2(fr, j, k) != 0.0
  }

  /** Sum of the self products `prods[j][j]` of the centres `0 .. m-1`. */
  function DiagonalSum(fr: Frame, m: nat): real
    requires Square(fr) && m <= Size(fr)
  {
    if m == 0 then 0.0 else DiagonalSum(fr, m - 1) + fr.prods[m - 1][m - 1]
  }

  lemma {:induction false} ZeroBinRowIsSelf(fr: Frame, edges: seq<real>, j: nat, m: nat)
    requires Square(fr) && j < Size(fr) && m <= Size(fr) && 1 < |edges| && DistinctPositions(fr)
    ensures RowCount(fr, edges, 0, j, m) == (if j < m then 1 else 0)
    ensures RowSum(fr, edges, 0, j, m) == (if j < m then fr.prods[j][j] else 0.0)
  {
    if m > 0 {
      ZeroBinRowIsSelf(fr, edges, j, m - 1);
    }
  }

  /** With distinct positions, bin 0 holds exactly the self pairs. */
  lemma {:induction false} ZeroBinIsSelfPairs(fr: Frame, edges: seq<real>, m: nat)
    requires Square(fr) && m <= Size(fr) && 1 < |edges| && DistinctPositions(fr)
    ensures BinCount(fr, edges, 0, m) == m
    ensures BinSum(fr, edges, 0, m) == DiagonalSum(fr, m)
  {
    if m > 0 {
      ZeroBinIsSelfPairs(fr, edges, m - 1);
      ZeroBinRowIsSelf(fr, edges, m - 1, Size(fr));
    }
  }

  /**
   * Self-normalisation of bin 0: when the positions are distinct and `rms**2`
   * is the non-zero mean of the self products, bin 0 holds `n` pairs and its
   * value is `n`, so the normalised correlation at distance zero is 1.
   */
  lemma ZeroBinIsOne(fr: Frame, norm2: Num, edges: seq<real>)
    requires Square(fr) && 1 < |edges| && DistinctPositions(fr)
    requires norm2.Finite? && norm2.value != 0.0
    requires norm2.value * (Size(fr) as real) == DiagonalSum(fr, Size(fr))
    ensures BinCount(fr, edges, 0, Size(fr)) == Size(fr)
    ensures BinValue(fr, norm2, edges, 0, Size(fr)) == Finite(Size(fr) as real)
  {
    DivideProduct(norm2, Size(fr) as real, DiagonalSum(fr, Size(fr)));
    ZeroBinIsSelfPairs(fr, edges, Size(fr));
    BinValueClosedForm(fr, norm2, edges, 0, Size(fr));
  }

  lemma DivideProduct(norm2: Num, n: real, d: real)
    requires norm2.Finite? && norm2.value != 0.0 && norm2.value * n == d
    ensures Div(Finite(d), norm2) == Finite(n)
  {
  }

  // ---- every pair within the last edge is counted in exactly one bin ----

  /** Pairs of centre `j` with neighbours `0 .. m-1`, summed over the bins `0 .. c-1`. */
  function RowAcrossBins(fr: Frame, edges: seq<real>, j: nat, m: nat, c: nat): nat
    requires Square(fr) && j < Size(fr) && m <= Size(fr) && c < |edges|
  {
    if c == 0 then 0 else RowAcrossBins(fr, edges, j, m, c - 1) + RowCount(fr, edges, c - 1, j, m)
  }

  /** Bin counts summed over the bins `0 .. c-1`, counting centres `0 .. m-1`. */
  function CountTotal(fr: Frame, edges: seq<real>, c: nat, m: nat): nat
    requires Square(fr) && m <= Size(fr) && c < |edges|
  {
    if c == 0 then 0 else CountTotal(fr, edges, c - 1, m) + BinCount(fr, edges, c - 1, m)
  }

  function PerRow(fr: Frame, edges: seq<real>, c: nat, m: nat): nat
    requires Square(fr) && m <= Size(fr) && c < |edges|
  {
    if m == 0 then 0 else PerRow(fr, edges, c, m - 1) + RowAcrossBins(fr, edges, m - 1, Size(fr), c)
  }

  function RowHolding(fr: Frame, edges: seq<real>, j: nat, m: nat): nat
    requires Square(fr) && j < Size(fr) && m <= Size(fr) && 1 <= |edges|
  {
    if m == 0 then 0
    else RowHolding(fr, edges, j, m - 1) + BinsHolding(Dist2(fr, j, m - 1), edges, |edges| - 1)
  }

  /** Neighbours `0 .. m-1` of centre `j` at squared distance at most `lim2`. */
  function RowWithin(fr: Frame, lim2: real, j: nat, m: nat): nat
    requires Square(fr) && j < Size(fr) && m <= Size(fr)
  {
    if m == 0 then 0
    else RowWithin(fr, lim2, j, m - 1) + (if Dist2(fr, j, m - 1) <= lim2 then 1 else 0)
  }

  /** Ordered pairs (self pairs included) with centre among `0 .. m-1` and squared distance at most `lim2`. */
  function PairsWithin(fr: Frame, lim2: real, m: nat): nat
    requires Square(fr) && m <= Size(fr)
  {
    if m == 0 then 0 else PairsWithin(fr, lim2, m - 1) + RowWithin(fr, lim2, m - 1, Size(fr))
  }

  lemma {:induction false} RowAcrossNoNeighbours(fr: Frame, edges: seq<real>, j: nat, c: nat)
    requires Square(fr) && j < Size(fr) && c < |edges|
    ensures RowAcrossBins(fr, edges, j, 0, c) == 0
  {
    if c > 0 {
      RowAcrossNoNeighbours(fr, edges, j, c - 1);
    }
  }

  lemma {:induction false} RowAcrossOneMore(fr: Frame, edges: seq<real>, j: nat, m: nat, c: nat)
    requires Square(fr) && j < Size(fr) && m < Size(fr) && c < |edges|
    ensures RowAcrossBins(fr, edges, j, m + 1, c) ==
            RowAcrossBins(fr, edges, j, m, c) + BinsHolding(Dist2(fr, j, m), edges, c)
  {
    if c > 0 {
      RowAcrossOneMore(fr, edges, j, m, c - 1);
    }
  }

  lemma {:induction false} RowAcrossIsHolding(fr: Frame, edges: seq<real>, j: nat, m: nat)
    requires Square(fr) && j < Size(fr) && m <= Size(fr) && 1 <= |edges|
    ensures RowAcrossBins(fr, edges, j, m, |edges| - 1) == RowHolding(fr, edges, j, m)
  {
    if m == 0 {
      RowAcrossNoNeighbours(fr, edges, j, |edges| - 1);
    } else {
      RowAcrossIsHolding(fr, edges, j, m - 1);
      RowAcrossOneMore(fr, edges, j, m - 1, |edges| - 1);
    }
  }

  lemma {:induction false} PerRowNoBins(fr: Frame, edges: seq<real>, m: nat)
    requires Square(fr) && m <= Size(fr) && 1 <= |edges|
    ensures PerRow(fr, edges, 0, m) == 0
  {
    if m > 0 {
      PerRowNoBins(fr, edges, m - 1);
    }
  }

  lemma {:induction false} PerRowOneMoreBin(fr: Frame, edges: seq<real>, c: nat, m: nat)
    requires Square(fr) && m <= Size(fr) && c + 1 < |edges|
    ensures PerRow(fr, edges, c + 1, m) == PerRow(fr, edges, c, m) + BinCount(fr, edges, c, m)
  {
    if m > 0 {
      PerRowOneMoreBin(fr, edges, c, m - 1);
    }
  }

  lemma {:induction false} CountTotalIsPerRow(fr: Frame, edges: seq<real>, c: nat)
    requires Square(fr) && c < |edges|
    ensures CountTotal(fr, edges, c, Size(fr)) == PerRow(fr, edges, c, Size(fr))
  {
    if c == 0 {
      PerRowNoBins(fr, edges, Size(fr));
    } else {
      CountTotalIsPerRow(fr, edges, c - 1);
      PerRowOneMoreBin(fr, edges, c - 1, Size(fr));
    }
  }

  lemma {:induction false} HoldingIsWithin(fr: Frame, dr: real, rMax: real, j: nat, m: nat)
    requires Square(fr) && j < Size(fr) && m <= Size(fr) && dr > 0.0
    requires |BinEdges(dr, rMax)| >= 2
    ensures var e := BinEdges(dr, rMax);
            RowHolding(fr, e, j, m) == RowWithin(fr, e[|e| - 1] * e[|e| - 1], j, m)
  {
    if m > 0 {
      HoldingIsWithin(fr, dr, rMax, j, m - 1);
      ExactlyOneBin(Dist2(fr, j, m - 1), dr, rMax);
    }
  }

  lemma {:induction false} PerRowIsPairsWithin(fr: Frame, dr: real, rMax: real, m: nat)
    requires Square(fr) && m <= Size(fr) && dr > 0.0
    requires |BinEdges(dr, rMax)| >= 2
    ensures var e := BinEdges(dr, rMax);
            PerRow(fr, e, |e| - 1, m) == PairsWithin(fr, e[|e| - 1] * e[|e| - 1], m)
  {
    var e := BinEdges(dr, rMax);
    if m > 0 {
      PerRowIsPairsWithin(fr, dr, rMax, m - 1);
      RowAcrossIsHolding(fr, e, m - 1, Size(fr));
      HoldingIsWithin(fr, dr, rMax, m - 1, Size(fr));
    }
  }

  /**
   * The pair counts of all bins add up to the number of ordered pairs, self
   * pairs included, whose distance is at most the last edge.
   */
  lemma BinCountsCoverPairs(fr: Frame, dr: real, rMax: real)
    requires Square(fr) && dr > 0.0
    requires |BinEdges(dr, rMax)| >= 2
    ensures var e := BinEdges(dr, rMax);
            CountTotal(fr, e, |e| - 1, Size(fr)) == PairsWithin(fr, e[|e| - 1] * e[|e| - 1], Size(fr))
  {
    var e := BinEdges(dr, rMax);
    CountTotalIsPerRow(fr, e, |e| - 1);
    PerRowIsPairsWithin(fr, dr, rMax, Size(fr));
  }

  lemma {:induction false} AllNeighboursWithin(fr: Frame, lim2: real, j: nat, m: nat)
    requires Square(fr) && j < Size(fr) && m <= Size(fr)
    requires forall k :: 0 <= k < Size(fr) ==> Dist2(fr, j, k) <= lim2
    ensures RowWithin(fr, lim2, j, m) == m
  {
    if m > 0 {
      AllNeighboursWithin(fr, lim2, j, m - 1);
    }
  }

  /** When every distance is within `lim2`, all `m * n` ordered pairs are. */
  lemma {:induction false} AllPairsWithin(fr: Frame, lim2: real, m: nat)
    requires Square(fr) && m <= Size(fr)
    requires forall j, k :: 0 <= j < Size(fr) && 0 <= k < Size(fr) ==> Dist2(fr, j, k) <= lim2
    ensures PairsWithin(fr, lim2, m) == m * Size(fr)
  {
    if m > 0 {
      var n := Size(fr);
      AllPairsWithin(fr, lim2, m - 1);
      AllNeighboursWithin(fr, lim2, m - 1, n);
      calc {
        PairsWithin(fr, lim2, m);
        == (m - 1) * n + n;
        == m * n;
      }
    }
  }
}
