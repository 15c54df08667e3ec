/**
 * The temporal correlation routines (`scalar_temporal_correlation`,
 * `scalar_vector_temporal_correlation`, `vector_temporal_correlation`).  The
 * three share one structure, modelled once over `Operands`: for every frame
 * `i` whose reference row has a valid entry and every later frame `j >= i`
 * with one too, restrict to the entities selected in both frames, write the
 * normalised mean contraction at `C_norm[i, j-i]` and the bookkeeping entries
 * `N[i, j]` and `delta_f[i, j]`; finally keep the first `t_max` columns of
 * all three.
 */
module Temporal {
  import opened Wrappers
  import opened Num
  import opened Masked
  import opened Operands

  // ---- the entities a frame pair is computed over ----

  /** The entities among the first `n` selected in both frame `i` and frame `j`, in increasing order. */
  function OverlapUpTo(ops: Operands, i: nat, j: nat, n: nat): (r: seq<nat>)
    requires WellShaped(ops) && i < Frames(ops) && j < Frames(ops) && n <= Entities(ops)
    ensures forall k :: 0 <= k < |r| ==> r[k] < n && Selected(ops, i, r[k]) && Selected(ops, j, r[k])
    ensures forall e :: 0 <= e < n && Selected(ops, i, e) && Selected(ops, j, e) ==> e in r
    ensures forall k, l :: 0 <= k < l < |r| ==> r[k] < r[l]
  {
    if n == 0 then []
    else
      var init := OverlapUpTo(ops, i, j, n - 1);
      if Selected(ops, i, n - 1) && Selected(ops, j, n - 1) then init + [n - 1] else init
  }

  /** `bool_ok = bool_oki * bool_okj`, as the list of entities it keeps. */
  function Overlap(ops: Operands, i: nat, j: nat): (r: seq<nat>)
    requires WellShaped(ops) && i < Frames(ops) && j < Frames(ops)
    ensures forall k :: 0 <= k < |r| ==> r[k] < Entities(ops)
  {
    OverlapUpTo(ops, i, j, Entities(ops))
  }

  /**
   * The contraction of every entity in `es`, the first observable taken at
   * frame `a` and the second at frame `b`: the products whose mean the
   * source takes over the compressed rows.
   */
  function Contraction(ops: Operands, a: nat, b: nat, es: seq<nat>): (r: seq<real>)
    requires WellShaped(ops) && a < Frames(ops) && b < Frames(ops)
    requires forall k :: 0 <= k < |es| ==> es[k] < Entities(ops)
    ensures |r| == |es| && forall k :: 0 <= k < |es| ==> r[k] == Contract(ops, a, b, es[k])
  {
    seq(|es|, k requires 0 <= k < |es| => Contract(ops, a, b, es[k]))
  }

  /**
   * The mean contraction over the entities selected in both frame `i` and
   * frame `j`, the first observable taken at frame `a` and the second at
   * frame `b`: `np.ma.mean(var1_a * var2_b)` over the compressed rows.
   */
  function OverlapMean(ops: Operands, i: nat, j: nat, a: nat, b: nat): (r: real)
    requires WellShaped(ops) && i < Frames(ops) && j < Frames(ops) && a < Frames(ops) && b < Frames(ops)
    requires |Overlap(ops, i, j)| > 0
  {
    Mean(Contraction(ops, a, b, Overlap(ops, i, j))).value
  }

  /** `m / sqrt(abs(ai * aj))`, inf or NaN when the root is zero. */
  function Normalise(sqrt: real -> real, m: real, ai: real, aj: real): Num
  {
    Div(Finite(m), Finite(sqrt(Abs(ai * aj))))
  }

  /**
   * The value written at `C_norm[i, j-i]`: `mean(a_i*b_j)` divided by
   * `sqrt(|mean(a_i*b_i) * mean(a_j*b_j)|)`.  With no entity selected in
   * both frames the means are NaN, `np.ma.sqrt` masks the NaN and the entry
   * stays masked (`None`); a zero `rms` gives inf or NaN, written unmasked.
   */
  function TemporalValue(ops: Operands, sqrt: real -> real, i: nat, j: nat): (r: Option<Num>)
    requires WellShaped(ops) && i < Frames(ops) && j < Frames(ops)
    ensures r.Some? <==> |Overlap(ops, i, j)| > 0
  {
    if |Overlap(ops, i, j)| == 0 then None
    else Some(Normalise(sqrt, OverlapMean(ops, i, j, i, j), OverlapMean(ops, i, j, i, i), OverlapMean(ops, i, j, j, j)))
  }

  // ---- the three tables ----

  /** `C_norm`, `N` and `delta_f`; `None` is a masked entry. */
  datatype TemporalOut = TemporalOut(
    cNorm: seq<seq<Option<Num>>>,
    pairs: seq<seq<Option<nat>>>,
    deltaF: seq<seq<Option<nat>>>)

  /** Frames `i <= j` that both hold a valid reference entry: the pairs the loops write. */
  predicate Written(ops: Operands, i: nat, j: nat)
    requires WellShaped(ops) && i < Frames(ops) && j < Frames(ops)
  {
    i <= j && Valid(ops, i) > 0 && Valid(ops, j) > 0
  }

  /** `C_norm[i, c]` before the slice: the value of frames `i` and `i + c`. */
  function FullValue(ops: Operands, sqrt: real -> real, i: nat, c: nat): Option<Num>
    requires WellShaped(ops) && i < Frames(ops)
  {
    if i + c < Frames(ops) && Written(ops, i, i + c) then TemporalValue(ops, sqrt, i, i + c) else None
  }

  /** `N[i, j]` before the slice. */
  function FullPairs(ops: Operands, i: nat, j: nat): Option<nat>
    requires WellShaped(ops) && i < Frames(ops) && j < Frames(ops)
  {
    if Written(ops, i, j) then Some(Min(Valid(ops, i), Valid(ops, j))) else None
  }

  /** `delta_f[i, j]` before the slice. */
  function FullLag(ops: Operands, i: nat, j: nat): Option<nat>
    requires WellShaped(ops) && i < Frames(ops) && j < Frames(ops)
  {
    if Written(ops, i, j) then Some(j - i) else None
  }

  /** Python's `stop` of `[:t_max]` on an axis of length `n`, with `None` for no limit. */
  function SliceStop(tMax: Option<int>, n: nat): (r: nat)
    ensures r <= n
  {
    match tMax
    case None => n
    case Some(t) => if t >= n then n else if t >= 0 then t else if n + t >= 0 then n + t else 0
  }

  /** `a[:, :t]` on a table whose rows all have at least `t` entries. */
  function SliceColumns<T>(rows: seq<seq<T>>, t: nat): (r: seq<seq<T>>)
    requires forall a :: 0 <= a < |rows| ==> t <= |rows[a]|
    ensures |r| == |rows| && forall a :: 0 <= a < |r| ==> r[a] == rows[a][..t]
  {
    seq(|rows|, a requires 0 <= a < |rows| => rows[a][..t])
  }

  /** The three square tables once every frame pair has been visited. */
  function Full(ops: Operands, sqrt: real -> real): (r: TemporalOut)
    requires WellShaped(ops)
    ensures |r.cNorm| == |r.pairs| == |r.deltaF| == Frames(ops)
    ensures forall a :: 0 <= a < Frames(ops) ==> |r.cNorm[a]| == |r.pairs[a]| == |r.deltaF[a]| == Frames(ops)
  {
    var frames := Frames(ops);
    TemporalOut(
      seq(frames, a requires 0 <= a < frames => seq(frames, c requires 0 <= c < frames => FullValue(ops, sqrt, a, c))),
      seq(frames, a requires 0 <= a < frames => seq(frames, b requires 0 <= b < frames => FullPairs(ops, a, b))),
      seq(frames, a requires 0 <= a < frames => seq(frames, b requires 0 <= b < frames => FullLag(ops, a, b))))
  }

  /** What the routines return: the tables cut to their first `t_max` columns. */
  function TemporalSpec(ops: Operands, tMax: Option<int>, sqrt: real -> real): (r: TemporalOut)
    requires WellShaped(ops)
    ensures |r.cNorm| == |r.pairs| == |r.deltaF| == Frames(ops)
    ensures forall a :: 0 <= a < Frames(ops) ==>
              |r.cNorm[a]| == |r.pairs[a]| == |r.deltaF[a]| == SliceStop(tMax, Frames(ops))
  {
    var full, t := Full(ops, sqrt), SliceStop(tMax, Frames(ops));
    TemporalOut(SliceColumns(full.cNorm, t), SliceColumns(full.pairs, t), SliceColumns(full.deltaF, t))
  }

  // ---- the state of the loops ----

  /** The pair `(a, b)` comes before `(i0, j0)` in the loops' order. */
  predicate Visited(i0: nat, j0: nat, a: nat, b: nat)
  {
    a < i0 || (a == i0 && b < j0)
  }

  ghost predicate IsSquare<T>(t: seq<seq<T>>)
  {
    forall a :: 0 <= a < |t| ==> |t[a]| == |t|
  }

  /** The column of pair `(a, b)`: the lag `b - a` in `C_norm`, the frame `b` in `N` and `delta_f`. */
  function Column(lagged: bool, a: nat, b: nat): int
  {
    if lagged then b - a else b
  }

  /**
   * The finished table `full` as the loops hold it once every pair before
   * `(i0, j0)` has been visited: an entry whose pair is not yet visited is
   * still `blank`.
   */
  function FilledAfter<T>(full: seq<seq<T>>, blank: T, lagged: bool, i0: nat, j0: nat): (r: seq<seq<T>>)
    requires IsSquare(full)
    ensures |r| == |full| && IsSquare(r)
  {
    seq(|full|, a requires 0 <= a < |full| =>
      seq(|full|, c requires 0 <= c < |full| =>
        if Visited(i0, j0, a, if lagged then a + c else c) then full[a][c] else blank))
  }

  /** Visiting pair `(i, j)` sets its entry and nothing else. */
  lemma FillStep<T>(full: seq<seq<T>>, blank: T, lagged: bool, i: nat, j: nat)
    requires IsSquare(full) && i <= j < |full|
    ensures var p, c := FilledAfter(full, blank, lagged, i, j), Column(lagged, i, j);
            && 0 <= c < |full|
            && FilledAfter(full, blank, lagged, i, j + 1) == p[i := p[i][c := full[i][c]]]
            && (full[i][c] == blank ==> FilledAfter(full, blank, lagged, i, j + 1) == p)
  {
    var p, q, c := FilledAfter(full, blank, lagged, i, j), FilledAfter(full, blank, lagged, i, j + 1), Column(lagged, i, j);
    forall a | 0 <= a < |full|
      ensures q[a] == if a == i then p[i][c := full[i][c]] else p[a]
    {
      forall d | 0 <= d < |full|
        ensures q[a][d] == if a == i && d == c then full[i][c] else p[a][d]
      {
        var b := if lagged then a + d else d;
        assert q[a][d] == if Visited(i, j + 1, a, b) then full[a][d] else blank;
        assert p[a][d] == if Visited(i, j, a, b) then full[a][d] else blank;
      }
    }
    if full[i][c] == blank {
      forall a | 0 <= a < |full| ensures q[a] == p[a] {
        forall d | 0 <= d < |full| ensures q[a][d] == p[a][d] {
        }
      }
    }
  }

  /** Two loop positions that agree on which non-blank entries are visited hold the same table. */
  lemma FillSame<T>(full: seq<seq<T>>, blank: T, lagged: bool, i0: nat, j0: nat, i1: nat, j1: nat)
    requires IsSquare(full)
    requires forall a, c :: 0 <= a < |full| && 0 <= c < |full| && full[a][c] != blank ==>
               (Visited(i0, j0, a, if lagged then a + c else c) <==> Visited(i1, j1, a, if lagged then a + c else c))
    ensures FilledAfter(full, blank, lagged, i0, j0) == FilledAfter(full, blank, lagged, i1, j1)
  {
    var p, q := FilledAfter(full, blank, lagged, i0, j0), FilledAfter(full, blank, lagged, i1, j1);
    forall a | 0 <= a < |full| ensures p[a] == q[a] {
      forall c | 0 <= c < |full| ensures p[a][c] == q[a][c] {
      }
    }
  }

  /** Before the loops every entry is blank, and after them every entry is filled. */
  lemma FillEnds<T>(full: seq<seq<T>>, blank: T, lagged: bool)
    requires IsSquare(full)
    ensures FilledAfter(full, blank, lagged, 0, 0) == seq(|full|, _ => seq(|full|, _ => blank))
    ensures FilledAfter(full, blank, lagged, |full|, 0) == full
  {
    var n := |full|;
    var p, q, e := FilledAfter(full, blank, lagged, 0, 0), FilledAfter(full, blank, lagged, n, 0), seq(n, _ => seq(n, _ => blank));
    forall a | 0 <= a < n ensures p[a] == e[a] && q[a] == full[a] {
      forall c | 0 <= c < n ensures p[a][c] == e[a][c] && q[a][c] == full[a][c] {
        var b := if lagged then a + c else c;
        assert !Visited(0, 0, a, b) && Visited(n, 0, a, b);
      }
    }
  }

  /** The entries of the finished tables: a written pair's values, blank otherwise. */
  lemma FullCell(ops: Operands, sqrt: real -> real, i: nat, j: nat)
    requires WellShaped(ops) && i <= j < Frames(ops)
    ensures var full := Full(ops, sqrt);
            && full.cNorm[i][j - i] == (if Written(ops, i, j) then TemporalValue(ops, sqrt, i, j) else None)
            && full.pairs[i][j] == (if Written(ops, i, j) then Some(Min(Valid(ops, i), Valid(ops, j))) else None)
            && full.deltaF[i][j] == (if Written(ops, i, j) then Some(j - i) else None)
  {
    var full := Full(ops, sqrt);
    var c := j - i;
    assert full.cNorm[i][c] == FullValue(ops, sqrt, i, c);
    assert FullValue(ops, sqrt, i, c) == if Written(ops, i, j) then TemporalValue(ops, sqrt, i, j) else None;
    assert full.pairs[i][j] == FullPairs(ops, i, j);
    assert full.deltaF[i][j] == FullLag(ops, i, j);
  }

  /** The entries of `full` at pair `(i, j)` are those the routines write there. */
  ghost predicate CellAt(ops: Operands, sqrt: real -> real, full: TemporalOut, i: nat, j: nat)
    requires WellShaped(ops) && i <= j < Frames(ops)
  {
    && |full.cNorm| == |full.pairs| == |full.deltaF| == Frames(ops)
    && |full.cNorm[i]| == |full.pairs[i]| == |full.deltaF[i]| == Frames(ops)
    && full.cNorm[i][j - i] == (if Written(ops, i, j) then TemporalValue(ops, sqrt, i, j) else None)
    && full.pairs[i][j] == (if Written(ops, i, j) then Some(Min(Valid(ops, i), Valid(ops, j))) else None)
    && full.deltaF[i][j] == (if Written(ops, i, j) then Some(j - i) else None)
  }

  /** One step of the inner loop: frame `j` with a valid entry writes pair `(i, j)`, any other frame nothing. */
  lemma RowStep(ops: Operands, sqrt: real -> real, full: TemporalOut, i: nat, j: nat,
                cNorm: seq<seq<Option<Num>>>, pairs: seq<seq<Option<nat>>>, deltaF: seq<seq<Option<nat>>>)
    requires WellShaped(ops) && i <= j < Frames(ops) && Valid(ops, i) > 0
    requires IsSquare(full.cNorm) && IsSquare(full.pairs) && IsSquare(full.deltaF)
    requires CellAt(ops, sqrt, full, i, j)
    requires cNorm == FilledAfter(full.cNorm, None, true, i, j)
    requires pairs == FilledAfter(full.pairs, None, false, i, j)
    requires deltaF == FilledAfter(full.deltaF, None, false, i, j)
    ensures i < |cNorm| && j - i < |cNorm[i]| && i < |pairs| && j < |pairs[i]| && i < |deltaF| && j < |deltaF[i]|
    ensures FilledAfter(full.cNorm, None, true, i, j + 1) ==
              if Valid(ops, j) > 0 then cNorm[i := cNorm[i][j - i := TemporalValue(ops, sqrt, i, j)]] else cNorm
    ensures FilledAfter(full.pairs, None, false, i, j + 1) ==
              if Valid(ops, j) > 0 then pairs[i := pairs[i][j := Some(Min(Valid(ops, i), Valid(ops, j)))]] else pairs
    ensures var lag: nat := j - i;
            FilledAfter(full.deltaF, None, false, i, j + 1) ==
              if Valid(ops, j) > 0 then deltaF[i := deltaF[i][j := Some(lag)]] else deltaF
  {
    var w := Valid(ops, j) > 0;
    assert Written(ops, i, j) == w;
    var lag: nat := j - i;
    WriteStep(full.cNorm, None, true, i, j, TemporalValue(ops, sqrt, i, j), w);
    WriteStep(full.pairs, None, false, i, j, Some(Min(Valid(ops, i), Valid(ops, j))), w);
    WriteStep(full.deltaF, None, false, i, j, Some(lag), w);
  }

  /** Visiting pair `(i, j)` writes `v` when `w` holds and leaves the table alone otherwise. */
  lemma WriteStep<T>(full: seq<seq<T>>, blank: T, lagged: bool, i: nat, j: nat, v: T, w: bool)
    requires IsSquare(full) && i <= j < |full|
    requires full[i][Column(lagged, i, j)] == if w then v else blank
    ensures var p, c := FilledAfter(full, blank, lagged, i, j), Column(lagged, i, j);
            FilledAfter(full, blank, lagged, i, j + 1) == if w then p[i := p[i][c := v]] else p
  {
    FillStep(full, blank, lagged, i, j);
  }

  /** Row `i` of the finished tables, as the inner loop writes it. */
  lemma FullRow(ops: Operands, sqrt: real -> real, i: nat)
    requires WellShaped(ops) && i < Frames(ops)
    ensures forall j :: i <= j < Frames(ops) ==> CellAt(ops, sqrt, Full(ops, sqrt), i, j)
  {
    forall j | i <= j < Frames(ops) ensures CellAt(ops, sqrt, Full(ops, sqrt), i, j) {
      FullCell(ops, sqrt, i, j);
    }
  }

  /** Only written pairs have entries in the finished tables. */
  lemma FullBlanks(ops: Operands, sqrt: real -> real)
    requires WellShaped(ops)
    ensures var full, n := Full(ops, sqrt), Frames(ops);
            && (forall a, c :: 0 <= a < n && 0 <= c < n && full.cNorm[a][c] != None ==> a + c < n && Written(ops, a, a + c))
            && (forall a, b :: 0 <= a < n && 0 <= b < n && full.pairs[a][b] != None ==> Written(ops, a, b))
            && (forall a, b :: 0 <= a < n && 0 <= b < n && full.deltaF[a][b] != None ==> Written(ops, a, b))
  {
  }

  /** Row `i`'s inner loop starts at `j = i`: no pair `(i, j)` with `j < i` is written. */
  lemma RowStart(ops: Operands, sqrt: real -> real, i: nat)
    requires WellShaped(ops) && i < Frames(ops)
    ensures var full := Full(ops, sqrt);
            && FilledAfter(full.cNorm, None, true, i, i) == FilledAfter(full.cNorm, None, true, i, 0)
            && FilledAfter(full.pairs, None, false, i, i) == FilledAfter(full.pairs, None, false, i, 0)
            && FilledAfter(full.deltaF, None, false, i, i) == FilledAfter(full.deltaF, None, false, i, 0)
  {
    var full := Full(ops, sqrt);
    FullBlanks(ops, sqrt);
    FillSame(full.cNorm, None, true, i, i, i, 0);
    FillSame(full.pairs, None, false, i, i, i, 0);
    FillSame(full.deltaF, None, false, i, i, i, 0);
  }

  /** Row `i` is complete after its inner loop, or at once when frame `i` has no valid entry. */
  lemma RowEnd(ops: Operands, sqrt: real -> real, i: nat, j0: nat)
    requires WellShaped(ops) && i < Frames(ops)
    requires j0 == Frames(ops) || (j0 == 0 && Valid(ops, i) == 0)
    ensures var full := Full(ops, sqrt);
            && FilledAfter(full.cNorm, None, true, i, j0) == FilledAfter(full.cNorm, None, true, i + 1, 0)
            && FilledAfter(full.pairs, None, false, i, j0) == FilledAfter(full.pairs, None, false, i + 1, 0)
            && FilledAfter(full.deltaF, None, false, i, j0) == FilledAfter(full.deltaF, None, false, i + 1, 0)
  {
    var full := Full(ops, sqrt);
    FullBlanks(ops, sqrt);
    FillSame(full.cNorm, None, true, i, j0, i + 1, 0);
    FillSame(full.pairs, None, false, i, j0, i + 1, 0);
    FillSame(full.deltaF, None, false, i, j0, i + 1, 0);
  }

  /**
   * One pass of the inner loop: pair `(i, j)`, where frame `i` has `noki > 0`
   * valid entries, is written when frame `j` has a valid entry too.
   */
  method TemporalCell(ops: Operands, sqrt: real -> real, i: nat, j: nat, noki: nat, ghost full: TemporalOut,
                      cNorm0: seq<seq<Option<Num>>>, pairs0: seq<seq<Option<nat>>>, deltaF0: seq<seq<Option<nat>>>)
    returns (cNorm: seq<seq<Option<Num>>>, pairs: seq<seq<Option<nat>>>, deltaF: seq<seq<Option<nat>>>)
    requires WellShaped(ops) && i <= j < Frames(ops) && noki == Valid(ops, i) > 0
    requires IsSquare(full.cNorm) && IsSquare(full.pairs) && IsSquare(full.deltaF)
    requires CellAt(ops, sqrt, full, i, j)
    requires cNorm0 == FilledAfter(full.cNorm, None, true, i, j)
    requires pairs0 == FilledAfter(full.pairs, None, false, i, j)
    requires deltaF0 == FilledAfter(full.deltaF, None, false, i, j)
    ensures cNorm == FilledAfter(full.cNorm, None, true, i, j + 1)
    ensures pairs == FilledAfter(full.pairs, None, false, i, j + 1)
    ensures deltaF == FilledAfter(full.deltaF, None, false, i, j + 1)
  {
    cNorm, pairs, deltaF := cNorm0, pairs0, deltaF0;
    var nokj := CountValid(Reference(ops).mask[j]);
    RowStep(ops, sqrt, full, i, j, cNorm, pairs, deltaF);
    if nokj > 0 {
      var lag: nat := j - i;
      cNorm := cNorm[i := cNorm[i][lag := TemporalValue(ops, sqrt, i, j)]];
      pairs := pairs[i := pairs[i][j := Some(Min(noki, nokj))]];
      deltaF := deltaF[i := deltaF[i][j := Some(lag)]];
    }
  }

  /** The inner loop of frame `i`, whose reference row has `noki > 0` valid entries. */
  method TemporalRow(ops: Operands, sqrt: real -> real, i: nat, noki: nat, ghost full: TemporalOut,
                     cNorm0: seq<seq<Option<Num>>>, pairs0: seq<seq<Option<nat>>>, deltaF0: seq<seq<Option<nat>>>)
    returns (cNorm: seq<seq<Option<Num>>>, pairs: seq<seq<Option<nat>>>, deltaF: seq<seq<Option<nat>>>)
    requires WellShaped(ops) && i < Frames(ops) && noki == Valid(ops, i) > 0
    requires IsSquare(full.cNorm) && IsSquare(full.pairs) && IsSquare(full.deltaF)
    requires forall j :: i <= j < Frames(ops) ==> CellAt(ops, sqrt, full, i, j)
    requires cNorm0 == FilledAfter(full.cNorm, None, true, i, i)
    requires pairs0 == FilledAfter(full.pairs, None, false, i, i)
    requires deltaF0 == FilledAfter(full.deltaF, None, false, i, i)
    ensures cNorm == FilledAfter(full.cNorm, None, true, i, Frames(ops))
    ensures pairs == FilledAfter(full.pairs, None, false, i, Frames(ops))
    ensures deltaF == FilledAfter(full.deltaF, None, false, i, Frames(ops))
  {
    cNorm, pairs, deltaF := cNorm0, pairs0, deltaF0;
    for j := i to Frames(ops)
      invariant cNorm == FilledAfter(full.cNorm, None, true, i, j)
      invariant pairs == FilledAfter(full.pairs, None, false, i, j)
      invariant deltaF == FilledAfter(full.deltaF, None, false, i, j)
    {
      cNorm, pairs, deltaF := TemporalCell(ops, sqrt, i, j, noki, full, cNorm, pairs, deltaF);
    }
  }

  /**
   * The temporal correlation of one observable pair, its loops as in the
   * source.  `sqrt` is the square root the normalisation takes.
   */
  method TemporalCorrelation(ops: Operands, tMax: Option<int>, sqrt: real -> real) returns (out: TemporalOut)
    requires WellShaped(ops) && Covered(ops)
    ensures out == TemporalSpec(ops, tMax, sqrt)
  {
    var frames := Frames(ops);
    var cNorm: seq<seq<Option<Num>>> := seq(frames, _ => Nones(frames));
    var pairs: seq<seq<Option<nat>>> := seq(frames, _ => Nones(frames));
    var deltaF: seq<seq<Option<nat>>> := seq(frames, _ => Nones(frames));
    FillEnds(Full(ops, sqrt).cNorm, None, true);
    FillEnds(Full(ops, sqrt).pairs, None, false);
    FillEnds(Full(ops, sqrt).deltaF, None, false);
    for i := 0 to frames
      invariant cNorm == FilledAfter(Full(ops, sqrt).cNorm, None, true, i, 0)
      invariant pairs == FilledAfter(Full(ops, sqrt).pairs, None, false, i, 0)
      invariant deltaF == FilledAfter(Full(ops, sqrt).deltaF, None, false, i, 0)
    {
      var noki := CountValid(Reference(ops).mask[i]);
      if noki > 0 {
        RowStart(ops, sqrt, i);
        FullRow(ops, sqrt, i);
        cNorm, pairs, deltaF := TemporalRow(ops, sqrt, i, noki, Full(ops, sqrt), cNorm, pairs, deltaF);
        RowEnd(ops, sqrt, i, frames);
      } else {
        RowEnd(ops, sqrt, i, 0);
      }
    }
    var t := SliceStop(tMax, frames);
    out := TemporalOut(SliceColumns(cNorm, t), SliceColumns(pairs, t), SliceColumns(deltaF, t));
  }

  // ---- properties of the temporal correlation ----

  /** A selected entity is valid in the reference array. */
  lemma SelectedIsValid(ops: Operands, f: nat, e: nat)
    requires WellShaped(ops) && f < Frames(ops) && e < Entities(ops) && Selected(ops, f, e)
    ensures e < |Reference(ops).mask[f]| && !Reference(ops).mask[f][e]
  {
  }

  lemma {:induction false} OverlapUpToBound(ops: Operands, i: nat, j: nat, f: nat, n: nat)
    requires WellShaped(ops) && i < Frames(ops) && j < Frames(ops) && n <= Entities(ops)
    requires f == i || f == j
    ensures n <= |Reference(ops).mask[f]|
    ensures |OverlapUpTo(ops, i, j, n)| <= CountValid(Reference(ops).mask[f][..n])
  {
    var mask := Reference(ops).mask[f];
    assert |mask| == Entities(ops);
    if n > 0 {
      OverlapUpToBound(ops, i, j, f, n - 1);
      assert mask[..n][..n - 1] == mask[..n - 1];
      if Selected(ops, i, n - 1) && Selected(ops, j, n - 1) {
        SelectedIsValid(ops, f, n - 1);
      }
    }
  }

  /** The entities averaged over for frames `i` and `j` number at most `min(Noki, Nokj)`. */
  lemma OverlapBound(ops: Operands, i: nat, j: nat)
    requires WellShaped(ops) && i < Frames(ops) && j < Frames(ops)
    ensures |Overlap(ops, i, j)| <= Min(Valid(ops, i), Valid(ops, j))
  {
    var n := Entities(ops);
    OverlapUpToBound(ops, i, j, i, n);
    OverlapUpToBound(ops, i, j, j, n);
    assert Reference(ops).mask[i][..n] == Reference(ops).mask[i];
    assert Reference(ops).mask[j][..n] == Reference(ops).mask[j];
  }

  /**
   * Which entries of the three tables are written.  `C_norm[i, c]` holds the
   * value of frames `i` and `i + c` exactly when both frames have a valid
   * reference entry and some entity is selected in both; `N[i, j]` and
   * `delta_f[i, j]` are written exactly when `j >= i` and both frames have a
   * valid reference entry, and then hold `min(Noki, Nokj)`, which bounds the
   * number of entities averaged over, and the lag `j - i`.
   */
  lemma TemporalMasks(ops: Operands, tMax: Option<int>, sqrt: real -> real, i: nat, c: nat)
    requires WellShaped(ops) && i < Frames(ops) && c < SliceStop(tMax, Frames(ops))
    ensures var out, frames := TemporalSpec(ops, tMax, sqrt), Frames(ops);
            && (out.cNorm[i][c].Some? <==>
                  i + c < frames && Valid(ops, i) > 0 && Valid(ops, i + c) > 0 && |Overlap(ops, i, i + c)| > 0)
            && (out.cNorm[i][c].Some? ==> out.cNorm[i][c] == TemporalValue(ops, sqrt, i, i + c))
            && (out.pairs[i][c].Some? <==> i <= c && Valid(ops, i) > 0 && Valid(ops, c) > 0)
            && (out.pairs[i][c].Some? ==>
                  && out.pairs[i][c].value == Min(Valid(ops, i), Valid(ops, c))
                  && |Overlap(ops, i, c)| <= out.pairs[i][c].value)
            && (out.deltaF[i][c].Some? <==> out.pairs[i][c].Some?)
            && (out.deltaF[i][c].Some? ==> out.deltaF[i][c].value == c - i)
  {
    OverlapBound(ops, i, c);
  }

  /**
   * The meaning of a written value without the square root: it is finite
   * exactly when the product of the two frames' own mean contractions is
   * non-zero, and then its square times `|mean(a_i*b_i) * mean(a_j*b_j)|` is
   * the square of `mean(a_i*b_j)`, and its sign is that mean's.
   */
  lemma NormalisedValue(ops: Operands, sqrt: real -> real, i: nat, j: nat)
    requires IsSqrt(sqrt) && WellShaped(ops) && i < Frames(ops) && j < Frames(ops)
    requires |Overlap(ops, i, j)| > 0
    ensures var m, ai, aj := OverlapMean(ops, i, j, i, j), OverlapMean(ops, i, j, i, i), OverlapMean(ops, i, j, j, j);
            var v := TemporalValue(ops, sqrt, i, j).value;
            && (v.Finite? <==> ai * aj != 0.0)
            && (v.Finite? ==> v.value * v.value * Abs(ai * aj) == m * m)
            && (v.Finite? ==> (v.value > 0.0 <==> m > 0.0) && (v.value < 0.0 <==> m < 0.0))
  {
    var m, ai, aj := OverlapMean(ops, i, j, i, j), OverlapMean(ops, i, j, i, i), OverlapMean(ops, i, j, j, j);
    assert TemporalValue(ops, sqrt, i, j) == Some(Normalise(sqrt, m, ai, aj));
    NormaliseByRoot(sqrt, m, ai * aj);
  }

  /** `Normalise` with the product `p = ai * aj` named. */
  lemma NormaliseByRoot(sqrt: real -> real, m: real, p: real)
    requires IsSqrt(sqrt)
    ensures var v := Div(Finite(m), Finite(sqrt(Abs(p))));
            && (v.Finite? <==> p != 0.0)
            && (v.Finite? ==> v.value * v.value * Abs(p) == m * m)
            && (v.Finite? ==> (v.value > 0.0 <==> m > 0.0) && (v.value < 0.0 <==> m < 0.0))
  {
    RatioByRoot(m, Abs(p), sqrt(Abs(p)));
  }

  /** `m / rms` with `rms * rms == p`, stated without the square root. */
  lemma RatioByRoot(m: real, p: real, rms: real)
    requires p >= 0.0 && rms >= 0.0 && rms * rms == p
    ensures var v := Div(Finite(m), Finite(rms));
            && (v.Finite? <==> p != 0.0)
            && (v.Finite? ==> v.value * v.value * p == m * m)
            && (v.Finite? ==> (v.value > 0.0 <==> m > 0.0) && (v.value < 0.0 <==> m < 0.0))
  {
    if rms == 0.0 {
      assert p == 0.0;
    } else {
      MulPos(rms, rms);
      calc {
        p;
        == rms * rms;
        > 0.0;
      }
      var q := m / rms;
      assert q * rms == m;
      calc {
        q * q * p;
        == q * q * (rms * rms);
        == (q * rms) * (q * rms);
        == m * m;
      }
      if q > 0.0 {
        MulPos(q, rms);
      } else if q < 0.0 {
        MulPos(-q, rms);
      }
    }
  }

  /**
   * At lag 0 the three means coincide, so a non-zero mean contraction `m`
   * normalises to its sign: 1 when `m > 0`, -1 when `m < 0`.
   */
  lemma LagZeroIsSign(ops: Operands, sqrt: real -> real, i: nat)
    requires IsSqrt(sqrt) && WellShaped(ops) && i < Frames(ops)
    requires |Overlap(ops, i, i)| > 0 && OverlapMean(ops, i, i, i, i) != 0.0
    ensures TemporalValue(ops, sqrt, i, i) == Some(Finite(if OverlapMean(ops, i, i, i, i) > 0.0 then 1.0 else -1.0))
  {
    SignByRoot(sqrt, OverlapMean(ops, i, i, i, i));
  }

  /** `m / sqrt(|m * m|)` is the sign of a non-zero `m`. */
  lemma SignByRoot(sqrt: real -> real, m: real)
    requires IsSqrt(sqrt) && m != 0.0
    ensures Normalise(sqrt, m, m, m) == Finite(if m > 0.0 then 1.0 else -1.0)
  {
    RootOfSquare(sqrt, m);
    SignRatio(m);
  }

  lemma RootOfSquare(sqrt: real -> real, m: real)
    requires IsSqrt(sqrt)
    ensures sqrt(Abs(m * m)) == Abs(m)
  {
    SquareNonNegative(m);
    SqrtOfSquare(sqrt, m);
  }

  lemma SignRatio(m: real)
    requires m != 0.0
    ensures m / Abs(m) == if m > 0.0 then 1.0 else -1.0
  {
    if m > 0.0 {
      assert Abs(m) == m;
      assert m / m * m == m;
    } else {
      assert Abs(m) == -m;
      assert m / -m * -m == m;
    }
  }

  /**
   * Self-correlation at lag 0: when the contraction of every selected entity
   * of frame `i` with itself is non-negative and one of them is positive,
   * `C_norm[i, 0]` is exactly 1 (as long as `t_max` keeps column 0).
   */
  lemma PositiveSelfContraction(ops: Operands, tMax: Option<int>, sqrt: real -> real, i: nat, e: nat)
    requires IsSqrt(sqrt) && WellShaped(ops) && i < Frames(ops) && 0 < SliceStop(tMax, Frames(ops))
    requires forall e' :: 0 <= e' < Entities(ops) && Selected(ops, i, e') ==> Contract(ops, i, i, e') >= 0.0
    requires e < Entities(ops) && Selected(ops, i, e) && Contract(ops, i, i, e) > 0.0
    ensures TemporalSpec(ops, tMax, sqrt).cNorm[i][0] == Some(Finite(1.0))
  {
    var es := Overlap(ops, i, i);
    var d := Contraction(ops, i, i, es);
    assert e in es;
    var k :| 0 <= k < |es| && es[k] == e;
    SumPositive(d, k);
    MeanSign(d);
    assert OverlapMean(ops, i, i, i, i) == Mean(d).value;
    LagZeroIsSign(ops, sqrt, i);
    OverlapBound(ops, i, i);
    TemporalMasks(ops, tMax, sqrt, i, 0);
  }

  /**
   * `general_temporal_correlation(var)` for a scalar: with `var2 == var1`,
   * `C_norm[i, 0]` is 1 for every frame with a valid non-zero entry.
   */
  lemma ScalarLagZeroIsOne(v: Masked2D, tMax: Option<int>, sqrt: real -> real, i: nat, e: nat)
    requires IsSqrt(sqrt) && WellShaped(ScalarScalar(v, v))
    requires i < Frames(ScalarScalar(v, v)) && 0 < SliceStop(tMax, Frames(ScalarScalar(v, v)))
    requires e < Entities(ScalarScalar(v, v)) && !v.mask[i][e] && v.vals[i][e] != 0.0
    ensures TemporalSpec(ScalarScalar(v, v), tMax, sqrt).cNorm[i][0] == Some(Finite(1.0))
  {
    var ops := ScalarScalar(v, v);
    forall e' | 0 <= e' < Entities(ops) && Selected(ops, i, e') ensures Contract(ops, i, i, e') >= 0.0 {
      SquareNonNegative(v.vals[i][e']);
    }
    SquarePositive(v.vals[i][e]);
    PositiveSelfContraction(ops, tMax, sqrt, i, e);
  }

  /**
   * `general_temporal_correlation(vec)` for a vector: with `vec2 == vec1`,
   * `C_norm[i, 0]` is 1 for every frame with an entity whose x and y are both
   * valid and not both zero.
   */
  lemma VectorLagZeroIsOne(x: Masked2D, y: Masked2D, tMax: Option<int>, sqrt: real -> real, i: nat, e: nat)
    requires IsSqrt(sqrt) && WellShaped(VectorVector(x, y, x, y))
    requires i < Frames(VectorVector(x, y, x, y)) && 0 < SliceStop(tMax, Frames(VectorVector(x, y, x, y)))
    requires e < Entities(VectorVector(x, y, x, y)) && !x.mask[i][e] && !y.mask[i][e]
    requires x.vals[i][e] != 0.0 || y.vals[i][e] != 0.0
    ensures TemporalSpec(VectorVector(x, y, x, y), tMax, sqrt).cNorm[i][0] == Some(Finite(1.0))
  {
    var ops := VectorVector(x, y, x, y);
    forall e' | 0 <= e' < Entities(ops) && Selected(ops, i, e') ensures Contract(ops, i, i, e') >= 0.0 {
      SquareNonNegative(x.vals[i][e']);
      SquareNonNegative(y.vals[i][e']);
    }
    var a, b := x.vals[i][e], y.vals[i][e];
    assert Contract(ops, i, i, e) == a * a + b * b;
    TwoSquaresPositive(a, b);
    PositiveSelfContraction(ops, tMax, sqrt, i, e);
  }
}
