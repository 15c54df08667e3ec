/**
 * Ensemble averaging of correlation objects: `compute_average` (the mean
 * and the population standard deviation over members), and the
 * accumulation in `main` that adds every member's correlations, divided by
 * the number of members, into an accumulator object.
 */
module Ensemble {
  import opened Wrappers
  import opened Num
  import opened CorrelationObject

  // ---------------------------------------------------------------------
  // compute_average
  // ---------------------------------------------------------------------

  /** All members have the first member's length: `np.array(results)` is a proper two-dimensional array. */
  predicate Rectangular(results: seq<seq<real>>)
  {
    forall i :: 0 <= i < |results| ==> |results[i]| == |results[0]|
  }

  /** Entry `j` of every member: column `j` of the stacked results. */
  function Column(results: seq<seq<real>>, j: nat): (r: seq<real>)
    requires forall i :: 0 <= i < |results| ==> j < |results[i]|
    ensures |r| == |results| && forall i :: 0 <= i < |results| ==> r[i] == results[i][j]
  {
    seq(|results|, i requires 0 <= i < |results| && j < |results[i]| => results[i][j])
  }

  /** `np.mean(stacked, axis=0)`. */
  function ColumnMeans(results: seq<seq<real>>): (r: seq<real>)
    requires |results| > 0 && Rectangular(results)
    ensures |r| == |results[0]|
  {
    seq(|results[0]|, j requires 0 <= j < |results[0]| && Rectangular(results) =>
          Sum(Column(results, j)) / (|results| as real))
  }

  /** `np.std(stacked, axis=0)`: the population standard deviation, dividing by the number of members. */
  function ColumnStds(results: seq<seq<real>>, sqrt: real -> real): (r: seq<real>)
    requires |results| > 0 && Rectangular(results)
    ensures |r| == |results[0]|
  {
    seq(|results[0]|, j requires 0 <= j < |results[0]| && Rectangular(results) =>
          sqrt(Sum(SquaredDeviations(Column(results, j), ColumnMeans(results)[j])) / (|results| as real)))
  }

  /**
   * `compute_average(results)`: the mean and the standard deviation over the
   * first axis.  Members of different lengths do not stack into an array:
   * a ValueError.
   */
  function ComputeAverage(results: seq<seq<real>>, sqrt: real -> real): (r: Result<(seq<real>, seq<real>)>)
    requires |results| > 0
  {
    if !Rectangular(results) then Err(ValueError)
    else Ok((ColumnMeans(results), ColumnStds(results, sqrt)))
  }

  /** `m` is the mean of `c`: `m` times the number of values is their sum. */
  predicate IsMean(m: real, c: seq<real>)
  {
    m * (|c| as real) == Sum(c)
  }

  /** `s` is the population std of `c` around `m`: non-negative, and `s * s` times the number of values is the sum of squared deviations. */
  predicate IsStd(s: real, c: seq<real>, m: real)
  {
    s >= 0.0 && s * s * (|c| as real) == Sum(SquaredDeviations(c, m))
  }

  /**
   * The results of `compute_average`: a ValueError exactly for members of
   * different lengths; otherwise one mean and one std per entry, the mean
   * times the number of members is the column sum, and the std is
   * non-negative with square the mean squared deviation.
   */
  lemma AverageProperties(results: seq<seq<real>>, sqrt: real -> real, j: nat)
    requires |results| > 0 && IsSqrt(sqrt)
    ensures ComputeAverage(results, sqrt).Err? <==> !Rectangular(results)
    ensures ComputeAverage(results, sqrt).Err? ==> ComputeAverage(results, sqrt).error == ValueError
    ensures ComputeAverage(results, sqrt).Ok? ==>
              |ComputeAverage(results, sqrt).value.0| == |ComputeAverage(results, sqrt).value.1| == |results[0]|
    ensures ComputeAverage(results, sqrt).Ok? && j < |results[0]| ==>
              IsMean(ComputeAverage(results, sqrt).value.0[j], Column(results, j))
              && IsStd(ComputeAverage(results, sqrt).value.1[j], Column(results, j), ComputeAverage(results, sqrt).value.0[j])
  {
    if Rectangular(results) && j < |results[0]| {
      MeanColumn(results, j, ComputeAverage(results, sqrt).value.0);
      StdColumn(results, sqrt, j, ComputeAverage(results, sqrt).value.0, ComputeAverage(results, sqrt).value.1);
    }
  }

  /** Entry `j` of the mean is the column's sum over `K`. */
  lemma MeanColumn(results: seq<seq<real>>, j: nat, means: seq<real>)
    requires |results| > 0 && Rectangular(results) && j < |results[0]|
    requires means == ColumnMeans(results)
    ensures IsMean(means[j], Column(results, j))
  {
    assert means[j] == Sum(Column(results, j)) / (|results| as real);
    TimesBack(Sum(Column(results, j)), |results| as real);
  }

  /** Entry `j` of the std is the root of the column's mean squared deviation from entry `j` of the mean. */
  lemma StdColumn(results: seq<seq<real>>, sqrt: real -> real, j: nat, means: seq<real>, stds: seq<real>)
    requires |results| > 0 && IsSqrt(sqrt) && Rectangular(results) && j < |results[0]|
    requires means == ColumnMeans(results) && stds == ColumnStds(results, sqrt)
    ensures IsStd(stds[j], Column(results, j), means[j])
  {
    assert stds[j] == sqrt(Sum(SquaredDeviations(Column(results, j), means[j])) / (|results| as real));
    SquaredDeviationsSum(Column(results, j), means[j]);
    VarianceOfStd(sqrt, Sum(SquaredDeviations(Column(results, j), means[j])), |results| as real, stds[j]);
  }

  /** `s = sqrt(v / n)` with `v >= 0`, `n > 0`: `s >= 0` and `s * s * n == v`. */
  lemma VarianceOfStd(sqrt: real -> real, v: real, n: real, s: real)
    requires IsSqrt(sqrt) && v >= 0.0 && n > 0.0 && s == sqrt(v / n)
    ensures s >= 0.0 && s * s * n == v
  {
    assert v / n >= 0.0;
    assert s * s == v / n;
  }

  /** Members that are all the same array `a` average to `a` with a zero std. */
  lemma AverageOfIdentical(results: seq<seq<real>>, a: seq<real>, sqrt: real -> real)
    requires |results| > 0 && IsSqrt(sqrt)
    requires forall i :: 0 <= i < |results| ==> results[i] == a
    ensures ComputeAverage(results, sqrt).Ok?
    ensures |ComputeAverage(results, sqrt).value.0| == |ComputeAverage(results, sqrt).value.1| == |a|
    ensures forall j :: 0 <= j < |a| ==>
              ComputeAverage(results, sqrt).value.0[j] == a[j] && ComputeAverage(results, sqrt).value.1[j] == 0.0
  {
    forall j | 0 <= j < |a|
      ensures ColumnMeans(results)[j] == a[j] && ColumnStds(results, sqrt)[j] == 0.0
    {
      IdenticalColumn(results, a, j);
      SqrtOfZero(sqrt);
      assert ColumnStds(results, sqrt)[j] == sqrt(0.0 / (|results| as real));
    }
  }

  /** Column `j` of identical members: mean `a[j]`, no deviation from it. */
  lemma IdenticalColumn(results: seq<seq<real>>, a: seq<real>, j: nat)
    requires |results| > 0 && j < |a|
    requires forall i :: 0 <= i < |results| ==> results[i] == a
    ensures Rectangular(results)
    ensures ColumnMeans(results)[j] == a[j]
    ensures Sum(SquaredDeviations(Column(results, j), a[j])) == 0.0
  {
    var c := Column(results, j);
    MeanOfConstant(c, a[j]);
    DivideBack(|results| as real, a[j]);
    assert ColumnMeans(results)[j] == Sum(c) / (|results| as real);
    SquaredDeviationsSum(c, a[j]);
  }

  /** `(s / n) * n == s`. */
  lemma TimesBack(s: real, n: real)
    requires n != 0.0
    ensures (s / n) * n == s
  {
  }

  /** `(k * c) / k == c`. */
  lemma DivideBack(k: real, c: real)
    requires k != 0.0
    ensures (k * c) / k == c
  {
  }

  // ---------------------------------------------------------------------
  // The accumulation in main
  // ---------------------------------------------------------------------

  /** `v / n` elementwise. */
  function Scale(v: seq<real>, n: real): (r: seq<real>)
    requires n != 0.0
    ensures |r| == |v| && forall i :: 0 <= i < |v| ==> r[i] == v[i] / n
  {
    seq(|v|, i requires 0 <= i < |v| => v[i] / n)
  }

  /**
   * `start` after `+= vs[i] / n` for every member array `vs[i]` in turn:
   * the reference definition of the accumulation for one label.
   */
  function ScaledSum(start: seq<real>, vs: seq<seq<real>>, n: real): (r: seq<real>)
    requires n != 0.0 && forall i :: 0 <= i < |vs| ==> |vs[i]| == |start|
    ensures |r| == |start|
  {
    if |vs| == 0 then start else Contribution(ScaledSum(start, vs[..|vs| - 1], n), vs[|vs| - 1], n)
  }

  /**
   * `v` can be added in place into an array of length `len`: numpy
   * broadcasts an array of the same length or of length 1; any other length
   * is a ValueError.
   */
  predicate BroadcastsTo(v: seq<real>, len: nat)
  {
    |v| == len || |v| == 1
  }

  /** `v` broadcast to length `len`: itself, or its single entry repeated. */
  function Broadcast(v: seq<real>, len: nat): (r: seq<real>)
    requires BroadcastsTo(v, len)
    ensures |r| == len
    ensures |v| == len ==> r == v
    ensures |v| == 1 ==> forall i :: 0 <= i < len ==> r[i] == v[0]
  {
    if |v| == len then v else seq(len, _ => v[0])
  }

  /** Every array of `vs` broadcast to length `len`. */
  function Broadcasts(vs: seq<seq<real>>, len: nat): (r: seq<seq<real>>)
    requires forall i :: 0 <= i < |vs| ==> BroadcastsTo(vs[i], len)
    ensures |r| == |vs| && forall i :: 0 <= i < |vs| ==> |r[i]| == len && r[i] == Broadcast(vs[i], len)
    ensures (forall i :: 0 <= i < |vs| ==> |vs[i]| == len) ==> r == vs
  {
    seq(|vs|, i requires 0 <= i < |vs| && BroadcastsTo(vs[i], len) => Broadcast(vs[i], len))
  }

  /**
   * `a += v / n`, the in-place addition of one member's array: entrywise
   * for an array of the same length, and the single entry added to every
   * entry for an array of length 1.
   */
  function Contribution(a: seq<real>, v: seq<real>, n: real): (r: seq<real>)
    requires n != 0.0 && BroadcastsTo(v, |a|)
    ensures |r| == |a|
    ensures |v| == |a| ==> forall i :: 0 <= i < |a| ==> r[i] == a[i] + v[i] / n
    ensures |v| == 1 ==> forall i :: 0 <= i < |a| ==> r[i] == a[i] + v[0] / n
  {
    Plus(a, Scale(Broadcast(v, |a|), n))
  }

  /**
   * From a zero start, adding every member divided by the number of members
   * gives `compute_average`'s mean of the members.
   */
  lemma {:induction false} AccumulatedMean(vs: seq<seq<real>>, len: nat, sqrt: real -> real)
    requires |vs| > 0 && forall i :: 0 <= i < |vs| ==> |vs[i]| == len
    ensures ComputeAverage(vs, sqrt).Ok?
    ensures ScaledSum(seq(len, _ => 0.0), vs, |vs| as real) == ComputeAverage(vs, sqrt).value.0
  {
    var n := |vs| as real;
    var acc := ScaledSum(seq(len, _ => 0.0), vs, n);
    forall j | 0 <= j < len ensures acc[j] == ColumnMeans(vs)[j] {
      ScaledSumEntry(seq(len, _ => 0.0), vs, n, j);
      DivideSum(Sum(Column(vs, j)), n);
    }
  }

  /** `0 + s / n == s / n`. */
  lemma DivideSum(s: real, n: real)
    requires n != 0.0
    ensures 0.0 + s / n == s / n
  {
  }

  /** Entry `j` of the accumulation is the start's entry plus the column sum over `n`. */
  lemma {:induction false} ScaledSumEntry(start: seq<real>, vs: seq<seq<real>>, n: real, j: nat)
    requires n != 0.0 && forall i :: 0 <= i < |vs| ==> |vs[i]| == |start|
    requires j < |start|
    ensures ScaledSum(start, vs, n)[j] == start[j] + Sum(Column(vs, j)) / n
  {
    if |vs| > 0 {
      var init := vs[..|vs| - 1];
      ScaledSumEntry(start, init, n, j);
      assert Column(vs, j)[..|vs| - 1] == Column(init, j);
      AddQuotients(Sum(Column(init, j)), vs[|vs| - 1][j], n);
    }
  }

  /** `a / n + b / n == (a + b) / n`. */
  lemma AddQuotients(a: real, b: real, n: real)
    requires n != 0.0
    ensures a / n + b / n == (a + b) / n
  {
  }

  /** `K` identical members accumulated from zero give back the member. */
  lemma AccumulatedIdentical(vs: seq<seq<real>>, a: seq<real>)
    requires |vs| > 0 && forall i :: 0 <= i < |vs| ==> vs[i] == a
    ensures ScaledSum(seq(|a|, _ => 0.0), vs, |vs| as real) == a
  {
    AccumulatedMean(vs, |a|, x => x);
    var means := ColumnMeans(vs);
    forall j | 0 <= j < |a| ensures means[j] == a[j] {
      IdenticalColumn(vs, a, j);
    }
  }

  /** Every label of `acc` is in `m` with an array that broadcasts to `acc`'s. */
  predicate Fits(acc: map<string, seq<real>>, m: map<string, seq<real>>)
  {
    forall k :: k in acc ==> k in m && BroadcastsTo(m[k], |acc[k]|)
  }

  /** Every member map fits `acc`. */
  predicate Covers(acc: map<string, seq<real>>, ms: seq<map<string, seq<real>>>)
  {
    forall i :: 0 <= i < |ms| ==> Fits(acc, ms[i])
  }

  /** Two maps with the same labels and array lengths. */
  predicate SameShape(a: map<string, seq<real>>, b: map<string, seq<real>>)
  {
    a.Keys == b.Keys && forall k :: k in a ==> |a[k]| == |b[k]|
  }

  /** Whether a member fits depends only on the labels and lengths. */
  lemma FitsSameShape(a: map<string, seq<real>>, b: map<string, seq<real>>, m: map<string, seq<real>>)
    requires SameShape(a, b)
    ensures Fits(a, m) <==> Fits(b, m)
  {
  }

  /** The members' arrays for label `k` on one side. */
  function Values(ms: seq<map<string, seq<real>>>, k: string): (r: seq<seq<real>>)
    requires forall i :: 0 <= i < |ms| ==> k in ms[i]
    ensures |r| == |ms| && forall i :: 0 <= i < |ms| ==> r[i] == ms[i][k]
  {
    seq(|ms|, i requires 0 <= i < |ms| && k in ms[i] => ms[i][k])
  }

  function TemporalMaps(ms: seq<State>): (r: seq<map<string, seq<real>>>)
    ensures |r| == |ms| && forall i :: 0 <= i < |ms| ==> r[i] == ms[i].temporal
  {
    seq(|ms|, i requires 0 <= i < |ms| => ms[i].temporal)
  }

  function SpatialMaps(ms: seq<State>): (r: seq<map<string, seq<real>>>)
    ensures |r| == |ms| && forall i :: 0 <= i < |ms| ==> r[i] == ms[i].spatial
  {
    seq(|ms|, i requires 0 <= i < |ms| => ms[i].spatial)
  }

  /** One file's contribution: `acc[k] += m[k] / n` for every label of `acc`. */
  function AddScaled(acc: map<string, seq<real>>, m: map<string, seq<real>>, n: real): (r: map<string, seq<real>>)
    requires n != 0.0 && Fits(acc, m)
    ensures SameShape(r, acc)
  {
    map k | k in acc :: Contribution(acc[k], m[k], n)
  }

  /** `acc` after every member map's contribution, in order. */
  function Accumulated(acc: map<string, seq<real>>, ms: seq<map<string, seq<real>>>, n: real): (r: map<string, seq<real>>)
    requires n != 0.0 && Covers(acc, ms)
    ensures SameShape(r, acc)
    decreases |ms|
  {
    if |ms| == 0 then acc
    else
      var prev := Accumulated(acc, ms[..|ms| - 1], n);
      FitsSameShape(prev, acc, ms[|ms| - 1]);
      AddScaled(prev, ms[|ms| - 1], n)
  }

  /**
   * Label by label, the accumulation of maps is the accumulation of that
   * label's arrays, each broadcast to the accumulator's length.
   */
  lemma {:induction false} AccumulatedEntry(acc: map<string, seq<real>>, ms: seq<map<string, seq<real>>>, n: real, k: string)
    requires n != 0.0 && Covers(acc, ms) && k in acc
    ensures forall i :: 0 <= i < |ms| ==> k in ms[i] && BroadcastsTo(ms[i][k], |acc[k]|)
    ensures Accumulated(acc, ms, n)[k] == ScaledSum(acc[k], Broadcasts(Values(ms, k), |acc[k]|), n)
  {
    assert forall i :: 0 <= i < |ms| ==> Fits(acc, ms[i]);
    if |ms| > 0 {
      var init := ms[..|ms| - 1];
      AccumulatedEntry(acc, init, n, k);
      assert Broadcasts(Values(ms, k), |acc[k]|)[..|ms| - 1] == Broadcasts(Values(init, k), |acc[k]|);
    }
  }

  /** One member more: the accumulation over `ms[..i + 1]` is one `AddScaled` step after `ms[..i]`. */
  lemma AccumulatedSnoc(acc: map<string, seq<real>>, ms: seq<map<string, seq<real>>>, i: nat, n: real)
    requires n != 0.0 && i < |ms| && Covers(acc, ms[..i]) && Fits(acc, ms[i])
    ensures Covers(acc, ms[..i + 1]) && Fits(Accumulated(acc, ms[..i], n), ms[i])
    ensures Accumulated(acc, ms[..i + 1], n) == AddScaled(Accumulated(acc, ms[..i], n), ms[i], n)
  {
    var next := ms[..i + 1];
    assert next[..i] == ms[..i] && next[i] == ms[i];
    assert Covers(acc, next) by {
      forall j | 0 <= j < i + 1 ensures Fits(acc, next[j]) {
        if j < i {
          assert next[j] == ms[..i][j];
        }
      }
    }
    FitsSameShape(Accumulated(acc, ms[..i], n), acc, ms[i]);
  }

  /**
   * The whole state after the accumulation: every label's temporal and
   * spatial arrays accumulated over the members, and the time and distance
   * axes of the last member.
   */
  function Averaged(start: State, members: seq<State>): (r: State)
    requires |members| > 0
    requires Covers(start.temporal, TemporalMaps(members)) && Covers(start.spatial, SpatialMaps(members))
  {
    var n := |members| as real;
    start.(temporal := Accumulated(start.temporal, TemporalMaps(members), n),
           spatial := Accumulated(start.spatial, SpatialMaps(members), n),
           tArray := members[|members| - 1].tArray,
           rArray := members[|members| - 1].rArray)
  }

  /**
   * From an accumulator whose arrays under a label are zeros, the averaged
   * state holds under that label `compute_average`'s mean of the members'
   * arrays broadcast to the accumulator's length, on both sides; when the
   * members' arrays have the accumulator's length that is their own mean.
   */
  lemma AveragedIsMean(start: State, members: seq<State>, k: string, sqrt: real -> real)
    requires |members| > 0
    requires Covers(start.temporal, TemporalMaps(members)) && Covers(start.spatial, SpatialMaps(members))
    requires k in start.temporal && start.temporal[k] == seq(|start.temporal[k]|, _ => 0.0)
    requires k in start.spatial && start.spatial[k] == seq(|start.spatial[k]|, _ => 0.0)
    ensures forall i :: 0 <= i < |members| ==> k in members[i].temporal && k in members[i].spatial
    ensures forall i :: 0 <= i < |members| ==>
              BroadcastsTo(members[i].temporal[k], |start.temporal[k]|) && BroadcastsTo(members[i].spatial[k], |start.spatial[k]|)
    ensures ComputeAverage(Broadcasts(Values(TemporalMaps(members), k), |start.temporal[k]|), sqrt).Ok?
    ensures ComputeAverage(Broadcasts(Values(SpatialMaps(members), k), |start.spatial[k]|), sqrt).Ok?
    ensures Averaged(start, members).temporal[k]
            == ComputeAverage(Broadcasts(Values(TemporalMaps(members), k), |start.temporal[k]|), sqrt).value.0
    ensures Averaged(start, members).spatial[k]
            == ComputeAverage(Broadcasts(Values(SpatialMaps(members), k), |start.spatial[k]|), sqrt).value.0
  {
    LabelIsMean(start.temporal, TemporalMaps(members), k, sqrt);
    LabelIsMean(start.spatial, SpatialMaps(members), k, sqrt);
  }

  /** One side of `AveragedIsMean`. */
  lemma LabelIsMean(acc: map<string, seq<real>>, ms: seq<map<string, seq<real>>>, k: string, sqrt: real -> real)
    requires |ms| > 0 && Covers(acc, ms)
    requires k in acc && acc[k] == seq(|acc[k]|, _ => 0.0)
    ensures forall i :: 0 <= i < |ms| ==> k in ms[i] && BroadcastsTo(ms[i][k], |acc[k]|)
    ensures ComputeAverage(Broadcasts(Values(ms, k), |acc[k]|), sqrt).Ok?
    ensures Accumulated(acc, ms, |ms| as real)[k] == ComputeAverage(Broadcasts(Values(ms, k), |acc[k]|), sqrt).value.0
  {
    AccumulatedEntry(acc, ms, |ms| as real, k);
    AccumulatedMean(Broadcasts(Values(ms, k), |acc[k]|), |acc[k]|, sqrt);
  }

  /**
   * The per-file loop of `main`, from an accumulator object: no files is an
   * IndexError (`files_list[0]`); the accumulator's temporal and spatial
   * labels must coincide; then every member adds its arrays divided by the
   * number of members under every label, a label the member lacks being a
   * KeyError and an array that does not broadcast a ValueError; finally the time
   * and distance axes are taken from the last member.
   */
  method AccumulateEnsemble(acc: VMAutocorrelationObject, members: seq<State>) returns (r: Outcome)
    modifies acc
    ensures acc.fname == old(acc.fname) && acc.path == old(acc.path)
    ensures |members| == 0 ==> r == Fail(IndexError)
    ensures |members| > 0 && old(acc.temporal.Keys) != old(acc.spatial.Keys) ==> r == Fail(AssertionError)
    ensures |members| > 0 && old(acc.temporal.Keys) == old(acc.spatial.Keys) ==>
              (r.Pass? <==> Covers(old(acc.temporal), TemporalMaps(members)) && Covers(old(acc.spatial), SpatialMaps(members)))
    ensures |members| > 0 && old(acc.temporal.Keys) == old(acc.spatial.Keys) && r.Fail? ==>
              r.error == KeyError || r.error == ValueError
    ensures r.Pass? ==>
              |members| > 0 && Covers(old(acc.temporal), TemporalMaps(members)) && Covers(old(acc.spatial), SpatialMaps(members))
              && acc.Contents() == Averaged(old(acc.Contents()), members)
  {
    if |members| == 0 {
      return Fail(IndexError);
    }
    if acc.temporal.Keys != acc.spatial.Keys {
      return Fail(AssertionError);
    }
    var t, s;
    r, t, s := AccumulateMaps(acc.temporal, acc.spatial, members);
    acc.temporal, acc.spatial := t, s;
    if r.Fail? {
      return;
    }
    acc.tArray := members[|members| - 1].tArray;
    acc.rArray := members[|members| - 1].rArray;
  }

  /**
   * The loop over the files: every member in turn through `AddMember`,
   * stopping at the first that fails.  On a failure `t` and `s` are the
   * arrays as far as the loop got.
   */
  method AccumulateMaps(t0: map<string, seq<real>>, s0: map<string, seq<real>>, members: seq<State>)
    returns (r: Outcome, t: map<string, seq<real>>, s: map<string, seq<real>>)
    requires |members| > 0 && t0.Keys == s0.Keys
    ensures r.Pass? <==> Covers(t0, TemporalMaps(members)) && Covers(s0, SpatialMaps(members))
    ensures r.Fail? ==> r.error == KeyError || r.error == ValueError
    ensures r.Pass? ==> Covers(t0, TemporalMaps(members)) && Covers(s0, SpatialMaps(members))
                        && t == Accumulated(t0, TemporalMaps(members), |members| as real)
                        && s == Accumulated(s0, SpatialMaps(members), |members| as real)
  {
    var n := |members| as real;
    ghost var ts, ss := TemporalMaps(members), SpatialMaps(members);
    t, s := t0, s0;
    for i := 0 to |members|
      invariant Covers(t0, ts[..i]) && Covers(s0, ss[..i])
      invariant t == Accumulated(t0, ts[..i], n)
      invariant s == Accumulated(s0, ss[..i], n)
    {
      FitsSameShape(t, t0, ts[i]);
      FitsSameShape(s, s0, ss[i]);
      r, t, s := AddMember(t, s, members[i], n);
      if r.Fail? {
        return;
      }
      AccumulatedSnoc(t0, ts, i, n);
      AccumulatedSnoc(s0, ss, i, n);
    }
    assert ts[..|members|] == ts && ss[..|members|] == ss;
    r := Pass;
  }

  /**
   * One file's pass over the accumulator's labels: `+= member / n` on both
   * sides of every label, in whatever order the labels come.  The labels
   * are those of the temporal side `t0`, which the spatial side `s0`
   * shares.  On a failure `t` and `s` are the arrays as far as the pass got.
   */
  method AddMember(t0: map<string, seq<real>>, s0: map<string, seq<real>>, m: State, n: real)
    returns (r: Outcome, t: map<string, seq<real>>, s: map<string, seq<real>>)
    requires n != 0.0 && t0.Keys == s0.Keys
    ensures r.Pass? <==> Fits(t0, m.temporal) && Fits(s0, m.spatial)
    ensures r.Fail? ==> r.error == KeyError || r.error == ValueError
    ensures r.Pass? ==> t == AddScaled(t0, m.temporal, n) && s == AddScaled(s0, m.spatial, n)
  {
    t, s := t0, s0;
    var keys := t0.Keys;
    while keys != {}
      invariant keys <= t0.Keys
      invariant t.Keys == t0.Keys && s.Keys == s0.Keys
      invariant forall k :: k in t0 && k !in keys ==> Added(t0, s0, m, n, t, s, k)
      invariant forall k :: k in keys ==> t[k] == t0[k] && s[k] == s0[k]
      decreases keys
    {
      var k :| k in keys;
      if k !in m.temporal || !BroadcastsTo(m.temporal[k], |t[k]|) {
        assert !Fits(t0, m.temporal) by { assert k in t0 && t[k] == t0[k]; }
        return Fail(if k !in m.temporal then KeyError else ValueError), t, s;
      }
      t := t[k := Contribution(t[k], m.temporal[k], n)];
      if k !in m.spatial || !BroadcastsTo(m.spatial[k], |s[k]|) {
        assert !Fits(s0, m.spatial) by { assert k in s0 && s[k] == s0[k]; }
        return Fail(if k !in m.spatial then KeyError else ValueError), t, s;
      }
      s := s[k := Contribution(s[k], m.spatial[k], n)];
      keys := keys - {k};
    }
    assert Fits(t0, m.temporal) && Fits(s0, m.spatial);
    AddScaledIs(t0, m.temporal, n, t);
    AddScaledIs(s0, m.spatial, n, s);
    r := Pass;
  }

  /** A map with `acc`'s labels holding `acc[k] + m[k] / n` under each is `AddScaled(acc, m, n)`. */
  lemma AddScaledIs(acc: map<string, seq<real>>, m: map<string, seq<real>>, n: real, t: map<string, seq<real>>)
    requires n != 0.0 && Fits(acc, m) && t.Keys == acc.Keys
    requires forall k :: k in acc ==> t[k] == Contribution(acc[k], m[k], n)
    ensures t == AddScaled(acc, m, n)
  {
  }

  /** Label `k` has been added on both sides: `t`, `s` are `t0`, `s0` plus `m / n` there. */
  ghost predicate Added(t0: map<string, seq<real>>, s0: map<string, seq<real>>, m: State, n: real,
                        t: map<string, seq<real>>, s: map<string, seq<real>>, k: string)
    requires n != 0.0 && k in t0 && k in t && k in s && t0.Keys == s0.Keys
  {
    && k in m.temporal && BroadcastsTo(m.temporal[k], |t0[k]|)
    && k in m.spatial && BroadcastsTo(m.spatial[k], |s0[k]|)
    && t[k] == Contribution(t0[k], m.temporal[k], n)
    && s[k] == Contribution(s0[k], m.spatial[k], n)
  }
}
