/**
 * Real-valued arithmetic standing in for the double-precision arithmetic of
 * the analysis code.  Every non-finite IEEE value (+inf, -inf, NaN) is
 * collapsed into the single absorbing value `NonFinite`: the source only ever
 * produces such values by dividing by zero, by averaging an empty array or by
 * taking the square root of a negative number, and nothing it does turns them
 * back into finite numbers.
 */
module Num {

  datatype Num = Finite(value: real) | NonFinite

  function Abs(x: real): (r: real)
    ensures r >= 0.0 && (r == x || r == -x)
  {
    if x < 0.0 then -x else x
  }

  function Min(a: nat, b: nat): (r: nat)
    ensures r <= a && r <= b && (r == a || r == b)
  {
    if a <= b then a else b
  }

  /** IEEE addition: finite only when both operands are. */
  function Add(a: Num, b: Num): (r: Num)
    ensures r.Finite? <==> a.Finite? && b.Finite?
    ensures r.Finite? ==> r.value == a.value + b.value
  {
    if a.Finite? && b.Finite? then Finite(a.value + b.value) else NonFinite
  }

  /** IEEE division: dividing by zero, or by or into a non-finite value, is non-finite. */
  function Div(a: Num, b: Num): (r: Num)
    ensures r.Finite? <==> a.Finite? && b.Finite? && b.value != 0.0
    ensures r.Finite? ==> r.value * b.value == a.value
  {
    if a.Finite? && b.Finite? && b.value != 0.0 then Finite(a.value / b.value) else NonFinite
  }

  /** Sum of a sequence, accumulated left to right. */
  function Sum(s: seq<real>): real
  {
    if |s| == 0 then 0.0 else Sum(s[..|s| - 1]) + s[|s| - 1]
  }

  /** `np.mean`: the arithmetic mean, NaN for an empty array. */
  function Mean(s: seq<real>): (r: Num)
    ensures r.Finite? <==> |s| > 0
    ensures r.Finite? ==> r.value * (|s| as real) == Sum(s)
  {
    if |s| == 0 then NonFinite else Finite(Sum(s) / (|s| as real))
  }

  /** Elementwise product of two arrays of the same length. */
  function Times(a: seq<real>, b: seq<real>): (r: seq<real>)
    requires |a| == |b|
    ensures |r| == |a| && forall i :: 0 <= i < |a| ==> r[i] == a[i] * b[i]
  {
    seq(|a|, i requires 0 <= i < |a| => a[i] * b[i])
  }

  /** Elementwise sum of two arrays of the same length. */
  function Plus(a: seq<real>, b: seq<real>): (r: seq<real>)
    requires |a| == |b|
    ensures |r| == |a| && forall i :: 0 <= i < |a| ==> r[i] == a[i] + b[i]
  {
    seq(|a|, i requires 0 <= i < |a| => a[i] + b[i])
  }

  /**
   * `sqrt` is the square root on the non-negative reals.  The model cannot
   * compute square roots, so the operations that take one receive it as a
   * parameter, and the lemmas about them assume this of it.
   */
  ghost predicate IsSqrt(sqrt: real -> real)
  {
    forall x :: 0.0 <= x ==> 0.0 <= sqrt(x) && sqrt(x) * sqrt(x) == x
  }

  lemma MulPos(p: real, q: real)
    requires p > 0.0 && q > 0.0
    ensures p * q > 0.0
  {
  }

  lemma SquareMonotone(a: real, b: real)
    requires 0.0 <= a < b
    ensures a * a < b * b
  {
    MulPos(b - a, b + a);
    assert b * b - a * a == (b - a) * (b + a);
  }

  lemma SquareNonNegative(a: real)
    ensures a * a >= 0.0
  {
    if a < 0.0 {
      SquareMonotone(0.0, -a);
    } else if a > 0.0 {
      SquareMonotone(0.0, a);
    }
  }

  lemma SquarePositive(a: real)
    requires a != 0.0
    ensures a * a > 0.0
  {
    if a < 0.0 {
      MulPos(-a, -a);
    } else {
      MulPos(a, a);
    }
  }

  /** The square root of a square is the absolute value. */
  lemma SqrtOfSquare(sqrt: real -> real, m: real)
    requires IsSqrt(sqrt)
    ensures sqrt(m * m) == Abs(m)
  {
    SquareNonNegative(m);
    var s := sqrt(m * m);
    assert Abs(m) * Abs(m) == m * m;
    if s < Abs(m) {
      SquareMonotone(s, Abs(m));
    } else if s > Abs(m) {
      SquareMonotone(Abs(m), s);
    }
  }

  lemma SqrtOfZero(sqrt: real -> real)
    requires IsSqrt(sqrt)
    ensures sqrt(0.0) == 0.0
  {
    SqrtOfSquare(sqrt, 0.0);
  }

  lemma {:induction false} SumAppend(s: seq<real>, t: seq<real>)
    ensures Sum(s + t) == Sum(s) + Sum(t)
  {
    if |t| == 0 {
      assert s + t == s;
    } else {
      assert (s + t)[..|s + t| - 1] == s + t[..|t| - 1];
      SumAppend(s, t[..|t| - 1]);
    }
  }

  /** A sum of non-negative terms is non-negative. */
  lemma {:induction false} SumNonNegative(s: seq<real>)
    requires forall i :: 0 <= i < |s| ==> s[i] >= 0.0
    ensures Sum(s) >= 0.0
  {
    if |s| > 0 {
      SumNonNegative(s[..|s| - 1]);
    }
  }

  /** A sum of two squares is positive unless both are zero. */
  lemma TwoSquaresPositive(a: real, b: real)
    requires a != 0.0 || b != 0.0
    ensures a * a + b * b > 0.0
  {
    SquareNonNegative(a);
    SquareNonNegative(b);
    if a != 0.0 {
      SquarePositive(a);
    } else {
      SquarePositive(b);
    }
  }

  /** A sum of squares is non-negative. */
  lemma SumOfSquaresNonNegative(a: seq<real>)
    ensures Sum(Times(a, a)) >= 0.0
  {
    forall i | 0 <= i < |a| ensures Times(a, a)[i] >= 0.0 {
      SquareNonNegative(a[i]);
    }
    SumNonNegative(Times(a, a));
  }

  /** `(s - m)**2` elementwise: the squared deviations from `m`. */
  function SquaredDeviations(s: seq<real>, m: real): (r: seq<real>)
    ensures |r| == |s| && forall i :: 0 <= i < |s| ==> r[i] == (s[i] - m) * (s[i] - m)
  {
    seq(|s|, i requires 0 <= i < |s| => (s[i] - m) * (s[i] - m))
  }

  /** Squared deviations are non-negative, and all zero when every entry is `m`. */
  lemma SquaredDeviationsSum(s: seq<real>, m: real)
    ensures Sum(SquaredDeviations(s, m)) >= 0.0
    ensures (forall i :: 0 <= i < |s| ==> s[i] == m) ==> Sum(SquaredDeviations(s, m)) == 0.0
  {
    var d := SquaredDeviations(s, m);
    forall i | 0 <= i < |s| ensures d[i] >= 0.0 {
      SquareNonNegative(s[i] - m);
    }
    SumNonNegative(d);
    if forall i :: 0 <= i < |s| ==> s[i] == m {
      ZeroDeviations(s, m);
      SumOfZeros(d);
    }
  }

  /** Every squared deviation from the common value is zero. */
  lemma ZeroDeviations(s: seq<real>, m: real)
    requires forall i :: 0 <= i < |s| ==> s[i] == m
    ensures forall i :: 0 <= i < |s| ==> SquaredDeviations(s, m)[i] == 0.0
  {
    forall i | 0 <= i < |s| ensures SquaredDeviations(s, m)[i] == 0.0 {
      ZeroSquare(s[i] - m);
    }
  }

  lemma ZeroSquare(e: real)
    requires e == 0.0
    ensures e * e == 0.0
  {
  }

  /** A sum of zeros is zero. */
  lemma {:induction false} SumOfZeros(s: seq<real>)
    requires forall i :: 0 <= i < |s| ==> s[i] == 0.0
    ensures Sum(s) == 0.0
  {
    if |s| > 0 {
      SumOfZeros(s[..|s| - 1]);
    }
  }

  /** The mean of `n > 0` copies of `c` is `c`. */
  lemma {:induction false} MeanOfConstant(s: seq<real>, c: real)
    requires |s| > 0 && forall i :: 0 <= i < |s| ==> s[i] == c
    ensures Sum(s) == (|s| as real) * c
    ensures Mean(s) == Finite(c)
  {
    if |s| > 1 {
      MeanOfConstant(s[..|s| - 1], c);
    }
    var n := |s| as real;
    assert Sum(s) == n * c;
    assert Sum(s) / n == c;
  }

  /** A sum of non-negative terms one of which is positive is positive. */
  lemma {:induction false} SumPositive(s: seq<real>, k: nat)
    requires forall i :: 0 <= i < |s| ==> s[i] >= 0.0
    requires k < |s| && s[k] > 0.0
    ensures Sum(s) > 0.0
  {
    if k == |s| - 1 {
      SumNonNegative(s[..|s| - 1]);
    } else {
      SumPositive(s[..|s| - 1], k);
    }
  }

  /** The mean has the sign of the sum. */
  lemma MeanSign(s: seq<real>)
    requires |s| > 0
    ensures Mean(s).value > 0.0 <==> Sum(s) > 0.0
    ensures Mean(s).value < 0.0 <==> Sum(s) < 0.0
  {
    var m, n := Mean(s).value, |s| as real;
    if m > 0.0 {
      MulPos(m, n);
    } else if m < 0.0 {
      MulPos(-m, n);
    }
  }
}
