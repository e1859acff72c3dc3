/**
 The uncertainty-quantification summary of a batch of test values: the
 arithmetic mean, the population standard deviation (denominator n, the
 default of numpy's `std`) and the reliability index mean / std, which is the
 sentinel 0 when the deviation is 0.

 Reals have no square root in Dafny, so the standard deviation enters as a
 parameter that must be the non-negative square root of the variance; the
 root is proved unique, so the parameter is fixed by the input.
 */
module UqMetrics {
  import opened RealSeqs
  import opened RealFacts

  /** Arithmetic mean: the sum shared out over the n values. */
  function Mean(values: seq<real>): (m: real)
    requires |values| > 0
    ensures m * (|values| as real) == Sum(values)
  {
    DivideByCount(Sum(values), |values| as real);
    Sum(values) / (|values| as real)
  }

  /** Bounds on every value bound the mean. */
  lemma MeanBetween(values: seq<real>, lo: real, hi: real)
    requires |values| > 0
    requires forall i :: 0 <= i < |values| ==> lo <= values[i] <= hi
    ensures lo <= Mean(values) <= hi
  {
    SumBounds(values, lo, hi);
    ShareBounds(Mean(values), Sum(values), |values| as real, lo, hi);
  }

  /** The mean lies between the smallest and the largest value. */
  lemma MeanBounds(values: seq<real>)
    requires |values| > 0
    ensures Min(values) <= Mean(values) <= Max(values)
  {
    MeanBetween(values, Min(values), Max(values));
  }

  /** The term (x - m)² of a sum of squared deviations from `m`. */
  function SquaredDeviation(m: real): real -> real
  {
    x => Sq(x - m)
  }

  /** Every element equals every other one. */
  predicate AllEqual(values: seq<real>)
  {
    forall i, j :: 0 <= i < |values| && 0 <= j < |values| ==> values[i] == values[j]
  }

  /** Population variance: the squared deviations from the mean shared out
      over n values (not n - 1). */
  function Variance(values: seq<real>): (v: real)
    requires |values| > 0
    ensures v >= 0.0
    ensures v * (|values| as real) == SumOf(values, SquaredDeviation(Mean(values)))
  {
    var n := |values| as real;
    var sd := SumOf(values, SquaredDeviation(Mean(values)));
    SquaredDeviationsZero(values, Mean(values));
    DivideByCount(sd, n);
    DivideSign(sd, n);
    sd / n
  }

  /** The variance vanishes exactly when all values are equal. */
  lemma VarianceZero(values: seq<real>)
    requires |values| > 0
    ensures Variance(values) == 0.0 <==> AllEqual(values)
  {
    var n := |values| as real;
    var sd := SumOf(values, SquaredDeviation(Mean(values)));
    SquaredDeviationsZero(values, Mean(values));
    if AllEqual(values) {
      ConstantMean(values);
    }
    DivideSign(sd, n);
  }

  /** The squared deviations from `m` are non-negative, and all vanish exactly
      when every value equals `m`. */
  lemma SquaredDeviationsZero(values: seq<real>, m: real)
    ensures SumOf(values, SquaredDeviation(m)) >= 0.0
    ensures SumOf(values, SquaredDeviation(m)) == 0.0
        <==> forall i :: 0 <= i < |values| ==> values[i] == m
  {
    var f := SquaredDeviation(m);
    forall i | 0 <= i < |values|
      ensures f(values[i]) >= 0.0
      ensures f(values[i]) == 0.0 <==> values[i] == m
    {
      SquareSign(values[i] - m);
    }
    SumOfZero(values, f);
  }

  /** The mean of a constant sequence is that constant. */
  lemma ConstantMean(values: seq<real>)
    requires |values| > 0
    requires AllEqual(values)
    ensures Mean(values) == values[0]
  {
    MeanBetween(values, values[0], values[0]);
  }

  /** Expanding (x - m)² = x² - 2mx + m² under the sum. */
  lemma {:induction false} SquaredDeviationsExpand(values: seq<real>, m: real)
    ensures SumOf(values, SquaredDeviation(m))
        == SumOf(values, Sq) - 2.0 * (m * Sum(values)) + (|values| as real) * Sq(m)
  {
    if |values| > 0 {
      var x, rest := values[0], values[1..];
      SquaredDeviationsExpand(rest, m);
      SumOfCons(values, SquaredDeviation(m));
      SumOfCons(values, Sq);
      SumOfCons(values, Identity);
      SquareOfDifference(x, m);
      Distribute(m, x, Sum(rest));
      Distribute(Sq(m), |rest| as real, 1.0);
      assert SquaredDeviation(m)(x) == Sq(x - m);
    }
  }

  /** The textbook shortcut: the population variance is the mean of the squares
      minus the square of the mean. */
  lemma VarianceShortcut(values: seq<real>)
    requires |values| > 0
    ensures Variance(values) == SumOf(values, Sq) / (|values| as real) - Sq(Mean(values))
  {
    ShortcutFromShares(values, Mean(values), Variance(values));
  }

  /** The shortcut for any m and v that share the sum and the squared
      deviations from m out over n values. */
  lemma ShortcutFromShares(values: seq<real>, m: real, v: real)
    requires |values| > 0
    requires m * (|values| as real) == Sum(values)
    requires v * (|values| as real) == SumOf(values, SquaredDeviation(m))
    ensures v == SumOf(values, Sq) / (|values| as real) - Sq(m)
  {
    SquaredDeviationsExpand(values, m);
    ShortcutAlgebra(v, SumOf(values, Sq), Sum(values), m, |values| as real);
  }

  /** Square root: a non-negative number whose square is `x`. */
  predicate IsSqrt(x: real, r: real)
  {
    r >= 0.0 && Sq(r) == x
  }

  /** A square root is unique. */
  lemma SqrtUnique(x: real, r1: real, r2: real)
    requires IsSqrt(x, r1) && IsSqrt(x, r2)
    ensures r1 == r2
  {
    if r1 < r2 {
      SquareIncreasing(r1, r2);
    } else if r2 < r1 {
      SquareIncreasing(r2, r1);
    }
  }

  /** The square root is zero exactly when its square is. */
  lemma SqrtZero(x: real, r: real)
    requires IsSqrt(x, r)
    ensures r == 0.0 <==> x == 0.0
  {
    SquareSign(r);
  }

  /** Mean over standard deviation, or the sentinel 0 when the deviation is 0. */
  function Reliability(mean: real, std: real): (ri: real)
    ensures std != 0.0 ==> ri * std == mean
    ensures std == 0.0 ==> ri == 0.0
  {
    if std != 0.0 then mean / std else 0.0
  }

  datatype Summary = Summary(mean: real, std: real, reliability: real)

  /** The three metrics of one batch; `std` is the square root of the variance. */
  function Metrics(values: seq<real>, std: real): (r: Summary)
    requires |values| > 0
    requires IsSqrt(Variance(values), std)
    ensures r.mean * (|values| as real) == Sum(values)
    ensures r.std >= 0.0
    ensures Sq(r.std) * (|values| as real) == SumOf(values, SquaredDeviation(r.mean))
    ensures r.std != 0.0 ==> r.reliability * r.std == r.mean
    ensures r.std == 0.0 ==> r.reliability == 0.0
  {
    var mean := Mean(values);
    Summary(mean, std, Reliability(mean, std))
  }

  /** The deviation is zero, and the reliability index takes its sentinel,
      exactly when all values are equal; the mean lies within the values. */
  lemma MetricsDegenerate(values: seq<real>, std: real)
    requires |values| > 0
    requires IsSqrt(Variance(values), std)
    ensures Min(values) <= Metrics(values, std).mean <= Max(values)
    ensures Metrics(values, std).std == 0.0 <==> AllEqual(values)
    ensures AllEqual(values) ==> Metrics(values, std).reliability == 0.0
  {
    MeanBounds(values);
    VarianceZero(values);
    SqrtZero(Variance(values), std);
  }

  /** The metrics do not depend on the order of the values. */
  lemma MetricsPermutation(a: seq<real>, b: seq<real>, std: real)
    requires |a| > 0
    requires multiset(a) == multiset(b)
    requires IsSqrt(Variance(a), std)
    ensures |b| > 0 && IsSqrt(Variance(b), std)
    ensures Metrics(a, std) == Metrics(b, std)
  {
    assert |b| == |multiset(b)| == |a|;
    SumOfPermutation(a, b, Identity);
    assert Mean(a) == Mean(b);
    SumOfPermutation(a, b, SquaredDeviation(Mean(a)));
  }

  /** Identical values: the mean is that value, the deviation and the
      reliability index are 0, and nothing is divided. */
  lemma ConstantMetrics(values: seq<real>, c: real)
    requires |values| > 0
    requires forall i :: 0 <= i < |values| ==> values[i] == c
    ensures IsSqrt(Variance(values), 0.0)
    ensures Metrics(values, 0.0) == Summary(c, 0.0, 0.0)
  {
    assert AllEqual(values);
    ConstantMean(values);
    VarianceZero(values);
  }

  /** [5, 5, 5] summarises to mean 5, deviation 0, reliability 0. */
  lemma FivesExample()
    ensures IsSqrt(Variance([5.0, 5.0, 5.0]), 0.0)
    ensures Metrics([5.0, 5.0, 5.0], 0.0) == Summary(5.0, 0.0, 0.0)
  {
    ConstantMetrics([5.0, 5.0, 5.0], 5.0);
  }

  /** [1, 2, 3] has mean 2 and population variance 2/3; the sample variance
      would be 1. */
  lemma PopulationVarianceExample()
    ensures Mean([1.0, 2.0, 3.0]) == 2.0
    ensures Variance([1.0, 2.0, 3.0]) == 2.0 / 3.0
  {
    var s := [1.0, 2.0, 3.0];
    assert s[1..] == [2.0, 3.0];
    assert s[1..][1..] == [3.0];
    assert s[1..][1..][1..] == [];
    assert Sum(s) == 6.0;
    assert SumOf(s, SquaredDeviation(2.0)) == 2.0;
  }
}
