/**
 Outlier detection by Tukey's rule. The first and third quartiles are taken
 the way pandas' `Series.quantile` takes them by default: linear
 interpolation between neighbouring order statistics at position (n - 1)·p of
 the sorted values. With IQR = Q3 - Q1, the fences are Q1 - 1.5·IQR and
 Q3 + 1.5·IQR, and an outlier is a value strictly outside them, reported with
 its position in the input, in input order.
 */
module OutlierDetection {
  import opened RealSeqs
  import opened RealFacts

  datatype Option<T> = None | Some(value: T)

  /** One reported value and its position in the input. */
  datatype Outlier = Outlier(index: nat, value: real)

  datatype Report = Report(q1: real, q3: real, lower: real, upper: real, outliers: seq<Outlier>)

  /** Tukey's fence factor. */
  const Whisker: real := 1.5

  /** Solver hint, not a property of the model: the position (n - 1)·k of the
      k/4 quantile, counted in quarters, stays within the n - 1 gaps and grows
      with k. */
  lemma QuarterPosition(n: nat, j: nat, k: nat)
    requires n > 0
    requires j <= k <= 4
    ensures 0 <= (n - 1) * j <= (n - 1) * k <= 4 * (n - 1)
  {
    var g := n - 1;
    assert g * k - g * j == g * (k - j);
    assert 4 * g - g * k == g * (4 - k);
  }

  /** The k/4 quantile of a sorted sequence, by linear interpolation: with
      h = (n - 1)·k/4, the value s[⌊h⌋] + (h - ⌊h⌋)·(s[⌊h⌋ + 1] - s[⌊h⌋]). The
      integer part and the fraction come from dividing (n - 1)·k by 4. */
  function Interpolate(s: seq<real>, k: nat): real
    requires |s| > 0
    requires k <= 4
  {
    QuarterPosition(|s|, k, k);
    var pos := (|s| - 1) * k;
    var i, rem := pos / 4, pos % 4;
    if rem == 0 then s[i]
    else s[i] + ((rem as real) / 4.0) * (s[i + 1] - s[i])
  }

  /** On a sorted sequence the quantile lies between the order statistics it
      interpolates, hence between the first and the last. */
  lemma InterpolateBetween(s: seq<real>, k: nat)
    requires |s| > 0
    requires k <= 4
    requires Sorted(s)
    ensures s[(|s| - 1) * k / 4] <= Interpolate(s, k)
    ensures (|s| - 1) * k % 4 != 0 ==> Interpolate(s, k) <= s[(|s| - 1) * k / 4 + 1]
    ensures s[0] <= Interpolate(s, k) <= s[|s| - 1]
  {
    QuarterPosition(|s|, k, k);
    var pos := (|s| - 1) * k;
    var i, rem := pos / 4, pos % 4;
    if rem != 0 {
      InterpolationBetween(s[i], s[i + 1], (rem as real) / 4.0);
    }
  }

  /** A larger quantile of a sorted sequence is never smaller. */
  lemma InterpolateMonotone(s: seq<real>, j: nat, k: nat)
    requires |s| > 0
    requires Sorted(s)
    requires j <= k <= 4
    ensures Interpolate(s, j) <= Interpolate(s, k)
  {
    QuarterPosition(|s|, j, k);
    var pj, pk := (|s| - 1) * j, (|s| - 1) * k;
    var ij, ik := pj / 4, pk / 4;
    InterpolateBetween(s, j);
    InterpolateBetween(s, k);
    if ij < ik {
      assert Interpolate(s, j) <= s[ij + 1] <= s[ik];
    } else {
      assert pj % 4 <= pk % 4;
      if pj % 4 != 0 {
        InterpolationMonotone(s[ij], s[ij + 1], (pj % 4) as real / 4.0, (pk % 4) as real / 4.0);
      }
    }
  }

  /** Quantile of the values (in any order): interpolation on the sorted values. */
  function Quantile(values: seq<real>, k: nat): (q: real)
    requires |values| > 0
    requires k <= 4
    ensures Min(values) <= q <= Max(values)
  {
    var s := Sort(values);
    InterpolateBetween(s, k);
    assert s[0] in multiset(values) && s[|s| - 1] in multiset(values);
    Interpolate(s, k)
  }

  /** A value beyond the fences; a value equal to a fence is inside. */
  predicate Outside(v: real, lower: real, upper: real)
  {
    v < lower || v > upper
  }

  /** The values outside the fences with their positions, in input order:
      the boolean-mask selection on the series. */
  function Filter(values: seq<real>, lower: real, upper: real): (r: seq<Outlier>)
    ensures |r| <= |values|
    ensures forall k :: 0 <= k < |r| ==>
              r[k].index < |values| && values[r[k].index] == r[k].value
              && Outside(r[k].value, lower, upper)
    ensures forall k1, k2 :: 0 <= k1 < k2 < |r| ==> r[k1].index < r[k2].index
    ensures forall i :: 0 <= i < |values| && Outside(values[i], lower, upper) ==>
              exists k :: 0 <= k < |r| && r[k].index == i
  {
    if |values| == 0 then []
    else
      var last := |values| - 1;
      var init := Filter(values[..last], lower, upper);
      assert forall i :: 0 <= i < last ==> values[..last][i] == values[i];
      if Outside(values[last], lower, upper) then
        var r := init + [Outlier(last, values[last])];
        assert forall k :: 0 <= k < |init| ==> r[k] == init[k];
        assert r[|init|].index == last;
        r
      else init
  }

  /** Tukey's rule on a non-empty batch. */
  function Detect(values: seq<real>): (r: Report)
    requires |values| > 0
    ensures r.q1 == Quantile(values, 1) && r.q3 == Quantile(values, 3)
    ensures r.lower == r.q1 - Whisker * (r.q3 - r.q1)
    ensures r.upper == r.q3 + Whisker * (r.q3 - r.q1)
    ensures Min(values) <= r.q1 <= r.q3 <= Max(values)
    ensures r.lower <= r.q1 && r.q3 <= r.upper
    ensures forall k :: 0 <= k < |r.outliers| ==>
              r.outliers[k].index < |values| && values[r.outliers[k].index] == r.outliers[k].value
    ensures forall k1, k2 :: 0 <= k1 < k2 < |r.outliers| ==>
              r.outliers[k1].index < r.outliers[k2].index
    ensures forall i :: 0 <= i < |values| ==>
              (Outside(values[i], r.lower, r.upper) <==>
                exists k :: 0 <= k < |r.outliers| && r.outliers[k].index == i)
  {
    var q1, q3 := Quantile(values, 1), Quantile(values, 3);
    InterpolateMonotone(Sort(values), 1, 3);
    var iqr := q3 - q1;
    var lower, upper := q1 - Whisker * iqr, q3 + Whisker * iqr;
    Report(q1, q3, lower, upper, Filter(values, lower, upper))
  }

  /** The analysis entry point: an empty batch yields no report at all. */
  function Analyze(values: seq<real>): (r: Option<Report>)
    ensures r.None? <==> |values| == 0
    ensures r.Some? ==> r.value == Detect(values)
  {
    if |values| == 0 then None else Some(Detect(values))
  }

  /** Reordering the input leaves the quartiles and the fences unchanged. */
  lemma DetectPermutation(a: seq<real>, b: seq<real>)
    requires |a| > 0
    requires multiset(a) == multiset(b)
    ensures |b| > 0
    ensures Detect(a).q1 == Detect(b).q1 && Detect(a).q3 == Detect(b).q3
    ensures Detect(a).lower == Detect(b).lower && Detect(a).upper == Detect(b).upper
  {
    assert |b| == |multiset(b)| == |a|;
    SortPermutation(a, b);
  }

  /** A reported value is never equal to a fence, nor within the quartiles. */
  lemma ReportedStrictlyOutside(values: seq<real>)
    requires |values| > 0
    ensures forall k :: 0 <= k < |Detect(values).outliers| ==>
              var v := Detect(values).outliers[k].value;
              v != Detect(values).lower && v != Detect(values).upper
              && (v < Detect(values).q1 || v > Detect(values).q3)
  {
  }

  /** The positions reported are exactly the positions outside the fences. */
  lemma FilterIndices(values: seq<real>, lower: real, upper: real)
    ensures (set k | 0 <= k < |Filter(values, lower, upper)| :: Filter(values, lower, upper)[k].index)
         == (set i | 0 <= i < |values| && Outside(values[i], lower, upper))
  {
    var r := Filter(values, lower, upper);
    var reported := set k | 0 <= k < |r| :: r[k].index;
    var outside := set i | 0 <= i < |values| && Outside(values[i], lower, upper);
    forall i | i in outside
      ensures i in reported
    {
      var k :| 0 <= k < |r| && r[k].index == i;
    }
  }

  /** A single value is its own first and third quartile, the fences close
      on it, and nothing is reported. */
  lemma DetectSingle(v: real)
    ensures Detect([v]) == Report(v, v, v, v, [])
  {
    SortedPermutationUnique(Sort([v]), [v]);
  }

  /** When exactly one position lies outside the fences, the report is that
      position alone. */
  lemma FilterSingle(values: seq<real>, lower: real, upper: real, i: nat)
    requires i < |values| && Outside(values[i], lower, upper)
    requires forall j :: 0 <= j < |values| && j != i ==> !Outside(values[j], lower, upper)
    ensures Filter(values, lower, upper) == [Outlier(i, values[i])]
  {
    var r := Filter(values, lower, upper);
    assert |r| > 0;
    assert r[0].index == i;
  }

  /** On values already in order, the quantile interpolates them directly. */
  lemma QuantileOfSorted(s: seq<real>, k: nat)
    requires |s| > 0 && k <= 4
    requires Sorted(s)
    ensures Quantile(s, k) == Interpolate(s, k)
  {
    SortedPermutationUnique(Sort(s), s);
  }

  /** The quantile of values in any order is the interpolation on any sorted
      rearrangement of them. */
  lemma QuantileOfPermutation(values: seq<real>, s: seq<real>, k: nat)
    requires |values| > 0 && k <= 4
    requires Sorted(s) && multiset(s) == multiset(values)
    ensures |s| == |values|
    ensures Quantile(values, k) == Interpolate(s, k)
  {
    SortedPermutationUnique(Sort(values), s);
  }

  /** The sample [1, 2, ..., 10, 100]: position i holds i + 1 up to
      position 9, and position 10 holds 100. */
  predicate IsExample(xs: seq<real>)
  {
    |xs| == 11 && xs[10] == 100.0
    && forall i :: 0 <= i < 10 ==> xs[i] == (i + 1) as real
  }

  /** The predicate describes exactly that list. */
  lemma ExampleList()
    ensures IsExample([1.0, 2.0, 3.0, 4.0, 5.0, 6.0, 7.0, 8.0, 9.0, 10.0, 100.0])
  {
  }

  lemma ExampleSorted(xs: seq<real>)
    requires IsExample(xs)
    ensures Sorted(xs)
  {
    assert forall i :: 0 <= i < |xs| - 1 ==> xs[i] <= xs[i + 1];
    SortedFromSteps(xs);
  }

  /** Eleven sorted values: Q1 lies halfway between the third and the fourth. */
  lemma LowerQuartileOfEleven(xs: seq<real>)
    requires |xs| == 11 && Sorted(xs)
    ensures Quantile(xs, 1) == xs[2] + 0.5 * (xs[3] - xs[2])
  {
    QuantileOfSorted(xs, 1);
  }

  /** Eleven sorted values: Q3 lies halfway between the eighth and the ninth. */
  lemma UpperQuartileOfEleven(xs: seq<real>)
    requires |xs| == 11 && Sorted(xs)
    ensures Quantile(xs, 3) == xs[7] + 0.5 * (xs[8] - xs[7])
  {
    QuantileOfSorted(xs, 3);
  }

  /** The quartiles of the sample sit at positions 2.5 and 7.5. */
  lemma ExampleQuartiles(xs: seq<real>)
    requires IsExample(xs)
    ensures Quantile(xs, 1) == 3.5 && Quantile(xs, 3) == 8.5
  {
    ExampleSorted(xs);
    LowerQuartileOfEleven(xs);
    UpperQuartileOfEleven(xs);
  }

  /** [1, 2, ..., 10, 100]: interpolation puts Q1 at 3.5 and Q3 at 8.5, IQR
      is 5, the fences are -4 and 16, and only 100, at position 10, is
      reported. */
  lemma DetectExample(xs: seq<real>)
    requires IsExample(xs)
    ensures Detect(xs) == Report(3.5, 8.5, -4.0, 16.0, [Outlier(10, 100.0)])
  {
    ExampleQuartiles(xs);
    assert forall j :: 0 <= j < 10 ==> -4.0 <= xs[j] <= 16.0;
    FilterSingle(xs, -4.0, 16.0, 10);
  }
}
