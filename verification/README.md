# Material-quality statistics: UQ metrics and IQR outlier detection

This project models the two pieces of numeric logic in the aggregate-management
scripts, over exact `real` numbers:

- **UQ metrics** (`calculate_uq_metrics`). A batch of material-quality test values
  is summarised by three numbers:
  - the arithmetic mean;
  - the population standard deviation (denominator n, numpy's default);
  - the reliability index: mean / std, or the sentinel 0 when std is 0.

  Module `UqMetrics`, file `uq_metrics.dfy`.
- **Outlier detection** (`detect_outliers` and the guard in `main`). This is
  Tukey's rule on the same values:
  - Q1 and Q3 are pandas' default linear-interpolation quantiles at position
    (n − 1)·p of the sorted values;
  - IQR = Q3 − Q1, and the fences are Q1 − 1.5·IQR and Q3 + 1.5·IQR;
  - every value strictly outside a fence is reported with its original
    position, in input order;
  - an empty batch is not analysed at all.

  Module `OutlierDetection`, file `outliers.dfy`.

Shared pieces live in two more modules:

- `RealSeqs` (`real_seqs.dfy`): sums of a term over a sequence, minimum and
  maximum, sortedness, and an insertion sort specified by sortedness plus
  multiset equality.
- `RealFacts` (`real_facts.dfy`): the few facts of real arithmetic the proofs
  need.

Dafny's reals have no square root. The standard deviation therefore enters
`Metrics` as a parameter `std`, which must satisfy `IsSqrt(Variance(values), std)`:
it is non-negative and its square is the variance. `SqrtUnique` proves that at
most one such number exists, so the parameter is fixed by the input.

The quantile position (n − 1)·k/4, for k = 1 or 3, is split into an integer part
and a remainder by integer division. No real `floor` is needed.

For the batch [1, 2, …, 10, 100], `Series.quantile` with its default linear
interpolation gives Q1 = 3.5 and Q3 = 8.5, so the fences are −4 and 16 and
the only outlier is 100 at position 10 (`OutlierDetection.DetectExample`).

## Model

| member | source | states |
|---|---|---|
| `UqMetrics.Mean` | scripts/uncertainty_model.py:15 | the mean times the count is the sum of the values, i.e. the mean is the sum divided by the length |
| `UqMetrics.MeanBounds` | scripts/uncertainty_model.py:15 | the mean lies between the smallest and the largest value |
| `UqMetrics.MeanBetween` | scripts/uncertainty_model.py:15 | any common bounds on the values bound the mean |
| `UqMetrics.ConstantMean` | scripts/uncertainty_model.py:15 | the mean of equal values is that value |
| `UqMetrics.Variance` | scripts/uncertainty_model.py:16 | the variance is non-negative, and times n (not n − 1) it is the sum of squared deviations from the mean |
| `UqMetrics.SquaredDeviationsZero` | scripts/uncertainty_model.py:16 | squared deviations from m sum to a non-negative total that is zero exactly when every value is m |
| `UqMetrics.VarianceZero` | scripts/uncertainty_model.py:16 | the variance is zero if and only if all values are equal |
| `UqMetrics.SquaredDeviationsExpand` | scripts/uncertainty_model.py:16 | the sum of (x − m)² equals the sum of x², minus 2m times the sum, plus n·m² |
| `UqMetrics.ShortcutFromShares` | scripts/uncertainty_model.py:16 | any m and v that share the sum and the squared deviations over n satisfy v = mean of squares − m² |
| `UqMetrics.VarianceShortcut` | scripts/uncertainty_model.py:16 | the population variance equals the mean of the squares minus the square of the mean |
| `UqMetrics.SqrtUnique` | scripts/uncertainty_model.py:16 | a number has at most one non-negative square root, so the standard deviation is determined by the values |
| `UqMetrics.SqrtZero` | scripts/uncertainty_model.py:16 | the standard deviation is zero exactly when the variance is zero |
| `UqMetrics.Reliability` | scripts/uncertainty_model.py:17 | for a non-zero deviation the index times the deviation is the mean; for a zero deviation it is the sentinel 0 and nothing is divided |
| `UqMetrics.Metrics` | scripts/uncertainty_model.py:15-17 | the summary's mean times n is the sum, its deviation is non-negative and its square times n is the sum of squared deviations from that mean, and its index is mean / std or the sentinel 0 |
| `UqMetrics.MetricsDegenerate` | scripts/uncertainty_model.py:15-17 | the mean lies within the values; the deviation is 0 if and only if all values are equal, and then the index is 0 |
| `UqMetrics.MetricsPermutation` | scripts/uncertainty_model.py:13-17 | reordering the values changes neither the mean, nor the deviation, nor the index |
| `UqMetrics.ConstantMetrics` | scripts/uncertainty_model.py:15-17 | values all equal to c summarise to mean c, deviation 0 and index 0 |
| `UqMetrics.FivesExample` | scripts/uncertainty_model.py:15-17 | [5, 5, 5] summarises to mean 5, deviation 0 and index 0 |
| `UqMetrics.PopulationVarianceExample` | scripts/uncertainty_model.py:16 | [1, 2, 3] has mean 2 and variance 2/3, the population value, not the sample value 1 |
| `RealSeqs.SumOfPermutation` | scripts/uncertainty_model.py:13-17 | a sum of terms does not depend on the order of the values |
| `RealSeqs.Sort` | scripts/visualize_and_detect_outliers.py:49-50 | the sorted values are in non-decreasing order and hold the same elements as the input |
| `RealSeqs.Insert` | scripts/visualize_and_detect_outliers.py:49-50 | inserting into sorted values keeps them sorted and adds exactly that one element |
| `RealSeqs.SortedPermutationUnique` | scripts/visualize_and_detect_outliers.py:49-50 | two sorted sequences with the same elements are equal, so the quartiles do not depend on which sort is used |
| `RealSeqs.SortPermutation` | scripts/visualize_and_detect_outliers.py:46-50 | reordering the input does not change the sorted values the quartiles are read from |
| `OutlierDetection.Interpolate` | scripts/visualize_and_detect_outliers.py:49-50 | pandas' linear interpolation at position (n − 1)·k/4 of sorted values; it has no contract of its own, and `InterpolateBetween`, `InterpolateMonotone` and `QuantileOfSorted` give it meaning |
| `OutlierDetection.InterpolateBetween` | scripts/visualize_and_detect_outliers.py:49-50 | the interpolated quantile lies between the two order statistics around its position, hence between the smallest and largest value |
| `OutlierDetection.InterpolateMonotone` | scripts/visualize_and_detect_outliers.py:49-51 | a higher quantile of the same sorted values is never smaller, so Q1 ≤ Q3 and the IQR is non-negative |
| `OutlierDetection.Quantile` | scripts/visualize_and_detect_outliers.py:49-50 | each quartile lies between the minimum and the maximum of the input |
| `OutlierDetection.QuantileOfSorted` | scripts/visualize_and_detect_outliers.py:49-50 | on values already in order the quantile interpolates them directly |
| `OutlierDetection.QuantileOfPermutation` | scripts/visualize_and_detect_outliers.py:49-50 | for values in any order, the quantile is the linear interpolation on their sorted rearrangement |
| `OutlierDetection.Outside` | scripts/visualize_and_detect_outliers.py:56 | the mask: a value strictly below the lower fence or strictly above the upper one; a value equal to a fence is inside. A predicate with no contract of its own; `Filter` and `Detect` state what it selects |
| `OutlierDetection.Filter` | scripts/visualize_and_detect_outliers.py:56 | the selection holds at most n entries; each entry's position holds its value, which is outside the fences; positions strictly increase; every value outside the fences is selected |
| `OutlierDetection.FilterIndices` | scripts/visualize_and_detect_outliers.py:56 | the set of reported positions is exactly the set of positions whose values lie outside the fences |
| `OutlierDetection.FilterSingle` | scripts/visualize_and_detect_outliers.py:56 | when exactly one value lies outside the fences, the selection is that value alone, at its position |
| `OutlierDetection.Detect` | scripts/visualize_and_detect_outliers.py:43-60 | Q1 and Q3 are the interpolated 0.25 and 0.75 quantiles of the values; the fences are Q1 − 1.5·IQR and Q3 + 1.5·IQR with IQR = Q3 − Q1; min ≤ Q1 ≤ Q3 ≤ max and lower fence ≤ Q1, Q3 ≤ upper fence; a position is reported if and only if its value is strictly outside a fence; entries keep their positions, values and input order |
| `OutlierDetection.ReportedStrictlyOutside` | scripts/visualize_and_detect_outliers.py:54-56 | a reported value never equals a fence and never lies within [Q1, Q3] |
| `OutlierDetection.DetectPermutation` | scripts/visualize_and_detect_outliers.py:46-55 | reordering the input leaves Q1, Q3 and both fences unchanged |
| `OutlierDetection.DetectSingle` | scripts/visualize_and_detect_outliers.py:49-56 | a single value is both quartiles and both fences, and nothing is reported |
| `OutlierDetection.LowerQuartileOfEleven` | scripts/visualize_and_detect_outliers.py:49 | for eleven sorted values the 0.25 quantile sits at position 2.5, halfway between the third and fourth values |
| `OutlierDetection.UpperQuartileOfEleven` | scripts/visualize_and_detect_outliers.py:50 | for eleven sorted values the 0.75 quantile sits at position 7.5, halfway between the eighth and ninth values |
| `OutlierDetection.ExampleQuartiles` | scripts/visualize_and_detect_outliers.py:49-50 | for [1, 2, …, 10, 100] the interpolated quartiles are 3.5 and 8.5 |
| `OutlierDetection.DetectExample` | scripts/visualize_and_detect_outliers.py:49-56 | for [1, 2, …, 10, 100] the fences are −4 and 16 and the only outlier is 100 at position 10 |
| `OutlierDetection.Analyze` | scripts/visualize_and_detect_outliers.py:64-67 | an empty batch yields no report, and a non-empty one yields Tukey's report |

## Left out

- Fetching the values from PostgreSQL: the connection, the query, the Decimal-to-float conversion and closing the connection. This is I/O; the values are a parameter.
- Plotting (`plot_histogram`, `plot_boxplot`) and every printed line. This is output only.
- Grouping by source and writing `UQ_Results`: none of the scripts modelled here does either. `calculate_uq_metrics` computes one summary over all rows and only prints it, and `scripts/export_data_to_csv.py` only reads that table.
- The sample deviation from PostgreSQL `STDDEV` in `scripts/testing_queries.py`. It is ad-hoc SQL and uses n − 1, which is not the computation modelled here.
- Rounding: IEEE floating-point rounding in the outlier detector, and decimal rounding in the UQ metrics (numpy works on the database's `Decimal` values there). The model computes over exact reals, with no rounding and no NaN.
- `UqMetrics.Metrics`: requires a non-empty batch. numpy returns NaN for an empty one, and IEEE values are not modelled.
- `UqMetrics.Metrics`: takes the standard deviation as a parameter certified by `IsSqrt`, instead of computing it. Reals have no square root in Dafny; `SqrtUnique` shows that the parameter is fixed by the values.
- Quantiles other than the quartiles: the code only asks for 0.25 and 0.75, so positions are modelled in quarters (k/4, k = 0..4).
- `OutlierDetection.Detect`: requires a non-empty batch. In the code, `main` returns before detection on an empty batch, and `Analyze` models that guard.
