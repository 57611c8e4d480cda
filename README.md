# Weighted log-linear wage regression

This project models the trend line of the BLS-LLMs dashboard's wage scatter
charts: `computeLogWageRegressionLine` in `src/lib/d3/wage-regression.ts`.

The function works in these steps:

1. It keeps the chart data whose `x` and `y` are finite numbers and whose
   wage `y` is positive.
2. It weights each kept datum by its employment. A missing employment
   counts as 1.
3. It returns no line when fewer than two data remain.
4. It resolves the x range of the drawn segment. A supplied bound is kept;
   a missing one becomes the smallest or largest valid x.
5. It replaces each wage by its base-10 logarithm and clamps each weight
   at 0.
6. It accumulates five weighted sums in one loop and returns no line when
   the total weight or the determinant of the normal equations is zero.
7. It solves for slope and intercept, and in a second loop computes the
   weighted total and residual sums of squares. R² is 0 when the total sum
   of squares is not positive.
8. It maps the line's values at the two ends of the range back to wage
   units with `10^(·)`.

Files:

- `chart_types.dfy`: the datum, domain and result types of
  `src/lib/types/layercake-chart.ts`.
- `wage_regression.dfy`: the pipeline. Filtering, the domain, the log
  transform and the fit are functions. The two accumulation loops are
  methods. `ComputeLogWageRegressionLine` is the imperative method with
  the same steps as the source. It is proved equal to the function
  `LogWageRegression`, which states the result on values.
- `regression_properties.dfy`: the sums in closed form. Sums of squares
  are non-negative. The total weight is zero exactly when every weight is
  zero. The determinant is zero exactly when all weighted points share
  one x.
- `fit_properties.dfy`: properties of the fitted line. It solves both
  weighted least-squares normal equations. It passes through the weighted
  mean. It recovers a line the points lie on exactly. It
  satisfies the variance decomposition RSS·Σw = TSS·Σw − slope²·D, and
  from that R² lies in [0, 1].
- `data_properties.dfy`: results on the chart data. These cover invalid
  points, missing, zero and negative employment, when no line is drawn,
  equal wages, and the default range.
- `worked_examples.dfy`: concrete inputs with their full results.

Numbers are exact reals. `Math.log10` and `Math.pow(10, ·)` are the
parameters `log10` and `pow10`. Nothing is assumed about them except
where a lemma states the values it needs, such as `log10(100) == 2`.

The weight of a datum is read from its `employment` field. Zero total
weight returns no line before R² is reached (`DataProperties.NoLineIff`),
so the R² of 0 only ever reports a non-positive total sum of squares.
Arithmetic is exact, so the worked examples hold with equality.

## Model

| member | source | states |
|---|---|---|
| WageRegression.IsValidRegressionPoint | src/lib/d3/wage-regression.ts:15-17 | a datum is used exactly when its x and y are finite numbers and its wage y is positive (no NaN, no ±Infinity) |
| WageRegression.Weight | src/lib/d3/wage-regression.ts:27 | the weight is the employment whenever one is present, 0 and negative values included, and 1 only when it is absent |
| WageRegression.ClampWeight | src/lib/d3/wage-regression.ts:44 | the clamped weight is at least 0 and at least the weight, and is one of the two: it is max(weight, 0) |
| WageRegression.Square | src/lib/d3/wage-regression.ts:75-76 | `Math.pow(v, 2)`, taken as the exact square v·v, is never negative |
| WageRegression.Denominator | src/lib/d3/wage-regression.ts:64 | Σw·Σw·x² − (Σw·x)², the determinant of the normal equations; its meaning, Σw times the weighted spread of x, is `RegressionProperties.DenominatorIsScaledSpread` |
| WageRegression.Slope | src/lib/d3/wage-regression.ts:67 | (Σw·Σw·x·y − Σw·x·Σw·y) / determinant, defined only for a non-zero determinant; that it solves the normal equations is `FitProperties.NormalEquationsAtFit` |
| WageRegression.Intercept | src/lib/d3/wage-regression.ts:68 | (Σw·y − slope·Σw·x) / Σw, defined only for Σw ≠ 0; the line through the weighted mean for any slope is `FitProperties.MeanOnFitLine` |
| WageRegression.MeanY | src/lib/d3/wage-regression.ts:70 | Σw·y / Σw, the weighted mean log wage, defined only for Σw ≠ 0 |
| WageRegression.RSquared | src/lib/d3/wage-regression.ts:79 | 1 − RSS/TSS when TSS is positive and 0 otherwise; its range [0, 1] for a fit is `FitProperties.RSquaredInUnitInterval` |
| WageRegression.Predicted | src/lib/d3/wage-regression.ts:76-82 | intercept + slope·x, the line's log-space value, used for the residuals and for both endpoints |
| WageRegression.ValidPoints | src/lib/d3/wage-regression.ts:23-29 | the filtered list has at most as many entries as the data, and every kept wage is positive |
| WageRegression.Min | src/lib/d3/wage-regression.ts:34 | the minimum is one of the x values and no x value is below it |
| WageRegression.Max | src/lib/d3/wage-regression.ts:35 | the maximum is one of the x values and no x value is above it |
| WageRegression.ResolveDomain | src/lib/d3/wage-regression.ts:37-38 | a supplied bound, 0 included, is kept; a missing start is the smallest valid x and a missing end the largest |
| WageRegression.LogPoints | src/lib/d3/wage-regression.ts:40-46 | one log point per valid point, in order: same x, log10 of the wage, the weight if non-negative and 0 if negative |
| WageRegression.FitLogPoints | src/lib/d3/wage-regression.ts:62-92 | no fit exactly when the total weight or the determinant is zero; otherwise each endpoint's y is pow10 of the line's value at its x, start first |
| WageRegression.LogWageRegression | src/lib/d3/wage-regression.ts:19-93 | fewer than two valid points give no line; a line has its endpoints at the resolved range, start then end, each y being pow10(intercept + slope·x) |
| WageRegression.AccumulateSums | src/lib/d3/wage-regression.ts:48-60 | the loop's five running sums are Σw, Σw·x, Σw·y, Σw·x·y and Σw·x² over all log points |
| WageRegression.AccumulateSumsOfSquares | src/lib/d3/wage-regression.ts:71-77 | the loop's results are the weighted total sum of squares around meanY and the residual sum of squares of the line |
| WageRegression.ComputeLogWageRegressionLine | src/lib/d3/wage-regression.ts:19-93 | the imperative computation returns exactly `LogWageRegression` of its inputs |
| RegressionProperties.TotalWeightZeroIff | src/lib/d3/wage-regression.ts:62 | with clamped weights Σw ≥ 0, and Σw = 0 exactly when every weight is 0 |
| RegressionProperties.TotalSSNonNegative | src/lib/d3/wage-regression.ts:75 | the total sum of squares is non-negative under clamped weights |
| RegressionProperties.ResidualSSNonNegative | src/lib/d3/wage-regression.ts:76 | the residual sum of squares is non-negative under clamped weights |
| RegressionProperties.WeightedSquareZeroIff | src/lib/d3/wage-regression.ts:75-76 | one point's term w·d² is non-negative, and zero exactly when w or d is zero |
| RegressionProperties.ResidualExpansion | src/lib/d3/wage-regression.ts:76 | the residual sum of squares equals a quadratic in intercept and slope whose coefficients are the five sums and Σw·y² |
| RegressionProperties.TotalExpansion | src/lib/d3/wage-regression.ts:75 | the total sum of squares equals a quadratic in the mean whose coefficients are Σw, Σw·y and Σw·y² |
| RegressionProperties.SpreadExpansion | src/lib/d3/wage-regression.ts:64 | the weighted spread Σw·(x − c)² equals Σw·x² − 2c·Σw·x + c²·Σw |
| RegressionProperties.SpreadZeroIff | src/lib/d3/wage-regression.ts:64-65 | the spread around c is non-negative, and zero exactly when every weighted point has x = c |
| RegressionProperties.DenominatorIsScaledSpread | src/lib/d3/wage-regression.ts:64 | the determinant equals Σw times the spread of x around the weighted mean of x |
| RegressionProperties.DegenerateIffSingleX | src/lib/d3/wage-regression.ts:64-65 | with positive total weight the determinant is ≥ 0, and zero exactly when all weighted points share one x |
| FitProperties.FitPassesThroughWeightedMean | src/lib/d3/wage-regression.ts:67-70 | the fitted line passes through (weighted mean of x, weighted mean of log wage) |
| FitProperties.NormalEquationsAtFit | src/lib/d3/wage-regression.ts:64-68 | with Σw ≠ 0 and determinant ≠ 0, the closed-form slope and intercept satisfy both weighted least-squares normal equations |
| FitProperties.FitSolvesNormalEquations | src/lib/d3/wage-regression.ts:62-68 | every fit's intercept and slope make Σw·(y − ŷ) and Σw·x·(y − ŷ) zero; with a non-zero determinant these two equations have only this solution (`SlopeOfExactLine`, `InterceptOfExactLine`) |
| FitProperties.OnLineNormal | src/lib/d3/wage-regression.ts:54-60 | when every weighted point lies on y = a + b·x, the sums satisfy both normal equations |
| FitProperties.SlopeOfExactLine | src/lib/d3/wage-regression.ts:67 | sums satisfying the normal equations for (a, b) with non-zero determinant give slope b |
| FitProperties.InterceptOfExactLine | src/lib/d3/wage-regression.ts:68 | sums satisfying the first normal equation for (a, b) give intercept a for slope b |
| FitProperties.OnLineResidualZero | src/lib/d3/wage-regression.ts:76 | points on a line have zero residual sum of squares around that line |
| FitProperties.ResidualIdentity | src/lib/d3/wage-regression.ts:67-76 | at the least-squares intercept and slope, Σw·RSS = Σw·TSS − slope²·determinant, in terms of the sums |
| FitProperties.FitResidualIdentity | src/lib/d3/wage-regression.ts:64-77 | the same decomposition for the fitted line of a list of log points |
| FitProperties.RSquaredInUnitInterval | src/lib/d3/wage-regression.ts:79 | with clamped weights the fit's R² lies between 0 and 1 |
| FitProperties.RSquaredOfExactFit | src/lib/d3/wage-regression.ts:79 | a fit with zero residual has R² = 1 when its slope is non-zero and R² = 0 when it is flat |
| FitProperties.PerfectFitRecovered | src/lib/d3/wage-regression.ts:48-79 | points exactly on y = a + b·x with non-degenerate sums are fitted with slope b, intercept a and zero residual; with clamped weights R² is 1, or 0 if b = 0 |
| FitProperties.ConstantLogWageGivesFlatLine | src/lib/d3/wage-regression.ts:67-79 | equal log wages c give slope 0, intercept c and R² = 0 |
| DataProperties.ValidPointsAppend | src/lib/d3/wage-regression.ts:23 | filtering a concatenation is the concatenation of the filtered parts, so order is kept |
| DataProperties.ValidPointsOrigin | src/lib/d3/wage-regression.ts:23-29 | every valid point comes from a valid datum, and every valid datum yields a valid point |
| DataProperties.SameValidPointsSameResult | src/lib/d3/wage-regression.ts:23-93 | two data lists with the same valid points give the same result |
| DataProperties.ValidPointsSkipInvalid | src/lib/d3/wage-regression.ts:15-17 | a datum with a non-finite coordinate or a non-positive wage is dropped by the filter wherever it stands |
| DataProperties.InvalidPointIgnored | src/lib/d3/wage-regression.ts:15-23 | inserting an invalid datum anywhere leaves the result unchanged |
| DataProperties.ValidPointsCorrespond | src/lib/d3/wage-regression.ts:23-44 | data that agree datum by datum on validity, position and clamped weight yield corresponding valid points |
| DataProperties.SameWeightedViewSameResult | src/lib/d3/wage-regression.ts:23-93 | data that agree datum by datum on validity, position and clamped weight give the same result |
| DataProperties.MissingWeightCountsAsOne | src/lib/d3/wage-regression.ts:27 | a datum without employment gives the same result as the same datum with employment 1 |
| DataProperties.NegativeWeightCountsAsZero | src/lib/d3/wage-regression.ts:44 | a negative employment gives the same result as employment 0 |
| DataProperties.ZeroWeightPointDoesNotMoveFit | src/lib/d3/wage-regression.ts:54-77 | appending a log point of weight 0 leaves the fit unchanged |
| DataProperties.ValidPointsAppendValid | src/lib/d3/wage-regression.ts:23-29 | appending a valid datum appends its weighted point |
| DataProperties.LogPointsAppend | src/lib/d3/wage-regression.ts:40-46 | appending a valid point appends its log point |
| DataProperties.ZeroEmploymentDatumDoesNotMoveLine | src/lib/d3/wage-regression.ts:27-44 | with both bounds supplied and two valid points already present, appending a datum of employment 0 leaves the result unchanged: an explicit 0 is kept as 0 and does not become 1 |
| DataProperties.NoLineIff | src/lib/d3/wage-regression.ts:31-65 | no line exactly when there are fewer than two valid points, the total weight is zero, or the determinant is zero |
| DataProperties.AllWeightsNonPositiveGiveNoLine | src/lib/d3/wage-regression.ts:44-62 | when every valid datum has employment ≤ 0 there is no line |
| DataProperties.SharedXGivesNoLine | src/lib/d3/wage-regression.ts:64-65 | when all valid data share one x there is no line |
| DataProperties.EqualWagesGiveFlatLine | src/lib/d3/wage-regression.ts:67-79 | when all valid data have the same wage, any line has slope 0, intercept log10 of that wage and R² = 0 |
| DataProperties.DefaultDomainSpansData | src/lib/d3/wage-regression.ts:33-38 | with no bounds supplied, the endpoints' x are a smallest and a largest valid x: start ≤ end and every valid x lies between them |
| WorkedExamples.ThreeUnitPoints | src/lib/d3/wage-regression.ts:23-46 | three positive-wage data without employment become three unit-weight log points, in order |
| WorkedExamples.ThreeUnitPointsNonDegenerate | src/lib/d3/wage-regression.ts:62-65 | three clamped points, two of them of weight 1 at different x, pass both degenerate-case checks |
| WorkedExamples.DataRangeOneToThree | src/lib/d3/wage-regression.ts:33-38 | x values 1, 2, 3 with no bounds give the range [1, 3] |
| WorkedExamples.TenfoldPerStepOverSuppliedDomain | src/lib/d3/wage-regression.ts:19-93 | (0,10), (1,100), (2,1000) over [0, 2] give endpoints (0,10) and (2,1000), slope 1, intercept 1, R² 1 |
| WorkedExamples.TenfoldPerStepOverDataRange | src/lib/d3/wage-regression.ts:19-93 | (1,10), (2,100), (3,1000) with no bounds give endpoints (1,10) and (3,1000), slope 1, intercept 0, R² 1 |
| WorkedExamples.EqualWagesExample | src/lib/d3/wage-regression.ts:19-93 | (1,10), (2,10), (3,10) give a flat line at 10 from x = 1 to 3, intercept 1 and R² 0 |
| WorkedExamples.SingleValidPointExample | src/lib/d3/wage-regression.ts:15-31 | one valid datum among data with NaN x, infinite wage, zero wage and negative wage gives no line |

The types in `chart_types.dfy` model `src/lib/types/layercake-chart.ts:1-31`.
Only the datum fields that the regression reads are kept.

## Left out

- IEEE-754 floating point: numbers are exact reals. Rounding, overflow to
  infinity and the `≈` of near-perfect fits are not modelled. The `=== 0`
  tests are exact comparisons on reals.
- Non-finite employment and non-finite domain bounds: employment and the
  two bounds are finite reals or absent. A NaN or infinite value there,
  and the way it would spread through the sums, is not modelled.
- `Math.log10` and `Math.pow(10, ·)` are parameters, not the real
  functions. Lemmas that need particular values take them as
  preconditions.
- `Math.pow(v, 2)` is modelled as the exact square v·v.
- The RangeError that spreading the x values into `Math.min(...)` and
  `Math.max(...)` throws once the valid points exceed the engine's
  argument-count limit: `Min` and `Max` return a value for every
  non-empty list, so the model computes a line where the program would
  throw.
- The datum fields `label`, `color`, `category`, `r`, `wage` and
  `probability`, and the `RadiusScale` and `LegendItem` types of
  `src/lib/types/layercake-chart.ts`: the regression does not read them.
- Everything else in the repository: chart rendering, stores, formatting
  and the pages that call the regression.
- DataProperties.ZeroEmploymentDatumDoesNotMoveLine: stated with both
  bounds supplied. Without supplied bounds, a zero-weight datum can still
  widen the default range and so move the drawn endpoints. The fit itself
  is unchanged in every case (`DataProperties.ZeroWeightPointDoesNotMoveFit`).
- WageRegression.ValidPoints: its own contract gives only length and
  positivity. That the filter keeps exactly the valid data, in order, is
  stated by `DataProperties.ValidPointsOrigin`,
  `DataProperties.ValidPointsAppend` and `DataProperties.ValidPointsSkipInvalid`.
