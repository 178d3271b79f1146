# Sea-surface temperature forecast: a verified model of the numeric core

The program reads a series of yearly sea-surface temperature anomalies. It
fits an ordinary least-squares line, anomaly = slope * year + intercept, and
extrapolates that line over every year from 2024 to 2124. This project models
the numeric core of `src/forecast.cpp` in Dafny and proves what it computes:

- `mean`: the arithmetic mean.
- `linearRegression`: the least-squares fit with one predictor, including the
  fallback to the line (0, 0) when the predictor has no variance.
- `forecast`: evaluates the line year by year.
- The part of `main` that guards against an empty data set, fixes the horizon
  2024..2124 and pairs the i-th prediction with the year 2024 + i.

C++ `double` is modelled as Dafny `real`, so every property holds in exact
arithmetic. Years are unbounded `int`.

Modules, one file each:

- `statistics.dfy` (`Statistics`): sums, the mean and their algebra. `Sum`
  adds from left to right, as `std::accumulate` does.
- `regression.dfy` (`Regression`): the `Line` value and the method
  `LinearRegression`.
  - The method is specified by the function `Fit`, which is built from the
    sums `Numerator` and `Denominator`.
  - The accumulation loop of lines 21-24 is the method `DeviationSums`. Its
    loop invariants say that after i steps the accumulators hold the sums over
    the first i samples.
  - The branch of lines 26-34 is the method `SlopeAndIntercept`.
  - The lemmas here cover the zero-variance case, exact recovery of a
    noise-free line, the normal equations and least-squares optimality.
- `forecast.dfy` (`Forecasting`): the method `Forecast`, a loop appending one
  prediction per year.
  - It is specified against the recursive reference range `Horizon`.
  - `Horizon`'s own contract gives the length of the range and its i-th year,
    and `FixedHorizon` gives the 2024..2124 case. The lemmas here cover
    extrapolation of a noise-free trend.
  - Strict ascent of the years is stated by `Pipeline.RowsFollowHorizon`.
- `pipeline.dfy` (`Pipeline`): the fixed horizon and the year/value rows.
  - `Run` follows `main` from the empty-data-set check to the forecast table.
  - Its result `Outcome` is either `EmptyDataset` (the exit with status 1) or
    the fitted line, a flag for the fallback warning, and the rows.

## Model

| member | source | states |
|---|---|---|
| Statistics.Mean | src/forecast.cpp:9-12 | defined on a non-empty series only (the source divides by the length unguarded); the result times the length is the sum, i.e. mean = sum / count |
| Statistics.SumOrderIndependent | src/forecast.cpp:10 | the left-to-right accumulation equals the same elements nested from the front, an independently defined reference sum |
| Statistics.SumPermutation | src/forecast.cpp:10 | any two series holding the same elements (the same multiset) have the same sum: in exact arithmetic the accumulation order does not matter |
| Statistics.MeanBounds | src/forecast.cpp:9-12 | the mean lies between any lower and upper bound of the elements |
| Statistics.SumAffine | src/forecast.cpp:10 | the sum of a*x[i] + b is a times the sum of x plus count times b |
| Statistics.MeanAffine | src/forecast.cpp:9-12 | the mean of a*x[i] + b is a times the mean of x plus b |
| Statistics.DeviationsSumToZero | src/forecast.cpp:9-12 | the deviations of a series from its mean sum to zero |
| Statistics.SumOfNonNegatives | src/forecast.cpp:23 | a sum of non-negative terms is non-negative, and it is zero exactly when every term is zero |
| Statistics.SumCombination | src/forecast.cpp:21-24 | summing a pointwise combination a[i] - s*b[i] + t*c[i] gives the same combination of the sums |
| Regression.Numerator | src/forecast.cpp:21-22 | the cross-deviation sum; it is zero whenever all x are equal |
| Regression.Denominator | src/forecast.cpp:21-23 | the squared-deviation sum of x; never negative |
| Regression.LineFromSums | src/forecast.cpp:26-34 | with a non-zero denominator the slope solves slope * denominator = numerator and the line passes through (xMean, yMean) |
| Regression.Fit | src/forecast.cpp:15-35 | the line the regression returns; it is the fallback (0, 0) whenever all x are equal |
| Regression.LinearRegression | src/forecast.cpp:15-35 | for samples of equal non-zero length: the warning flag is raised exactly when all x are equal, and the result is then (0, 0); in every case the result is `Fit(x, y)`, which is the least-squares line when x is not constant (`Regression.FitMinimizesSquaredError`) |
| Regression.DeviationSums | src/forecast.cpp:18-24 | loop invariant: after i iterations the two accumulators equal the cross-deviation and squared-deviation sums over the first i samples; at the end they are `Numerator(x, y)` and `Denominator(x)` |
| Regression.SlopeAndIntercept | src/forecast.cpp:26-34 | the fallback (0, 0) is taken, with the warning, exactly when the denominator is 0; otherwise slope * denominator = numerator and the line passes through (xMean, yMean) |
| Regression.DenominatorZeroIffAllEqual | src/forecast.cpp:23-26 | the denominator is zero exactly when all x are identical, both directions |
| Regression.SquareSum | src/forecast.cpp:23 | a sum of squared deviations from m is never negative, and it is zero exactly when every value equals m |
| Regression.CrossSumOfConstant | src/forecast.cpp:22 | with all x equal, the cross-deviation sum is zero |
| Regression.FitPassesThroughMeans | src/forecast.cpp:31-34 | when the denominator is non-zero, the fitted slope solves slope * denominator = numerator and the fitted line passes through (mean(x), mean(y)) |
| Regression.NumeratorOfLine | src/forecast.cpp:21-24 | on noise-free data y[i] = a*x[i] + b the numerator is a times the denominator |
| Regression.FitOfProportionalSums | src/forecast.cpp:31-34 | when numerator = a * denominator (non-zero) and mean(y) = a*mean(x) + b, the fit is exactly (a, b) |
| Regression.FitRecoversLine | src/forecast.cpp:15-35 | noise-free data with a non-constant x gives back exactly (a, b), and evaluating the fit at the x values reproduces y |
| Regression.LineThroughSamples | src/forecast.cpp:41 | evaluating the line a noise-free series lies on, at its x values, gives back the series |
| Regression.DoublingExample | src/forecast.cpp:15-35 | x = [1, 2, 3, 4], y = [2, 4, 6, 8] fits slope 2 and intercept 0 |
| Regression.ConstantPredictorExample | src/forecast.cpp:26-29 | x = [5, 5, 5] has denominator 0 and falls back to (0, 0) for any y |
| Regression.NormalEquations | src/forecast.cpp:15-35 | when x is not constant, the residuals of the fit sum to zero, and so do the residuals weighted by x |
| Regression.FitResidualsSumToZero | src/forecast.cpp:31-34 | when x is not constant, the residuals of the fit sum to zero |
| Regression.FitMomentsSumToZero | src/forecast.cpp:31-34 | when x is not constant, the residuals of the fit weighted by x sum to zero |
| Regression.MomentsVanish | src/forecast.cpp:31-34 | the line computed from the sums about (xMean, yMean), when its residuals sum to zero, has x-weighted residuals that sum to zero too |
| Regression.ResidualSum | src/forecast.cpp:32 | for a line through (xMean, yMean), the residual sum is the y-deviation sum minus slope times the x-deviation sum |
| Regression.MomentSumSplit | src/forecast.cpp:21-24 | for a line through (xMean, yMean), the weighted residual sum is numerator sum - slope * denominator sum + xMean * residual sum |
| Regression.FitMinimizesSquaredError | src/forecast.cpp:14-35 | when x is not constant, no line has a smaller sum of squared residuals than the fitted one (least squares) |
| Regression.OrthogonalResidualsMinimize | src/forecast.cpp:14-35 | a line whose residuals and x-weighted residuals both sum to zero has a squared error no larger than that of any other line |
| Forecasting.Forecast | src/forecast.cpp:38-44 | returns end - start + 1 values when start <= end and none otherwise; value i is slope * (start + i) + intercept; the whole result is the line evaluated over the reference range `Horizon(start, end)` |
| Forecasting.Horizon | src/forecast.cpp:40 | the years the loop visits: end - start + 1 of them when start <= end and none otherwise, the i-th being start + i |
| Forecasting.EvaluateOverHorizon | src/forecast.cpp:40-41 | the line evaluated over `Horizon(start, end)` holds slope * (start + i) + intercept at index i |
| Forecasting.ForecastMatchesHorizon | src/forecast.cpp:40-41 | a series holding slope * (start + i) + intercept at each i is the line evaluated over `Horizon(start, end)` |
| Forecasting.FixedHorizon | src/forecast.cpp:99-101 | the horizon 2024..2124 holds 101 years, from 2024 to 2124 |
| Forecasting.ForecastOfExactTrend | src/forecast.cpp:15-44 | for noise-free samples of a line a*x + b with a non-constant x, the forecast from the fit is a * year + b at every year of any range |
| Forecasting.ForecastReproducesSamples | src/forecast.cpp:15-44 | forecasting a noise-free series over its own consecutive years gives the series back |
| Pipeline.Tabulate | src/forecast.cpp:105-106 | row i pairs the year startYear + i with the i-th value, one row per value |
| Pipeline.PairedPredictions | src/forecast.cpp:101-106 | pairing the forecast with the years from the start year puts each year beside the line's value at that year |
| Pipeline.ForecastTable | src/forecast.cpp:101-107 | end - start + 1 rows, row i holding the year start + i and the line's value at that year |
| Pipeline.Run | src/forecast.cpp:81-107 | an empty data set ends with `EmptyDataset` and a non-empty one never does; otherwise the line is `Fit(years, anomalies)`, the warning flag is raised exactly when all years are equal, and there are 101 rows, row i holding the year 2024 + i and the fitted value at that year |
| Pipeline.RowsFollowHorizon | src/forecast.cpp:99-106 | the forecast rows are the 101 years of `Horizon(2024, 2124)`, in strictly ascending order |

## Left out

- Opening the CSV file, skipping its header and splitting lines (src/forecast.cpp:48-66, 79) are input plumbing. `Run` takes the two parsed series as parameters. Failing to open the file, the other exit with status 1, is not modelled.
- Number parsing with `std::stod` and its two exception handlers (src/forecast.cpp:68-77) are left out, because the library's parsing rules are not part of this model.
  - If the year field of a line parses and the anomaly field then throws, the year has already been appended, so the malformed line is not skipped whole. `years` is then one longer than `anomalies`.
  - Every later anomaly is then paired with the year of the line before it.
  - `linearRegression` reads `y[i]` past the end of `anomalies` (src/forecast.cpp:22), and so does the history print (src/forecast.cpp:95). This is undefined behaviour.
  - `Run` and `LinearRegression` instead require the two series to have equal length.
- Pipeline.Run: requires |years| == |anomalies|, because the path that leaves the two series with different lengths goes through the parsing that is left out. With equal lengths, the source's check "either series is empty" is the same as "the years are empty".
- Regression.LinearRegression: requires |x| == |y| > 0. The source needs only |y| >= |x| to stay in bounds, and it gives an undefined mean on an empty series. The only caller, `main`, checks emptiness first.
- Console output is left out: the warnings, the baseline label, the CSV headers, the historical rows and the row formatting (src/forecast.cpp:27, 73, 75, 82, 90-96, 104-107).
  - The division-by-zero warning is the `degenerate` flag of `LinearRegression`.
  - The printed forecast is the sequence of `Row` values.
- IEEE-754 rounding is not modelled. The model says nothing about when `denominator == 0` holds for doubles, about summation-order error, or about reproducibility. In exact arithmetic the order does not matter (`Statistics.SumPermutation`).
- `int` overflow is not modelled. In the source, `++year` in `forecast` (src/forecast.cpp:40) overflows when `endYear == INT_MAX`, which `main` never passes. The model's `Forecast` and `Tabulate` take any start year, and there a 32-bit `int` could overflow. Years here are unbounded integers.
- `plotter/plotter.py` is left out. It reads the CSV with pandas and plots with matplotlib, which is user interface only.
- The comment at src/forecast.cpp:98 speaks of "the next 100 years". Both ends of 2024..2124 are included, so the program produces 101 predictions, as `Forecasting.FixedHorizon` states.
