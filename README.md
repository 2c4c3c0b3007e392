# Avocado price predictor — a Dafny model

This project models the computational core of a desktop application. The application predicts the wholesale price of avocado (MXN/kg) with a pre-trained support-vector regressor. The model covers:

- **Historical series** (`src/utils/data_handler.py`):
  - loading a CSV of publication dates (`Fecha_Pub_DOF`) and average prices (`Precio promedio`), then sorting it by date;
  - the file validation chain;
  - summary statistics;
  - generating future dates 30 days apart.
- **Feature frame** (`crear_caracteristicas_temporales`): calendar and cyclic columns, days since the first date, lags, rolling means and deviation, and differences, all with pandas' NaN rules.
- **The predictor object** (`PredictorAguacate` in `src/models/predictor.py`):
  - loading the four model artifacts and the history;
  - predicting one date: merge the target into the history, build the features, take the last row, fill NaN with the last price, then scale, predict and scale back;
  - batch prediction;
  - the historical trend report, the component report and the model information.
- **Analytics in the application window** (`src/app/main.py`):
  - the count of rising and falling streaks and the coefficient-of-variation band of the volatility analysis;
  - the batch forecast with its success-only summary and projected trend.

Modules:

| file | module | contents |
|---|---|---|
| `wrappers.dfy` | `Wrappers` | `Option`, `Result` |
| `floats.dfy` | `Floats` | float64 quotients with ±inf and NaN; comparisons where NaN is false |
| `calendar.dfy` | `Calendar` | proleptic Gregorian dates, ordinals, `timedelta` days, `DateOffset(months)` |
| `datetext.dfy` | `DateText` | `strptime`/`strftime` with `'%Y-%m-%d'` |
| `series.dfy` | `Series` | `data_handler.py` except the features |
| `features.dfy` | `Features` | `crear_caracteristicas_temporales` |
| `predictor.dfy` | `Predictor` | `PredictorAguacate`: the `AvocadoPredictor` class and the functions that specify it |
| `analytics.dfy` | `Analytics` | the logic of `analizar_volatilidad` and `_generar_predicciones_multiples` |

How the original's values are represented:

- A NaN price is `None`.
- A float64 quotient that may be infinite or NaN is a `Float`.
- Exceptions are error values of a `Result`.
- The fitted scikit-learn objects are opaque functions that return a value or raise.
- numpy's `sin`, `cos`, `sqrt` and `pi` are parameters (the `Numerics` record, or a `sqrt` function).

## Model

| member | source | states |
|---|---|---|
| Floats.Div | src/models/predictor.py:218 | numpy float division: the real quotient for a non-zero divisor; otherwise +inf, -inf or NaN by the sign of the dividend |
| Floats.ScaleBy | src/models/predictor.py:218 | multiplying by a positive constant keeps finiteness, +inf and -inf, and scales a finite value |
| Calendar.DaysInMonth | src/utils/data_handler.py:34 | months have 28 to 31 days; 29 exactly for February of a leap year, 28 for February otherwise |
| Calendar.DayOfYear | src/utils/data_handler.py:65 | `dayofyear` lies in 1..365 (366 in leap years) and equals the distance in days from 1 January plus one |
| Calendar.Quarter | src/utils/data_handler.py:66 | the quarter q is in 1..4 and the month lies in 3q-2..3q |
| Calendar.OrdinalOrder | src/utils/data_handler.py:75-76 | chronological order is the order of day ordinals, and equal ordinals mean equal dates |
| Calendar.Advance | src/utils/data_handler.py:195 | adding n days yields a well-formed date whose ordinal is exactly n larger |
| Calendar.AddDays | src/utils/data_handler.py:195 | `datetime + timedelta(days=n)`: a date in years 1..9999 exactly n days later, and the OverflowError exactly when that day would fall after 31 December 9999 |
| Calendar.AddDaysMonotone | src/utils/data_handler.py:193-196 | adding more days never gives an earlier date, so an overflow at n days means overflow at every larger count |
| Calendar.SubtractMonths | src/models/predictor.py:204 | `date - DateOffset(months=k)` is k calendar months earlier and keeps the day, clamped to the last day of the target month |
| Calendar.SubtractMonthsNotAfter | src/models/predictor.py:204 | going back zero or more months never lands after the start, and one or more lands strictly before |
| DateText.Parse | src/models/predictor.py:122 | `strptime(s, '%Y-%m-%d')` accepts only a valid date in years 1..9999, written as 8 to 10 characters with a dash after the year |
| DateText.Format | src/utils/data_handler.py:196 | `strftime('%Y-%m-%d')` is ten characters with dashes at positions 4 and 7 |
| DateText.ParseFormat | src/utils/data_handler.py:190-196 | every valid date prints as text that `strptime` reads back as the same date |
| DateText.FormatParse | src/utils/data_handler.py:190-196 | ten accepted characters without a blank are exactly the printed form of the date they denote |
| DateText.ParseAccepts | src/models/predictor.py:122 | "2024-01-15" and "2023-12-31" parse to those dates |
| DateText.ParseRejects | src/models/predictor.py:162-163 | "2024-13-01", "15-01-2024", "2024/01/15" and "invalid" do not match the format |
| DateText.ParseEdgeCases | src/models/predictor.py:122 | 30 February is out of range, trailing text is unconverted data, and one-digit month and day are accepted |
| Series.Prices | src/utils/data_handler.py:114 | the price column has one cell per row, holding that row's price |
| Series.Insert | src/utils/data_handler.py:37 | inserting into a sorted series keeps it sorted and adds exactly that row |
| Series.SortByDate | src/utils/data_handler.py:37 | `sort_values('Fecha_Pub_DOF')` gives rows sorted by date that are a permutation of the input |
| Series.SortSortedIsIdentity | src/utils/data_handler.py:37 | sorting an already sorted series changes nothing |
| Series.SortAppended | src/models/predictor.py:131-134 | sorting a sorted series with one appended row inserts that row |
| Series.InsertLast | src/models/predictor.py:131-134 | the inserted row ends up last exactly when no row is dated after it |
| Series.DatesValidPermutation | src/utils/data_handler.py:37 | reordering rows keeps every date valid |
| Series.Converted | src/utils/data_handler.py:34 | converting the date column keeps each row's converted date and its price, in order |
| Series.Load | src/utils/data_handler.py:15-43 | `cargar_datos_historicos`: FileNotFoundError exactly for a missing file; success exactly when the table has the date column and every date converts; then the rows are sorted, valid and a permutation of the converted rows, and the frame records whether the price column exists |
| Series.MissingColumns | src/utils/data_handler.py:154-155 | a column is listed exactly when it is required and absent from the table, and there are no more entries than required names |
| Series.MissingColumnsAppend | src/utils/data_handler.py:155 | the comprehension keeps the order of the required list: the missing columns of a concatenation are those of the first part followed by those of the second |
| Series.MissingRequired | src/utils/data_handler.py:154-158 | the missing required columns are the date column (if absent) followed by the price column (if absent), which is the order of the error message |
| Series.ValidateFile | src/utils/data_handler.py:130-171 | `validar_archivo_datos` accepts exactly a readable table with both columns, at least one row and some price; a missing file, an unreadable file, missing columns, an empty table and a table without any price each produce their own message, checked in that order |
| Series.ValidateMissingPrice | src/utils/data_handler.py:157-162 | a table with only the date column is reported for the missing price column even when empty, since columns are checked before rows |
| Series.Present | src/utils/data_handler.py:120-122 | pandas skips NaN: the present values are exactly the non-NaN cells |
| Series.SomeIndicesExact | src/utils/data_handler.py:120-122 | the positions of the non-NaN cells are increasing, and every non-NaN cell has one |
| Series.PresentInOrder | src/utils/data_handler.py:120-122 | the present values are the non-NaN cells in their order: one per non-NaN position, the j-th being the cell at the j-th such position |
| Series.Minimum | src/utils/data_handler.py:121 | the minimum is one of the values and no value is smaller |
| Series.Maximum | src/utils/data_handler.py:122 | the maximum is one of the values and no value is larger |
| Series.SumBounds | src/utils/data_handler.py:120 | n values within [lo, hi] sum to between n·lo and n·hi |
| Series.StdDev | src/utils/data_handler.py:123 | `Series.std()` is a number exactly when at least two prices are present |
| Series.StdDevOfTwo | src/utils/data_handler.py:123 | `std()` with ddof 1 of two prices a and b is sqrt((a - b)² / 2) |
| Series.ConstantMoments | src/utils/data_handler.py:120-123 | at least two equal prices c have mean c and deviation sqrt(0) |
| Series.ConstantDeviations | src/utils/data_handler.py:123 | equal values have zero squared deviation from their common value |
| Series.ConstantAverage | src/utils/data_handler.py:120 | the average of equal values is that value |
| Series.AverageBetween | src/utils/data_handler.py:120-122 | an average lies between the smallest and the largest value |
| Series.MeanBetween | src/utils/data_handler.py:120-122 | mean, minimum and maximum exist exactly when some price is present, and minimum ≤ mean ≤ maximum |
| Series.Moments | src/utils/data_handler.py:120-122 | `mean()`, `min()` and `max()` are all NaN without prices; otherwise the mean is the sum of the present prices over their count, and minimum and maximum are present prices bounding every other |
| Series.PresentNonEmpty | src/utils/data_handler.py:165 | some value is present exactly when some cell is not NaN |
| Series.EarliestDate | src/utils/data_handler.py:118 | the earliest date belongs to some row and no row is earlier |
| Series.LatestDate | src/utils/data_handler.py:119 | the latest date belongs to some row and no row is later |
| Series.Statistics | src/utils/data_handler.py:97-127 | `obtener_estadisticas_datos`: ValueError exactly without the price column; a result exactly for a non-empty frame with prices; the result has the row count and the earliest and latest dates printed; its mean is the sum over the count of present prices, its minimum and maximum are present prices bounding all others, and its deviation is `std()` of the price column, existing exactly when two prices exist |
| Series.FutureDatesIncrease | src/utils/data_handler.py:193-196 | generated dates strictly increase, 30 days apart per step |
| Series.ScheduleExtend | src/utils/data_handler.py:193-196 | appending the next generated date keeps the list a prefix of the schedule |
| Series.Schedule | src/utils/data_handler.py:193-198 | the date loop yields the first `count` dates, the k-th 30(k+1) days after the start, or stops exactly when one passes year 9999 |
| Series.FutureDates | src/utils/data_handler.py:174-201 | `generar_fechas_futuras`: a ValueError carrying strptime's reason for a malformed start; otherwise the schedule, or an OverflowError exactly when the last date passes year 9999 |
| Features.Shift | src/utils/data_handler.py:79-81 | `shift(k)`: row i holds row i-k's price, NaN for the first k rows |
| Features.WindowSum | src/utils/data_handler.py:84-85 | a window sum exists exactly when no cell of the window is NaN |
| Features.Diff | src/utils/data_handler.py:91-92 | `diff(k)`: row i is price(i) - price(i-k) when both exist and i ≥ k, NaN otherwise |
| Features.FeatureAt | src/utils/data_handler.py:60-94 | a feature row keeps its date and price, and its month, year, quarter and day of year are those of the date |
| Features.Synthesize | src/utils/data_handler.py:46-94 | `crear_caracteristicas_temporales` has one feature row per input row, keeping each date and price, with the calendar columns of that date |
| Features.LagFeatures | src/utils/data_handler.py:79-81 | the lags of row i are the prices of rows i-1, i-2 and i-3, NaN before the start |
| Features.WindowSum3 | src/utils/data_handler.py:84 | a three-cell window sums its three values exactly when all are present |
| Features.WindowSumSplit | src/utils/data_handler.py:84-85 | a window sum splits over concatenation, and exists exactly when both parts' sums do |
| Features.MovingAverage3 | src/utils/data_handler.py:84 | `rolling(3).mean()` exists exactly from row 2 with the last three prices present, and is their average |
| Features.WindowSum6 | src/utils/data_handler.py:85 | a six-row window sums its six prices exactly when all are present |
| Features.MovingAverage6 | src/utils/data_handler.py:85 | `rolling(6).mean()` exists exactly from row 5 with the last six prices present, and is their average |
| Features.Differences | src/utils/data_handler.py:91-92 | `diff()` and `diff(2)` exist exactly when both prices exist, and are their difference |
| Features.DistanceFromEarliest | src/utils/data_handler.py:75-76 | a row is never before the earliest date, and is at distance zero exactly when it is on that date |
| Features.DaysSinceStart | src/utils/data_handler.py:75-76 | `days_since_start` is non-negative, and zero exactly on the earliest date |
| Features.OwnPriceMissing | src/utils/data_handler.py:84-92 | a row with a NaN price has NaN moving averages, deviation and differences |
| Features.EarliestOfSorted | src/utils/data_handler.py:75-76 | in a sorted series the earliest date is the first row's |
| Features.WindowOfPrefix | src/utils/data_handler.py:84-88 | a rolling window depends only on rows up to its own |
| Features.MeanOfPrefix | src/utils/data_handler.py:84-85 | a rolling mean is unchanged by rows after it |
| Features.StdOfPrefix | src/utils/data_handler.py:88 | a rolling deviation is unchanged by rows after it |
| Features.PricesOfPrefix | src/utils/data_handler.py:79-92 | the price column of a prefix is the prefix of the price column |
| Features.DiffOfPrefix | src/utils/data_handler.py:91-92 | a difference is unchanged by rows after it |
| Features.Causal | src/utils/data_handler.py:60-94 | in a sorted series a feature row is unchanged by later rows: it equals the feature row computed from the prefix ending at it |
| Features.FeatureValue | src/models/predictor.py:140 | selecting a column by name succeeds exactly for the nineteen feature column names |
| Predictor.Merge | src/models/predictor.py:125-134 | concatenating the target row (price NaN) and sorting gives a sorted series with exactly one extra row |
| Predictor.MergeDatesValid | src/models/predictor.py:131-134 | the merged series keeps every date valid |
| Predictor.TargetIsLast | src/models/predictor.py:131-140 | the target row ends up last exactly when no historical date is after the target date |
| Predictor.MergeAppends | src/models/predictor.py:131-134 | for a target not before any historical date, the merge is the history followed by the target row |
| Predictor.UsedRowIsTarget | src/models/predictor.py:139-140 | the row `iloc[-1:]` takes carries the target date exactly when no historical date is after it; otherwise it is a historical row |
| Predictor.MergedLastDate | src/models/predictor.py:131-140 | the last row of the merged, sorted series has the target date exactly when no historical date is after the target |
| Predictor.NaNRowFeatures | src/models/predictor.py:125-140 | a final row with NaN price has NaN price, moving averages, deviation and differences, and its first lag is the previous row's price |
| Predictor.TargetRowFeatures | src/models/predictor.py:125-140 | for a target after the history, the used row is the target's, with no price, averages, deviation or differences, and its first lag is the last historical price |
| Predictor.Project | src/models/predictor.py:140-142 | selecting the columns and `fillna(v)` gives one cell per name in order: each cell is the feature's value, or v where that value is NaN |
| Predictor.Assemble | src/models/predictor.py:130-142 | the feature vector or the first error met (no history, no price column, unknown feature name, empty history); it succeeds exactly when none applies, and is then the projection of the last merged row filled with the last historical price |
| Predictor.FilledVector | src/models/predictor.py:140-142 | filling with a real price leaves no NaN, and fills every NaN cell with that price |
| Predictor.TargetVector | src/models/predictor.py:125-142 | for a target after the history whose last price is p, every requested price-derived feature (price, first lag, averages, deviation, differences) is p |
| Predictor.PriceDerivedCells | src/models/predictor.py:140-142 | in a row with NaN price-derived cells and first lag p, filling with p turns each of those cells into p |
| Predictor.Attempt | src/models/predictor.py:120-151 | the try block: the parse error exactly when strptime rejects the date; for a parsed date, the first feature-assembly error, or else the price that transform, predict and inverse_transform produce, or the library error one of them raises |
| Predictor.PredictAsWritten | src/models/predictor.py:117-165 | as written: "model not loaded" exactly when unloaded; the date-format error for a rejected date; a feature-assembly error as a prediction error; the pipeline price when it succeeds; a library ValueError as an invalid date and any other library error as a prediction error |
| Predictor.Predict | src/models/predictor.py:117-165 | `predecir_precio_fecha`: "model not loaded" exactly when unloaded; the date-format error exactly for a date strptime rejects, carrying its reason; a feature-assembly error as a prediction error; otherwise a prediction, echoing the date, exactly when transform, predict and inverse_transform succeed, with the price they produce, and any library error as a prediction error |
| Predictor.PredictCorrection | src/models/predictor.py:162-165 | the corrected and as-written predictions differ exactly when a scaler or the regressor raises a ValueError |
| Predictor.SamePrices | src/models/predictor.py:117-165 | the as-written and corrected predictions succeed on the same dates and then give the same record |
| Predictor.NaNPriceState | src/models/predictor.py:43-52 | a loaded predictor whose one historical price is NaN satisfies the predictor invariant |
| Predictor.NaNLagVector | src/models/predictor.py:140-142 | with that history, the vector for 2024-01-15 is a single NaN first-lag cell that fillna cannot fill |
| Predictor.MinMaxKeepsNaN | src/models/predictor.py:144-145 | a MinMaxScaler passes a NaN cell through unchanged, so the NaN reaches the regressor |
| Predictor.MisreportedDate | src/models/predictor.py:162-163 | for any scaler that passes NaN through, as written the well-formed date "2024-01-15" is reported as an invalid date because of the regressor's NaN ValueError; corrected, it is a prediction error |
| Predictor.Classify | src/models/predictor.py:221-226 | rising exactly when the percentage exceeds +5, falling exactly when it is below -5, steady otherwise (NaN included) |
| Predictor.ClassifyProperties | src/models/predictor.py:221-226 | the ±5 thresholds are exclusive, NaN is steady, ±inf are rising and falling, and the label is monotone in the change |
| Predictor.Recent | src/models/predictor.py:205-207 | the filter keeps exactly the rows dated on or after the limit, in their order |
| Predictor.RecentIsSuffix | src/models/predictor.py:204-207 | in a sorted history the kept rows are a suffix, and every row before it is before the limit |
| Predictor.Summarize | src/models/predictor.py:212-238 | first and last price; their change when both exist; the percentage, or +inf, -inf or NaN for a zero first price; NaN when a price is missing; the direction of that percentage |
| Predictor.SummaryStatistics | src/models/predictor.py:235-238 | the report's mean, minimum and maximum exist exactly when some price of the window does; the mean is the sum over the count of the present prices, minimum and maximum are present prices bounding all others; the volatility is `std()` of the window's prices, existing exactly with two prices |
| Predictor.Percent | src/models/predictor.py:218 | the percentage change is finite for a non-zero first price, +inf, -inf or NaN for a zero one, and NaN when a price is missing |
| Predictor.Trend | src/models/predictor.py:199-242 | `obtener_tendencia_historica`: "no history" exactly without a history; "insufficient data" for an empty one; a report exactly when the history is non-empty, has prices, and the limit is in datetime's range with a non-empty window; the report is then the summary of the rows since the limit |
| Predictor.TrendNonEmpty | src/models/predictor.py:204-210 | looking back zero or more months always keeps the latest row, so the only errors left are a missing price column and a limit out of range |
| Predictor.ExampleHistory | src/models/predictor.py:189-238 | the six-month example history is sorted and has valid dates |
| Predictor.ExampleLatest | src/models/predictor.py:204 | the latest date of the example is 2024-06-01 |
| Predictor.ExampleWindow | src/models/predictor.py:204-207 | three months back from 2024-06-01 is 2024-03-01, and the window keeps that boundary row |
| Predictor.TrendExample | src/models/predictor.py:199-238 | over three months the example goes from 60 to 65: change 5, rising, mean 61.25, minimum 58, maximum 65 |
| Predictor.ExampleReport | src/models/predictor.py:212-237 | the summary of the example's window has those values |
| Predictor.ExampleSummary | src/models/predictor.py:235-237 | prices 60, 58, 62 and 65 have mean 61.25, minimum 58 and maximum 65 |
| Predictor.Validate | src/models/predictor.py:244-258 | `validar_modelo`: each of the model, input scaler, output scaler, feature list and history is reported loaded exactly when that attribute is set; fully functional exactly when loaded with a history |
| Predictor.MissingOutputScaler | src/models/predictor.py:251-257 | a predictor without the output scaler reports `scaler_y_cargado` false and is not fully functional |
| Predictor.FullyFunctional | src/models/predictor.py:251-258 | a fully functional predictor has all five components; right after construction the converse holds too |
| Predictor.ModelInfo | src/models/predictor.py:260-290 | `obtener_info_modelo`: "not loaded" exactly when unloaded; an error exactly for a loaded predictor with an empty history; otherwise the feature list and its length, the row count, and a date range exactly when a history exists, which is the earliest and the latest historical date printed with `%Y-%m-%d`, both parsing back and in order |
| Predictor.AvocadoPredictor.constructor | src/models/predictor.py:33-52 | a new predictor satisfies the invariant, is loaded exactly when all four artifacts load, holds the loaded history or none, and has each model attribute set exactly when every path exists and that file and the earlier ones loaded |
| Predictor.AvocadoPredictor.LoadModel | src/models/predictor.py:54-87 | all four paths must exist first; the files then load in order, each success setting its attribute, and the first failure stops with the earlier ones set; loaded exactly when all four load; the history is untouched |
| Predictor.AvocadoPredictor.LoadHistory | src/models/predictor.py:89-101 | the history becomes the loaded frame on success and is kept otherwise; nothing else changes |
| Predictor.AvocadoPredictor.PredictMany | src/models/predictor.py:167-187 | one prediction per date, in order, each the single-date prediction on the current state; each succeeds exactly when the as-written prediction does, with the same record |
| Analytics.StreakKind | src/app/main.py:812-832 | after the scan the streak kind is the sign of the last non-zero change; no streak means both counts are zero; the current streak's kind leads the other count by zero or one |
| Analytics.StreakCount | src/app/main.py:818-832 | the two counts add up to the number of sign flips among non-zero changes plus one, or zero without non-zero changes |
| Analytics.FlipsAppend | src/app/main.py:818-832 | appending a sign adds a flip exactly when it differs from the last sign |
| Analytics.StreakBalance | src/app/main.py:812-832 | the rising and falling streak counts differ by at most one |
| Analytics.StreakBounds | src/app/main.py:818-832 | each count is at most the number of changes of its sign, and is positive exactly when some change has that sign |
| Analytics.StreakExample | src/app/main.py:818-832 | the changes +2, +1, 0, -3, -1, +4 give two rising streaks and one falling |
| Analytics.CountStreaks | src/app/main.py:812-832 | the loop over `precios.diff().dropna()` computes the counts of the streak scan |
| Analytics.CoefficientOfVariation | src/app/main.py:868 | the coefficient is NaN without a deviation or without a mean; deviation / mean · 100 for a non-zero mean; for a zero mean +inf, -inf or NaN by the sign of the deviation |
| Analytics.VolatilityLevel | src/app/main.py:868-876 | the bands are below 15, 15 to below 30, 30 to below 50, and 50 or more, partitioning the finite values; NaN and +inf are very high, -inf is low |
| Analytics.VolatilityMonotone | src/app/main.py:869-876 | a larger coefficient never gets a lower band, and each boundary belongs to the upper band |
| Analytics.FewPricesVeryHigh | src/app/main.py:868-876 | with fewer than two prices the coefficient is NaN and the band is very high |
| Analytics.ConstantPricesLow | src/app/main.py:868-870 | constant positive prices have a zero coefficient and the low band |
| Analytics.AnalyzeVolatility | src/app/main.py:794-876 | `analizar_volatilidad`: an error exactly without a history, another exactly without a price column; otherwise the deviation, coefficient, band and streak counts of the history's prices |
| Analytics.Successes | src/app/main.py:665-671 | the successful prices in order: one per successful result, the j-th being the price of the j-th successful result |
| Analytics.SuccessIndicesExact | src/app/main.py:665-671 | the positions of the successful results are increasing, and every successful result has one |
| Analytics.FirstAndLastSuccess | src/app/main.py:685-687 | `precios_validos[0]` is the price of the earliest successful result and `precios_validos[-1]` that of the latest |
| Analytics.SuccessesOfSamePrices | src/app/main.py:665-671 | result lists that succeed at the same positions with the same prices have the same successful prices |
| Analytics.SameSuccesses | src/app/main.py:662-697 | the successful prices of the corrected batch equal those of the batch with `predecir_precio_fecha` as written, so the count, total, average and projection agree |
| Analytics.ProjectChange | src/app/main.py:684-697 | no projection with fewer than two successes; otherwise the float64 change from first to last as a percentage (finite for a non-zero first price; +inf, -inf or NaN by the sign of the last price for a zero one) and its label, so a zero first price followed by a positive one reads as rising |
| Analytics.SumAppend | src/app/main.py:670 | adding a price at the end adds it to the running sum |
| Analytics.Tally | src/app/main.py:662-671 | the loop over the results keeps the successful prices, their count and their sum |
| Analytics.BatchForecast | src/app/main.py:634-705 | `_generar_predicciones_multiples`: a month count outside 1..24 is refused before anything else; a malformed start gives strptime's error; overflow exactly when the last date passes year 9999; otherwise `months` dates 30 days apart, one prediction per date, count and sum of the successes, an average exactly when one succeeded, and the projection of the successful prices |

## Left out

- User interface: the Tkinter windows, menus, tabs, dialogs, message boxes and text formatting of `src/app/main.py` are not modelled. The model keeps what the analytics compute, not how they are shown.
- File system and deserialisation: `os.path.exists`, `pd.read_csv` and `joblib.load` are inputs. A CSV arrives as `Series.Source` and a model file as `Predictor.Artifact`. The paths `ruta_modelos` and `ruta_datos` are not modelled.
- The scaler, regressor and inverse scaler are opaque functions. What SVR and MinMaxScaler compute is not modelled.
- `getattr` reads of the SVR hyperparameters (kernel, C, gamma, epsilon) in `obtener_info_modelo` are left out, because the regressor is opaque.
- `datetime.now()` in the prediction record, and the other constant fields of that record (currency, unit, model name), are left out.
- Series.Statistics: the median is not modelled.
- Predictor.Summarize and Predictor.Predict: `round(x, 2)` on the reported values is not modelled. Reports carry unrounded reals.
- Analytics.AnalyzeVolatility: the returns (`pct_change`) and their deviation, annualised volatility, mean, extremes and signs, and the 5th/95th percentiles, are not modelled. These are display-only figures with no control flow.
- Analytics.BatchForecast: `int(num_meses_str)` is not modelled; the month count arrives as an integer. The per-line text and the error messages are not modelled.
- Floating point: prices are exact reals. Rounding error, -0.0, and predicted prices that are themselves NaN or infinite are not modelled. sqrt, sin, cos and pi are uninterpreted parameters.
- Calendar: dates are limited to Python's `datetime` range, years 1 to 9999. pandas' narrower Timestamp bounds (1677 to 2262) and time-of-day components are not modelled.
- DateText.Parse: only ASCII digits are accepted. Python's `\d` also matches other Unicode decimal digits.
- DateText.Format: the year is zero-padded to four digits. Some C libraries print years below 1000 with fewer digits.
- Series.Load: an empty date cell, which `pd.to_datetime` turns into NaT without raising, is not represented; such a row counts as one that does not convert.
- Predictor.AvocadoPredictor.PredictMany: each result is the corrected prediction of the Findings table, not the as-written one; its contract also states that the two succeed on the same dates with the same record, but the error records of failed dates may differ from what `predecir_multiples_fechas` returns.
- Analytics.BatchForecast: the results are the corrected predictions; Analytics.SameSuccesses shows the summary values equal those computed from the as-written predictions, but a failed date's error record may differ from the one `predecir_precio_fecha` returns.
- Series.SortByDate: the model sorts stably. pandas' default sort is not stable, so the relative order of rows with equal dates is not claimed. Only "sorted and a permutation" is relied on. This includes where the target row lands among historical rows on the same date.
- Features: the rolling deviation is modelled with sqrt as a parameter. Its value is not related to the actual square root.

## Findings

| source | as written | input that shows it | evidently intended | confidence | as-written member | corrected member |
|---|---|---|---|---|---|---|
| src/models/predictor.py:162-163 | `except ValueError` catches every ValueError in the try block, including those raised by `scaler_x.transform`, `predict` and `inverse_transform` (NaN input, wrong feature count), and reports each as "Formato de fecha inválido" | a loaded predictor whose last historical price is NaN, with feature list `["precio_lag1"]`, asked for "2024-01-15": the lag cell stays NaN after `fillna(NaN)`, the MinMaxScaler passes it through, and the regressor's "Input X contains NaN" ValueError is reported as an invalid date | only the `strptime` failure is a date-format error; library failures go to "Error en la predicción" | not executed | Predictor.PredictAsWritten / Predictor.MisreportedDate | Predictor.Predict / Predictor.PredictCorrection |
