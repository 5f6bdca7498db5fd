# HCDS-EPD analytical engine, modelled in Dafny

This project models the analytical engine of the HCDS-EPD prescription-cost dashboard. The engine works on a table of monthly prescription costs. Each row carries a month, an NHS regional office, a BNF chapter and a total cost. The model covers five parts:

- **Forecaster** (`utils.py`, `train_arima`). It refuses series of fewer than three months and tries five ARIMA orders in a fixed order. It keeps the first model with the strictly lowest AIC and forecasts the months that follow the series.
- **Backtest** (`utils.py`, `gen_real_pred_errors`). For every (regional office, BNF chapter) pair it does the following:
  - Splits the monthly series into a training prefix and a held-out suffix of T months, and forecasts the suffix.
  - Scores the forecast: mean actual, MAE, bias, and MAPE. MAPE is only defined when no actual is zero.
  - Skips pairs that are too short or whose forecast fails.
- **Fairness** (`utils.py`, `calc_fairness_metrics`).
  - Sets a high-cost threshold at the 75th percentile of the mean actuals, using linear interpolation.
  - Computes one parity row per office, and a parity gap that is the max minus the min of the relative error rates.
  - Runs an ANOVA and two Kruskal-Wallis tests across offices. If any test raises, all three results become neutral.
- **Outliers** (`utils.py`, `detect_outliers`).
  - The IQR fence and the z-score rule, each with a zero-spread guard.
  - An isolation forest.
  - A majority vote (at least two) over the rules whose guards hold.
  - The same rules on monthly totals in temporal mode, with flagged months expanded back to their records.
- **Grouping** (`nav/clustering.py`).
  - A per-group feature table built by in-place column assignments: sum, mean, std and count, rounded to cents, then cost per record, cost variability, and `fillna(0)`.
  - The "insufficient variation" guard.
  - The clustering step.
  - The three-sentence explanation of a cluster.

Foreign numerics enter as function-typed parameters ("oracles"). They are: the ARIMA fit and forecast, the isolation forest, `f_oneway`/`kruskal`, the scaler with the clustering algorithm, and the square root inside `std()`. Floats are modelled as exact reals. NaN and the infinities are explicit where the code depends on them: `Option` for a missing value, and `Rate` for a float64 quotient.

Modules, one per file:

| module | file | contents |
|---|---|---|
| `Wrappers` | `wrappers.dfy` | `Option`, `Result` |
| `Stats` | `stats.dfy` | sums and means, linear-interpolation quantiles, sample variance, rounding to cents, float64 division |
| `Dataset` | `dataset.dfy` | the cost table, months, `unique()`, mask selections, the monthly group-by |
| `Forecaster` | `forecaster.dfy` | `train_arima` |
| `Backtest` | `backtest.dfy` | `gen_real_pred_errors` |
| `Fairness` | `fairness.dfy` | `calc_fairness_metrics` |
| `Outliers` | `outliers.dfy` | `detect_outliers` |
| `Clustering` | `clustering.dfy` | the feature table, the guard and the explanation |

Each loop of the source is a `method` proved equal to a specification function:
- the candidate loop;
- the two nested backtest loops;
- the office loop of the fairness metrics;
- the collection of ensemble votes;
- the reason list.

The grouping page's feature frame is a `class` whose methods assign its columns. The lemmas state what the source promises about those specification functions.

In two places the code and the design description disagree. The model follows the code in both.

- **Cost variability.** The design says it is 0 when the mean is 0. The code computes `Std_Cost / Mean_Cost` in float64 and then applies `fillna(0)`. That replaces only NaN: a single-record group, or 0/0. A positive rounded std over a mean that rounded to zero is an infinity, and it survives (`Clustering.FilledVariability`). For example, costs 0, 0, 0, 0.016 in one group give mean 0.00 and std 0.01. With such an infinity, the scaler raises and the page reports an error (`Clustering.Cluster` yields `Failed`).
- **The variation guard.** The design applies it to the standardized features. The code applies `X.std().sum() > 0` to the unscaled features, and this is what `Clustering.VariationGuard` models.

## Model

| member | source | states |
|---|---|---|
| Forecaster.FirstMinimumCorrect | utils.py:93-104 | the selected candidate is None exactly when every fit failed, and otherwise the candidate with the lowest AIC, the earliest among equals |
| Forecaster.Forecast | utils.py:109-124 | a successful forecast has exactly `forecast_periods` rows |
| Forecaster.TrainArima | utils.py:88-124 | the candidate loop (best replaced only on a strictly smaller AIC, failing fits skipped) returns exactly what the specification `Forecast` returns, errors included |
| Forecaster.InsufficientDataIff | utils.py:89-90 | "insufficient data" is raised exactly when the series has fewer than 3 points |
| Forecaster.NoModelConvergedIff | utils.py:96-107 | "all models failed" is raised exactly when the series is long enough and every candidate fit fails |
| Forecaster.ForecastUsesBestModel | utils.py:96-124 | a forecast comes from the first minimal-AIC candidate and reports its predicted means and confidence bounds step by step |
| Forecaster.ForecastMonthsFollowSeries | utils.py:113-117 | forecast dates start one month after the last observed month and are consecutive months |
| Dataset.FromOrdinal | utils.py:113-117 | month arithmetic: the month built from a month count has that count |
| Dataset.NextMonthOrdinal | utils.py:114 | adding one calendar month advances the month count by one |
| Dataset.OrdinalRoundTrip | utils.py:113-117 | a month converted to a month count and back is unchanged |
| Dataset.DistinctMembers | utils.py:372-374 | `unique()` keeps every value, adds none and repeats none |
| Dataset.DistinctFirstSeen | utils.py:372-374 | `unique()` lists the values in order of first appearance: each listed value first occurs at a returned position, and those positions strictly increase |
| Dataset.FilterSelects | utils.py:373-375 | a boolean-mask selection keeps every row satisfying the mask as often as it occurs and drops every other row (the multiplicity of each value is its multiplicity in the input when it satisfies the mask, else 0) |
| Dataset.FilterAppend | utils.py:373-375 | a boolean-mask selection keeps the input order: selecting from a concatenation concatenates the selections of the parts |
| Dataset.SelectMembers | utils.py:306-307 | `df[mask]` keeps every flagged row and nothing else: each value occurs in the result once per flagged position holding it |
| Dataset.SelectIsFilter | utils.py:306-307 | a mask computed row by row from a predicate selects exactly what filtering by that predicate keeps |
| Dataset.MonthlySeriesShape | utils.py:376 | the monthly group-by sum has ascending months without repeats, covers exactly the months of the rows, and each total is the sum of that month's costs |
| Stats.Sort | utils.py:210 | the sorted column quantiles read is sorted and a permutation of the column |
| Stats.QuantileWithinBounds | utils.py:210 | a linear-interpolation quantile lies within any bounds of the column |
| Stats.QuantileMonotone | utils.py:259-261 | Q1 never exceeds Q3, so the IQR is never negative |
| Stats.QuantileOfConstant | utils.py:210 | the quantile of a constant column is that constant |
| Stats.SpreadPositiveIff | utils.py:283 | `std() > 0` holds exactly when there are at least two values that are not all equal |
| Stats.MeanAbsBound | utils.py:387-388 | the size of the mean of the deviations is bounded by the mean of their absolute values |
| Stats.Round2 | nav/clustering.py:29-31 | `.round(2)` moves a value by at most half a cent, keeps non-negative values non-negative, and yields whole cents |
| Stats.Divide | nav/clustering.py:36 | float64 division is finite exactly for a nonzero denominator, NaN exactly for 0/0, and a finite quotient times the denominator gives back the numerator |
| Backtest.BeforeColonShape | utils.py:392 | `split(':')[0]` is a prefix of the label without ':' and is the whole label when it has none |
| Backtest.TrimStartShape | utils.py:392 | stripping leading whitespace removes exactly a whitespace prefix |
| Backtest.TrimEndShape | utils.py:392 | stripping trailing whitespace removes exactly a whitespace suffix |
| Backtest.CategoryCodeShape | utils.py:392 | BNF_CATEGORY never contains ':' and has no white space at either end |
| Backtest.CategoryCodeIdempotent | utils.py:392 | deriving the category code from a code gives the code back |
| Backtest.NoColonUnchanged | utils.py:392 | `split(':')[0]` of a label without ':' is the label itself |
| Backtest.StrippedUnchanged | utils.py:392 | stripping an already stripped string changes nothing |
| Backtest.ScoreBounds | utils.py:387-389 | MAE is never negative and bounds the size of the bias; MAPE is defined exactly when no held-out actual is zero, and is then non-negative |
| Backtest.ScoreMaeZeroIff | utils.py:387 | MAE is zero exactly when the forecast equals the held-out actuals |
| Backtest.ScorePerfect | utils.py:387-393 | a perfect forecast has zero MAE, zero bias and, where defined, zero MAPE; Mean_Actual is the mean of the held-out actuals |
| Backtest.SplitTest | utils.py:379-380 | for T >= 1 the test part has T months and the training part followed by it is the series; for T = 0 the test part is the whole series (`iloc[-0:]`) while the training part `iloc[:-0]` is empty, so no pair is scored (see PairRecordIff) |
| Backtest.ScorePair | utils.py:375-397 | one pair's split, forecast and score equal the per-pair specification `PairRecord` |
| Backtest.ScoreRegion | utils.py:374-399 | the inner loop yields the records of the office's chapters taken from `Distinct` (whose first-appearance order DistinctFirstSeen states) |
| Backtest.GenRealPredErrors | utils.py:370-400 | the nested loops yield exactly the specification `BacktestErrors` |
| Backtest.PairRecordIff | utils.py:377-384 | a pair is scored exactly when T ≥ 1, its series has at least T + 3 months and the forecast succeeds; its training part then never triggers "insufficient data" |
| Backtest.PairRecordContents | utils.py:385-397 | a scored pair reports its office, its chapter's code, the mean of the last T monthly totals, and a well-formed error triple |
| Backtest.PairRecordGrounded | utils.py:390-397 | a scored pair's record names its office and the code of one of its chapters |
| Backtest.CategoryRecordsGrounded | utils.py:374-399 | every record of an office's chapters is well formed and names that office and one of its chapters |
| Backtest.RegionRecordsGrounded | utils.py:372-399 | every record over a list of offices is well formed and grounded in the data |
| Backtest.BacktestRecordsGrounded | utils.py:370-400 | every row of the backtest frame is well formed, names an office of the data and the code of one of that office's chapters; a non-empty frame implies T ≥ 1 |
| Backtest.CategoryRecordsIndexed | utils.py:374-399 | an office's records are, in the chapters' order, the records of exactly the chapters that are scored: record j is that of chapter idx[j], the indices strictly increase, and every scored chapter is among them |
| Backtest.OfficePairs | utils.py:374-399 | each record of an office is the record of one of its distinct chapters, no chapter twice, and every chapter whose pair is scored has its record |
| Backtest.RegionRecordsPairs | utils.py:372-399 | over distinct offices, each record is that of one (office, chapter) pair, no pair twice, and every scored pair is present |
| Backtest.BacktestPairsOnce | utils.py:370-400 | each row of the backtest frame is the record of one (office, chapter) pair of the data, no pair appears twice, and every pair whose series is long enough and whose forecast succeeds has its row |
| Backtest.NoTestPeriodsNoErrors | utils.py:377-382 | with T = 0 the frame is empty |
| Fairness.CalcFairnessMetrics | utils.py:209-252 | the loop over offices builds exactly the specification `FairnessMetrics`; its tests are the library's three results when no call raises, and (0, 1) for all three when any call raises |
| Fairness.ParityOnePerOffice | utils.py:212-224 | the parity table has one row per distinct office, in the order of `Distinct` (first appearance, by DistinctFirstSeen), no office twice, and every office of the frame present |
| Fairness.RegionDataMembers | utils.py:214 | an office's rows are exactly the rows of the frame with that office, each as often as it occurs there |
| Fairness.ShareBounds | utils.py:215 | a high-cost share lies in [0, 1] and is positive exactly when some row reaches the threshold |
| Fairness.ThresholdReached | utils.py:210 | there is a row holding the largest Mean_Actual, and it reaches the 75th-percentile threshold |
| Fairness.MaxReachesThreshold | utils.py:210 | any row holding the largest Mean_Actual reaches the 75th-percentile threshold |
| Fairness.HighCostRate | utils.py:213-215 | an office's High_Cost_Rate lies in [0, 1] and is positive exactly when one of its rows has a Mean_Actual at or above the threshold |
| Fairness.SomeOfficeHighCost | utils.py:210-215 | every High_Cost_Rate lies in [0, 1]; the office of any row holding the largest Mean_Actual has a positive rate, so some office's rate is positive |
| Fairness.UniformCostsAllHighCost | utils.py:210-215 | when every Mean_Actual is equal, every office's High_Cost_Rate is 1 |
| Fairness.OfficeMeansBounded | utils.py:216-223 | for well-formed records, each office's MAE_Mean is non-negative and bounds the size of its Bias_Mean |
| Fairness.RateMaxMinBounds | utils.py:227 | `max()` and `min()` are members of the rates and bound them all |
| Fairness.PresentMembers | utils.py:227 | the rates `max()`/`min()` consider are exactly the non-NaN ones |
| Fairness.SpreadShape | utils.py:227 | max − min of non-NaN rates is never −inf, never negative when finite, finite exactly when all rates are finite, and zero exactly when they are all equal |
| Fairness.ParityGapShape | utils.py:226-227 | the parity gap is never negative; it is finite exactly when some rate is not NaN and none is infinite, and zero exactly when the non-NaN rates are all equal and finite |
| Fairness.CallTests | utils.py:232-239 | the three calls run in turn and stop at the first that raises: the results are the library's when no call raises, and (0, 1) for all three when any call raises |
| Outliers.CollectedTally | utils.py:350 | summing the collected masks counts, at each position, the rules that flag it |
| Outliers.EnsembleOfCollected | utils.py:349-354 | the vote over the collected masks is the ensemble's verdict, and there is no verdict when no rule qualifies |
| Outliers.EnsembleVote | utils.py:332-354 | appending the masks of the guarded rules and summing them gives the specification `EnsembleMask` |
| Outliers.DetectOutliers | utils.py:254-357 | the branch structure (temporal or record level, method name dispatch, "Z-Score" falling through to the ensemble in temporal mode) returns the specification `DetectedOutliers` |
| Outliers.OutliersAreRows | utils.py:254-357 | every branch returns a sub-multiset of the input rows |
| Outliers.RecordIqrRule | utils.py:303-313 | record-level "IQR Method" returns nothing unless IQR > 0, and then exactly the rows strictly outside [Q1 − k·IQR, Q3 + k·IQR], each as often as it occurs |
| Outliers.RecordZScoreRule | utils.py:315-321 | record-level "Z-Score" returns nothing unless std > 0, and then exactly the rows whose z-score exceeds k, each as often as it occurs |
| Outliers.ZExceedsIsZScore | utils.py:317-318 | the square-root-free rule agrees with \|x − mean\| / std > k |
| Outliers.EnsembleMajority | utils.py:332-357 | the ensemble flags exactly the values at least two guarded rules flag, has no verdict when no guard holds, and flags nothing when only one rule qualifies |
| Outliers.EnsembleUnanimousAndLone | utils.py:350-351 | a value all three rules flag is flagged; one flagged by the isolation forest alone is not |
| Outliers.ConstantColumnNoOutliers | utils.py:332-357 | on a constant column no method other than the isolation forest flags anything |
| Outliers.RecordConstantCostsNoOutliers | utils.py:300-357 | at record level, identical costs give no outliers unless the method is "Isolation Forest" |
| Outliers.FlaggedMonthsIff | utils.py:264-296 | a month is an outlier month exactly when the rule flags its monthly total |
| Outliers.TemporalExpandsMonths | utils.py:255-301 | temporal mode returns exactly the records whose month was flagged on the monthly totals, each as often as it occurs |
| Outliers.TemporalZScoreIsEnsemble | utils.py:258-273 | in temporal mode "Z-Score" runs the ensemble |
| Clustering.GroupRowsShape | nav/clustering.py:174 | a group that occurs has at least one row, all with its key |
| Clustering.AggregateShape | nav/clustering.py:29-33 | the aggregate has one row per distinct group, covers every group, and holds the rounded sum, mean and std and the count of the group's costs; std is missing exactly for single-record groups |
| Clustering.FeatureTable.constructor | nav/clustering.py:174-178 | the frame's columns are the aggregate's, with no derived columns yet |
| Clustering.FeatureTable.AddCostPerRecord | nav/clustering.py:179 | assigns Cost_Per_Record = Total_Cost / Record_Count and changes no other column |
| Clustering.FeatureTable.AddCostVariability | nav/clustering.py:180 | assigns Cost_Variability = Std_Cost / Mean_Cost in float64 and changes no other column |
| Clustering.FeatureTable.FillNa | nav/clustering.py:181 | replaces NaN by 0 in Std_Cost and Cost_Variability and changes nothing else |
| Clustering.FeatureTable.AssignClusters | nav/clustering.py:184-189 | takes the guarded branch and, on success, stores one label per group |
| Clustering.GroupClustering | nav/clustering.py:169-189 | the feature table the page builds column by column equals the specification `FeaturesOf`, and the outcome is `Cluster` of those features |
| Clustering.PerRecordFromTotal | nav/clustering.py:179 | Cost_Per_Record times Record_Count gives back the rounded total |
| Clustering.FilledVariability | nav/clustering.py:180-181 | after fillna, Cost_Variability is 0 for single-record groups and is finite unless a positive std meets a zero mean |
| Clustering.FeatureOrder | nav/clustering.py:182-183 | the feature columns are Total_Cost, Mean_Cost, Cost_Variability, Cost_Per_Record, in that order |
| Clustering.VariationGuardIff | nav/clustering.py:184 | the guard holds exactly when there are at least two groups and some feature column is finite and not constant |
| Clustering.SingleGroupNeverClusters | nav/clustering.py:42-56 | with at most one group the insufficient-variation branch is taken |
| Clustering.ClusteredShape | nav/clustering.py:184-189 | the insufficient-variation branch is taken exactly when the guard fails; clustering gives one label per group, and only when every feature is finite |
| Clustering.GroupingReasons | nav/clustering.py:239-252 | the reason list has three sentences, each in its "higher" form exactly when the cluster's mean of that feature is strictly above the mean over all groups; the text is their join |
| Clustering.ExplanationSentences | nav/clustering.py:239-252 | the explanation is the three sentences joined by single spaces, each one of its two fixed forms |
| Clustering.WholeTableClusterIsAverage | nav/clustering.py:222-251 | a cluster holding every group takes the "lower" form in all three sentences |

## Left out

- **Oracles.** The following are function parameters with no properties assumed:
  - the ARIMA fitting, its AIC and `get_forecast` (utils.py:98-111);
  - IsolationForest (utils.py:270, 291, 325, 349);
  - `f_oneway`/`kruskal`;
  - StandardScaler with AgglomerativeClustering;
  - the square root inside `std()`.
  Their determinism (`random_state=42`) is captured by their being functions.
- **Floating point.** Arithmetic is exact real arithmetic. NaN and the infinities are modelled only where the code branches on them:
  - a NaN or +inf AIC never wins (None);
  - a missing MAPE or std (None);
  - float64 quotients (`Rate`).
  A −inf AIC, signed zeros and rounding errors are not modelled.
- **Stats.Round2**: rounds half to even on the exact decimal value. `.round(2)` works on the binary float, so the two can differ on values that are not exactly representable.
- **Group order.**
  - `groupby` sorts its keys. The model lists groups in order of first appearance (`Distinct`), both for the clustering feature table and for the groups passed to the fairness tests.
  - The test statistics do not depend on the order of the groups.
  - For the feature table, the order affects only the row order shown and the oracle's input.
  - `unique()`, used by the backtest and the parity loop, does keep first-appearance order, as modelled.
- **Cluster iteration.** The loop over `sorted(unique())` cluster ids (nav/clustering.py:222), the per-cluster summary table, PCA and all plotting are display. The model covers the explanation of one cluster, given its label (`Clustering.ClusterMeans`, `Clustering.GroupingReasons`).
- **Regional clustering.** `regional_clustering` (nav/clustering.py:27-59) is the same computation grouped by office (`GroupKey.ByRegion`). Its `try/except` around the whole page is modelled as the `Failed` outcome.
- **Not part of this model** (I/O, randomness or display glue):
  - `load_data`, `gen_sample_data`, `gen_pred_errors`, `create_map`, `apply_clustering`;
  - the Streamlit pages under nav/ other than the grouping computation;
  - app.py and config.py.
- **Empty frames.** An "empty DataFrame" result (`pd.DataFrame()`) is the empty row sequence. Its missing columns are not modelled.
- **Month type.** YEAR_MONTH values are month starts (a year and a month). Days and times are not modelled.
- **Fairness.CalcFairnessMetrics**: requires a non-empty error frame. The page checks `df_errors.empty` before calling (nav/fairness.py:13). An empty frame has no columns, so the source would raise a KeyError.
- **Outliers.ZExceedsIsZScore**: relates the rule to a given square root s with s > 0 and s² equal to the sample variance, because the reals in Dafny have no square-root function.
