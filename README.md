# A verified model of the trading-analytics ML pipeline and its services

The system collects completed arbitrage trades from several exchange servers. It turns them into a training dataset and trains a classifier or regressor. A small prediction service serves that model. A Node dashboard reports on the trades, balances and gas usage, a background worker stores new trades and raises alerts, and a browser page sweeps diffs through the model. This project models the deterministic core of those parts in Dafny and proves what each one promises.

Modules, one per source component:

| module | file | models |
|---|---|---|
| `Config` | `config.dfy` | `ml_pipeline/config.py`: the training settings with their defaults and the `target` selector |
| `Modeling` | `modeling.dfy` | `ml_pipeline/modeling.py`: gapped walk-forward cross-validation folds and the per-fold bookkeeping of `cross_validate` |
| `Features` | `features.dfy` | `ml_pipeline/feature_engineering.py`: safe ratios, base columns, trailing windows per `(serverId, token)`, the context streams and their backward as-of join, feature and categorical selection |
| `Enrichment` | `enrich.dfy` | `ml_pipeline/feature_engineering.py` on data frames: `_add_base_columns`, `_apply_rolling_features` with its named window columns and KeyError paths, the three context readers, `_merge_context_features` with its suffixed as-of joins, and `build_feature_matrix` composed from them |
| `DataLoading` | `data_loading.dfy` | `ml_pipeline/data_loading.py`: token parsing, token-column derivation, `serverId` tagging, the token filter and the labels |
| `ExportDiff` | `export_diff.dfy` | `scripts/export_diff_dataset.py`: format validation, token parsers, `props` decoding and classification, labels and flags, data-quality rows |
| `ModelService` | `model_service.dfy` | `ml_service/main.py`: model path resolution, the modification-time model cache, frame alignment, `/predict` guards and `/explain` ranking |
| `CurIds` | `curids.dfy` | `tokenNameFromCurId` and `tokenSymbolFromCurId` of `app.js` and `fetch-worker.js` |
| `PropsNormalizer` | `js_props.dfy` | both copies of `normalizePropsRaw` (`app.js`, `fetch-worker.js`) |
| `Reports` | `report.dfy` | `app.js`: the report filter clause, CSV quoting, the histogram, the trade curve and its maximum drawdown |
| `GasConsumption` | `gas.dfy` | `app.js`: the hourly gas-consumption fold |
| `ConsolidatedBalances` | `consolidated.dfy` | `app.js`: the carry-forward consolidation of per-server balances |
| `Notifications` | `notifier.dfy` | `notifier.js`: the `Notifier` class with its cooldown state and log, and `splitList` |
| `FetchWorker` | `fetch_worker.dfy` | `fetch-worker.js`: balance totals, per-token metrics, local prediction responses and the insert-then-alert rule |
| `PredictClient` | `predict_client.dfy` | `scripts/predict-ml-service.js`: the prediction client with its bounded insertion-ordered cache |
| `MlAnalysis` | `ml_analysis.dfy` | `public/ml-analysis.js`: baselines, diff buckets, nearest and best indices, sweep payloads and the averaged series |
| `Wrappers`, `Strings`, `Sorting`, `Frames`, `JsonValue`, `Arith` | | shared helpers: `Option`/`Result`, ASCII text operations, stable sorting by a key, data frames with named columns, JSON values and JavaScript numbers, arithmetic facts |

Modelling conventions:

- Calls into code that is not modelled become parameters. These include `json.loads`, `JSON.parse`, `Number(...)` on arbitrary values, a fitted pipeline's `predict`, and whether a notification transport throws.
- Database reads become the input sequences the queries return.
- A JavaScript `Map`, whose iteration follows insertion order, becomes a sequence of key/value pairs.
- A number that may be `NaN` or infinite is a `JsNum` (`Finite(x)` or `NonFinite`).
- Times are integers: seconds in the pipeline, milliseconds in the dashboard.
- Objects whose fields the source updates in place are classes: `ModelService.ModelCache`, `Notifications.Notifier` and `PredictClient.Client`. Loops that build results step by step are methods with loop invariants, proved against the specification functions beside them.

## Model

| member | source | states |
|---|---|---|
| Sorting.InsertUnique | ml_pipeline/modeling.py:141 | adding a value to a strictly increasing list (the sorted distinct timestamps here and in the consolidated timeline of app.js) keeps it strictly increasing and adds exactly that value |
| Modeling.UniqueTimes | ml_pipeline/modeling.py:141 | the distinct present timestamps, strictly increasing, containing exactly the times some row carries (`np.sort(ts.dropna().unique())`) |
| Modeling.Boundary | ml_pipeline/modeling.py:146 | boundary `i` of `np.linspace(0, n-1, k+2, dtype=int)` is an index at most `n - 1` |
| Modeling.BoundariesSpread | ml_pipeline/modeling.py:141-146 | with more than `k + 1` distinct times the boundaries start at 0, end at `n - 1` and strictly increase |
| Modeling.BoundaryMono | ml_pipeline/modeling.py:146 | boundaries are monotone in their index |
| Modeling.IndicesBefore | ml_pipeline/modeling.py:153-156 | the training positions: ascending, and exactly the rows with a time below the cut-off |
| Modeling.IndicesBetween | ml_pipeline/modeling.py:155-157 | the validation positions: ascending, and exactly the rows whose time lies in `[val_start, val_end]` |
| Modeling.EmittedIndices | ml_pipeline/modeling.py:150-160 | the loop indices of the kept folds are ascending and below the number of iterations |
| Modeling.GenerateTimeSplits | ml_pipeline/modeling.py:137-161 | the method's folds are those of the specification `TimeSplits` of the timestamps, `cv_splits` and the gap |
| Modeling.FewTimesNoFolds | ml_pipeline/modeling.py:139-144 | no present timestamp, or at most `cv_splits + 1` distinct ones, gives no folds |
| Modeling.FoldsUpToIndices | ml_pipeline/modeling.py:150-160 | the kept folds are exactly the candidates with both sides non-empty, in loop order |
| Modeling.SplitsCountAndNonEmpty | ml_pipeline/modeling.py:150-160 | at most `cv_splits` folds, each with non-empty training and validation sides |
| Modeling.CandidateWindow | ml_pipeline/modeling.py:151-155 | `val_start < val_end`, consecutive folds share the boundary time, validation rows lie in the window and training rows are before `val_start - gap` |
| Modeling.SplitsGapped | ml_pipeline/modeling.py:151-155 | every training time plus the gap is below every validation time of the same fold |
| Modeling.ConfigSplitsGapped | ml_pipeline/modeling.py:147-155 | under a configuration, every training time plus `cv_gap_minutes` minutes, in seconds, is below every validation time of the same fold |
| Modeling.SplitsDisjoint | ml_pipeline/modeling.py:154-157 | rows in a fold carry a time; with a non-negative gap no row is on both sides |
| Modeling.CandidateOrder | ml_pipeline/modeling.py:150-152 | later loop indices have later validation windows |
| Modeling.CandidateWalkForward | ml_pipeline/modeling.py:150-157 | a later candidate's validation rows are no earlier than an earlier one's, and its training rows include the earlier training rows |
| Modeling.SplitsWalkForward | ml_pipeline/modeling.py:150-160 | the same walk-forward order holds for the emitted folds |
| Modeling.CrossValidate | ml_pipeline/modeling.py:197-215 | one metrics record per fold, numbered 1..k in order; none when there are no folds |
| Config.Target | ml_pipeline/config.py:43-45 | the label is `target_column` for classification and `regression_target` for any other task |
| Config.DefaultSettings | ml_pipeline/config.py:14-29 | the defaults select `label_class` (or `label_regression` for regression), five folds, a five-minute gap, windows up to an hour and up to a day |
| Modeling.ScoreFolds | ml_pipeline/modeling.py:197-215 | one metrics record per split, numbered from 1 in split order, each holding that split's score |
| Features.SafeRatio | ml_pipeline/feature_engineering.py:24-25 | `x / (d + eps)`: present when both inputs are present and `d + eps` is nonzero, and then the result times `d + eps` is `x`; missing otherwise (pandas gives an infinity or NaN for a zero denominator, see Left out) |
| Features.SafeRatioZeroDenominator | ml_pipeline/feature_engineering.py:24-25 | with `d = 0` the ratio is `x / eps` |
| Features.Numeric | ml_pipeline/feature_engineering.py:43-47 | `pd.to_numeric(errors="coerce")` of a cell: a missing column or a missing or time cell gives a missing value, a number stays, and text is whatever the parser reads in it |
| Features.Mid | ml_pipeline/feature_engineering.py:52 | `spreadMid` is present iff both diffs are, and then twice it is their sum |
| Features.RejectFlag | ml_pipeline/feature_engineering.py:54-57 | `hasRejectReason` is 1 exactly when the row has a reject reason, otherwise 0 |
| Features.Notional | ml_pipeline/feature_engineering.py:49-50 | a gross notional is `qty * price`, and 0 when either is missing |
| Features.BaseColumns | ml_pipeline/feature_engineering.py:28-58 | the derived columns of one row: missing numeric inputs become missing, notionals, `tradePnLRatio` and `liquidityImbalance` as safe ratios, `spreadMid` as the mean of the diffs, `hasRejectReason` 1 exactly where `rejectReason` is present |
| Features.AddBaseColumns | ml_pipeline/feature_engineering.py:28-58 | every row of the frame receives its own base columns, in order |
| Features.WindowMax | ml_pipeline/feature_engineering.py:80 | the window maximum is present iff the window holds a value |
| Features.WindowMin | ml_pipeline/feature_engineering.py:81 | the window minimum is present iff the window holds a value |
| Features.RollingAggregates | ml_pipeline/feature_engineering.py:74-81 | the method's mean, maximum and minimum at a row are the window specifications over the rows up to it |
| Features.WindowIsTrailing | ml_pipeline/feature_engineering.py:65-81 | a window member is an earlier-or-equal row of the same `(serverId, token)` group with time in `(t - w, t]` |
| Features.WindowIgnoresLaterPrefix | ml_pipeline/feature_engineering.py:74-81 | window sums, counts and extremes depend only on the rows up to the current one |
| Features.RollingIgnoresLater | ml_pipeline/feature_engineering.py:74-98 | frames that agree up to a row give that row the same rolling mean, maximum and minimum |
| Features.WindowExtremes | ml_pipeline/feature_engineering.py:80-81 | every counted value lies between the window minimum and maximum |
| Features.WindowSumAtMost | ml_pipeline/feature_engineering.py:78 | a window sum is at most the count times an upper bound of its values |
| Features.WindowSumAtLeast | ml_pipeline/feature_engineering.py:78 | a window sum is at least the count times a lower bound of its values |
| Features.RollingMeanBetween | ml_pipeline/feature_engineering.py:78-81 | a present rolling mean lies between the window's minimum and maximum |
| Features.ZScore | ml_pipeline/feature_engineering.py:89 | the z-score is missing when the std is zero or any input is missing, otherwise it times the std is `x - mean` |
| Features.DropMissingTime | ml_pipeline/feature_engineering.py:65 | exactly the rows with a time survive |
| Features.RollingFrame | ml_pipeline/feature_engineering.py:65-69 | the rolling frame is the rows with a time, sorted by time, as a permutation |
| Features.ApplyRolling | ml_pipeline/feature_engineering.py:61-100 | one aggregate record per row of the rolling frame, each the window specification at that row |
| Features.KeepFirstMembers | ml_pipeline/feature_engineering.py:133 | `drop_duplicates(subset="feature_ts")` keeps exactly the first row of each time |
| Features.KeepFirstDistinct | ml_pipeline/feature_engineering.py:133 | kept rows have distinct times, strictly increasing when the input is time-sorted |
| Features.BalanceDelta | ml_pipeline/feature_engineering.py:111-113 | `diff(periods=w)` is a row lag: 0 for the first `w` rows and for missing values, else the difference with the row `w` before |
| Features.BalanceFeatAt | ml_pipeline/feature_engineering.py:111-119 | the balance features of the row at a sorted position: its time, its three totals, and per hour window the delta with the row that many positions before |
| Features.GasFeatAt | ml_pipeline/feature_engineering.py:130-132 | the gas features of the row at a sorted position: its time, `gasBalance` its gas, `isLowGas` its flag or 0 without an `is_low` column |
| Features.GasKept | ml_pipeline/feature_engineering.py:129-133 | the de-duplicated gas features are exactly those of the first row of each time |
| Features.PrepareBalances | ml_pipeline/feature_engineering.py:103-120 | no rows give `None`; otherwise strictly increasing times, and the kept rows are exactly the first row of each time in the time-sorted input, each with its totals copied and, per hour window, the row-lag delta of `total_usdt` |
| Features.PrepareGas | ml_pipeline/feature_engineering.py:123-133 | no rows give `None`; otherwise strictly increasing times, and the kept rows are exactly the first row of each time in the time-sorted input, with `gasBalance` its gas and `isLowGas` its `is_low` flag, or 0 when the column is absent |
| Features.Label | ml_pipeline/feature_engineering.py:142 | each row carries its index label |
| Features.SortedContracts | ml_pipeline/feature_engineering.py:142 | the rows sorted by time, each keeping its index label |
| Features.MisalignedCounts | ml_pipeline/feature_engineering.py:145-147 | as written, the row labelled `L` receives the hourly error sum computed at sorted position `L` |
| Features.AlignedCounts | ml_pipeline/feature_engineering.py:145-147 | each sorted row receives the hourly error sum at its own position |
| Features.ContractFeaturesAsWritten | ml_pipeline/feature_engineering.py:136-149 | the contract features as the code aligns them; `None` exactly for no rows |
| Features.ContractFeatures | ml_pipeline/feature_engineering.py:136-149 | corrected: no rows give `None`; otherwise strictly increasing times, and the kept rows are exactly the first row of each time in the sorted input, each with its own flag and the error count of the hour up to and including its position; with 0/1 flags the flag is within the count |
| Features.ErrorCountCoversOwn | ml_pipeline/feature_engineering.py:145-147 | with 0/1 flags the hourly count is non-negative and covers the row's own error |
| Features.ErrorCountNonNegative | ml_pipeline/feature_engineering.py:145-147 | with 0/1 flags the hourly count is non-negative |
| Features.CountMonotone | ml_pipeline/feature_engineering.py:145-147 | scanning more rows never lowers the hourly count |
| Features.KeepFirstIncreasing | ml_pipeline/feature_engineering.py:149 | rows already in strictly increasing time are all kept |
| Features.SortTwoSwapped | ml_pipeline/feature_engineering.py:142 | two rows out of time order are swapped by the sort |
| Features.TwoRowsSorted | ml_pipeline/feature_engineering.py:142 | the sorted, labelled order of the counterexample's two rows |
| Features.ContractCountMisaligned | ml_pipeline/feature_engineering.py:145-147 | counterexample: as written, the clean row is credited with the other row's error and the erroneous row with none |
| Features.ContractCountAligned | ml_pipeline/feature_engineering.py:145-147 | corrected, the same two rows each receive their own hour's count |
| Features.AsOf | ml_pipeline/feature_engineering.py:170-199 | backward as-of: the joined row is at or before the trade time, none exactly when every row is later, and the latest such row for sorted context |
| Features.Unmerged | ml_pipeline/feature_engineering.py:157-166 | pass-through trades get no context |
| Features.MergeServer | ml_pipeline/feature_engineering.py:163-201 | each of a server's trades keeps its order and gets the as-of row of each present stream |
| Features.MergeServerBackward | ml_pipeline/feature_engineering.py:168-199 | each joined context row is the latest of its stream at or before the trade |
| Features.Servers | ml_pipeline/feature_engineering.py:161 | the groups are exactly the server keys present among the trades |
| Features.OfServer | ml_pipeline/feature_engineering.py:161 | a group holds exactly the trades of its server |
| Features.ConcatMembers | ml_pipeline/feature_engineering.py:203 | the concatenation holds exactly the members of the groups |
| Features.MergeContextFeatures | ml_pipeline/feature_engineering.py:152-203 | the method's loop output equals the specification `MergeContext` |
| Features.MergeWithoutContext | ml_pipeline/feature_engineering.py:157-158 | an empty context map returns the trades unchanged and in order |
| Features.MergeGroupMembers | ml_pipeline/feature_engineering.py:161-166 | a group holds exactly its server's trades, and nothing is joined when the server has no context |
| Features.MergeKeepsServerTrades | ml_pipeline/feature_engineering.py:157-203 | with some context, every trade with a server appears, trades without a server are dropped, and servers without context get nothing joined |
| Features.MergedPosition | ml_pipeline/feature_engineering.py:157-203 | with some context, a trade with a server sits at some position of the merged result |
| Features.DropMissing | ml_pipeline/feature_engineering.py:224 | exactly the rows with both target and time survive |
| Features.FeatureColumns | ml_pipeline/feature_engineering.py:233-263 | features are the columns not dropped, not datetime-typed, not the target or time, and observed at least once |
| Features.KeepIn | ml_pipeline/feature_engineering.py:264 | filtering keeps exactly the members of both lists and their order |
| Features.Project | ml_pipeline/feature_engineering.py:253 | a projected row holds exactly the feature columns with their values |
| Features.FeatureRows | ml_pipeline/feature_engineering.py:253-262 | every kept row projected on the features, each feature observed |
| Features.Cells | ml_pipeline/feature_engineering.py:254 | a column's cells row by row |
| Features.Categoricals | ml_pipeline/feature_engineering.py:227-264 | the categoricals are sorted, distinct, and exactly the surviving features that are known categoricals or object-typed |
| Features.SelectFeatures | ml_pipeline/feature_engineering.py:220-264 | a missing target is an error; otherwise rows missing target or time are dropped, and the features and categoricals (a subset of the features) are as above |
| Enrichment.BaseRowOf | ml_pipeline/feature_engineering.py:28-58 | after `_add_base_columns` a row's base columns hold the values `Features.BaseColumns` derives from it, and every other cell is unchanged |
| Enrichment.AddBaseFrame | ml_pipeline/feature_engineering.py:28-58 | every row is replaced by its base row, in order, and the columns are the input's plus the seventeen base columns |
| Enrichment.WithBaseColumns | ml_pipeline/feature_engineering.py:43-57 | the column list after the assignments is the input's plus the base columns |
| Enrichment.SpecOf | ml_pipeline/feature_engineering.py:78-81 | a rolled column is named `{col}_{agg}_{label}` and aggregates `col` over the window |
| Enrichment.ColumnSpecs | ml_pipeline/feature_engineering.py:75-81 | one rolled column per present column and aggregate, none for an absent column |
| Enrichment.RejectSpec | ml_pipeline/feature_engineering.py:82 | `rejectRate_{w}m` is the mean of `hasRejectReason` over `w` minutes |
| Enrichment.MinuteSpecs | ml_pipeline/feature_engineering.py:72-89 | a minute window rolls mean, std, max and min of each present numeric column, the reject rate, and mean, std and z-score of `liquidityImbalance` when present, all over `w` minutes |
| Enrichment.HourSpecs | ml_pipeline/feature_engineering.py:91-98 | an hour window rolls mean and std of each present hourly column over `h` hours |
| Enrichment.MinuteWindowSpecs | ml_pipeline/feature_engineering.py:72-89 | every minute window's columns are rolled |
| Enrichment.HourWindowSpecs | ml_pipeline/feature_engineering.py:91-98 | every hour window's columns are rolled |
| Enrichment.Specs | ml_pipeline/feature_engineering.py:72-98 | the rolled columns of every minute and hour window, all named with an underscore |
| Enrichment.SpecNames | ml_pipeline/feature_engineering.py:72-98 | the rolled columns' names, in assignment order |
| Enrichment.Timed | ml_pipeline/feature_engineering.py:65 | `df[time].notna()`: exactly the rows with a timestamp, in order |
| Enrichment.RollingRows | ml_pipeline/feature_engineering.py:65-69 | the timestamped rows sorted by time, as a permutation |
| Enrichment.RolledObsSorted | ml_pipeline/feature_engineering.py:69 | the rolling input is sorted by time, so the trailing windows are well defined |
| Enrichment.ObsOf | ml_pipeline/feature_engineering.py:70-74 | each row seen by the window code as its `(serverId, token)` group, its time and its numeric value of the column |
| Enrichment.WindowValues | ml_pipeline/feature_engineering.py:74 | one value per counted member of the window |
| Enrichment.Assign | ml_pipeline/feature_engineering.py:78-98 | after the assignments each rolled column holds, at every row, the aggregate of the last assignment to that name, and the other columns keep their cells |
| Enrichment.AssignRolls | ml_pipeline/feature_engineering.py:72-98 | the assigned rows are the sorted rows with their rolled columns filled in |
| Enrichment.RollFrame | ml_pipeline/feature_engineering.py:61-100 | `_apply_rolling_features` on frames: KeyError exactly without the time column, or, once windows run, without `serverId`, the token column or `hasRejectReason`; an empty frame comes back unchanged and a frame with no timestamped row comes back empty |
| Enrichment.RollFrameRolls | ml_pipeline/feature_engineering.py:65-100 | when the windows run, the result holds the timestamped rows sorted by time with every rolled column filled in, and its columns are the input's plus the rolled ones |
| Enrichment.SpecNamesUnderscored | ml_pipeline/feature_engineering.py:73-98 | every rolled column name contains an underscore |
| Enrichment.RolledKeepsPlain | ml_pipeline/feature_engineering.py:72-98 | rolling never changes a column whose name has no underscore |
| Enrichment.RolledRowsFromInput | ml_pipeline/feature_engineering.py:65-100 | each rolled row comes from an input row with a timestamp and keeps its plain cells |
| Enrichment.RolledRowOrigin | ml_pipeline/feature_engineering.py:65-98 | a row after the assignments keeps the plain cells of one timestamped input row |
| Enrichment.RolledRowsTimed | ml_pipeline/feature_engineering.py:65 | every row that survives rolling has a timestamp |
| Enrichment.ToTime | ml_pipeline/feature_engineering.py:109 | a timestamp stays, a missing cell stays missing, other cells are converted by the parameter |
| Enrichment.Totals | ml_pipeline/feature_engineering.py:116-119 | the kept totals are columns of the frame |
| Enrichment.BalancesOf | ml_pipeline/feature_engineering.py:103-113 | a blank frame gives none; otherwise KeyError exactly without the time column, without `total_usdt` once there is an hour window, or with an unreadable time; else one balance row per input row with its time and three totals |
| Enrichment.GasOf | ml_pipeline/feature_engineering.py:123-131 | a blank frame gives none; otherwise an error exactly without the time column or with an unreadable time; else one gas row per input row with its time, gas and `is_low`, and whether the frame has each of those columns |
| Enrichment.Truncate | ml_pipeline/feature_engineering.py:143 | `astype(int)` truncates toward zero |
| Enrichment.ContractsOf | ml_pipeline/feature_engineering.py:136-143 | a blank frame gives none; otherwise an error exactly without the time column, without `isError`, with a missing or non-numeric flag, or with an unreadable time; else one contract row per input row with its time and truncated flag |
| Enrichment.ContextOf | ml_pipeline/feature_engineering.py:162-199 | a server's context fails exactly when one of its three frames fails; otherwise it holds each frame as read |
| Enrichment.OutNames | ml_pipeline/feature_engineering.py:170-199 | the names of the joined columns, in order |
| Enrichment.Place | ml_pipeline/feature_engineering.py:176-198 | `suffixes=("", suffix)`: a joined column whose name the frame already has gets the suffix, the others keep their names and cells |
| Enrichment.DeltaName | ml_pipeline/feature_engineering.py:112 | `balanceDelta_{w}h` |
| Enrichment.BalanceOuts | ml_pipeline/feature_engineering.py:116-120 | the joined balance columns are the deltas, `feature_ts`, then the totals, all missing without a match |
| Enrichment.GasOuts | ml_pipeline/feature_engineering.py:130-133 | the joined gas columns are `feature_ts`, `gasBalance` when the frame had gas, and `isLowGas`, all missing without a match |
| Enrichment.ContractOuts | ml_pipeline/feature_engineering.py:145-149 | the joined contract columns are `feature_ts`, `isError` and `errorCount1h`, all missing without a match |
| Enrichment.Overlay | ml_pipeline/feature_engineering.py:170-199 | a joined row keeps its other cells and takes the last joined value of each joined name |
| Enrichment.OutColumns | ml_pipeline/feature_engineering.py:170-199 | the merged columns are the frame's plus the joined ones |
| Enrichment.TradesOf | ml_pipeline/feature_engineering.py:161 | each row seen by the grouping as its text `serverId`, its time and its position |
| Enrichment.Contexts | ml_pipeline/feature_engineering.py:162 | every server's context is read, and equals its reading where that succeeds |
| Enrichment.ServerContexts | ml_pipeline/feature_engineering.py:162 | the streams of each server's context |
| Enrichment.MergedIds | ml_pipeline/feature_engineering.py:161-203 | every merged row comes from one input row, and with context that row has a server |
| Enrichment.RowsOut | ml_pipeline/feature_engineering.py:170-203 | each merged row is its input row overlaid with the joined columns of its as-of matches |
| Enrichment.ColumnsOut | ml_pipeline/feature_engineering.py:170-203 | the merged columns are the frame's plus every name some row joined |
| Enrichment.MergeFrame | ml_pipeline/feature_engineering.py:152-203 | `_merge_context_features` on frames: without context the frame is returned; otherwise an error exactly when `serverId` or the time column is missing, no row has a server, or a grouped server's context cannot be read; else one row per merged trade |
| Enrichment.MergeFrameMerges | ml_pipeline/feature_engineering.py:161-203 | with context, each merged row is its trade's input row overlaid with the backward as-of rows of its server's streams, with suffixed names, and the columns are the input's plus every joined name |
| Enrichment.MergedNameSplit | ml_pipeline/feature_engineering.py:170-203 | a name is joined by the merged trades exactly when the earlier ones join it or the last one does |
| Enrichment.BlankContext | ml_pipeline/feature_engineering.py:162-166 | a server whose three frames are blank reads as a context with no balances, gas or contracts |
| Enrichment.MergedOutsNotPlain | ml_pipeline/feature_engineering.py:170-199 | a joined column never has a plain name (without underscore and not a stream's own column) |
| Enrichment.MergeFrameCarries | ml_pipeline/feature_engineering.py:161-203 | with context, each merged row comes from an input row with a text `serverId` and keeps its plain cells |
| Enrichment.MergeFrameKeeps | ml_pipeline/feature_engineering.py:161-203 | with context, every input row with a text `serverId` appears, with its plain cells |
| Enrichment.MergedIndexOf | ml_pipeline/feature_engineering.py:161-203 | with context, every input row with a text `serverId` is one of the merged trades |
| Enrichment.MergeFramePassThrough | ml_pipeline/feature_engineering.py:162-166 | a row whose server has no context, or only blank frames, comes through unchanged |
| Enrichment.Enrich | ml_pipeline/feature_engineering.py:216-218 | the enrichment fails exactly when rolling fails or the merge of the rolled frame fails |
| Enrichment.Select | ml_pipeline/feature_engineering.py:220-226 | selection fails exactly when enrichment failed or the target column is missing; a result has one time per target, no missing target or time, and categoricals among the features |
| Enrichment.BuildFeatureMatrix | ml_pipeline/feature_engineering.py:206-224 | an empty trade frame gives an empty result; otherwise an error exactly when enrichment fails or the enriched frame lacks the target |
| Enrichment.BuiltUsable | ml_pipeline/feature_engineering.py:220-226 | a built matrix has one time per target, no missing target or time, and categoricals among the features |
| Enrichment.RolledFromTrade | ml_pipeline/feature_engineering.py:216-217 | each row after the base and rolling steps comes from a timestamped trade and keeps its plain input cells |
| Enrichment.RolledAllFromTrades | ml_pipeline/feature_engineering.py:216-217 | every row after the base and rolling steps comes from a timestamped trade, its plain cells kept |
| Enrichment.MergedFromTrade | ml_pipeline/feature_engineering.py:161-203 | with context, the merge keeps the trade of every input row that came from a trade, and that trade has a text `serverId` |
| Enrichment.ContextFromTrade | ml_pipeline/feature_engineering.py:152-203 | with or without context, a merged row comes from the trade its input row came from; with context that trade has a text `serverId` |
| Enrichment.EnrichedFromTrade | ml_pipeline/feature_engineering.py:216-218 | each enriched row comes from one timestamped trade and keeps that trade's plain input cells; with context that trade has a text `serverId` |
| Enrichment.RolledKeepsTrade | ml_pipeline/feature_engineering.py:216-217 | every timestamped trade survives the base and rolling steps |
| Enrichment.MergedKeepsTrade | ml_pipeline/feature_engineering.py:161-203 | with context, a trade with a text `serverId` whose plain cells some input row keeps is still kept by some merged row |
| Enrichment.EnrichKeepsTrade | ml_pipeline/feature_engineering.py:216-218 | with context, every timestamped trade with a text `serverId` appears in the enriched frame with its plain input cells |
| Enrichment.BuildFailsWithoutTime | ml_pipeline/feature_engineering.py:65 | non-empty trades without the time column fail, as indexing the time column raises KeyError |
| DataLoading.ExtractTokenFromPair | ml_pipeline/data_loading.py:15-25 | `None` or `""` give `None`; a token is lower-case, trimmed and free of `_` and `/` |
| DataLoading.LowerOfLowerCase | ml_pipeline/data_loading.py:25 | lower-casing text without upper-case letters changes nothing |
| DataLoading.ExtractTokenOfPair | ml_pipeline/data_loading.py:15-25 | `base_TOKEN/QUOTE->rest` yields `TOKEN` lower-cased: first `->` leg, last `_` segment, text before `/` |
| DataLoading.FirstLeg | ml_pipeline/data_loading.py:18-19 | the first `->` leg of `leg->rest` is `leg` |
| DataLoading.LastSegment | ml_pipeline/data_loading.py:20 | the last `_` segment of `base_segment` is `segment` |
| DataLoading.SegmentToken | ml_pipeline/data_loading.py:21-22 | the text before `/` of `tok/quote` is `tok` |
| DataLoading.ExtractTokenExample | ml_pipeline/data_loading.py:15-25 | `"ARB_ETH/USDT->X"` gives `"eth"` |
| DataLoading.ExamplePairText | ml_pipeline/data_loading.py:15-25 | the example text is an instance of `base_TOKEN/QUOTE->rest` |
| DataLoading.ExampleLower | ml_pipeline/data_loading.py:25 | `"ETH"` lower-cases to `"eth"` |
| DataLoading.TokenFromCurId | ml_pipeline/data_loading.py:28-34 | `None` or `""` give `None`; a result is non-empty, lower-case and trimmed |
| DataLoading.TokenOfCurId | ml_pipeline/data_loading.py:31-33 | an id `a_TOKEN` or `a_TOKEN_rest` yields `TOKEN` lower-cased |
| DataLoading.SecondSegment | ml_pipeline/data_loading.py:31-33 | such an id has at least two `_` segments, the second being `TOKEN` |
| DataLoading.FirstSegment | ml_pipeline/data_loading.py:31 | the first `_` segment of `tok` followed by `_...` is `tok` |
| DataLoading.TokenOfPlainCurId | ml_pipeline/data_loading.py:34 | an id without `_` is its own token trimmed and lower-cased, `None` when that is empty |
| DataLoading.TokenFromCurIdExample | ml_pipeline/data_loading.py:28-34 | `"1_bnb_2"` gives `"bnb"` |
| Frames.ToNumber | ml_pipeline/data_loading.py:136 | `pd.to_numeric(errors="coerce")` of one cell: a number stays, text is what the parser reads, a missing or time cell is missing |
| Frames.WithColumn | ml_pipeline/data_loading.py:78-90 | assigning a column sets its cells in every row, adds it if absent, and leaves the other columns alone |
| DataLoading.DeriveToken | ml_pipeline/data_loading.py:75-84 | a missing token column is derived from `pair`, else from `curId`, else the frame is left unchanged |
| DataLoading.DerivedTokensLowerCase | ml_pipeline/data_loading.py:75-84 | a derived token is missing or lower-case, and one from a pair holds no `_` or `/` |
| DataLoading.RenameColumn | ml_pipeline/data_loading.py:87-88 | renaming `serverId_x` to `serverId` moves the values and leaves the other columns alone |
| DataLoading.LoadServerDataset | ml_pipeline/data_loading.py:72-90 | an empty frame comes back unchanged; otherwise the token column is `DeriveToken`'s, `serverId_x` is renamed to `serverId` with its values kept, an existing `serverId` is untouched, a frame with neither gets the server's id in every row, and every other cell stays |
| DataLoading.NewColumns | ml_pipeline/data_loading.py:127 | the columns of the second frame that the first does not name |
| DataLoading.UnionColumns | ml_pipeline/data_loading.py:127 | `pd.concat` columns are exactly those of either frame |
| DataLoading.Tagged | ml_pipeline/data_loading.py:120 | after `trades["serverId"] = server_id` every row carries that id |
| DataLoading.ServerIds | ml_pipeline/data_loading.py:116-122 | the recorded servers are exactly those with trades |
| DataLoading.LoadDatasets | ml_pipeline/data_loading.py:110-154 | the method's loop output is the gathered, filtered and labelled frame, and the servers with trades |
| DataLoading.GatheredRowsTagged | ml_pipeline/data_loading.py:116-127 | every gathered row carries the id of one of the servers with trades |
| DataLoading.LoadedRowsCarryServer | ml_pipeline/data_loading.py:116-127 | every row `load_datasets` gathers carries the `serverId` of the server it was loaded from |
| DataLoading.KeepTokens | ml_pipeline/data_loading.py:131 | exactly the rows whose token is in the configured list survive |
| DataLoading.FilterTokens | ml_pipeline/data_loading.py:129-133 | the filter applies when tokens are configured and the column exists, and is a no-op otherwise |
| DataLoading.Numbers | ml_pipeline/data_loading.py:136-144 | coercion keeps numbers, reads text with the parser, and makes missing and time cells missing |
| DataLoading.FirstUsable | ml_pipeline/data_loading.py:141-147 | the first fallback column that exists and holds a value after coercion, or none exactly when no fallback does |
| DataLoading.RegressionLabel | ml_pipeline/data_loading.py:135-148 | the coerced regression target if it holds a value, else the coerced first usable fallback, else all missing |
| DataLoading.ClassLabel | ml_pipeline/data_loading.py:150-152 | the class label is 1 iff the value is present and above the threshold, and 0 otherwise |
| DataLoading.WithLabels | ml_pipeline/data_loading.py:148-152 | the regression label is written, and for classification the class label derived from it |
| DataLoading.DefaultClassLabels | ml_pipeline/data_loading.py:148-152 | with the defaults a positive `label_regression` gives `label_class` 1 and anything else 0 |
| ExportDiff.Requested | scripts/export_diff_dataset.py:90 | the requested formats are exactly the non-blank comma-separated items, trimmed and lower-cased |
| ExportDiff.Unsupported | scripts/export_diff_dataset.py:91 | the unknown formats are exactly the requested ones outside the supported set |
| ExportDiff.EnsureFormats | scripts/export_diff_dataset.py:89-96 | accepted iff some format is requested and all are supported; the result is strictly sorted and holds exactly the requested formats |
| ExportDiff.FormatsCanonical | scripts/export_diff_dataset.py:96 | the accepted list is the unique strictly sorted list of the requested formats |
| ExportDiff.ExtractTokenFromPair | scripts/export_diff_dataset.py:136-146 | `None` or `""` give `None` |
| ExportDiff.TokenFromCurId | scripts/export_diff_dataset.py:149-155 | `None` or `""` give `None` |
| ExportDiff.ParsersAgreeWithLoader | scripts/export_diff_dataset.py:136-155 | both exporter parsers return what the training loader's parsers return, for every input |
| ExportDiff.ParseJsonColumn | scripts/export_diff_dataset.py:158-166 | missing or `""` give `{}`, a dictionary passes through, and text is decoded with invalid JSON giving `{}` |
| ExportDiff.NetProfit | scripts/export_diff_dataset.py:188-193 | `netProfit = qtyDst*dstPrice - srcPrice*qtySrc - 0.0002*qtyDst*dstPrice` with missing values as 0 |
| ExportDiff.LabelClass | scripts/export_diff_dataset.py:195 | `label_class` is 1 iff `netProfit > 0`, else 0 |
| ExportDiff.FreeSourceProfit | scripts/export_diff_dataset.py:188-195 | with nothing paid on the source side, a trade is labelled profitable iff it received something |
| ExportDiff.IsPartialFill | scripts/export_diff_dataset.py:199-202 | `isPartialFill` is 1 iff an estimate column exists and the executed quantity is below it (missing as 0) |
| ExportDiff.Truncate | scripts/export_diff_dataset.py:197 | `astype(int)` truncates toward zero |
| ExportDiff.IsHedgedAsWritten | scripts/export_diff_dataset.py:197 | as written, a table without a `hedge` column fails; otherwise the truncated value with missing as 0 |
| ExportDiff.HedgeColumnMissingFails | scripts/export_diff_dataset.py:197 | counterexample: no `hedge` column makes the flag computation fail |
| ExportDiff.IsHedged | scripts/export_diff_dataset.py:197 | corrected: a missing column or value gives 0, and where the column exists the result agrees with the code |
| ExportDiff.HedgeFlagsKept | scripts/export_diff_dataset.py:197 | flags stored as 0 and 1 stay 0 and 1 |
| ExportDiff.ClassifyPropKey | scripts/export_diff_dataset.py:210-227 | a blank key feeds nothing, `diff` feeds `propDiff`, and only `exec`/`execution`/`mode` feed the execution mode |
| ExportDiff.SlippageColumnsUnreachable | scripts/export_diff_dataset.py:216-225 | no key is ever classified as `propDexSlippage` or `propCexSlippage`, since the earlier `slip` branches catch them |
| ExportDiff.SlippageHasSlip | scripts/export_diff_dataset.py:216-225 | any text containing `slippage` contains `slip` |
| ExportDiff.ExtractPropsFeatures | scripts/export_diff_dataset.py:205-228 | the loop's result is the fold of the classified keys over the parsed dictionary, and empty for anything else |
| ExportDiff.PropsFilled | scripts/export_diff_dataset.py:210-227 | a column is filled iff some key feeds it |
| ExportDiff.PropsLastKeyWins | scripts/export_diff_dataset.py:210-227 | a filled column holds the value of the last key that feeds it |
| ExportDiff.PropsNeverSlippage | scripts/export_diff_dataset.py:222-225 | no trade ever carries the two slippage columns |
| ExportDiff.MatchedCount | scripts/export_diff_dataset.py:309 | a group's matched count is at most its size |
| ExportDiff.FirstTime | scripts/export_diff_dataset.py:319 | the earliest present trade time of the group, none when all are missing |
| ExportDiff.LastTime | scripts/export_diff_dataset.py:320 | the latest present trade time of the group, none when all are missing |
| ExportDiff.Keys | scripts/export_diff_dataset.py:307 | the group keys are exactly the tokens present, a missing token read as `"unknown"` |
| ExportDiff.BuildQualityRows | scripts/export_diff_dataset.py:303-322 | the loop's rows equal the specification `QualityRows` |
| ExportDiff.RowTokens | scripts/export_diff_dataset.py:313 | the tokens of the rows, in order |
| ExportDiff.QualityRowsShape | scripts/export_diff_dataset.py:307-321 | one row per group in strictly increasing token order, `matchedDiffCount + missingDiffCount = tradeCount`, and each count is the group's positive size |
| ExportDiff.QualityRowsIndex | scripts/export_diff_dataset.py:308-321 | row `i` summarises group `i` |
| ExportDiff.TokenCountPositive | scripts/export_diff_dataset.py:310 | a group that holds a row has positive size |
| ExportDiff.TokenCountSingle | scripts/export_diff_dataset.py:310 | a single row counts once in its own group and nowhere else |
| ExportDiff.TokenCountAppend | scripts/export_diff_dataset.py:310 | a group's size grows by one exactly when an appended row falls in it |
| ExportDiff.IndicatorSum | scripts/export_diff_dataset.py:307-310 | a row falls in exactly one group of distinct keys that include its own |
| ExportDiff.CountSumSplit | scripts/export_diff_dataset.py:307-310 | group sizes summed over a list split over an appended row |
| ExportDiff.CountsCoverRows | scripts/export_diff_dataset.py:307-310 | over distinct keys that cover every row, the group sizes add up to the number of rows |
| ExportDiff.EmptyCounts | scripts/export_diff_dataset.py:304-305 | no rows give zero counts |
| ExportDiff.QualityRowsCoverMerged | scripts/export_diff_dataset.py:303-322 | over all quality rows the trade counts add up to the number of merged rows |
| ExportDiff.ClassifyNormalized | scripts/export_diff_dataset.py:213-227 | on an already trimmed, lower-cased key: the empty key selects nothing, `diff` selects `propDiff`, and the execution mode is selected only by `exec`, `execution` or `mode` |
| ModelService.Candidate | ml_service/main.py:33 | a missing or empty override falls back to the default artifact path, otherwise the override is used |
| ModelService.ResolveModelPath | ml_service/main.py:32-38 | a relative candidate is resolved below the working directory; the path, as spelled, exists, otherwise the error names the path that does not |
| ModelService.OnDisk | ml_service/main.py:36 | a spelling exists exactly when its canonical path is on disk |
| ModelService.CacheLookup | ml_service/main.py:45-57 | a cached entry whose mtime matches the file is returned as is; otherwise a fresh entry with the pipeline on disk, its metadata (empty when `metadata.json` is absent) and the current mtime |
| ModelService.CacheAfter | ml_service/main.py:45-57 | after a load the key holds the returned entry, a hit leaves the cache unchanged, and no other key is touched |
| ModelService.ReloadIsHit | ml_service/main.py:46-48 | loading an unchanged artifact a second time is a hit that returns the same entry and changes nothing |
| ModelService.ChangedFileReloads | ml_service/main.py:47-56 | once the file's mtime changes the next load returns the pipeline now on disk and records the new mtime |
| ModelService.ModelCache.constructor | ml_service/main.py:16 | the cache starts empty |
| ModelService.ModelCache.Load | ml_service/main.py:41-57 | for the canonical path, returns the cache-lookup entry and leaves the cache as the cache-after function says |
| ModelService.SpellingsShareEntry | ml_service/main.py:42-48 | two spellings with one canonical path share a cache entry: loading the unchanged file through the second is a hit returning the first's entry |
| ModelService.PayloadKeys | ml_service/main.py:61 | every key of every payload is a column of the frame |
| ModelService.Aligned | ml_service/main.py:60-65 | one row per payload, exactly the ordered feature columns, each cell the payload's value or missing |
| ModelService.Select | ml_service/main.py:65 | selecting the ordered columns succeeds exactly when every one of them is present, giving the aligned table |
| ModelService.PrepareFrame | ml_service/main.py:60-65 | after adding every absent feature column the frame equals the aligned table |
| ModelService.Respond | ml_service/main.py:78-99 | 500 exactly when the feature order is missing or empty, 400 exactly when prediction fails; otherwise the predictions on the aligned frame, the feature order and config, probabilities absent exactly when not asked for or unsupported, and when asked for and supported, the model's probabilities, or the probabilities error exactly when they cannot be computed |
| ModelService.ModelCache.Predict | ml_service/main.py:73-99 | a path that does not resolve fails without touching the cache; otherwise the model is loaded through the cache under the path's canonical form and the answer is the respond function on the loaded entry |
| ModelService.ByMagnitude | ml_service/main.py:109 | the importance pairs, permuted, in non-increasing order of absolute value |
| ModelService.TopCount | ml_service/main.py:110-111 | `max(1, top_k)` capped by the number of pairs available |
| ModelService.TopFeatures | ml_service/main.py:106-111 | 404 exactly when importance is missing or empty; otherwise at least one and at most `max(1, top_k)` pairs, drawn from the importance, ordered by magnitude |
| ModelService.TopFeaturesAreLargest | ml_service/main.py:109-111 | no pair left out outweighs any pair returned |
| ModelService.ModelCache.Explain | ml_service/main.py:102-111 | a path that does not resolve fails without touching the cache; otherwise the top features of the importance of the entry loaded under the path's canonical form |
| CurIds.NonEmpty | app.js:773 | `.filter(Boolean)`: keeps exactly the non-empty parts, never more parts than given |
| CurIds.Parts | app.js:773 | the parts of a curId are non-empty and contain no `_` |
| CurIds.TokenSymbolFromCurId | app.js:771-776 | a symbol exactly when the curId is a string with at least two parts, and then it is the second part |
| CurIds.TokenNameFromCurId | app.js:821-826 | agrees with the symbol when there is one, else the only part, else the curId itself when non-empty, and nothing for an empty or missing id |
| CurIds.SymbolOfCurId | fetch-worker.js:676-681 | for an id `head_token…` the symbol and the name are both `token` |
| CurIds.TokenNameExample | fetch-worker.js:676-681 | the name of `1_bnb_2` is `bnb` |
| JsonValue.Prop | app.js:1181-1186 | an object's own property is its last field with that key, and is absent exactly when no field has the key or the value is not an object |
| JsonValue.Lookup | app.js:1181-1186 | the value found is held by a field with the key; none exactly when no field has it |
| JsonValue.LookupIsLast | app.js:1181-1186 | the field found is the last one with the key, as `JSON.parse` keeps repeated keys |
| JsonValue.Dedup | app.js:1155 | `JSON.parse` keeps one property per key, holding its last value, in the order the document first names the keys |
| JsonValue.Entries | app.js:1199 | `Object.entries` of an object: each key once with its property's value, integer-like keys first in ascending order, the other keys in first-appearance order; an array's or a string's elements one per index |
| JsonValue.ObjectEntries | app.js:1199 | an object's entries are unique, cover its keys, hold its last values, and are ordered integer keys first, then names by first appearance |
| JsonValue.IndexEntries | app.js:1199 | the integer-like entries in ascending numeric order |
| JsonValue.OtherEntries | app.js:1199 | the other entries, in their order |
| JsonValue.ObjectEntriesJoin | app.js:1199 | an object's entries are its integer-like entries followed by the others |
| JsonValue.IndexKeyFirst | app.js:1199 | `{"x":"SELL","1":"BUY"}` lists `"1"` first |
| JsonValue.RepeatedKeyOnce | app.js:1155 | `{"token":"A","token":"B"}` has the single entry `token: "B"` |
| PropsNormalizer.Subject | app.js:1155 | text is decoded (an unparsable text is an error), a missing value becomes `{}`, any other value is used as is |
| PropsNormalizer.TokenAfter | app.js:1169-1173 | after a prefix of the keys, the token is the first usable value under a `token`/`pair`/`asset` key (any case), and there is none exactly when no such key has a usable value; entries are taken in `Object.entries` order (integer-like keys ascending first, then the other keys in first-appearance order, each key once with its last value) |
| PropsNormalizer.LhAfter | app.js:1174-1175 | after a prefix of the keys, `LHdelta` is set exactly when some `lhdelta`/`lhd`/`lh` key reads as a finite number, and then it is the last such reading |
| PropsNormalizer.TokenPass | app.js:1168-1178 | the key loop leaves the token and `LHdelta` that the prefix functions give for all keys |
| PropsNormalizer.FirstExecKey | app.js:1190-1192 | the first of `Market`, `Limit`, `PostOnly`, `IOC`, `FOK` present as an own property, and none exactly when none is |
| PropsNormalizer.FirstExecKeyFrom | fetch-worker.js:745 | the first execution key present at or after a position in that list |
| PropsNormalizer.FirstSide | app.js:1199-1205 | the first entry whose value is `BUY` or `SELL` (as text in the dashboard, strictly in the worker), and none exactly when no entry is; entries are taken in `Object.entries` order (integer-like keys ascending first, then the other keys in first-appearance order, each key once with its last value) |
| PropsNormalizer.FirstNumericPair | app.js:1207-1215 | the first entry whose key and value both read as finite numbers, and none exactly when no entry does; entries are taken in `Object.entries` order (integer-like keys ascending first, then the other keys in first-appearance order, each key once with its last value) |
| PropsNormalizer.FindSide | fetch-worker.js:748-753 | the breaking loop finds the first side entry |
| PropsNormalizer.FindNumericPair | fetch-worker.js:755-758 | the breaking loop finds the first numeric key/value pair |
| PropsNormalizer.FindExecKey | fetch-worker.js:745 | the `find` over the execution keys returns the first present one |
| PropsNormalizer.NormalizePropsRaw | app.js:1153-1222 | an unparsable or `null` input gives `{}`; direct keys copy `Diff`, `DexSlip`, `CexSlip`, `Dex`, `Exec` when present; otherwise `Exec` and `CexSlip` come from the first execution key, `Dex` from the first side entry and `Diff`/`DexSlip` from the first numeric pair; the dashboard copy also sets the token (falling back to the side entry's key) and `LHdelta`, the worker copy never does; a decoded array or string has no `LHdelta`, and its dashboard token is the key of the first side entry (`["SELL"]` gives `"0"`); entries are taken in `Object.entries` order (integer-like keys ascending first, then the other keys in first-appearance order, each key once with its last value) |
| Reports.Template | app.js:4725 | a clause joined with `?` between its parts carries one placeholder fewer than it has parts, when the parts themselves carry none |
| Reports.TimeExpr | app.js:4680-4682 | the trade-time expression carries no placeholder |
| Reports.TimeClause | app.js:4718-4720 | the time-range clause carries exactly the two placeholders for start and end |
| Reports.Commas | app.js:4725 | the `n` separators of the placeholder list |
| Reports.InClause | app.js:4723-4728 | an `IN` clause over `n` values carries exactly `n` placeholders |
| Reports.HedgeClause | app.js:4737-4741 | the hedge clauses carry no placeholder |
| Reports.NotionalClause | app.js:4743-4746 | the minimum-notional clause carries exactly one placeholder |
| Reports.PnlClause | app.js:4747-4750 | the minimum-PnL clause carries exactly one placeholder |
| Reports.JsonExpr | app.js:4753 | the `json_extract` expression carries no placeholder |
| Reports.BoundClause | app.js:4764-4775 | a range bound clause carries exactly one placeholder |
| Reports.AddIn | app.js:4723-4728 | an `IN` clause adds exactly its values as parameters and as many placeholders, and nothing for an empty list |
| Reports.AddRange | app.js:4764-4775 | a range adds one placeholder and one parameter per finite bound, and nothing without one |
| Reports.Add | app.js:4737-4750 | pushing a clause and its values keeps placeholders and parameters in step |
| Reports.ColumnClauses | app.js:4718-4750 | the time, column, hedge and threshold clauses carry exactly one placeholder per parameter, and there are none exactly when none of those filters is active |
| Reports.ListClauses | app.js:4730-4735 | the six column lists keep placeholders and parameters in step and add nothing when all are empty |
| Reports.PropsClauses | app.js:4752-4783 | the props lists and ranges keep placeholders and parameters in step and add nothing when inactive |
| Reports.BuildReportTradeFilterClause | app.js:4713-4787 | the clause carries exactly as many placeholders as there are parameters, is empty exactly when no filter is active, and otherwise starts with ` WHERE ` |
| Reports.Escape | app.js:5195 | doubling quotes keeps exactly the characters of the value |
| Reports.UnquotedUnchanged | app.js:5195 | a value without a quote is unchanged by escaping |
| Reports.FormatValue | app.js:5193-5200 | `null` is the empty field, a field with a quote, comma or newline is wrapped in quotes, any other value is written as is |
| Reports.UndoubleEscape | app.js:5195 | un-doubling the quotes of an escaped value gives the value back |
| Reports.FormatRoundTrip | app.js:5193-5200 | a CSV reader reads every formatted field back as the original value |
| Reports.FiniteValues | app.js:4986 | exactly the finite values, in order |
| Reports.Bucket | app.js:5010-5012 | the floored bucket index clamped into the bucket range |
| Reports.BucketHolds | app.js:5004-5013 | a value between the extremes lands in the bin whose range holds it, the last bin closed at the maximum |
| Reports.BucketCounts | app.js:5009-5014 | count `i` is the number of values whose bucket is `i` |
| Reports.CountsCoverValues | app.js:5009-5014 | the counts add up to the number of values |
| Reports.Extremes | app.js:4988-4993 | the least and greatest values, both present |
| Reports.Bins | app.js:5004-5008 | `bucketCount` bins of equal width from the minimum, the last ending at the maximum |
| Reports.CountBuckets | app.js:5009-5014 | the counting loop yields the bucket counts |
| Reports.ComputeReportHistogram | app.js:4985-5016 | no bins without a finite value, a single bin holding every value when all are equal, otherwise equal-width bins spanning the extremes whose counts add up to the number of finite values |
| Reports.Kept | app.js:5027 | the trades with a finite timestamp, in order |
| Reports.Curve | app.js:5026-5030 | one point per kept trade, valued at the running PnL up to and including it |
| Reports.Accumulate | app.js:5024-5031 | the loop over the sorted trades yields the curve of the kept trades |
| Reports.BuildTradeCurve | app.js:5018-5032 | the curve of the timed trades in timestamp order |
| Reports.KeptSorted | app.js:5019-5027 | dropping untimed trades keeps the timestamp order |
| Reports.TradeCurveAscending | app.js:5018-5032 | the curve's times never decrease |
| Reports.CurveSteps | app.js:5028-5029 | consecutive points differ by the later trade's PnL (a missing PnL counting as 0) |
| Reports.ComputeMaxDrawdown | app.js:5034-5045 | the largest fall of a value below an earlier or equal one: non-negative, no later fall exceeds it, and it is either 0 or attained |
| Reports.HedgeClauses | app.js:4737-4741 | the hedge filter adds no placeholder and no parameter, and adds a clause unless every hedge state is accepted |
| Reports.ThresholdClauses | app.js:4743-4750 | each notional or PnL threshold adds one placeholder per parameter it binds, and a clause appears exactly when a threshold is set |
| Reports.SpreadHistogram | app.js:5000-5014 | for values spanning a non-empty range: one bin per bucket, starting at equal steps from the least value, the last ending at the greatest, with counts that add up to the number of values |
| GasConsumption.HourOf | app.js:5629-5632 | the start of the reading's local hour: at or before the reading, less than an hour before it, and on a local hour boundary |
| GasConsumption.Drop | app.js:5640-5646 | the consumption booked for a reading is never negative |
| GasConsumption.Added | app.js:5647-5650 | the deposit booked for a reading is never negative |
| GasConsumption.Find | app.js:5633 | the bucket of an hour, if there is one, and none exactly when no bucket has that hour |
| GasConsumption.CreditKeeps | app.js:5633-5659 | booking a reading keeps one bucket per hour and non-negative amounts, and leaves its hour with the reading's balance as latest total |
| GasConsumption.BucketsWellFormed | app.js:5620-5660 | the fold's buckets have distinct hours and non-negative consumption and deposits |
| GasConsumption.Book | app.js:5633-5659 | booking a reading updates the buckets as the credit function says |
| GasConsumption.ComputeGasConsumptionSeries | app.js:5607-5670 | no buckets for one reading or none; otherwise the fold's buckets sorted by hour |
| GasConsumption.DistinctOnce | app.js:5614 | a bucket occurs at most once among buckets with distinct hours |
| GasConsumption.PermutationDistinct | app.js:5662-5663 | reordering buckets with distinct hours keeps them distinct |
| GasConsumption.SeriesByHour | app.js:5662-5663 | the series is strictly increasing in hour and holds exactly the fold's buckets |
| GasConsumption.ConsumedUpdate | app.js:5644 | replacing one bucket changes the totals by the difference of its amounts |
| GasConsumption.CreditTotals | app.js:5640-5659 | booking a reading adds exactly its consumption and deposit to the totals |
| GasConsumption.BucketsConserve | app.js:5620-5660 | the buckets hold exactly the consumption and deposits booked reading by reading: nothing is created or lost by the hourly grouping |
| GasConsumption.ConsecutiveAutoReadings | app.js:5640-5646 | a fall between two consecutive automatic readings is booked in full and a rise books nothing |
| GasConsumption.ManualResetsBaseline | app.js:5651-5655 | after a manual reading the next automatic reading measures its fall from the manual balance |
| ConsolidatedBalances.Timeline | app.js:2981-2987 | the distinct timestamps of all readings, strictly ascending |
| ConsolidatedBalances.TimesCover | app.js:2981 | every reading's timestamp is on the timeline |
| ConsolidatedBalances.Advance | app.js:3004-3007 | the inner walk never moves backwards and never passes the end |
| ConsolidatedBalances.AdvanceStops | app.js:3004-3007 | the walk passes only readings at or before the timestamp and stops at the first one after it |
| ConsolidatedBalances.Pass | app.js:3001-3007 | one step reaches the walk's stopping point and reports the last reading it passed, or null when it passed none |
| ConsolidatedBalances.FillServer | app.js:2995-3013 | one value per timestamp: the value carried after the walk reaches it |
| ConsolidatedBalances.PosSplit | app.js:3000-3007 | with readings in time order, after `k` timestamps the walk has passed exactly the readings at or before the `k`-th |
| ConsolidatedBalances.StepPassesOneInstant | app.js:3000-3007 | with every reading time on the timeline, step `k` passes exactly the readings at the `k`-th timestamp, however many share it |
| ConsolidatedBalances.SettledIgnoresLater | app.js:3004 | readings after a timestamp do not change the value shown at it |
| ConsolidatedBalances.SettledRaise | app.js:3004 | the value shown does not change between two timestamps when no reading lies between them |
| ConsolidatedBalances.SettledSkipsTied | app.js:3005-3006 | a reading followed by another at the same instant is overwritten before the non-zero test and never shown |
| ConsolidatedBalances.CarriedLatest | app.js:3009-3012 | the carried value is the last reading of the latest instant passed whose last reading is non-zero, 0 before any |
| ConsolidatedBalances.CarryForward | app.js:2997-3013 | with readings in query order (equal times allowed) on the timeline, each server shows at each timestamp the last reading of the latest instant at or before it whose last reading is non-zero, 0 when there is none |
| ConsolidatedBalances.SettledIsLatestNonZero | app.js:3009-3011 | with no two readings at one instant, that value is simply the latest non-zero reading |
| ConsolidatedBalances.CarryForwardDistinct | app.js:2997-3013 | with no two readings at one instant, each timestamp shows the latest non-zero reading at or before it |
| ConsolidatedBalances.TiedZeroHides | app.js:3004-3011 | readings 5 then 0 at the same instant show 0, where the latest non-zero reading is 5 |
| ConsolidatedBalances.FillAll | app.js:2993-3015 | every server's column of carried values |
| ConsolidatedBalances.Totals | app.js:3018-3026 | each timestamp's total is the sum of the servers' carried values |
| ConsolidatedBalances.ConsolidatedHistory | app.js:2987-3035 | one point per timeline timestamp, in order, with every server's carried value and their sum |
| ConsolidatedBalances.HistoryIsLatestReadings | app.js:2991-3026 | in the history, each server's value at each timestamp is the last reading of its latest instant at or before that timestamp whose last reading is non-zero |
| Notifications.WordsFrom | notifier.js:12-15 | the words of a text split on runs of commas, semicolons and whitespace are non-empty and contain no separator |
| Notifications.TrimmedItems | notifier.js:11 | the trimmed, non-empty renderings of an array's items |
| Notifications.SplitList | notifier.js:9-16 | a falsy value gives no items, no item is empty, and the items of a text contain no separator |
| Notifications.WordsFromWord | notifier.js:13-15 | a word at the front of the text is carried into the current word |
| Notifications.WordsOfJoin | notifier.js:12-15 | words joined by any one separator split back into the same words |
| Notifications.Positive | notifier.js:65 | a finite positive number, otherwise 0 |
| Notifications.Take | notifier.js:119 | `slice(0, n)`: the first `n` characters, the whole text when it is shorter |
| Notifications.Message | notifier.js:119 | the logged message never exceeds 2000 characters |
| Notifications.AttemptRows | notifier.js:167-196 | one log row per channel, in order, each sent or failed as its delivery went |
| Notifications.AttemptResults | notifier.js:167-196 | one result per channel, in order, with its status |
| Notifications.Offer | notifier.js:73-88 | exactly the usable channels, in the order telegram, slack, email |
| Notifications.Notifier.constructor | notifier.js:19-29 | the server id is kept, missing config and rules become `{}`, and no state or log exists yet |
| Notifications.Notifier.RuleConfig | notifier.js:55-60 | a rule's configuration is always an object, `{}` when absent or not an object |
| Notifications.Notifier.ResolveCooldownMinutes | notifier.js:62-71 | never negative; a given override decides alone, positive only when it is a finite positive number; otherwise the rule's `cooldownMinutes`, else its `cooldown`, under the same test |
| Notifications.Notifier.ResolveChannels | notifier.js:73-93 | exactly the configured channels that were requested (all of them when the request is not a non-empty array), in the order telegram, slack, email |
| Notifications.Notifier.MakeStateKey | notifier.js:95-98 | `serverId:ruleKey:` followed by the unique key, or `default` when it is falsy |
| Notifications.Notifier.IsUnderCooldown | notifier.js:100-107 | throttled exactly when the cooldown is positive and the key was sent less than the cooldown ago; never without a cooldown or a record |
| Notifications.Notifier.RecordState | notifier.js:109-115 | the key's last-sent time becomes the given time; nothing else changes |
| Notifications.Notifier.LogNotification | notifier.js:117-144 | appends exactly one row to the log and leaves the state alone |
| Notifications.Notifier.Deliver | notifier.js:167-196 | attempts every channel in order, logging one row per attempt, without touching the state |
| Notifications.Notifier.Notify | notifier.js:146-200 | a throttled key is skipped with no change; no channel logs one skipped system row and records nothing; otherwise every channel is attempted and logged and the key's last-sent time becomes now, whatever the outcomes |
| Notifications.CooldownAfterDelivery | notifier.js:100-115 | right after a delivery the key is throttled exactly until the cooldown has passed |
| Notifications.OtherKeysUnaffected | notifier.js:109-115 | recording one key leaves every other key's cooldown as it was |
| Notifications.StateKeysSeparate | notifier.js:95-98 | different unique keys of a rule have independent cooldowns |
| Notifications.DefaultKeyShared | notifier.js:95-98 | a unique key spelled `default` shares its cooldown with alerts that give none |
| FetchWorker.AddCommutes | fetch-worker.js:694-696 | adding JavaScript numbers (with `NaN` and the infinities) is commutative |
| FetchWorker.AddAssociates | fetch-worker.js:694-696 | adding JavaScript numbers is associative, so the per-exchange sums can be regrouped |
| FetchWorker.OrZero | fetch-worker.js:694 | coercing with a fallback to 0 never yields `NaN` and keeps every finite value |
| FetchWorker.CalculateTotals | fetch-worker.js:683-704 | no totals for a snapshot that is not an object; otherwise the sum of the exchange amounts when it is finite and null when not; the coin total is always null |
| FetchWorker.ComputeDexCex | fetch-worker.js:708-727 | zeros for a snapshot that is not an object; otherwise the `BinanceF` amount is CEX, every other exchange's is DEX, and the combined value is their sum |
| FetchWorker.SplitSum | fetch-worker.js:690-698 | the DEX sum plus the CEX sum is the sum over all exchanges |
| FetchWorker.TotalsAgreeWithSplit | fetch-worker.js:683-727 | the snapshot total equals the combined DEX/CEX value whenever that is finite, and is null otherwise |
| FetchWorker.Count | fetch-worker.js:662-670 | counting a trade adds one trade to the record and keeps wins, losses and slip counts within the trades |
| FetchWorker.Find | fetch-worker.js:643 | the record of a token, if there is one, and none exactly when no record has that token |
| FetchWorker.AggregateTokenMetrics | fetch-worker.js:633-674 | the loops yield the records of the trade-by-trade fold |
| FetchWorker.RecordConsistent | fetch-worker.js:643-670 | counting a trade into a token's record keeps every record's counters consistent |
| FetchWorker.RecordDistinct | fetch-worker.js:643-660 | counting a trade into a token's record keeps one record per token |
| FetchWorker.FindSameTokens | fetch-worker.js:643 | records with the same tokens in the same places are searched alike |
| FetchWorker.RecordTokensConsistent | fetch-worker.js:642-671 | counting a trade for each of its tokens keeps every record consistent |
| FetchWorker.RecordTokensDistinct | fetch-worker.js:642-671 | counting a trade for each of its tokens keeps one record per token |
| FetchWorker.AggregateConsistent | fetch-worker.js:633-674 | the result has one record per token, and in each wins plus losses and every slip count stay within the trades counted |
| FetchWorker.RecordCounts | fetch-worker.js:662 | counting a trade for a token adds one to that token's trades and nothing to any other |
| FetchWorker.RecordTokensCounts | fetch-worker.js:642-671 | counting a trade for its tokens adds to each token the number of times it is listed |
| FetchWorker.TradesCounted | fetch-worker.js:633-674 | a token's record counts exactly the trades that list it, once per listing, and none for a trade without tokens |
| FetchWorker.Clamp01 | fetch-worker.js:456 | the clamped probability lies in [0, 1] and a probability already there is unchanged |
| FetchWorker.Round6 | fetch-worker.js:457 | `Number(x.toFixed(6))` of a probability is within half a millionth of it, never negative, and at most 1 when the probability is |
| FetchWorker.Round6Monotone | fetch-worker.js:457 | rounding to six decimals keeps the order of two probabilities |
| FetchWorker.Round6Complement | fetch-worker.js:457 | the rounded `1 − p` and rounded `p` add up to 1, or to 1.000001 when both round up on a tie |
| FetchWorker.RoundedPair | fetch-worker.js:457 | both halves of the reported pair lie in [0, 1], the second is within half a millionth of `p`, and they sum to 1 up to one tie step |
| FetchWorker.BuildLocalPredictResponse | fetch-worker.js:453-469 | one pair `[1 − p, p]` per run, each half rounded to six decimals, with `p` the clamped finite probability (0 when missing), both in [0, 1] and summing to 1 up to the rounding step; one prediction per run; the raw probability passed through exactly when there is one payload whose run reports a number |
| FetchWorker.DefaultPredictionMatchesProbability | fetch-worker.js:455-463 | a run without a numeric prediction predicts 1 only when its reported (rounded) probability is at least one half, and 0 only when it is at most one half |
| FetchWorker.Stored | fetch-worker.js:867 | `INSERT OR IGNORE` only ever adds ids |
| FetchWorker.StoreCompletedTrades | fetch-worker.js:798-884 | the stored ids grow by the batch, the inserted count is the number of ids that were new, and the alerts are those of the insert-then-alert fold |
| FetchWorker.AlertsForNewLowProfitTrades | fetch-worker.js:867-881 | alerts go only to trades this batch inserted whose profit is below the threshold, at most once per trade, and never without a notifier |
| MlAnalysis.Clean | public/ml-analysis.js:30-33 | a converted value is kept exactly when it is finite, otherwise null |
| MlAnalysis.Round | public/ml-analysis.js:221 | `Math.round`: the integer within half a unit, halves going up |
| MlAnalysis.ClampBaseline | public/ml-analysis.js:80-85 | a non-finite value is 0; a finite one below −99 is −99, above 99 is 99, and otherwise unchanged |
| MlAnalysis.ClampIdempotent | public/ml-analysis.js:80-85 | clamping a clamped value changes nothing |
| MlAnalysis.BucketOf | public/ml-analysis.js:221 | a diff's bucket is always in the band, is the rounded diff when that is in the band, and 0 for a non-finite diff |
| MlAnalysis.BucketIsClampedRound | public/ml-analysis.js:241 | the bucket is the clamp of the rounded diff |
| MlAnalysis.FiniteValues | public/ml-analysis.js:72 | exactly the finite values, in order |
| MlAnalysis.Ascending | public/ml-analysis.js:72 | the finite values sorted ascending, the same values as many times each |
| MlAnalysis.Median | public/ml-analysis.js:71-78 | null exactly when there is no finite value |
| MlAnalysis.MedianBounds | public/ml-analysis.js:71-78 | the median lies between the least and the greatest finite value |
| MlAnalysis.SortedUnique | public/ml-analysis.js:72 | two ascending sequences with the same values are equal, so the sort's result does not depend on the input order |
| MlAnalysis.MedianIgnoresOrder | public/ml-analysis.js:71-78 | the median depends only on which finite values occur and how often, not on their order |
| MlAnalysis.NearestUnique | public/ml-analysis.js:220-230 | at most one present bucket is the nearest (the lower one winning a tie) |
| MlAnalysis.GetContextForValue | public/ml-analysis.js:220-230 | with some in-band bucket present, the contexts of the nearest present in-band bucket to the value's bucket, the lower one at equal distance; otherwise the fallback |
| MlAnalysis.FindNearestIndex | public/ml-analysis.js:276-288 | −1 exactly for an empty range; otherwise the first index whose value is closest to the given one |
| MlAnalysis.FindBestIndex | public/ml-analysis.js:290-297 | −1 exactly for no values; otherwise the first index of the greatest value |
| MlAnalysis.FiledInBand | public/ml-analysis.js:240-258 | only in-band buckets receive contexts |
| MlAnalysis.FiledFromRows | public/ml-analysis.js:236-272 | each context in a bucket is the context of a row whose diff on that side falls in that bucket |
| MlAnalysis.File | public/ml-analysis.js:240-271 | filing one side of one row appends its context to its bucket and leaves the other buckets alone |
| MlAnalysis.BuildDiffContexts | public/ml-analysis.js:232-274 | each side's bucket holds, in row order, the contexts of exactly the rows whose finite diff on that side rounds and clamps to it; a bucket is present exactly when it holds something, and only in-band buckets are |
| MlAnalysis.Samples | public/ml-analysis.js:424-428 | the first ten contexts of the value's bucket, or the baselines alone when it has none; always one to ten samples |
| MlAnalysis.FeatureAsWritten | public/ml-analysis.js:441-446 | a present feature is sent as is; a missing one is sent as 0 |
| MlAnalysis.Feature | public/ml-analysis.js:441-446 | a present feature is sent as is; a missing one is sent as its baseline |
| MlAnalysis.MissingFeatureZeroed | public/ml-analysis.js:441-446 | with a nonzero baseline, a missing feature is sent as 0 where the baseline was meant |
| MlAnalysis.PayloadOf | public/ml-analysis.js:437-447 | the swept value on its own side and the configured diff on the other, `Diff` their difference; each context feature is filled from its value and baseline by the given rule |
| MlAnalysis.PayloadFallsBack | public/ml-analysis.js:437-447 | corrected: with the intended rule, each present context feature is sent as is and each missing one as its baseline |
| MlAnalysis.PayloadAsWrittenZeroes | public/ml-analysis.js:437-447 | as written: each present context feature is sent as is and each missing one as 0 |
| MlAnalysis.PayloadsAgreeOnFullContext | public/ml-analysis.js:437-447 | on a context with every feature present, the as-written and corrected payloads are equal |
| MlAnalysis.Batch | public/ml-analysis.js:435-449 | one payload per sample |
| MlAnalysis.BatchTagged | public/ml-analysis.js:435-449 | every payload of a swept value carries that value on its own side |
| MlAnalysis.SweepShape | public/ml-analysis.js:430-452 | payloads and tags line up one for one, between one and ten per swept value, each payload tagged with its own side and value |
| MlAnalysis.CreatePayloadsForRange | public/ml-analysis.js:430-452 | the nested loops yield the payloads and tags of every sample of every swept value, in order, under the given fill rule (the page as written uses `FeatureAsWritten`) |
| MlAnalysis.ComputeSeries | public/ml-analysis.js:501-505 | one point per swept value, in order, 0 for a value with no payloads |
| MlAnalysis.AccumulatedBounded | public/ml-analysis.js:483-499 | with probabilities in [0, 1] each value's sum lies between 0 and its count |
| MlAnalysis.SeriesIsProbability | public/ml-analysis.js:483-505 | with probabilities in [0, 1] every point of the series lies in [0, 1] |
| MlAnalysis.AppendBatch | public/ml-analysis.js:435-449 | one payload and one `{mode, value}` meta entry per context sample, appended in sample order after the existing ones |
| PredictClient.RequestBody | scripts/predict-ml-service.js:13-17 | the body carries the payloads and model path, and asks for probabilities unless the caller explicitly says no |
| PredictClient.Endpoint | scripts/predict-ml-service.js:18 | the caller's base URL, or the default when it is absent or empty, always followed by `/predict` |
| PredictClient.Cached | scripts/predict-ml-service.js:20-21 | a response is found exactly when its key is cached, and it is the response stored under that key |
| PredictClient.StoredBounded | scripts/predict-ml-service.js:35-40 | storing keeps keys distinct and never lets the cache exceed 50 entries |
| PredictClient.StoredFound | scripts/predict-ml-service.js:35-40 | a response just stored is what its key finds |
| PredictClient.CachedDistinct | scripts/predict-ml-service.js:20-21 | with distinct keys, every entry is what its key finds |
| PredictClient.StoredEvictsOldest | scripts/predict-ml-service.js:36-39 | storing into a full cache evicts exactly the oldest entry; every other key finds what it found before |
| PredictClient.CachedAppend | scripts/predict-ml-service.js:36 | appending an entry does not change what another key finds |
| PredictClient.Client.constructor | scripts/predict-ml-service.js:1-3 | the cache starts empty, with the default endpoint fixed |
| PredictClient.Client.Store | scripts/predict-ml-service.js:35-40 | storing appends the response and drops the oldest entry past 50, keeping the cache valid |
| PredictClient.Client.Predict | scripts/predict-ml-service.js:9-42 | a missing or empty batch is rejected without a request; with caching on a cached key answers without a request; a failing response is an error and is never cached; a successful one is returned and, with caching on, stored |

## Left out

- Database and file I/O are not modelled. This covers the Express routes and their SQL, the SQLite schema setup, `_read_frame` and `write_dataframe`, reading parquet and CSV files, and the manifest. Each component receives the rows those reads return.
- Network calls, polling and schedules are not modelled: axios polling, cron jobs, the HTTP request of the prediction client and the Telegram, Slack and e-mail transports. Their outcomes are parameters.
- Concurrency is not modelled: the lock around `MODEL_CACHE`, the throttled Etherscan queue and the worker-thread startup. The model cache and the notifier are used sequentially.
- Fitting, predicting and scoring models are not modelled: estimator construction, `build_pipeline`, the sklearn metrics, permutation importance and `save_artifacts`. A fitted pipeline and a fold's score are opaque values or parameters.
- Numerics and rounding are not modelled: rolling standard deviations and variances, which the z-score receives as an input; `computeSharpeRatio`, which uses a square root; floating-point rounding; `toFixed` bin labels.
- Modeling.Boundary: this is the exact integer `(i * (n - 1)) / (k + 1)`. The float rounding of `np.linspace` before the cast to `int` is not modelled.
- Config.DefaultSettings: `cv_gap_minutes` is a float in the source; the model takes a whole number of minutes, so a fractional gap such as 2.5 minutes is not modelled.
- ModelService.ModelCache.Load: `Path.resolve()` is the `resolve` parameter, which takes a spelling to its canonical path. How it treats `..` and symbolic links is not modelled, and nothing beyond being a function of the spelling is assumed about it.
- ExportDiff.PropValueOf: the execution mode is kept as the decoded value. The exporter stores `str(raw)`, and Python's text rendering of a value is not modelled.
- Strings.Lower: only ASCII letters are folded and only ASCII whitespace is trimmed. Unicode case folding and Unicode whitespace are not modelled.
- Timestamp parsing (`pd.to_datetime`, `Date.parse`) is not modelled. A time is either an integer or missing.
- GasConsumption.HourOf: the local time zone is a fixed offset parameter. Daylight-saving changes are not modelled.
- Reports.BuildReportTradeFilterClause: it states that placeholders and parameters agree, that the clause is empty exactly when no filter is active, and that a non-empty clause starts with ` WHERE `. It does not state the exact SQL text of every clause; the helpers beside it state each clause's shape.
- Notifications.Notifier.Notify: the serialised `details` and the creation time of a `notifications_log` row are not modelled. Only the rule, title, channel, status and message are kept.
- The dashboard's browser pages other than the diff-sweep helpers of `public/ml-analysis.js` are left out. They are DOM and chart code, and their small helpers duplicate the dashboard's own.
- The one-shot maintenance scripts, the root `train.py` and `predict.py`, and `scripts/market_analysis.py` are left out. They are file rewriting, module-level I/O or glue around model loading. `train.py`'s token parser is a different function from the loader's, and neither one stands in for the other here.
- `getMlServiceBaseUrl` in `fetch-worker.js` is not valid JavaScript as written (`replace(///$/, '')`), so it is left out.
- A trailing-duration holdout split and a run registry with a "latest" alias are not part of this model. `validation_holdout_days` appears only as a configuration default.
- DataLoading.DeriveToken: a missing `pair` or `curId` cell gives no token. When pandas holds that cell as NaN, `if not pair` lets it through (NaN is truthy) and `.split` raises AttributeError; a numeric cell raises the same way. The model does not raise there (data_loading.py:16-18 and 29-31).
- Features.SafeRatio: a zero `d + eps` gives an infinity, or NaN for `0 / 0`, in pandas. The model gives a missing value; infinities are not modelled.
- Frames.ToNumber: a timestamp cell gives a missing value. `pd.to_numeric` turns a datetime column into nanosecond integers instead.
- Sorting.SortBy: the sort is stable. pandas `sort_values` defaults to quicksort, which is not, so among rows with equal times the order, and the row `drop_duplicates` keeps, may differ from the model (Features.PrepareBalances, Features.PrepareGas, Features.ContractFeatures, Enrichment.RollingRows).
- Enrichment.ObsOf: a `serverId` or token cell that is not text counts as a missing group key, so the row rolls over an empty window. pandas would group a numeric key like any other.
- Enrichment.TradesOf: a time cell that is not a timestamp is read as time 0. After rolling this can only happen when the time column's name is also a rolled column's name.
- Enrichment.ContractsOf: a text `isError` cell is an error. `astype(int)` would parse integer text such as `"1"`.
- Enrichment.BalancesOf: a total that is not a number is read as missing, where pandas keeps the object value. Balance rows are sorted by their converted time; the source sorts the raw values before converting them (feature_engineering.py:108-109), which orders differently when the raw formats are mixed.
- Enrichment.GasOf: a gas or `is_low` cell that is not a number is read as missing, where pandas passes the value through.
- Enrichment.MergeFrame: the balance frame's own columns whose names start with `balanceDelta_` are kept by the source beside the computed deltas; the model keeps only the computed ones. `merge_asof` also raises when the trade and context times differ in time zone or resolution; times are integers here, so that failure is not modelled.
- Enrichment.RollFrame: the rolling standard deviation is the `std` parameter, and text-to-number and text-to-time conversion are the `parse` and `toTime` parameters.
- Notifications.Take: the length is counted in characters. JavaScript's `slice` counts UTF-16 code units, so text outside the Basic Multilingual Plane is cut differently.

## Findings

| source | as written | input that shows it | evidently intended | confidence | as-written member | corrected member |
|---|---|---|---|---|---|---|
| ml_pipeline/feature_engineering.py:145-147 | The one-hour error count is computed on the time-sorted rows, and its index is reset to 0..n-1. It is then assigned back to a frame whose row labels are still the pre-sort ones, so the counts are aligned by label, not by sorted position. | Two contract rows listed out of time order: a clean row two hours later first, then an error at time 0. The clean row is credited with the error, and the erroneous row with none. | Each row's `errorCount1h` counts the errors in the hour up to and including that row. | not executed | Features.ContractFeaturesAsWritten, Features.ContractCountMisaligned | Features.ContractFeatures, Features.ContractCountAligned |
| scripts/export_diff_dataset.py:197 | `trades.get("hedge", 0).fillna(0)` falls back to the plain integer 0 when the table has no `hedge` column. An integer has no `fillna`, so the export raises. | A trades table without a `hedge` column. | A missing `hedge` column yields `isHedged` 0 on every row. | not executed | ExportDiff.IsHedgedAsWritten, ExportDiff.HedgeColumnMissingFails | ExportDiff.IsHedged |
| public/ml-analysis.js:441-446 | `cleanNumber(context.X) ?? baseline` is applied to context values that are already `cleanNumber` output. A missing value is stored as `null`, and `Number(null)` is 0, so the baseline is never used. | A context row without `DexSlip` and a nonzero baseline: the payload carries 0, not the baseline. | A missing context value falls back to the baseline. | not executed | MlAnalysis.FeatureAsWritten, MlAnalysis.MissingFeatureZeroed, MlAnalysis.PayloadAsWrittenZeroes | MlAnalysis.Feature, MlAnalysis.PayloadFallsBack |
