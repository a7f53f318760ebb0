# regime-forecast-lite, modelled in Dafny

regime-forecast-lite is an online forecaster for one numeric series. Each tick
goes through an exponentially weighted feature extractor. The `Pipeline`
turns the EWMA mean into the next forecast and picks a regime (`calm` or
`volatile`) by comparing the EWMA standard deviation with a threshold. It
builds a symmetric interval from bounded deques of past absolute residuals.
It also keeps an insertion-ordered map of pending forecasts. The HTTP service
uses that map to match realized values ("truths") to forecasts, by
prediction id or by a (series, target timestamp) key, idempotently and
possibly before the forecast exists. Around this core sit:

- a separate conformal calibrator with decaying weights;
- a dwell-based model router;
- a z-score change detector;
- three forecasting backends (EWMA, gradient boosting, SARIMAX);
- the backtest runner and its metrics;
- configuration resolution;
- two small script helpers.

The model has one Dafny module per source file, plus two modules of shared
helpers:
- `Common`: Python's `int()`, clamping, and `deque(maxlen=...)` as `Last`/`PushBounded`.
- `Sorting`: `sorted` as a stable insertion sort, minimum and maximum, and string order.

Floats are `real`. `math.sqrt` is a function parameter that is only known to
give non-negative results and `sqrt(0) = 0`. The fitting libraries
(xgboost, scikit-learn, statsmodels) are oracles: whether a fit, an append
or a prediction raises, and what it predicts, are parameters.
The request time, `uuid4` values and the filesystem are parameters as well.

Where the source mutates objects, the model has classes:
- `Pipeline`, `OnlineConformal`, `FeatureExtractor`, `Router`, `Bocpd`;
- the service `App`;
- the three forecasters.

Their methods are proved against pure specification functions
(`PredictionFor`, `ApplyTruth`, `Register`, `Learn`, `AfterUpdate`, `Step`,
`TruthStep`, `EnterStep`, ...). The properties the source promises are
proved about those functions as lemmas.

## Model

| member | source | states |
|---|---|---|
| `Common.Abs` | core/conformal.py:88 | `abs` is non-negative and equals `x` or `-x` |
| `Common.Max` | core/conformal.py:118 | `max` of two reals is at least both and is one of them |
| `Common.Min` | core/conformal.py:19 | `min` of two reals is at most both and is one of them |
| `Common.Clamp` | core/features.py:48 | `max(lo, min(x, hi))` lies in `[lo, hi]` and is `x` itself when `x` is already inside |
| `Common.CfgGet` | core/pipeline.py:41 | `cfg.get(key, default)`: the stored value when the key is present, the default otherwise |
| `Common.Trunc` | core/conformal.py:18 | `int()` truncates toward zero: the floor for `r >= 0`, the ceiling for `r < 0` |
| `Common.Last` | core/conformal.py:68 | the contents of a `deque(maxlen=k)` fed a history: at most `k` elements and at most the history, with one of the two bounds reached |
| `Common.LastSuffix` | core/conformal.py:68-69 | a bounded deque holds a suffix of its history: all of it when it fits, otherwise exactly the last `k` values |
| `Common.LastIndex` | core/conformal.py:68-69 | element `i` of a bounded deque is the history element `len(history) - len(deque) + i` |
| `Common.PushBoundedShape` | core/conformal.py:90-91 | `append` on a deque holding at most `maxlen` items: a full deque drops its oldest element, a non-full one grows by one, the new value is newest, and `maxlen = 0` stays empty |
| `Common.PushBoundedNewest` | core/pipeline.py:82 | with `maxlen > 0` an appended value is the deque's last element, whatever the deque held |
| `Common.PushAfterLast` | core/pipeline.py:82 | appending to the last `k` values of a history gives the last `k` values of the extended history |
| `Common.MulNonNeg` | core/conformal.py:26 | a product of non-negative reals is non-negative (the sum of squared weights is non-negative) |
| `Common.MulSucc` | backtest/metrics.py:11 | `e * (n + 1) == e * n + e`, used to bound error sums term by term |
| `Common.SignKept` | core/conformal.py:77 | multiplying by a positive factor keeps the sign: decayed weights stay non-negative |
| `Common.ScaleAtMost` | core/conformal.py:39 | a fraction in `[0, 1]` of a non-negative total lies between 0 and the total |
| `Common.LerpBetween` | core/conformal.py:21 | `a*(1-w) + b*w` with `w` in `[0, 1]` and `a <= b` lies in `[a, b]` |
| `Sorting.Insert` | core/conformal.py:16 | inserting one element gives a sequence one longer holding exactly the old elements and the new one |
| `Sorting.Sort` | core/conformal.py:16 | `sorted` returns a permutation of its input |
| `Sorting.InsertSorted` | core/conformal.py:16 | under a total preorder, inserting into an ordered sequence keeps it ordered |
| `Sorting.SortSorted` | core/conformal.py:16 | under a total preorder, the result of `sorted` is ordered |
| `Sorting.SortReals` | core/conformal.py:16 | `sorted(vals)` on reals: a permutation of `vals` in ascending order |
| `Sorting.InPermutation` | core/conformal.py:16 | every element of a permutation occurs in the original |
| `Sorting.SeqMin` | core/conformal.py:13 | `min(vals)` is an element of `vals` and no element is smaller |
| `Sorting.SeqMax` | core/conformal.py:15 | `max(vals)` is an element of `vals` and no element is larger |
| `Sorting.BetweenExtremes` | core/conformal.py:16-21 | every element of a permutation lies between the minimum and the maximum of the original |
| `Sorting.AscendingEnds` | scripts/latency_bench.py:11 | an ascending permutation has the original's length, starts with its minimum and ends with its maximum |
| `Sorting.AscendingFirst` | scripts/latency_bench.py:11 | an ascending permutation starts with the minimum |
| `Sorting.AscendingLast` | scripts/latency_bench.py:11 | an ascending permutation ends with the maximum |
| `Sorting.SortPairs` | core/conformal.py:35 | `sorted` on `(value, weight)` tuples: a permutation, ordered by value |
| `Sorting.StrLeTotal` | models/xgb.py:27 | Python's lexicographic string order is total |
| `Sorting.StrLeTransitive` | models/xgb.py:27 | Python's string order is transitive |
| `Sorting.StrLeAntisymmetric` | models/xgb.py:27 | Python's string order is antisymmetric |
| `Sorting.LeastString` | models/xgb.py:27 | a non-empty set of names has a least name, which this lemma returns |
| `Sorting.LeastStringExists` | models/xgb.py:27 | a non-empty set of names has a least name |
| `Sorting.LeastUnique` | models/xgb.py:27 | the least name of a non-empty set is unique |
| `Sorting.SortedKeysSpec` | models/xgb.py:27 | `sorted(feats.keys())` lists every key exactly once, in strictly increasing string order |
| `Sorting.LeastFirst` | models/xgb.py:27 | the least name followed by the others in strictly increasing order is itself strictly increasing |
| `Conformal.Position` | core/conformal.py:17 | `pos = q * (n - 1)` lies in `[0, n - 1]` for `q` in `[0, 1]` |
| `Conformal.Interpolated` | core/conformal.py:16-21 | the interpolated order statistic of an ascending sequence lies between its first and last element |
| `Conformal.UnweightedQuantile` | core/conformal.py:7-21 | `_unweighted_quantile`: 0 for no values, `min` for `q <= 0`, `max` for `q >= 1`, and always between `min` and `max` |
| `Conformal.SumSquares` | core/conformal.py:26 | the sum of squared weights is non-negative |
| `Conformal.EffectiveN` | core/conformal.py:24-27 | `_effective_n` is non-negative and is 0 when the squared weights sum to 0 |
| `Conformal.SumsOfOnes` | core/conformal.py:25-26 | for unit weights both `sum(w)` and `sum(w*w)` equal the number of weights |
| `Conformal.EffectiveNOfUnitWeights` | core/conformal.py:24-27 | with undecayed (unit) weights the effective sample size is the buffer length |
| `Conformal.PositivePairs` | core/conformal.py:35 | the zipped pairs keep only positive weights, are no longer than either input, and take their values from `vals` |
| `Conformal.SortedPositive` | core/conformal.py:35 | the sorted positive pairs have positive weights, values from `vals`, and ascend by value |
| `Conformal.FirstReaching` | core/conformal.py:40-44 | the scan for the first accumulated weight reaching the cutoff stops between its start and the end of the pairs |
| `Conformal.QuantileIndex` | core/conformal.py:39-44 | the stopping index of the accumulation loop is at most the number of pairs |
| `Conformal.Cutoff` | core/conformal.py:39 | `cutoff = q * total` is at most the total weight for `q` in `[0, 1]` |
| `Conformal.FirstReachingIsFirst` | core/conformal.py:40-44 | where the loop returns, the accumulated weight has reached the cutoff, and at every earlier pair it had not |
| `Conformal.CutoffReached` | core/conformal.py:41-45 | when the cutoff is at most the total weight, the loop returns inside it and never falls through to `pairs[-1]` |
| `Conformal.ScaledBelowWhen` | core/conformal.py:39 | `q * total <= total` for `q <= 1` and a non-negative total |
| `Conformal.QuantileIndexIsFirstReaching` | core/conformal.py:39-44 | with positive total weight and `q` in `[0, 1]`, the returned index is the first at which the accumulated weight reaches `q * total` |
| `Conformal.WeightedQuantileIsFirstReaching` | core/conformal.py:30-45 | the weighted quantile is the value of that first-reaching pair, and so one of the residuals |
| `Conformal.WeightedQuantile` | core/conformal.py:30-45 | the loop of `_weighted_quantile` returns the value its specification defines, with 0 for empty input or zero total weight |
| `Conformal.RadiusNonNegative` | core/conformal.py:107-127 | `_q_for` gives a non-negative half-width for non-negative residuals and a non-negative cold scale or hint |
| `Conformal.RadiusUnitWeightsSmallBuffer` | core/conformal.py:113-118 | with undecayed weights and fewer than 30 residuals, the half-width is `max` of the unweighted quantile and the cold scale |
| `Conformal.RadiusGlobalFloor` | core/conformal.py:120-127 | on the weighted path the half-width is the larger of the regime's weighted quantile and the global unweighted quantile |
| `Conformal.SmallRegimeBufferSkipsGlobalFloor` | core/conformal.py:113-127 | the "hard global floor" only applies on the weighted path: a one-residual regime buffer gives 0.01 even when every global residual is 10 |
| `Conformal.RadiusFor` | core/conformal.py:107-127 | the `_q_for` code returns the half-width its specification defines |
| `Conformal.IntervalsFor` | core/conformal.py:129-139 | one band per requested alpha when `alphas_multi` is given, otherwise a single band, each `y_hat ± q` |
| `Conformal.IntervalContainsForecast` | core/conformal.py:131-139 | every band contains `y_hat` and is symmetric around it; a single band exactly when no alphas are given, and otherwise one entry per alpha in order |
| `Conformal.LearnKeepsBuffersParallel` | core/conformal.py:74-97 | one update keeps a residual deque and its weight deque the same length within the window, appends the residual with weight 1, and decays the retained weights |
| `Conformal.Buffers.Ensure` | core/conformal.py:82-85 | `_buffers_for` creating a regime's deques changes no buffer's contents and makes the regime present in both maps |
| `Conformal.Buffers.With` | core/conformal.py:94-97 | replacing one buffer leaves every other buffer unchanged |
| `Conformal.LearnIntoKeepsValid` | core/conformal.py:89-97 | learning into one buffer keeps every buffer well formed and leaves the other buffers unchanged |
| `Conformal.EnsureKeepsValid` | core/conformal.py:82-85 | creating a regime's buffers keeps every buffer well formed |
| `Conformal.UpdateKeepsValid` | core/conformal.py:87-97 | `update` keeps every buffer well formed |
| `Conformal.UpdateAppendsResidual` | core/conformal.py:87-97 | after `update` the residual is the newest in the global buffer and in the selected buffer, and other regimes are untouched |
| `Conformal.OnlineConformal.constructor` | core/conformal.py:56-72 | a new calibrator keeps its settings and starts with empty buffers |
| `Conformal.OnlineConformal.BufferFor` | core/conformal.py:79-81 | a regime buffer is used exactly when per-regime buffers are on and the label is non-empty, and it is that label's buffer |
| `Conformal.OnlineConformal.DecayWeights` | core/conformal.py:74-77 | `_decay` multiplies every weight by `decay` when `decay < 1` and leaves the weights alone otherwise |
| `Conformal.OnlineConformal.BuffersFor` | core/conformal.py:79-85 | `_buffers_for` selects the buffer and creates a missing regime's buffers, keeping every buffer well formed |
| `Conformal.OnlineConformal.LearnInto` | core/conformal.py:95-97 | decay then append to one buffer's deques |
| `Conformal.OnlineConformal.Update` | core/conformal.py:87-97 | `update` learns `|y_true - y_hat|` into the global buffer and, when per-regime buffers are on, into the regime's buffer |
| `Conformal.OnlineConformal.Interval` | core/conformal.py:99-139 | `interval` returns the bands for the selected buffer, with the hint replacing the cold scale when given; its only effect is creating a missing regime buffer |
| `OnlinePipeline.PercentileIndex` | core/pipeline.py:24-25 | the index `int((n - 1) * q)` after clamping `q` is a valid index: 0 for `q <= 0` and the last for `q >= 1` |
| `OnlinePipeline.Scaled` | core/pipeline.py:25 | `(n - 1) * q` with `q` in `[0, 1]` lies between 0 and `n - 1`, reaching each end at `q = 0` and `q = 1` |
| `OnlinePipeline.Percentile` | core/pipeline.py:21-26 | `_percentile` is 0 for an empty list and otherwise an element of the list: the first for `q <= 0`, the last for `q >= 1` |
| `OnlinePipeline.PercentileMonotone` | core/pipeline.py:21-26 | on a sorted list the percentile is monotone in `q` and stays between the first and last element |
| `OnlinePipeline.Without` | core/pipeline.py:74 | `pending.pop(pred_id, None)` removes exactly the entries with that id, keeps all others, and changes nothing when the id is absent |
| `OnlinePipeline.Lookup` | core/pipeline.py:87 | the lookup finds a value exactly when the id is pending, and the value found is stored under that id |
| `OnlinePipeline.WithoutDistinct` | core/pipeline.py:74 | removing an id keeps the pending ids distinct |
| `OnlinePipeline.LookupDistinct` | core/pipeline.py:87 | with distinct ids the lookup returns the forecast and regime stored under the id |
| `OnlinePipeline.AppendFreshDistinct` | core/pipeline.py:67-68 | appending an entry whose id is not pending keeps the ids distinct |
| `OnlinePipeline.LastDistinct` | core/pipeline.py:69-70 | evicting the oldest entries keeps the ids distinct |
| `OnlinePipeline.Register` | core/pipeline.py:66-70 | `register_prediction` leaves at most `pending_cap` entries and, with a positive cap, the new entry is the newest |
| `OnlinePipeline.RegisterSpec` | core/pipeline.py:66-70 | registering keeps ids distinct and within the cap, makes the new forecast retrievable by its id, and every other entry kept was pending before under another id |
| `OnlinePipeline.RegisterDistinct` | core/pipeline.py:66-70 | registering keeps the pending ids distinct |
| `OnlinePipeline.RegisterKeepsOthers` | core/pipeline.py:67-70 | registering never invents entries: any entry other than the new one was pending and has a different id |
| `OnlinePipeline.RegisterEvictsOldest` | core/pipeline.py:66-70 | re-registering an id moves it to the end, and only the oldest entries are evicted to get back to `pending_cap` |
| `OnlinePipeline.ApplyTruth` | core/pipeline.py:86-92 | `update_truth_by_id` reports whether the id was pending, changes nothing when it was not, and never leaves the id pending |
| `OnlinePipeline.ApplyTruthHit` | core/pipeline.py:86-92 | for a pending id it removes the entry and learns `|y - y_hat|` into the global deque and the stored regime's deque |
| `OnlinePipeline.ApplyTruthKeepsInv` | core/pipeline.py:86-92 | applying a truth keeps ids distinct, never grows the pending map, and keeps every residual deque within `maxlen` with the same regimes |
| `OnlinePipeline.LearnSpec` | core/pipeline.py:76-84 | `_learn_residual` appends the residual to the global deque (dropping the oldest when full) and to the named regime's deque only when the regime is a known non-empty name, leaving every other deque and the regime names unchanged |
| `OnlinePipeline.PredictionSteps` | core/pipeline.py:117-142 | the forecast computed step by step (regime buffer percentile, global percentile, the degraded fallback below 30 residuals) is the one its specification defines |
| `OnlinePipeline.EmptyPercentile` | core/pipeline.py:128-129 | an empty buffer contributes a radius of 0 |
| `OnlinePipeline.PredictionSpec` | core/pipeline.py:117-161 | the forecast is the EWMA mean; the interval is symmetric with radius `max(r_reg, r_glob)` and contains the forecast for non-negative residuals; degraded exactly when the regime buffer has fewer than 30 residuals and the global radius is larger; the regime is `volatile` exactly when `std >= vol_th`; the score lies in `[0, 1]` |
| `OnlinePipeline.Records` | core/pipeline.py:170-173 | the snapshot lists one record per pending entry, in order |
| `OnlinePipeline.RestoredBounded` | core/pipeline.py:178-183 | the restored deques are within `maxlen` and have exactly the regimes `calm` and `volatile` |
| `OnlinePipeline.RegisterAllFresh` | core/pipeline.py:184-191 | re-registering saved records with distinct non-empty ids within the cap rebuilds the pending entries in order |
| `OnlinePipeline.SnapshotRoundTrip` | core/pipeline.py:166-192 | `from_state(state_dict())` restores the same residual deques and the same pending entries, for non-empty distinct ids within the cap |
| `OnlinePipeline.EmptyIdLostOnRestore` | core/pipeline.py:184-186 | a pending entry with the empty id is dropped by the restore (`if pid:`) |
| `OnlinePipeline.Pipeline.constructor` | core/pipeline.py:38-63 | every setting is read from the config with its default (`ewma_alpha` 0.1, `min_warmup` 20, `conformal_q` 0.9, `conformal_maxlen` 2000, `pending_cap` 4096, `regime_vol_threshold` 0.01); the deques, the pending map and the last forecast start empty |
| `OnlinePipeline.Pipeline.RegisterPrediction` | core/pipeline.py:66-70 | the pending map becomes `Register` of the old map, and nothing else changes |
| `OnlinePipeline.Pipeline.EvictPrediction` | core/pipeline.py:72-74 | the pending map loses the id, and the invariant is kept |
| `OnlinePipeline.Pipeline.LearnResidual` | core/pipeline.py:76-84 | the deques become `Learn` of the old deques with `|y_true - y_hat|` |
| `OnlinePipeline.Pipeline.UpdateTruthById` | core/pipeline.py:86-92 | the result, the pending map and the deques are those of `ApplyTruth` on the old state |
| `OnlinePipeline.Pipeline.UpdateTruth` | core/pipeline.py:95-106 | with an id it defers to `update_truth_by_id`; without one it learns against the last forecast and its regime, or does nothing before the first forecast, and leaves the pending map alone |
| `OnlinePipeline.Pipeline.Process` | core/pipeline.py:109-163 | `process` feeds `x` (0.0 when `None` or NaN) to the extractor, returns `PredictionFor` the new mean and standard deviation, remembers the forecast and regime, and leaves the deques and pending map unchanged |
| `OnlinePipeline.Pipeline.Predict` | core/pipeline.py:117-142 | the code that builds the forecast from the deques returns `PredictionFor` the current state |
| `OnlinePipeline.Pipeline.StateDict` | core/pipeline.py:166-174 | `state_dict` is the snapshot of the deques and the pending entries |
| `OnlinePipeline.Pipeline.Restore` | core/pipeline.py:176-192 | `from_state` on a fresh pipeline: deques restored to their last `maxlen` saved values, pending entries re-registered in order |
| `OnlinePipeline.Pipeline.RestoreResiduals` | core/pipeline.py:179-183 | the saved global, `calm` and `volatile` values are appended to the deques |
| `OnlinePipeline.Pipeline.RestorePending` | core/pipeline.py:184-191 | every saved record with a non-empty id is registered in order; nothing else changes |
| `Service.AuthOk` | service/app.py:49-52 | with no service token every request passes; otherwise exactly the header `Bearer <token>` passes |
| `Service.RateKeysSeparate` | service/app.py:54-59 | different non-empty authorization headers get different rate buckets, and a request with one never shares a bucket with a request keyed by host |
| `Service.RateStepSpec` | service/app.py:61-70 | a new key starts with a full bucket; refilling never exceeds `burst` and never loses tokens; a request is allowed exactly when at least one token is available, which it then consumes; the bucket's clock moves to `now` |
| `Service.BucketStaysInRange` | service/app.py:61-70 | the bucket's tokens stay within `[0, burst]` |
| `Service.RunBucket` | service/app.py:61-70 | no requests leave the bucket unchanged and allow nothing |
| `Service.NonDecreasingTail` | service/app.py:62 | the tail of a non-decreasing sequence of request times is non-decreasing |
| `Service.RateStepGain` | service/app.py:63-70 | one request uses at most the tokens held plus `rps` times the time since the last request |
| `Service.ChainBounds` | service/app.py:63-70 | two consecutive token budgets add up |
| `Service.RunBucketBound` | service/app.py:61-70 | over any run of requests, the allowed count plus the tokens left never exceed the initial tokens plus `rps` times the elapsed time |
| `Service.FirstValue` | service/app.py:320-327 | the truth value is the first of `y`, `y_true`, `value` that is given, and is missing only when all three are |
| `Service.SeriesOf` | service/app.py:251 | the series id `predict` uses is never empty and has no whitespace at either end; without a given id it is `default` |
| `Service.SeriesOfStripped` | service/app.py:251 | a given series id is used stripped, or is `default` when it is all whitespace; an id without whitespace at its ends is kept as given |
| `Service.TrimStart` | service/app.py:251 | the leading half of `strip`: a suffix of the input that does not start with a stripped character, everything dropped being stripped characters |
| `Service.TrimEnd` | service/app.py:251 | the trailing half of `strip`: a prefix of the input that does not end with a stripped character, everything dropped being stripped characters |
| `Service.Strip` | service/app.py:251 | `strip` returns a string no longer than the input that neither starts nor ends with a stripped character |
| `Service.StripSlice` | service/app.py:251 | `strip` keeps a slice of the input, and everything before and after that slice is stripped characters |
| `Service.StripEmpty` | service/app.py:251 | `strip` gives the empty string exactly when every character is stripped |
| `Service.StripTrimmed` | service/app.py:251 | a string whose first and last characters are not stripped is its own `strip` |
| `Service.StripPadded` | service/app.py:251 | one stripped character on each side of a kept one is removed |
| `Service.PaddedSeriesIds` | service/app.py:251 | the series id `" a "` becomes `"a"`, and `"  "` becomes `"default"` |
| `Service.TargetOf` | service/app.py:252 | the target timestamp is the given one, or the tick's timestamp |
| `Service.ApplyById` | service/app.py:338 | applying a truth by id succeeds exactly when the id is pending, changes nothing otherwise, and touches only the pipeline's state |
| `Service.MatchedId` | service/app.py:329-358 | a given prediction id is used as is; otherwise an id is found only through the `(series_id, target_timestamp)` mapping |
| `Service.TruthStepOutcomes` | service/app.py:311-367 | `/truth`: 422 without a value; 404 or 422 as the only failures; a failure or an idempotent repeat changes nothing; a queued truth only records the early value under its key; a fresh match applies the truth |
| `Service.TruthStepFreshMatch` | service/app.py:334-362 | a non-idempotent match applies the truth to the pending forecast and marks both its id and its key as applied |
| `Service.FreshMatchById` | service/app.py:334-346 | a pending, not yet applied prediction id is matched freshly |
| `Service.FreshMatchByKey` | service/app.py:352-362 | a key not yet applied whose mapped id is pending is matched freshly |
| `Service.RepeatTruthIsIdempotent` | service/app.py:334-355 | sending the same matched truth again reports an idempotent match and changes nothing |
| `Service.ApplyByIdKeepsInv` | service/app.py:338-345 | applying a truth by id keeps the pending ids distinct, within the cap, never applied before, and the residual deques bounded |
| `Service.TruthStepKeepsInv` | service/app.py:311-367 | every `/truth` request keeps that invariant |
| `Service.EnterStepKeepsInv` | service/app.py:283-293 | the bookkeeping of `/predict` keeps that invariant for a new prediction id |
| `Service.EnrolledKeepsInv` | service/app.py:284-286 | registering a new prediction and its key mappings keeps that invariant |
| `Service.SettledKeepsInv` | service/app.py:290-293 | applying an early truth keeps that invariant |
| `Service.EarlyTruthAppliedAtPredict` | service/app.py:365-367 | a truth queued before its forecast is learned when the forecast arrives, against that forecast and its regime; the key and id are marked applied and nothing stays queued or pending for them |
| `Service.SettleEnrolled` | service/app.py:284-293 | settling a just-registered prediction learns its residual and marks its key and id as applied |
| `Service.ApplyByIdFound` | service/app.py:338 | a pending id's truth removes it from the pending map and learns the residual against the stored forecast and regime |
| `Service.App.constructor` | service/app.py:37-46 | the service starts with a fresh pipeline from the config, no rate buckets, no key mappings, no early truths and nothing applied |
| `Service.App.AllowRate` | service/app.py:61-70 | `_allow_rate` answers and stores the bucket as `RateStep` prescribes |
| `Service.App.Guard` | service/app.py:72-82 | the middleware rejects unauthorized requests untouched, passes other paths untouched, and rate-limits `/predict` and `/truth` by their key |
| `Service.App.Predict` | service/app.py:245-309 | `/predict` feeds the tick, returns the pipeline's forecast with the stripped series id (`SeriesOf`) and the target, and updates the ledger as `EnterStep` prescribes |
| `Service.App.Enter` | service/app.py:283-293 | the locked block of `/predict` updates the ledger as `EnterStep` prescribes |
| `Service.App.Enrol` | service/app.py:284-289 | registration and key mappings update the ledger as `Enrolled` prescribes |
| `Service.App.Settle` | service/app.py:290-293 | applying an early truth updates the ledger as `Settled` prescribes |
| `Service.App.Truth` | service/app.py:311-367 | `/truth` returns and updates the ledger as `TruthStep` prescribes |
| `Service.App.TruthById` | service/app.py:334-346 | the prediction-id branch of `/truth` behaves as `TruthStep` prescribes |
| `Service.App.TruthByKey` | service/app.py:348-367 | the series-key branch of `/truth` behaves as `TruthStep` prescribes |
| `Backtest.CpTrue` | backtest/runner.py:50 | `cp_true` is the tick's `cp`, else its `is_cp`, else 0 |
| `Backtest.Entry` | backtest/runner.py:52-65 | a log row pairs the current tick's time and value with the previous forecast, its interval, regime and score (also reported as `cp_prob`) and the previous latency |
| `Backtest.Pairs` | backtest/runner.py:44 | `n` ticks give `n - 1` scored pairs, and none for an empty stream |
| `Backtest.Truths` | backtest/runner.py:45 | the scored truths are the values of ticks 1 to `n - 1` |
| `Backtest.Forecasts` | backtest/runner.py:46 | the scored forecasts are those made at ticks 0 to `n - 2` |
| `Backtest.Lows` | backtest/runner.py:47 | the scored lower bounds are those of the forecasts at ticks 0 to `n - 2` |
| `Backtest.Highs` | backtest/runner.py:48 | the scored upper bounds are those of the forecasts at ticks 0 to `n - 2` |
| `Backtest.Aligned` | backtest/runner.py:37-71 | after `n` ticks the log has `n - 1` rows, row `j` pairing tick `j + 1` with forecast `j` |
| `Backtest.AlignedNext` | backtest/runner.py:44-71 | one pass of the loop body (record when a previous forecast exists) extends the aligned series by one tick |
| `Backtest.AlignedStep` | backtest/runner.py:44-65 | the first tick records nothing; every later tick appends the row for the previous forecast |
| `Backtest.AlignedAll` | backtest/runner.py:44-48 | at the end the four scored lists are exactly the truths, forecasts, lower and upper bounds of the aligned pairs |
| `Backtest.ScoresOf` | backtest/runner.py:73-81 | the metrics: coverage in `[0, 1]`, sMAPE in `[0, 2)`, non-negative MAE and RMSE, and p50 latency at most p95 |
| `Backtest.Calibration` | backtest/runner.py:38-39 | the residuals the runner teaches the pipeline: entry `j` is `|truth j - forecast j|` with forecast `j`'s regime |
| `Backtest.LearnAllBounded` | backtest/runner.py:38-39 | learning a run of residuals keeps every deque within `maxlen` and keeps the regime names |
| `Backtest.CalibrationExtend` | backtest/runner.py:38-39 | learning the first `i` residuals is learning the first `i - 1` and then residual `i - 1` |
| `Backtest.CalibrationStable` | backtest/runner.py:38-39 | a later forecast does not change the residuals already learned |
| `Backtest.Values` | backtest/runner.py:41 | the values fed to the pipeline are the ticks' `x`, in order |
| `Backtest.MomentsStep` | backtest/runner.py:41 | feeding one more tick updates the EWMA moments by one step |
| `Backtest.TruthsFed` | backtest/runner.py:38-39 | there is a truth for every scored pair |
| `Backtest.Run` | backtest/runner.py:24-81 | `run` as written: log row `j` pairs tick `j + 1` with forecast `j`, the metrics are `ScoresOf` those pairs, each forecast is the EWMA mean of the values so far, the deques learn `|x_(j) - forecast j|` (the value the forecast already absorbed), the pending map is untouched; every logged latency is 0.0 and so are both latency percentiles |
| `Backtest.RunCorrected` | backtest/runner.py:24-81 | the same loop teaching each forecast the next tick's value: the learned residuals are exactly the scored errors `|truth j - forecast j|`; the latencies are 0.0 as in `run` |
| `Backtest.NoLatency` | backtest/runner.py:42 | the latency read for every tick is the default 0.0, since the prediction has no `latency_ms` field |
| `Backtest.NoLatencyScores` | backtest/runner.py:79-81 | with every latency 0.0, `latency_p50_ms` and `latency_p95_ms` are 0.0 |
| `Backtest.Score` | backtest/runner.py:73-81 | the metric block computes `ScoresOf` the aligned pairs |
| `Backtest.Replay` | backtest/runner.py:37-71 | the loop yields the aligned series, one forecast per tick with the EWMA mean of the values so far, and the pipeline state its truths lead to |
| `Backtest.LoopingStarts` | backtest/runner.py:33-35 | the loop invariant holds before the first tick |
| `Backtest.TruthFedAt` | backtest/runner.py:38-39 | the truth fed at tick `i` is `x_(i - 1)` as written and `x_i` when corrected |
| `Backtest.MeansExtend` | backtest/runner.py:41 | a new forecast equal to the EWMA mean of one more value extends the record of forecasts |
| `Backtest.Advance` | backtest/runner.py:38-71 | one loop iteration keeps the loop invariant |
| `Backtest.LoopingNext` | backtest/runner.py:67-71 | the loop's bookkeeping of the previous tick, forecast and latency re-establishes the invariant |
| `Backtest.Turn` | backtest/runner.py:38-41 | feeding the truth then processing the tick extends the replayed state by one forecast, the EWMA mean of the values so far |
| `Backtest.TurnTruth` | backtest/runner.py:38-39 | the truth step learns one more calibration residual and leaves the pending map alone |
| `Backtest.TruthLearned` | backtest/runner.py:38-39 | learning residual `i - 1` after the first `i - 1` gives the first `i` residuals |
| `Backtest.Feedback` | backtest/runner.py:38-39 | `update_truth(y)` without an id learns `|y - last forecast|` under the last regime, or nothing before the first forecast |
| `Backtest.Forecast` | backtest/runner.py:41 | `process` forecasts the new EWMA mean and remembers it, leaving the deques and the pending map unchanged |
| `Backtest.InSampleResiduals` | backtest/runner.py:38-41 | as written, each learned residual after the first is `(1 - alpha)` times the scored error of the previous pair, not that pair's own error |
| `Backtest.ForecastsChain` | backtest/runner.py:41 | each forecast is the EWMA blend of the new value and the previous forecast |
| `Backtest.EwmaGap` | core/features.py:61 | the distance from a value to its EWMA blend with `p` is `(1 - alpha)` times its distance to `p` |
| `Backtest.InSampleCounterexample` | backtest/runner.py:38-39 | for the ticks 0.0 then 1.0 the runner learns the residual 0 while the scored error is 1; the corrected calibration learns 1 |
| `Metrics.Zip` | backtest/metrics.py:11 | `zip(..., strict=False)` stops at the shorter input and pairs equal positions |
| `Metrics.ScaleMonotone` | backtest/metrics.py:11 | multiplying by a non-negative factor keeps order |
| `Metrics.DivAtMost` | backtest/metrics.py:11 | a sum of at most `k <= n` terms each at most `b`, divided by `n`, is at most `b` |
| `Metrics.DivBelow` | backtest/metrics.py:28 | a sum below `b * n`, divided by `n`, is below `b` |
| `Metrics.AbsErrSum` | backtest/metrics.py:11 | the sum of absolute errors is non-negative |
| `Metrics.AbsErrSumZero` | backtest/metrics.py:11 | the sum of absolute errors is 0 exactly when every pair agrees |
| `Metrics.AbsErrSumAtMost` | backtest/metrics.py:11 | if every absolute error is at most `e`, the sum is at most `e` times the number of pairs |
| `Metrics.TimesIsProduct` | backtest/metrics.py:11 | adding `e` to itself `n` times gives `e * n` |
| `Metrics.AbsErrSumAtMostTimes` | backtest/metrics.py:11 | the same bound as a repeated sum |
| `Metrics.Mae` | backtest/metrics.py:7-11 | `mae` is 0 for no truths and otherwise non-negative |
| `Metrics.MaeZeroIff` | backtest/metrics.py:7-11 | for non-empty truths, `mae` is 0 exactly when every zipped pair agrees |
| `Metrics.MaeAtMost` | backtest/metrics.py:7-11 | when every zipped error is at most `e`, so is `mae` |
| `Metrics.MaeDividesByTruths` | backtest/metrics.py:8-11 | `mae` divides by the number of truths, not of pairs: truths `[1, 1]` against forecasts `[0]` give 0.5 |
| `Metrics.SqErrSum` | backtest/metrics.py:17 | the sum of squared errors is non-negative |
| `Metrics.SqErrSumExact` | backtest/metrics.py:17 | pairs that all agree give a squared-error sum of 0 |
| `Metrics.Rmse` | backtest/metrics.py:13-18 | `rmse` is 0 for no truths and otherwise non-negative |
| `Metrics.RmseExact` | backtest/metrics.py:13-18 | exact forecasts give `rmse` 0 |
| `Metrics.SmapeTerm` | backtest/metrics.py:27 | each sMAPE term lies in `[0, 1)` and is 0 exactly when forecast and truth agree |
| `Metrics.SmapeSum` | backtest/metrics.py:25-27 | the accumulated numerator lies in `[0, n]`, and below `n` when there is at least one pair |
| `Metrics.Smape` | backtest/metrics.py:20-28 | `smape` is 0 for no truths and lies in `[0, 2)` |
| `Metrics.SmapeSumExact` | backtest/metrics.py:25-27 | pairs that all agree give a numerator of 0 |
| `Metrics.SmapeExact` | backtest/metrics.py:20-28 | exact forecasts give `smape` 0 |
| `Metrics.Hits` | backtest/metrics.py:33-36 | the number of covered truths is at most the number of triples, and equal to it exactly when every truth lies in its interval |
| `Metrics.Zip3Len` | backtest/metrics.py:33 | the three-way zip has the length of its shortest input |
| `Metrics.FractionFacts` | backtest/metrics.py:37 | `hit / total` lies in `[0, 1]` and is 1 exactly when every triple hits |
| `Metrics.Coverage` | backtest/metrics.py:30-37 | `coverage` lies in `[0, 1]`, is 0 without triples, and is 1 exactly when every truth lies within its interval |
| `Metrics.RoundHalfEven` | backtest/metrics.py:46 | Python's `round` gives the nearest integer, with ties to the even one |
| `Metrics.RoundMonotone` | backtest/metrics.py:46 | `round` is monotone |
| `Metrics.PctIndex` | backtest/metrics.py:46 | the clipped index is a valid index of the sorted list |
| `Metrics.Clip` | backtest/metrics.py:46 | `max(0, min(n - 1, k))` is a valid index and is `k` when `k` already is one |
| `Metrics.PctIndexMonotone` | backtest/metrics.py:46 | a larger percentile never gives a smaller index |
| `Metrics.LatencyP50P95` | backtest/metrics.py:39-48 | both percentiles are 0 for no latencies; otherwise both are observed latencies with `min <= p50 <= p95 <= max` |
| `Metrics.LatencyRanks` | backtest/metrics.py:46 | with three samples p50 and p95 pick indices 1 and 2; with two, indices 0 and 1 (`round(0.5) == 0` rounds half to even) |
| `Config.Merge` | core/config.py:15-18 | `_merge` has the keys of both dicts; the second wins on shared keys, and keys only in the first keep their values |
| `Config.AsFloat` | core/config.py:30 | `float()` of a YAML number is that number, of a boolean 1 or 0; null and mappings fail |
| `Config.Postprocessed` | core/config.py:21-33 | `_postprocess` adds only `regime_vol_threshold`, and only when it is absent and `detector.vol_threshold` converts to a float, whose value it then takes; every other key is unchanged |
| `Config.PostprocessIdempotent` | core/config.py:21-33 | normalising twice gives the same dict as normalising once |
| `Config.ConfigDict.constructor` | core/config.py:21 | a config dict holds the given entries |
| `Config.Postprocess` | core/config.py:21-33 | `_postprocess` updates the dict in place to `Postprocessed` of its old entries and returns the same dict |
| `Config.LoadConfig` | core/config.py:36-86 | `FileNotFoundError` is raised only for a path that is not a file |
| `Config.ExplicitPathWins` | core/config.py:55-64 | an explicit `--config` decides the result on its own, whatever the legacy `path`, the profile and the other files are: that file normalised, or not found |
| `Config.ProfileOverlaysDefaults` | core/config.py:73-86 | without an explicit file, a profile's keys override `default.yaml`, the other defaults are kept, and a missing profile file is an error |
| `Config.MissingEnvConfigIgnored` | core/config.py:66-70 | a `$REGIME_CONFIG` that names no file is ignored |
| `EwmaModel.EmaOf` | models/ewma.py:22 | the EMA of a stream exists exactly when at least one value has been seen |
| `EwmaModel.EwmaForecaster.constructor` | models/ewma.py:13-15 | a new forecaster keeps `alpha` and has seen nothing |
| `EwmaModel.EwmaForecaster.PredictUpdate` | models/ewma.py:17-23 | `predict_update` returns the EMA of the values before `x` (0 for the first call), then seeds the EMA with `x` or blends `x` in; the metadata is empty |
| `EwmaModel.NoLookAhead` | models/ewma.py:10-21 | no leakage: the forecast after a prefix depends only on that prefix, not on later values |
| `EwmaModel.EmaBetween` | models/ewma.py:22 | with `alpha` in `[0, 1]` the EMA stays between the minimum and maximum of the values seen |
| `EwmaModel.PrefixExtremes` | models/ewma.py:22 | the extremes of a prefix lie within those of the whole stream |
| `EwmaModel.Blend` | models/ewma.py:22 | blending a value and an EMA that both lie in `[lo, hi]` stays in `[lo, hi]` |
| `EwmaModel.ConstantStream` | models/ewma.py:22 | a constant stream has that constant as its EMA |
| `Routing.Want` | core/router.py:11 | the wanted model is the high-volatility model exactly for the label `high_vol`, the low one otherwise |
| `Routing.Step` | core/router.py:10-22 | after any call a model has been chosen |
| `Routing.StepOutcome` | core/router.py:10-22 | the first call picks the wanted model with dwell 1; a switch happens only once the dwell has reached `dwell_min` and resets it to 1; staying increments the dwell; a wanted switch after enough dwell always happens |
| `Routing.Outputs` | core/router.py:10-22 | the router answers once per call |
| `Routing.TrailingRun` | core/router.py:10-22 | the trailing run of equal answers is at least 1 and at most the whole history, and all its answers are the last one |
| `Routing.StepKeepsTraceInv` | core/router.py:10-22 | one call keeps the trace invariant: the dwell counts the trailing run of equal answers, every answer is one of the two models, and consecutive different answers are at least `dwell_min` calls apart |
| `Routing.RouterTrace` | core/router.py:10-22 | over any sequence of calls, the answers satisfy that invariant: no flip-flop faster than `dwell_min` |
| `Routing.Router.constructor` | core/router.py:3-8 | a new router keeps its two models and `dwell_min`, with no model chosen and dwell 0 |
| `Routing.Router.Choose` | core/router.py:10-22 | `choose` updates the state as `Step` prescribes, returns the new model, and keeps the trace invariant over every call so far |
| `Detect.ZThreshold` | core/detect/bocpd.py:41-44 | a positive `threshold` gives `z_threshold = max(1e-6, 1 / threshold)`, otherwise 3; it is never below `1e-6` |
| `Detect.ZScore` | core/detect/bocpd.py:50-55 | the z-score is 0 when the standard deviation is not positive, and otherwise satisfies `z * std == x - mean` |
| `Detect.Surprise` | core/detect/bocpd.py:58-60 | the surprise is `|z|`, halved during warm-up |
| `Detect.CpFromZ` | core/detect/bocpd.py:57-66 | `cp_prob` lies in `[0, 1]`, is 1 exactly when the surprise reaches `z_threshold`, and is the surprise over `z_threshold` below that |
| `Detect.DetectOutcome` | core/detect/bocpd.py:68-94 | `update`: `cp_prob` in `[0, 1]` and repeated under `meta`; the run length resets exactly when `|z|` reaches the threshold and otherwise grows by one; outside warm-up a reset happens exactly when `cp_prob` is 1; the regime is `volatile` exactly when `std >= vol_th` |
| `Detect.NoDeviationNoChange` | core/detect/bocpd.py:50-94 | with zero deviation outside warm-up, `cp_prob` is 0 and the run length grows by one |
| `Detect.Bocpd.constructor` | core/detect/bocpd.py:20-48 | the extractor's `alpha` and `min_warmup` come from the arguments, else the config, else 0.1 and 20; the z threshold and the volatility threshold are resolved the same way; the run length starts at 0 |
| `Detect.Bocpd.Update` | core/detect/bocpd.py:68-94 | given features are used untouched; otherwise `x` is fed to the extractor and its new features are used; the output and run length are `Detect` of those |
| `Detect.Bocpd.Step` | core/detect/bocpd.py:97-98 | `step` behaves exactly as `update` |
| `Features.ResolveAlpha` | core/features.py:40-48 | `alpha` comes from `ewm_alpha`, else `alpha`, else `2 / (win + 1)` for a non-zero window, else 0.1, and is clamped to `[1e-6, 1]` |
| `Features.ResolveWarmup` | core/features.py:49 | `min_warmup` is at least 1 and is the given value when that is already at least 1 |
| `Features.FeaturesWellFormed` | core/features.py:64-82 | the feature dict: the mean is `m`; the variance is `s - m^2` floored at 0; the volatility is its non-negative square root; `z * std == x - m` (0 when `std` is 0); `ac1` is 0; warm-up exactly while `count < min_warmup`; `rv` defaults to the variance |
| `Features.MeanBetween` | core/features.py:61 | one EWMA step moves the mean toward `x` without passing it |
| `Features.MomentsStayConsistent` | core/features.py:61-62 | if `m^2 <= s` before a step, it still holds after (Jensen), so the floor at 0 in the variance is only a guard |
| `Features.ZeroStreamStaysZero` | core/features.py:56-82 | a stream of zeros keeps both moments at 0 and gives zero `z`, volatility, `rv` and variance |
| `Features.MeanStaysInRange` | core/features.py:61 | the EWMA mean stays within any range holding its start and every value fed |
| `Features.FeatureExtractor.constructor` | core/features.py:31-54 | a new extractor resolves `alpha` and `min_warmup` and starts with count 0 and both moments 0 |
| `Features.FeatureExtractor.Report` | core/features.py:64-82 | the reported mean, variance, volatility, warm-up flag and `rv` are the extractor's current ones |
| `Features.FeatureExtractor.Absorb` | core/features.py:58-62 | counting the value and updating both moments is one EWMA step |
| `Features.FeatureExtractor.UpdateCore` | core/features.py:56-82 | `_update_core` takes one EWMA step and reports the new features |
| `Features.FeatureExtractor.Update` | core/features.py:84-103 | `update` feeds a raw value or a tick's `x`, and `rv` is the tick's covariate `rv` when given, else the variance |
| `FeatureVectors.RankOfDefaults` | models/xgb.py:25 | the preferred names are exactly `z`, `ewm_vol`, `ac1`, `rv`, at positions 0 to 3 |
| `FeatureVectors.PresentFromSpec` | models/xgb.py:26 | the list comprehension keeps exactly the preferred names present, in preferred order |
| `FeatureVectors.Order` | models/xgb.py:20-27 | explicit keys are copied unchanged, and empty features give no names |
| `FeatureVectors.OrderPreferred` | models/xgb.py:25-27 | when some preferred name is present, the order is exactly the preferred names present, in the order `z, ewm_vol, ac1, rv` |
| `FeatureVectors.OrderFallback` | models/arima.py:18-20 | when no preferred name is present, every feature name is selected once, in sorted order |
| `FeatureVectors.Vec` | models/xgb.py:81 | the vector exists exactly when every selected name is present, and then holds the selected features' values in order |
| `XgbModel.XgbForecaster.constructor` | models/xgb.py:37-76 | a new forecaster keeps its settings, with no pairs, no feature order, no model and a tick counter of 0 |
| `XgbModel.XgbForecaster.FitIfNeeded` | models/xgb.py:83-111 | below `min_train` pairs, or while a model is held and fewer than `retrain_every` ticks have passed, nothing changes; otherwise the available library's model is fitted (xgboost first, else SGD); a missing library or a failed fit leaves no model; only a successful fit resets the counter and reports a refit |
| `XgbModel.XgbForecaster.Vectorize` | models/xgb.py:78-81 | the feature order is chosen on first use and kept afterwards; the vector is read in that order |
| `XgbModel.XgbForecaster.PredictUpdate` | models/xgb.py:113-141 | a missing feature raises and changes nothing but the feature order; otherwise the tick is recorded, the counter advanced, a refit made when due, and the forecast is the model's prediction, or `x` without a model or when prediction raises; the metadata names the model and reports the refit, pair count and feature order |
| `XgbModel.XgbForecaster.Accept` | models/xgb.py:117-122 | accepting a tick records its features and value, advances the counter, and refits as `_fit_if_needed` prescribes |
| `XgbModel.XgbForecaster.Absorb` | models/xgb.py:117-119 | the previous tick's features are paired with `x`, and the window keeps the most recent pairs |
| `XgbModel.XgbForecaster.PairsAligned` | models/xgb.py:30-35 | no leakage: training pair `i` holds the features of some tick and the value of the tick right after it, and the pairs are the most recent ones, at most `window` |
| `XgbModel.WindowAligned` | models/xgb.py:58-59 | the last `window` inputs and labels have equal lengths and pair tick `t`'s features with tick `t + 1`'s value |
| `ArimaModel.PySuffix` | models/arima.py:95 | Python's `s[-w:]`: the last `w` values for positive `w`, everything for `w == 0`, and the slice from index `-w` for negative `w` |
| `ArimaModel.Retained` | models/arima.py:91-97 | what the rolling lists hold after every append and truncation: the last `window` values, all of them for `window == 0`, none for a negative window |
| `ArimaModel.RetainedStep` | models/arima.py:91-97 | appending then truncating keeps the lists equal to `Retained` of the whole history |
| `ArimaModel.MinObs` | models/arima.py:65 | a fit needs at least `max(10, p + d + q + 5)` observations |
| `ArimaModel.ArimaForecaster.constructor` | models/arima.py:29-54 | a new forecaster keeps its settings, with empty lists, no feature order, no results and a counter of 0 |
| `ArimaModel.ArimaForecaster.MaybeRefit` | models/arima.py:61-85 | without statsmodels or below `MinObs` values nothing happens; with no results or after `refit_every` appends a fit is attempted, whose success sets the results and resets the counter and whose failure drops the results |
| `ArimaModel.ArimaForecaster.Record` | models/arima.py:91-97 | the value, and the feature vector when features are used, are appended and the lists truncated to the window |
| `ArimaModel.ArimaForecaster.Vectorize` | models/arima.py:56-59 | the feature order is chosen on first use and kept afterwards; the vector is read in that order |
| `ArimaModel.ArimaForecaster.PredictUpdate` | models/arima.py:87-135 | a missing feature raises and changes nothing but the feature order; otherwise the tick is recorded, held results are extended (a failed append drops them), a refit is made when due, and the forecast is the SARIMAX one labelled `sarimax`, or `x` labelled `naive` with `refit` false |
| `PlotRanges.Scan` | scripts/plot_backtest.py:33-44 | the loop's closed runs are well-formed index pairs each followed by a false label, and an open run starts inside the mask |
| `PlotRanges.ScanOpen` | scripts/plot_backtest.py:43-44 | a run still open at the end is maximal and reaches the last label, after every closed run; no run is open when the last label is false |
| `PlotRanges.ScanClosed` | scripts/plot_backtest.py:37-42 | every closed run is a maximal block of true labels, and the runs are in order and separated by false labels |
| `PlotRanges.StillMaximal` | scripts/plot_backtest.py:40-41 | a run maximal in a prefix stays maximal once the label after it is known to be false |
| `PlotRanges.ScanCovers` | scripts/plot_backtest.py:36-44 | every true label lies in some closed run or in the open run |
| `PlotRanges.Runs` | scripts/plot_backtest.py:29-45 | the runs of the mask are index pairs inside the mask |
| `PlotRanges.RunsExact` | scripts/plot_backtest.py:29-45 | the runs are exactly the maximal blocks of true labels, in order, disjoint and separated, covering every true label |
| `PlotRanges.Ranges` | scripts/plot_backtest.py:29-45 | the intended result: one `(start, end)` pair of index labels per run, the labels of its first and last true position |
| `PlotRanges.ClosedRanges` | scripts/plot_backtest.py:40 | as written, a run closed by a false label ends at `prev_idx or idx`: its last label, or the closing label when that last label is falsy |
| `PlotRanges.AsWritten` | scripts/plot_backtest.py:29-45 | `_contiguous_ranges` as written returns one pair per run, starting at the run's first label |
| `PlotRanges.ContiguousRanges` | scripts/plot_backtest.py:29-45 | the loop of `_contiguous_ranges` (with its early return for an empty or all-false mask) computes `AsWritten` |
| `PlotRanges.ScanSnoc` | scripts/plot_backtest.py:36-42 | one more label: a true label opens a run unless one is open; a false label closes the open run at the previous position |
| `PlotRanges.NoTrueNoRuns` | scripts/plot_backtest.py:31-32 | an all-false mask has no runs, agreeing with the early return |
| `PlotRanges.TruthyLabelsExact` | scripts/plot_backtest.py:40-44 | when every index label is truthy, the code as written returns exactly the intended ranges |
| `PlotRanges.FalsyLabelEnd` | scripts/plot_backtest.py:40 | for labels `0, 1` and mask `true, false` the code returns `(0, 1)` where the run is `(0, 0)` |
| `PlotRanges.ScanTrueFalse` | scripts/plot_backtest.py:36-42 | the mask `true, false` has the single closed run `(0, 0)` and no open run |
| `LatencyBench.Percentile` | scripts/latency_bench.py:8-17 | `percentile` has no value (NaN) exactly for an empty list |
| `LatencyBench.Rank` | scripts/latency_bench.py:12 | the rank `(n - 1) * p` lies in `[0, n - 1]` |
| `LatencyBench.LerpMonotone` | scripts/latency_bench.py:17 | the interpolation `s[f]*(c - k) + s[c]*(k - f)` grows with `k` between ordered neighbours |
| `LatencyBench.InterpIsLerp` | scripts/latency_bench.py:13-17 | `f = int(k)` and `c = min(f + 1, n - 1)` are valid indices; at the top index the value is `s[f]`, otherwise the linear interpolation between `s[f]` and `s[f + 1]` |
| `LatencyBench.Segment` | scripts/latency_bench.py:12-17 | on a sorted list the interpolated value lies between `s[f]` and `s[c]` |
| `LatencyBench.InterpMonotone` | scripts/latency_bench.py:12-17 | on a sorted list the interpolated value grows with the rank |
| `LatencyBench.PercentileBounds` | scripts/latency_bench.py:8-17 | every percentile lies between the minimum and maximum latency |
| `LatencyBench.PercentileEnds` | scripts/latency_bench.py:11-17 | `percentile(vals, 0)` is the minimum and `percentile(vals, 1)` the maximum |
| `LatencyBench.InterpFirst` | scripts/latency_bench.py:12-16 | rank 0 picks the first sorted value |
| `LatencyBench.InterpLast` | scripts/latency_bench.py:12-16 | rank `n - 1` picks the last sorted value |
| `LatencyBench.PercentileMonotone` | scripts/latency_bench.py:8-17 | a larger `p` never gives a smaller percentile, so p50 is at most p95 |

## Left out

- Conversion of arbitrary Python values to floats (`_safe_float`, `_sf`, `_to_float`, `float(...)` on strings) is not modelled. A value is either a real or `None` (`Option<real>`), and a `None` or NaN `x` becomes 0.0, as `_safe_float` makes it.
- `Backtest.CpTrue`: a `cp` key present with value `None`, or a falsy `cp` such as 0, gives 0 in the source. The model's `None` stands for an absent key.
- The change-point event metrics (`cp_event_metrics`) that the runner merges in when available are not modelled.
- HTTP routing, Prometheus counters and histograms, logging and the `/snapshot` file endpoints are left out. So are the service's response schemas.
- Locks and concurrency are not modelled. Every request runs as one atomic step.
- `time.time()` and `uuid.uuid4()` become the parameters `now` and `predId`. `time.perf_counter()` only feeds the `service_ms` entry of `/predict`'s `latency_ms` map and the latency histograms. Both are left out, and the model's `PredictOut` has no latency map.
- The backtest's latency column reads a `latency_ms` field that `process` never returns, so every latency is 0.0 in the source and in the model (`Backtest.NoLatency`).
- Reading and writing snapshot and YAML files is left out. Files are a map from path to parsed document, and environment variables are fields of `Env`.
- Python's `float()` of a string inside `_postprocess` is the oracle `parse`.
- The string keys of interval dictionaries (`alpha=0.10`, `90`) are not modelled, because that needs float formatting. `Conformal.IntervalsFor` returns the alphas with their bands instead.
- The configuration's key order and `os.PathLike` paths are not modelled. `Config.LoadConfig` works on string paths.
- `Conformal.OnlineConformal.Interval`: it requires every alpha to lie in `[0, 1]`. The source asserts this only on the weighted path.
- `OnlinePipeline.Pipeline.constructor`: it requires `conformal_maxlen` and `pending_cap` to truncate to non-negative integers. A negative `maxlen` makes `deque` raise. A negative cap makes the eviction loop empty the map and then raise `KeyError` on the next registration.
- `OnlinePipeline.Pipeline.Restore`: it models `from_state` on a freshly built pipeline, which is the only way the source uses it.
- `OnlinePipeline.Pipeline.Process`: a tick without an `"x"` key raises `KeyError` at `tick["x"]`. The model always receives the value or `None`, and does not represent that error.
- `Conformal.OnlineConformal.constructor`: `window` is a natural number. `deque(maxlen=int(window))` raises `ValueError` for a negative window, and the model does not represent that error.
- `OnlinePipeline.Pipeline.constructor`: an empty or `None` `cfg` makes the source call `load_config()` and read the configuration files. The model takes the configuration in effect as `cfg`; an empty map stands for the built-in defaults, and a caller that wants the files passes the result of `Config.LoadConfig`.
- `Detect.Bocpd.constructor`: the same as for the pipeline: `cfg or load_config()` is not modelled, and `cfg` is the configuration in effect.
- `XgbModel.XgbForecaster.constructor`: `window` is a natural number, because `deque(maxlen=...)` raises for a negative window.
- The hyper-parameters of xgboost, SGD and SARIMAX and the libraries' numerics are oracles. Fitting on `X[-window:]` and the exogenous arguments passed to SARIMAX are not modelled beyond the retained lists.
- `Features.ResolveAlpha`: it requires that `win == -1` not be the deciding argument. There `2 / (win + 1)` raises `ZeroDivisionError`, and the model does not return that error.
- `LatencyBench.Percentile`: it requires `p` in `[0, 1]`. The script only calls it with 0.5 and 0.95.
- `Backtest.Run`: its contract states the EWMA mean of every forecast, but not each forecast's interval and regime tick by tick. Those follow from `OnlinePipeline.PredictionSpec` applied to the state at that tick.
- Parsing of the replayed data files, the CLI, the parameter sweep and the other scripts are not modelled.
- `OnlinePipeline.EmptyIdLostOnRestore`: the snapshot round trip holds only for non-empty ids. A pending entry with id `""` is not restored.

## Findings

| source | as written | input that shows it | evidently intended | confidence | as-written member | corrected member |
|---|---|---|---|---|---|---|
| backtest/runner.py:38-39 | before processing a tick, the runner calls `update_truth(prev_tick["x"])`. This teaches the last forecast the value that forecast has already absorbed, so the calibration residuals are in-sample. Each one is `(1 - alpha)` times the previous pair's scored error. | ticks with `x` = 0.0 then 1.0 | the forecast made at a tick learns the next tick's value, so the learned residuals equal the scored errors | not executed | `Backtest.Run`, `Backtest.InSampleCounterexample` | `Backtest.RunCorrected` |
| scripts/plot_backtest.py:40 | a run closed by a false label ends at `prev_idx or idx`. When the run's last index label is falsy (index `0`), it ends at the closing label instead. | index `[0, 1]`, mask `[True, False]`: the result is `[(0, 1)]` | the run ends at its last true label: `[(0, 0)]` | not executed | `PlotRanges.AsWritten`, `PlotRanges.FalsyLabelEnd` | `PlotRanges.Ranges`, `PlotRanges.RunsExact` |
