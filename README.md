# KTRLite in Dafny

A Dafny model of the deterministic core of KTRLite, the kernel-based
time-varying regression model of the orbit forecasting package
(`orbit/models/ktrlite.py`). KTRLite fits a level term on knots spread
over the training period. It also fits Fourier seasonal regressors whose
coefficients move over time on their own knots. The model covers:

- the bookkeeping `BaseKTRLite` does at construction: resolving the
  seasonality arguments, building the Fourier regressor layout and picking
  the sampling-parameter names;
- the attributes `fit` sets from the training frame: validation, training
  metadata, the valid-response mask, the regressor matrix, the knot step
  and knot placement, the kernels, the estimator input and the posterior
  samples;
- the index and decomposition logic of `_predict`: the prediction window,
  the time grid, the per-seasonality column slices, the additive
  decomposition and the output keys;
- the two concrete models. `KTRLiteFull` handles bootstrap resampling,
  percentile normalisation and column labels. `KTRLiteMAP` wraps every
  estimate in a leading axis of size 1 and flattens the output.

Python dictionaries that keep insertion order are `Dict<V>`, a sequence
of key/value pairs (module `PyDict`). Numpy arrays are `NdArray`, or
`Matrix` where only their shape and exact real entries matter (module
`Tensors`). Python exceptions are the `Error` values of a
`Result`/`Outcome` (module `Wrappers`). The numerical helpers the core
calls but does not define are parameters of the model, with only the
output shapes the core relies on:

- the kernels and the Fourier features are the fields of `Decomposition.Helpers`;
- `set_knots_tp`, the time points of given knot dates (`pd.infer_freq` with `get_gap_between_dates`), the nan-statistics and the estimator are the fields of `Model.FitHelpers`.

`BaseKTRLite`, `KTRLiteFull` and `KTRLiteMAP` are classes whose methods
update their fields as the Python methods do. Each method is proved
against a function that states its result. `KTRLiteFull` and `KTRLiteMAP`
hold their base model in a `base` field instead of inheriting from it.

Files, in dependency order:

- `wrappers.dfy`: Option, Result, Outcome and the exceptions.
- `pytext.dfy`: `str(int)` and ASCII `str.lower()`.
- `pylist.dfy`: `[x] * n` and concatenation of lists of lists.
- `pydict.dfy`: insertion-ordered dicts, `d[k] = v` and `d.update(e)`.
- `tensors.dfy`: arrays and matrices.
- `config.dfy`: `_set_default_base_args`.
- `layout.dfy`: `_set_seasonality_attributes`.
- `knots.dfy`: the knot step and the time points.
- `response.dfy`: the valid-response attributes.
- `training.dfy`: `_validate_training_df` and the training metadata.
- `window.dfy`: the prediction window and the time grid of `_predict`.
- `datainput.dfy`: `_set_model_data_input`.
- `posterior.dfy`: `_set_map_posterior` and `_bootstrap`.
- `percentiles.dfy`: the percentile list and the column labels of `KTRLiteFull`.
- `decomposition.dfy`: the arithmetic and the output of `_predict`.
- `model.dfy`: the `BaseKTRLite` class.
- `full.dfy`: the `KTRLiteFull` class.
- `mapmodel.dfy`: the `KTRLiteMAP` class.

## Model

| member | source | states |
|---|---|---|
| Config.AsList | orbit/models/ktrlite.py:172-178 | A scalar argument becomes a one-element list and a list is kept; `None` is an error (the TypeError of `None * 1.0`). |
| Config.ScalePerSeasonality | orbit/models/ktrlite.py:183-191 | A scalar scale is repeated once per seasonality and a list scale is kept as given; `None` is an error. |
| Config.ResolveBaseArgs | orbit/models/ktrlite.py:166-191 | A `None` seasonality gives empty seasonality and order lists. A scalar seasonality or order becomes a one-element list. A missing order defaults to 2 per seasonality. Unequal lengths raise IllegalArgument. An empty seasonality list with no order raises TypeError. Scalar scales are repeated `len(seasonality)` times. The result fails exactly in these cases, and on success the two lists have the same length. |
| Layout.GroupColumns | orbit/models/ktrlite.py:208-210 | The group of a seasonality of order `k` has `2k` columns, and none for `k <= 0`. |
| Layout.GroupColumnsAt | orbit/models/ktrlite.py:208-210 | Column `2(i-1)` of the group of `s` is `seas{s}_fs_cos{i}` and column `2i-1` is `seas{s}_fs_sin{i}`, for `1 <= i <= k`. |
| Layout.FourierColumns | orbit/models/ktrlite.py:203-210 | The inner loop that appends the cosine and sine names builds exactly the group `GroupColumns(s, k)`. |
| Layout.Groups | orbit/models/ktrlite.py:212-214 | `_regressor_col_gp` holds one group per seasonality. |
| Layout.SeasonalityLayout | orbit/models/ktrlite.py:193-216 | The five lists fail, with IndexError, exactly when a scale list is shorter than the seasonality list. |
| Layout.GroupsOffsetIsCount | orbit/models/ktrlite.py:212-216 | The flat column list has the sum of `2 * order` over the seasonalities as its length, which is `_num_of_regressors`. |
| Layout.LayoutLengths | orbit/models/ktrlite.py:205-216 | The flat column list is the concatenation of the groups, and it has the same length as the pooling-location, pooling-scale and knot-scale lists. |
| Layout.LayoutColumnAt | orbit/models/ktrlite.py:212-214 | Regressor `j` of group `g` is column `Offset(g) + j` of the flat list. |
| Layout.LayoutPriorsAt | orbit/models/ktrlite.py:205-207 | At the position of regressor `j` of group `g`, the pooling location is 0.0 and the two scale lists hold seasonality `g`'s scales. |
| Layout.PoolingLocZero | orbit/models/ktrlite.py:205 | Every pooling location is 0.0. |
| Knots.Ceil | orbit/models/ktrlite.py:313 | `math.ceil`: the least integer not below `x`. |
| Knots.PyRound | orbit/models/ktrlite.py:312 | Python 3 `round`: the nearest integer, with ties going to the even one. |
| Knots.KnotStep | orbit/models/ktrlite.py:307-313 | An explicit knot length is the step. Otherwise the step is `ceil(n / round(1 / span))`. A zero span, or a span that rounds to zero knots, raises ZeroDivisionError. |
| Knots.KnotStepCovers | orbit/models/ktrlite.py:312-313 | With `k = round(1 / span) > 0`, the step is the least for which `k` steps cover all `n` observations: `k * step >= n > k * (step - 1)`. |
| Knots.TimePoints | orbit/models/ktrlite.py:301 | `np.arange(1, n + 1) / n` has `n` points in `(0, 1]` and ends at 1. |
| Knots.TimePointAt | orbit/models/ktrlite.py:301 | Observation `i` sits at `(i + 1) / n`. |
| Knots.TimePointsIncreasing | orbit/models/ktrlite.py:301 | The time points are strictly increasing. |
| Knots.KnotTimePoints | orbit/models/ktrlite.py:316 | `(1 + idx) / n` gives each knot index in range the time point of that observation. |
| Knots.MaxOf | orbit/models/ktrlite.py:321 | `df[date_col].max()` is a date of the column, and no date is later. |
| Knots.MinOf | orbit/models/ktrlite.py:322 | `df[date_col].min()` is a date of the column, and no date is earlier. |
| Knots.InWindow | orbit/models/ktrlite.py:320-323 | A date is kept exactly when it lies within the window, and each kept date is kept as many times as it occurs, so there are no more kept dates than before. |
| Knots.InWindowConcat | orbit/models/ktrlite.py:320-323 | Filtering a concatenation gives the filtered parts one after the other: the kept dates come in the order of the knot dates. |
| Knots.InWindowSorted | orbit/models/ktrlite.py:320-323 | Ascending knot dates stay ascending once filtered. |
| Response.ValidMask | orbit/models/ktrlite.py:287 | `~isnan(response)` marks exactly the present responses. |
| Response.WhichValid | orbit/models/ktrlite.py:289 | The valid positions are increasing, are all present responses, and include every present response. |
| Response.WhichValidUnique | orbit/models/ktrlite.py:289 | Any increasing list of exactly the present positions is `WhichValid`. |
| Response.AllValidIffFullCount | orbit/models/ktrlite.py:289-290 | The valid count equals the number of observations exactly when no response is missing. |
| Response.MaxSeasonality | orbit/models/ktrlite.py:257 | `max(seasonality)` is one of the seasonalities and is at least each of them. |
| Response.MeanWindow | orbit/models/ktrlite.py:281-285 | The mean is taken over all responses without seasonality, and over the first `max(seasonality)` responses with it. |
| Training.ValidateTrainingDf | orbit/models/ktrlite.py:240-261 | The frame passes exactly when the date column exists and is ordered, the response column exists, and (with seasonality) there are at least `max(seasonality)` observations. Each failure raises its own ModelException, checked in source order. |
| Training.TrainingMetaOf | orbit/models/ktrlite.py:230-238 | The metadata holds the dates and their count. It fails with IndexError exactly on an empty date column. For ordered dates, the start is the first date and the end is the last. |
| Window.IndexOf | orbit/models/ktrlite.py:451 | `get_loc` finds `d` exactly when `d` is a date, at a position holding `d`; otherwise KeyError. |
| Window.WindowStart | orbit/models/ktrlite.py:425-451 | An unordered prediction frame raises IllegalArgument. A start before the training start raises PredictionException. After the training end the offset is the training length. Otherwise it is the index of the matching training date, or KeyError when there is none. The offset never exceeds the training length. |
| Window.TimeGrid | orbit/models/ktrlite.py:454 | The grid has `output_len` points, and inside the training range it agrees with the training time points from `start` on. |
| Window.GridAt | orbit/models/ktrlite.py:454 | Grid point `i` is `(start + 1 + i) / trained_len`. |
| Window.GridSteps | orbit/models/ktrlite.py:447-454 | The grid is strictly increasing, and a prediction after the training end lies entirely beyond 1. |
| DataInput.Convert | orbit/models/ktrlite.py:385-386 | Booleans become 1 or 0 and every other value is kept. |
| DataInput.CollectDataInput | orbit/models/ktrlite.py:375-389 | The loop over the mapper builds exactly `Gather`'s dictionary, or stops with its error. |
| DataInput.FirstMissingStops | orbit/models/ktrlite.py:382-384 | Once a member's attribute is missing, the whole assembly fails with the ModelException naming it. |
| DataInput.GatherOkIff | orbit/models/ktrlite.py:379-387 | The input is assembled exactly when every mapper member's attribute is set. |
| DataInput.GatherErrorIsFirstMissing | orbit/models/ktrlite.py:379-384 | A failure names the first member, in mapper order, whose attribute is missing. |
| DataInput.GatherKeys | orbit/models/ktrlite.py:387 | On success the keys are exactly the mapper values. |
| DataInput.GatherValue | orbit/models/ktrlite.py:381-387 | On success a member's key holds its lower-cased attribute, with booleans converted. This is stated for a member whose value no later member repeats; iterating a Python Enum skips aliases, so the mapper's values are distinct. |
| Posterior.MapPosterior | orbit/models/ktrlite.py:701-713 | It fails with KeyError exactly when a parameter name is missing from the posterior. Otherwise it has exactly the parameter names as keys, each holding its array under a new leading axis of size 1. |
| Posterior.WrapEach | orbit/models/ktrlite.py:704-711 | The loop of `_set_map_posterior` computes `MapPosterior`. |
| Posterior.Bootstrap | orbit/models/ktrlite.py:598-622 | `n < 2` raises IllegalArgument. Otherwise the result has the posterior's keys, and every array is indexed by the same draw vector of length `n`. An array too short for the draws raises IndexError. |
| Posterior.BootstrapEach | orbit/models/ktrlite.py:618-621 | The loop over the posterior's items computes `Bootstrap`. |
| Percentiles.ConfiguredPercentiles | orbit/models/ktrlite.py:590-593 | The percentiles are `[5, 95]` when unset, else the configured list. |
| Percentiles.ConfiguredBootstrapDraws | orbit/models/ktrlite.py:583-596 | A falsy draw setting becomes -1 and any other is kept. Bootstrapping applies exactly when the setting is at least 2. |
| Percentiles.SortedSet | orbit/models/ktrlite.py:667-668 | `sorted(set(xs))` is strictly increasing with exactly the values of `xs`. |
| Percentiles.Insert | orbit/models/ktrlite.py:666-668 | Adding a value to a sorted, duplicate-free list keeps it sorted and duplicate-free and adds exactly that value. |
| Percentiles.InsertSorted | orbit/models/ktrlite.py:666-668 | The insertion loop computes `Insert`. |
| Percentiles.NormalizePercentiles | orbit/models/ktrlite.py:664-668 | The list predict aggregates over is strictly increasing, holds exactly the configured percentiles and 50, and always holds 50. It is computed on a copy, so the configured list is untouched. |
| Percentiles.ColumnLabel | orbit/models/ktrlite.py:642 | A label starts with the key, and it is the bare key exactly for p = 50. |
| Percentiles.ColumnLabels | orbit/models/ktrlite.py:642 | There is one label per percentile, each starting with the key. |
| Percentiles.ColumnLabelInjective | orbit/models/ktrlite.py:642 | Distinct percentiles get distinct labels. |
| Percentiles.ColumnLabelsDistinct | orbit/models/ktrlite.py:642 | Over a normalised list the labels are pairwise distinct, and with 50 present the bare key is among them. |
| Percentiles.AggregateColumns | orbit/models/ktrlite.py:641-643 | One column per percentile. |
| Percentiles.AggregatedLength | orbit/models/ktrlite.py:670-678 | The concatenated frame has `len(percentiles)` columns per key. |
| Percentiles.AggregatedAt | orbit/models/ktrlite.py:670-678 | Column `i * len(ps) + j` is percentile `ps[j]` of key `i`, under that percentile's label. |
| Percentiles.MedianColumns | orbit/models/ktrlite.py:664-678 | With 50 present, every key's median is in the frame under the bare key. |
| PyDict.Put | orbit/models/ktrlite.py:474 | `d[k] = v` sets `k`, leaves the other keys' values, keeps the key order, and appends a new key at the end. |
| PyDict.UpdateKeepsKeys | orbit/models/ktrlite.py:490 | `d.update(e)` keeps the keys of `d` where they were. |
| PyDict.UpdateAppends | orbit/models/ktrlite.py:490 | Updating with new, pairwise distinct keys appends the items in order. |
| PyDict.FromDistinctItems | orbit/models/ktrlite.py:474 | Assigning items with distinct keys builds the dict of those items in order. |
| PyList.ConcatAt | orbit/models/ktrlite.py:212 | Entry `j` of group `g` is at position `Offset(g) + j` of the concatenation. |
| PyList.ConcatOwner | orbit/models/ktrlite.py:469-475 | The group slices `[pos, pos + len(cols))` cover the concatenation in order without overlap: every position lies in exactly one slice. |
| PyList.SortedSetUnique | orbit/models/ktrlite.py:667-668 | Two strictly increasing lists with the same values are equal. |
| PyText.IntToStringInjective | orbit/models/ktrlite.py:474 | Distinct seasonalities print as distinct strings. |
| Tensors.ExpandDims | orbit/models/ktrlite.py:708 | `np.expand_dims(a, axis=0)` has a leading axis of size 1 holding `a`. |
| Tensors.Take | orbit/models/ktrlite.py:620 | `v[idx]` succeeds exactly when every index is in range, and then takes the indexed sub-arrays in order. |
| Decomposition.MatMulT | orbit/models/ktrlite.py:460 | `matmul(a, b.T)` has entry `(i, t)` equal to the dot product of row `i` of `a` and row `t` of `b`. |
| Decomposition.MatrixOf | orbit/models/ktrlite.py:460 | A level-knot array is read as a matrix with one column per level knot. Other shapes are refused with ValueError; see Left out for the shapes numpy would also accept. |
| Decomposition.Regressors | orbit/models/ktrlite.py:263-278 | Each group's Fourier values have one row per predicted row and one column per regressor of the group. |
| Decomposition.GroupPart | orbit/models/ktrlite.py:472-473 | A group's seasonal regression has one row per sample and one column per time. |
| Decomposition.Parts | orbit/models/ktrlite.py:469-475 | There is one part per group, and each is read from that group's slice of the coefficient rows. |
| Decomposition.Total | orbit/models/ktrlite.py:462-476 | `total_seas_regression` has the shape of the trend. |
| Decomposition.TotalAt | orbit/models/ktrlite.py:476 | The accumulated total is the sum of the parts, entry by entry. |
| Decomposition.AccumulateSeasonal | orbit/models/ktrlite.py:469-476 | The seasonal loop (advancing `pos`, storing each part, adding to the total) computes the sum of the parts and `seas_decomp` built from the parts under their keys. |
| Decomposition.PrefixRegression | orbit/models/ktrlite.py:469-476 | The first `k` parts summed at `(s, t)` are the regression over the first `k` groups' regressors laid side by side. |
| Decomposition.TotalIsFullRegression | orbit/models/ktrlite.py:469-476 | The grouped regression equals the full regression: the total at `(s, t)` is the sum over all regressors of coefficient row `r` times regressor `r`. |
| Decomposition.SeasonalKeyInjective | orbit/models/ktrlite.py:474 | Distinct seasonalities get distinct `seasonality_{s}` keys. |
| Decomposition.SeasonalItems | orbit/models/ktrlite.py:474 | Part `g` is stored under `seasonality_{s_g}`. |
| Decomposition.SeasonalItemsDistinct | orbit/models/ktrlite.py:474 | With distinct seasonalities the seasonal keys are distinct. |
| Decomposition.SeasonalParts | orbit/models/ktrlite.py:465-476 | There are no seasonal parts unless there are both seasonalities and regressors; then there is one part per seasonality. A missing coefficient-knot array is `None` in `np.matmul`, which raises ValueError. |
| Decomposition.PredictComponents | orbit/models/ktrlite.py:398-482 | An empty posterior raises IndexError, and the window errors come next. On success every matrix has one row per sample and one column per predicted row. The prediction is the trend plus the sum of the seasonal parts, plus the noise exactly when `include_error` is set. |
| Decomposition.PredictDecomp | orbit/models/ktrlite.py:398-494 | `_predict` fails exactly when its computation fails, with the same error. Without `decompose` the only key is `prediction`. |
| Decomposition.OutputShapes | orbit/models/ktrlite.py:484-494 | Every output entry has the prediction's shape. |
| Decomposition.PredictionFirst | orbit/models/ktrlite.py:485-492 | The output always starts with `prediction`. |
| Decomposition.PredictShapes | orbit/models/ktrlite.py:412-494 | A successful `_predict` had a level-knot array, and every output entry has one row per sample and one column per predicted row. |
| Decomposition.SeasonalKeys | orbit/models/ktrlite.py:474 | The keys `seasonality_{s}` of the seasonalities, in order. |
| Decomposition.OutputItems | orbit/models/ktrlite.py:485-490 | With distinct seasonalities, the decomposed output is `prediction`, `trend`, then the parts in seasonality order. |
| Decomposition.OutputDecomposed | orbit/models/ktrlite.py:485-490 | The decomposed output's keys are `prediction`, `trend` and one `seasonality_{s}` per part, each holding its component. |
| Decomposition.DecompositionAdds | orbit/models/ktrlite.py:462-492 | With `decompose`, the output has `prediction`, `trend` and one seasonal key per seasonality (none without seasonal regressors). Prediction = trend + the seasonal entries (+ noise with `include_error`). |
| Model.StaticAttributes | orbit/models/ktrlite.py:218-221 | It succeeds exactly when the arguments resolve and the layout built from them does, and then holds both. Otherwise it raises the first failure, and a layout failure is an IndexError. |
| Model.SeasonalityAttributes | orbit/models/ktrlite.py:193-216 | The loop that resets and appends to the five lists computes `SeasonalityLayout`, including its IndexError. |
| Model.SamplingParamNames | orbit/models/ktrlite.py:366-370 | The base parameters, followed by the regression parameters exactly when there is a seasonality or a regressor. |
| Model.PlaceKnots | orbit/models/ktrlite.py:307-317 | Knot `j` is placed at index `set_knots_tp(step, n)[j]`, with that observation's time point and date. A knot-step error is raised, and an index past the end raises IndexError. |
| Model.HeldKnotsInWindow | orbit/models/ktrlite.py:318-329 | With knot dates held, the level knot dates are exactly the held dates between the earliest and the latest training date, with the time points computed for them. The knots fail exactly when that computation fails. |
| Model.RefitLosesLevelKnots | orbit/models/ktrlite.py:317-323 | A fit that starts with dates stored by an earlier fit, all before its own first date, keeps no level knot date (see Findings). |
| Model.IntendedKnotsInFrame | orbit/models/ktrlite.py:307-317 | Fitting from the configured knot dates, with none configured, gives one level knot per index of `set_knots_tp`, each a date of the frame being fitted, whatever was fitted before. |
| Model.FitRegressorMatrix | orbit/models/ktrlite.py:293-297 | The regressor matrix has one row per observation and one column per regressor column. |
| Model.BaseKTRLite.constructor | orbit/models/ktrlite.py:102-158 | The arguments, the resolved arguments, the layout and the parameter names are stored. The held level knot dates are the configured ones. Nothing is fitted and there is no training metadata. |
| Model.BaseKTRLite.Create | orbit/models/ktrlite.py:102-134 | A model is created exactly when the static attributes resolve, and otherwise their error is raised. The new model satisfies its invariant, holds the static attributes and parameter names the arguments determine and the configured level knot dates, and is not fitted. |
| Model.BaseKTRLite.State | orbit/models/ktrlite.py:420-476 | The attributes `_predict` reads form a consistent state under the model invariant. |
| Model.BaseKTRLite.SetValidResponseAttributes | orbit/models/ktrlite.py:280-291 | Sets the mean over the mean window, the valid mask, the valid positions, their count and the standard deviation. |
| Model.BaseKTRLite.SetRegressorMatrix | orbit/models/ktrlite.py:293-297 | With no regressors the matrix is `n x 0` zeros; otherwise it is the Fourier regressor matrix. Either way it is `n x num_of_regressors`. |
| Model.BaseKTRLite.KnotOutcome | orbit/models/ktrlite.py:307-350 | `_set_kernel_matrix` succeeds exactly when the level knots can be set from the knot dates held when it starts, and, with regressors, the coefficient knots can be placed. With no dates held the level knots are placed by the step; otherwise they are the held dates within the training dates. |
| Model.BaseKTRLite.KnotsOf | orbit/models/ktrlite.py:299-350 | On success the level knots are those of the knot dates held, with their count. The coefficient knots are placed only with regressors. Otherwise they stay as they were and the coefficient count is 0. |
| Model.BaseKTRLite.SetKernelMatrix | orbit/models/ktrlite.py:299-350 | Ends as `KnotOutcome` says, from the knot dates held at the start. On success the knots, kernels and counts are those `KnotsOf` states, and the level knot dates are stored for the next fit. Without regressors the coefficient knots and their dates are untouched, the coefficient count is 0 and the kernel has 0 columns. |
| Model.BaseKTRLite.SetLevelKnots | orbit/models/ktrlite.py:307-333 | The level knots are `LevelKnots` of the dates held at the start. On success the knots, their dates, their sandwich kernel and their count are stored. |
| Model.BaseKTRLite.SetModelDataInput | orbit/models/ktrlite.py:375-389 | The estimator input is `Gather` over the mapper and the attributes; a failure leaves the previous input. |
| Model.BaseKTRLite.SetTrainingDfMeta | orbit/models/ktrlite.py:230-238 | Sets the metadata of the dates; an empty date column raises IndexError. |
| Model.BaseKTRLite.SetTrainingData | orbit/models/ktrlite.py:354-359 | A missing response column raises KeyError, then the validation errors apply in order, and an empty frame raises IndexError. On success the response, its length and the metadata are those of the frame. |
| Model.BaseKTRLite.SetResponseData | orbit/models/ktrlite.py:361-363 | After validation, the response attributes and the regressor matrix are those of the training data. |
| Model.BaseKTRLite.SetFittedData | orbit/models/ktrlite.py:361-364 | After validation, the response attributes, the regressor matrix and the knots are those of the training data. It ends as `_set_kernel_matrix` does. |
| Model.BaseKTRLite.SetDynamicDataAttributes | orbit/models/ktrlite.py:352-364 | The training data, response attributes, regressor matrix and knots are set from the frame, the knots from the knot dates held when it starts. The first error, in source order, is raised. |
| Model.BaseKTRLite.Estimate | orbit/models/ktrlite.py:537-550 | The estimator input is assembled, and the posterior samples are the estimator's output on it. A failure leaves the posterior samples unchanged. |
| Model.BaseKTRLite.Fit | orbit/models/ktrlite.py:531-550 | A successful fit leaves the dynamic attributes of the frame, the knots `_set_kernel_matrix` sets from the knot dates held when the fit starts, the assembled input and the estimator's samples. A failing fit leaves the posterior samples, and so the fitted state, as they were. |
| Model.BaseKTRLite.Predict | orbit/models/ktrlite.py:398-494 | The imperative `_predict` returns exactly `PredictDecomp` on the model's state. |
| FullModel.FullPrediction | orbit/models/ktrlite.py:646-680 | A failed bootstrap is raised. Otherwise the prediction fails exactly when `_predict` with noise on the samples used (the bootstrap draw or the posterior) fails, with its error. On success it is that prediction aggregated over the sorted, distinct configured percentiles and the median. |
| FullModel.FullPredictionColumns | orbit/models/ktrlite.py:664-678 | The output always has the median under the bare `prediction` key. Without `decompose`, its columns are exactly the prediction's labels over the sorted, de-duplicated percentiles. |
| FullModel.AggregatedKeys | orbit/models/ktrlite.py:670-678 | With 50 among the percentiles, `prediction` is a column. For the single `prediction` entry the columns are exactly its labels. |
| FullModel.AggregateEach | orbit/models/ktrlite.py:670-675 | The loop over the predicted entries builds the concatenated frame. |
| FullModel.KTRLiteFull.constructor | orbit/models/ktrlite.py:575-584 | The arguments are stored, and the percentiles and draw count are their configured values. |
| FullModel.KTRLiteFull.SetDefaultArgs | orbit/models/ktrlite.py:589-596 | The percentiles are `[5, 95]` or the configured list, and a falsy draw setting becomes -1. |
| FullModel.KTRLiteFull.Predict | orbit/models/ktrlite.py:646-680 | An unfitted model raises PredictionException. Otherwise the result is `FullPrediction`, bootstrapping exactly when the draw count exceeds 1. |
| MapModel.FlattenEach | orbit/models/ktrlite.py:735-736 | Flattening keeps the keys. |
| MapModel.MapPrediction | orbit/models/ktrlite.py:720-741 | It fails exactly when `_predict` without noise fails, with its error, and otherwise has its keys. |
| MapModel.MapPredictionRows | orbit/models/ktrlite.py:727-736 | On a single-draw posterior, each flattened entry is the one row of its `_predict` entry, with one value per predicted row. |
| MapModel.FlattenAll | orbit/models/ktrlite.py:735-736 | The flattening loop computes `FlattenEach`. |
| MapModel.KTRLiteMAP.constructor | orbit/models/ktrlite.py:690-696 | The MAP posterior starts empty. |
| MapModel.KTRLiteMAP.SetMapPosterior | orbit/models/ktrlite.py:701-713 | The MAP posterior becomes `MapPosterior` of the samples, with single-draw estimates. A missing parameter raises KeyError and leaves it unchanged. |
| MapModel.KTRLiteMAP.Fit | orbit/models/ktrlite.py:715-718 | After a successful fit, the base model holds the frame's attributes and its knots, from the knot dates held when the fit starts. It also holds the assembled input and the estimator's samples, and the MAP posterior wraps them. |
| MapModel.KTRLiteMAP.Predict | orbit/models/ktrlite.py:720-741 | An unfitted model raises PredictionException. Otherwise the result is `MapPrediction` on the MAP posterior. |

## Left out

- The time points of held level knot dates come from `pd.infer_freq` and `get_gap_between_dates`, which are not part of this model. They are the `datedKnotsTp` parameter, which may fail with any error. The filter of the held dates to the training window is modelled.
- Decomposition.PredictComponents: the samples are assumed to be shaped as the estimator gives them. Every parameter `_predict` reads is present, and its leading dimension is the sample count `S`. The level-knot array is `S x K` and the coefficient-knot array `S x R x Kc`. `num_sample` is read from the level-knot array, not from the first value of the dict, which a map does not order. A 0-dimensional first value (IndexError in the source) is not modelled.
- Decomposition.MatrixOf: numpy's `matmul` also accepts a 1-D level-knot array, and it broadcasts a coefficient-knot array whose leading dimension is 1. The model refuses both with ValueError.
- Kernel values (`sandwich_kernel`, `gauss_kernel`), the Fourier features of `make_fourier_series_df`, `set_knots_tp`, `np.nanmean` and `np.nanstd` are parameters of the model. Only the output shapes the core relies on are assumed.
- `estimator.fit` is the `estimator` parameter. The estimator's sample count and the `np.random.choice` draw are inputs of `predict`.
- The Student-t noise of `nct.rvs` is the `noise` parameter.
- `np.percentile` is the `pct` parameter. Only the column structure of the aggregation is modelled, not the statistic.
- `is_ordered_datetime` is modelled as strictly increasing dates.
- Dates are integers, so `pd.to_datetime` does nothing.
- `_validate_supported_estimator_type` and the estimator types are not modelled: the estimator is external.
- `_prepend_date_column` and the pandas frame construction are not modelled. The outputs are dictionaries of columns, without the date column placed first.
- `_set_aggregate_posteriors` (mean and median posteriors) is not modelled; nothing in the core calls it.
- The constants module is not part of this model. The sampling-parameter names and the data-input mapper are `Model.Constants`, a parameter of construction. The mapper is assumed to name only the 20 attributes of `Model.BaseKTRLite.Attributes`. `getattr` in the source finds any attribute of the object, so a mapper naming another attribute, such as `_knots_tp_level`, would be assembled there but raise ModelException here.
- Seasonality periods and percentiles are integers. Float periods such as 365.25, and their `str` and `np.round` formatting, are not modelled.
- Arrays hold exact reals, so floating-point rounding is not modelled and the additivity of the prediction holds exactly.
- Model.BaseKTRLite.Create: `__init__` is split into the static computation and a constructor that stores its results. An exception during construction means no object exists, rather than a half-initialised one.
- FullModel.KTRLiteFull.constructor: a `None` draw setting is held as 0 before `_set_default_args` runs. Both are falsy, so they behave the same.
- FullModel.KTRLiteFull and MapModel.KTRLiteMAP hold their base model in a field instead of inheriting from it.
- MapModel.KTRLiteMAP.Fit: after the base fit succeeds, a KeyError in `_set_map_posterior` leaves the base model fitted, as in the source. The contract states the state only after success.
- Model.BaseKTRLite.Fit: after a failure, only the posterior samples (and so the fitted state) are stated. The other attributes a partly run fit leaves behind are not described.
- Decomposition.DecompositionAdds and Decomposition.OutputDecomposed require pairwise distinct seasonalities. With a repeated seasonality, `seas_decomp` keeps only the last part under the shared key, and the key layout these lemmas state does not hold.
- Model.BaseKTRLite.SetKernelMatrix: without regressors the coefficient knot attributes keep their previous values, as in the source. Before the first fit `_knots_tp_coefficients` is Python's `None` (orbit/models/ktrlite.py:152) and here the empty list. `_coef_knot_dates` does not exist in the source until a fit with regressors assigns it (line 348); here `coefKnotDates` starts as the empty list. `__init__` sets a differently named `_coefficients_knot_dates` to `None` (line 154), which nothing reads or writes again and which is not modelled.
- The attributes Python initialises to `None` before fit are empty values here (`[]`, `0`, `None` metadata).
- A negative Fourier order gives an empty group, as `[x] * negative` and an empty `range` do in Python.

## Findings

| source | as written | input that shows it | evidently intended | confidence | as-written member | corrected member |
|---|---|---|---|---|---|---|
| orbit/models/ktrlite.py:317-323 | The first fit stores the level knot dates it places in `_level_knot_dates`, the attribute that holds the configured dates. Every later fit takes the configured-dates branch with them and keeps only those within its own dates. | A model without configured knot dates, fitted on dates 1 to 10 and then on dates 20 to 30: the second fit keeps no level knot date. | Each fit places its level knots from the configured dates, or by the step when none are configured, whatever was fitted before. | medium; not executed | Model.RefitLosesLevelKnots | Model.IntendedKnotsInFrame |
