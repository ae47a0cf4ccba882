# Elite Options System: the scoring engine's utility layer

This project models, in Dafny, the deterministic utility layer of the
`IntegratedTradingSystem` scoring engine, and proves properties of that model.
The engine is in `elite_options_system/core/strategies.py`. The dashboard
helpers beside it are in `elite_options_system/dashboard/utils.py`.

The engine half covers these parts of the source:

- **Configuration.** The built-in `DEFAULT_CONFIG` and the recursive merge
  of a user file over it. The check of required top-level sections.
  The two-level lookup: the loaded configuration first, then
  `DEFAULT_CONFIG`, then the caller's default.
- **`_normalize_series`.** Scaling by the largest absolute value, with a
  floor of 1e-9 on the denominator.
- **`_ensure_columns`.** Typed defaults per column category, type coercion,
  filling of missing values, and the "was clean" flag.
- **`get_weights`.** The time bucket or IV regime that selects a weight
  set, the fallback to the built-in midday set, and the component keys
  implied by the enabled DAG methodologies.
- **`_get_atr`.** The true range, the exponential moving average with span
  14 and `adjust=False`, and the fallback to a percentage of the price.
  Every path applies the configured minimum.
- **`map_score_to_stars`.** Five inclusive cutoffs, read from the
  configuration.
- **`_calculate_dynamic_threshold` and its wrapper.** Three kinds:
  - `fixed`, given as a value or as tiers;
  - `relative_percentile`, using numpy's linear percentile;
  - `relative_mean_factor`.

  When the calculation fails, the wrapper substitutes `fallback_value`.
- **`_aggregate_for_levels`.** Rows are grouped per strike. Each column is
  reduced by "sum" or "first", and what is still missing is then
  filled: `0.0`, or `0.5` for `ssi`.
- **The state `__init__` builds.** The bounded history deque with its
  validated capacity, the empty active-recommendation list, the id counter
  and the managed symbol.

The dashboard half covers:

- **`get_config_value`.** A lookup over the cached application
  configuration that never raises.
- **`CACHE_TIMEOUT_SECONDS`.** Its validation.
- **The server cache.** `get_data_from_server_cache` and
  `store_data_in_server_cache` mutate a dictionary in place, with expiry by
  age.
- **`generate_cache_key`.** Builds the key text from the symbol, the DTE
  string, the range and the current minute.
- **`format_status_message`.** Picks the message prefix and overlays the
  styles.

## How the model is built

- **Python values.** Configuration trees, IV contexts, scores and cache
  bundles are the `Json` datatype (module `Json`). As in Python, `bool`
  counts as an `int`.
- **Floats.** A float is `Float`: `Finite(real)`, `PosInf`, `NegInf` or
  `NaN` (module `Floats`). Finite arithmetic is exact; NaN propagates as in
  IEEE 754. Python's `max(a, b)` and the comparisons are written out, NaN
  cases included.
- **Exceptions.** An exception that escapes a source function is
  `Outcome.Raises` (module `Outcomes`). The model raises in the same places
  the source does:
  - `.get` on a configuration section that is not a dict;
  - `float()` applied to an unsuitable configuration value;
  - iterating an `enabled` list that is not iterable;
  - `>` between, say, a string and a number.
- **DataFrames.** A DataFrame is `Frame`: a height and a map from column
  name to a typed column of cells (module `Frames`). A cell is a float, a
  text, a timestamp or a missing value; integer and bool columns are
  modelled as float columns holding the same values.
- **Text.** Python's `str.strip()`, its ASCII case mapping, `str(int)` and
  the text-to-number rule behind `float(str)` and `pd.to_numeric` are in
  module `Text`. They are Python built-ins, not code of the repository, so
  they have no rows below. Their lemmas cover the following:
  - stripping is idempotent and leaves no space at either end;
  - `str(n)` of a natural number parses back to `n`;
  - `LowerIs` agrees with comparing the lower-cased text.
- **Dates.** The part of `pd.to_datetime` the model reads is in module
  `Dates`: the proleptic Gregorian calendar, nanoseconds since 1970-01-01
  in the signed 64-bit range of `datetime64[ns]`, and the ISO 8601 texts
  `YYYY-MM-DD` and `YYYY-MM-DD HH:MM:SS` (or with `T`). This is pandas,
  not code of the repository, so it has no rows below. Its lemmas cover
  the following:
  - 1970-01-01 is day 0, and each year adds its length;
  - an earlier date and time gives a strictly smaller nanosecond count,
    so the count is injective;
  - writing a date and time in ISO form and reading it back gives it back.
- **The clock.** The clock (`datetime.now()`, `time.time()`) is a
  parameter.
- **Methods.** Where the source changes things step by step, the model is
  a method proved against the function that specifies it:
  - the merge loop (`Config.DeepMergeDicts`);
  - the path walks (`Config.FindPath`, `DashboardUtils.GetConfigValue`);
  - the column loop (`Schema.EnsureColumns`);
  - the EMA recurrence (`Atr.ExponentialMean`) and `Atr.GetAtr`;
  - the weight loop (`Weights.FillWeights`, `Weights.GetWeights`);
  - the in-place coercion (`Levels.CoerceColumns`).
- **Classes.** `TradingSystem.IntegratedTradingSystem` holds the fields
  `__init__` sets. `DashboardUtils.ServerCache` holds the server cache; its
  `Get` and `Store` methods change the entry map.

Some behaviours of the code that are easy to misread:

- The mean-factor threshold takes absolute values only when the comparison
  mode is `'above_abs'` (`elite_options_system/core/strategies.py:711`).
- A `fallback_value` returned by the threshold wrapper is not checked for
  finiteness (`elite_options_system/core/strategies.py:657-665`, `Thresholds.FallbackNotChecked`).
- `map_score_to_stars` counts `True` as the number 1 (`elite_options_system/core/strategies.py:616-620`).
- Even a successful date coercion in `_ensure_columns` lowers the "clean"
  flag (`elite_options_system/core/strategies.py:382-398`).
- The ATR estimate is not always finite (see "Findings").
- The cache functions probe `processed_data` with `.get`, so a bundle
  whose `processed_data` is not a dict raises `AttributeError`
  (`elite_options_system/dashboard/utils.py:224`, `elite_options_system/dashboard/utils.py:257`).

## Model

| member | source | states |
|---|---|---|
| Config.Merge | elite_options_system/core/strategies.py:263-270 | the merged dict has exactly the keys of both dicts |
| Config.DeepMergeDicts | elite_options_system/core/strategies.py:263-270 | the key-by-key loop (recursing where both values are dicts) builds exactly the merge |
| Config.MergeEmpty | elite_options_system/core/strategies.py:263-270 | merging an empty user dict gives the base unchanged |
| Config.MergeIdempotent | elite_options_system/core/strategies.py:263-270 | merging a tree over itself gives the same tree |
| Config.MergeCovering | elite_options_system/core/strategies.py:263-270 | an update whose keys cover the base at every dict level replaces it outright |
| Config.MergeUserWins | elite_options_system/core/strategies.py:266-269 | a non-dict user value (a list, say) at a path is what the merged tree holds there, verbatim |
| Config.MergeDefaultSurvives | elite_options_system/core/strategies.py:263-270 | at a path the user file does not reach, the merged tree has what the defaults have |
| Config.Lookup | elite_options_system/core/strategies.py:290-300 | the empty path gives the root; a path into a non-dict gives nothing |
| Config.LookupAppend | elite_options_system/core/strategies.py:290-300 | walking p + q is walking p and then q from what p reached |
| Config.LookupPair | elite_options_system/core/strategies.py:290-300 | a two-key path inside nested dicts finds the inner value |
| Config.ChildValue | elite_options_system/core/strategies.py:290-306 | a non-None entry of a dict found at a path is the configured value at the path extended by its key |
| Config.FindPath | elite_options_system/core/strategies.py:290-300 | the loop over the path returns the value found, or the default when a key is missing or a level is not a dict |
| Config.GetConfigValue | elite_options_system/core/strategies.py:302-306 | a non-None value in the loaded configuration wins; a missing or None value falls back to the built-in defaults, then to the caller's default |
| Config.FoundInLoaded | elite_options_system/core/strategies.py:302-305 | a non-None value found in the loaded configuration is returned |
| Config.LoadConfig | elite_options_system/core/strategies.py:259-276 | a dict file is merged over the defaults; anything else, or no file, gives the defaults; every default section is present either way |
| Config.MissingFrom | elite_options_system/core/strategies.py:280-283 | the names reported missing are exactly the listed names that are not top-level sections; an unhashable name raises TypeError |
| Config.MissingSections | elite_options_system/core/strategies.py:278-285 | the check raises AttributeError exactly when `validation` is not a dict |
| Config.LoadAndValidateConfig | elite_options_system/core/strategies.py:232-288 | the result is the loaded configuration, and it raises exactly when the section check raises |
| Config.RequiredPresent | elite_options_system/core/strategies.py:278-283 | with the three required sections present nothing is reported missing |
| Config.DefaultValidationPasses | elite_options_system/core/strategies.py:278-285 | with the built-in validation rules and every default section, nothing is reported missing |
| Config.DefaultsValidate | elite_options_system/core/strategies.py:259-288 | with no user file the result is `DEFAULT_CONFIG` |
| Config.UserFileKeepsSections | elite_options_system/core/strategies.py:261-288 | a user dict without a `validation` key is merged and passes |
| Normalize.MaxAbs | elite_options_system/core/strategies.py:329 | the maximum absolute value bounds every value and is attained; 0 for an empty series |
| Normalize.CleanAll | elite_options_system/core/strategies.py:328 | infinities and NaN become 0.0, finite values stay |
| Normalize.NormalizeSeries | elite_options_system/core/strategies.py:318-344 | the output has the input's length and every value is in [-1, 1] |
| Normalize.Scale | elite_options_system/core/strategies.py:336-342 | each output is the input divided by the maximum, and lies in [-1, 1] |
| Normalize.Degenerate | elite_options_system/core/strategies.py:328-334 | a series is degenerate exactly when every cleaned value is below 1e-9 in absolute value |
| Normalize.DegenerateGivesZeros | elite_options_system/core/strategies.py:324-334 | an all-missing series, or a maximum below 1e-9, gives all zeros of the same length |
| Normalize.AllNaNIsDegenerate | elite_options_system/core/strategies.py:324-326 | an all-NaN series takes the all-zeros branch |
| Normalize.NormalizeScales | elite_options_system/core/strategies.py:328-344 | otherwise each output is the cleaned value over the maximum, and some output is exactly ±1 |
| Normalize.RealsColumnValues | elite_options_system/core/strategies.py:322-328 | a column of finite values cleans to those values |
| Normalize.NormalizeIdempotent | elite_options_system/core/strategies.py:310-344 | normalising a normalised series changes nothing |
| Schema.CategoryOf | elite_options_system/core/strategies.py:352-353 | a column is an id/text column exactly when listed, a date column exactly when it is `date` |
| Schema.DefaultColumn | elite_options_system/core/strategies.py:359-368 | an added column has one cell per row: `'unknown'` (object) for `opt_kind`, `'N/A_DEFAULT'` (object) for the other id columns, `NaT` (datetime) for `date`, 0.0 (numeric) otherwise |
| Schema.RenderedText | elite_options_system/core/strategies.py:375 | a text cell keeps its text; a whole float n below 1e16 in magnitude is written as `str(n)` followed by `.0`; NaN, +inf and -inf are written `nan`, `inf` and `-inf`; any other finite float (1e16 and above among them, which Python writes in exponent form) gets the stand-in `<float>` |
| Schema.LargeWholeNotPositional | elite_options_system/core/strategies.py:375 | ±1e16, which Python writes `1e+16`, is not written positionally |
| Schema.AsText | elite_options_system/core/strategies.py:375 | `astype(str)` gives an object column of text cells of the same length, each cell exactly `RenderedText` of the input cell |
| Schema.AsDatetime | elite_options_system/core/strategies.py:386 | date coercion gives a datetime column of the same length, converting each cell by itself |
| Schema.ToDatetimeCell | elite_options_system/core/strategies.py:386 | a timestamp stays; a missing cell, or text in no ISO form, becomes NaT; every result is a timestamp or NaT |
| Schema.AsDatetimeIdempotent | elite_options_system/core/strategies.py:386 | every present cell of a coerced column is a timestamp, and coercing again changes nothing |
| Schema.IsoTextsOrdered | elite_options_system/core/strategies.py:386 | the ISO texts of two in-range datetimes become timestamps in the order of the datetimes |
| Schema.IsoDateParsed | elite_options_system/core/strategies.py:386 | a `YYYY-MM-DD` text becomes the timestamp of midnight on that day |
| Schema.FillMissing | elite_options_system/core/strategies.py:378-381 | filling leaves no missing cell and keeps every present cell |
| Schema.RepairColumn | elite_options_system/core/strategies.py:370-417 | the length is kept; a text id column keeps its present cells and has missing ones set to `'N/A_FILLED'`; any other id column becomes `astype(str)` text; a date column is kept when it holds datetimes, otherwise coerced; a number column is coerced, with missing cells 0.0 and the others the coerced numbers |
| Schema.Repair | elite_options_system/core/strategies.py:355-417 | one step keeps the height and adds the column; the step is clean exactly when the column was present and clean |
| Schema.RepairAll | elite_options_system/core/strategies.py:355-423 | the loop keeps the height, and the result has the frame's columns plus every required one |
| Schema.EnsureColumns | elite_options_system/core/strategies.py:346-423 | the loop over the required columns, mutating the copy and the flag, gives exactly the repaired frame and flag |
| Schema.Expected | elite_options_system/core/strategies.py:355-423 | the frame `_ensure_columns` produces keeps the height and has the frame's columns plus every required one |
| Schema.StepFrame | elite_options_system/core/strategies.py:355-417 | one more loop step takes the expected frame for the earlier columns to the expected frame with one more column |
| Schema.RepairAllCharacterized | elite_options_system/core/strategies.py:355-423 | the result is the frame with each required column repaired or added, and the flag is true exactly when every required column was already clean |
| Schema.EnsureColumnsGuarantees | elite_options_system/core/strategies.py:349-423 | the returned frame satisfies `Ensured`: every required column exists; a missing one is its `DefaultColumn`; present number columns hold the coerced numbers with 0.0 for the missing cells; present text id columns keep their cells with `'N/A_FILLED'` for the missing ones, other id columns are `astype(str)`; a present date column is kept or coerced; number and id columns have no missing cell; other columns are unchanged |
| Schema.ExpectedGuarantees | elite_options_system/core/strategies.py:349-423 | the expected frame satisfies the same `Ensured` guarantees: defaults for missing columns, the fill values 0.0 and `'N/A_FILLED'`, kept present cells, no missing number or id cell, other columns unchanged |
| Schema.CleanColumnKept | elite_options_system/core/strategies.py:370-417 | a clean column is left as it is |
| Schema.RepairColumnIdempotent | elite_options_system/core/strategies.py:370-417 | repairing a repaired column changes nothing |
| Schema.DefaultColumnStable | elite_options_system/core/strategies.py:359-417 | an added default column is already clean |
| Schema.CleanMeansUnchanged | elite_options_system/core/strategies.py:349-423 | a true flag means the frame comes back unchanged |
| Schema.DateCoercionLowersFlag | elite_options_system/core/strategies.py:382-398 | a `date` column that needs coercion lowers the flag, even when the coercion succeeds |
| Weights.ParseField | elite_options_system/core/strategies.py:452-453 | a field parses as one or two digits whose value is at most the bound |
| Weights.ParseClock | elite_options_system/core/strategies.py:452-453 | a parsed `%H:%M:%S` time is a valid time of day with zero microseconds |
| Weights.ParseFormatClock | elite_options_system/core/strategies.py:452-453 | formatting a time and parsing it back gives the time |
| Weights.Boundaries | elite_options_system/core/strategies.py:448-456 | the two boundaries are valid times, and reading them raises exactly when the definitions are not a dict |
| Weights.DefaultBoundaries | elite_options_system/core/strategies.py:448-456 | the built-in boundaries are 11:00:00 and 14:00:00 |
| Weights.Bucket | elite_options_system/core/strategies.py:458-459 | morning exactly before the morning end; midday from then until strictly before the midday end; final otherwise |
| Weights.BucketMonotone | elite_options_system/core/strategies.py:458-459 | a later time never gets an earlier bucket |
| Weights.DefaultBuckets | elite_options_system/core/strategies.py:448-459 | 10:59:59.999999 is morning; 11:00:00 and 13:59:59.999999 are midday; 14:00:00 is final |
| Weights.Regime | elite_options_system/core/strategies.py:477-481 | `low_iv` exactly when iv × 100 is below the threshold; NaN gives `high_iv` |
| Weights.VolatilitySet | elite_options_system/core/strategies.py:470-491 | a set is chosen only for a dict IV context holding a non-None value that converts to a float; the chosen set is a non-empty dict |
| Weights.TimeSet | elite_options_system/core/strategies.py:442-467 | a set chosen by time is a non-empty dict |
| Weights.TimeSetSteps | elite_options_system/core/strategies.py:442-467 | the set chosen by time is the configured set of the bucket, when it is a non-empty dict |
| Weights.DefaultTimeSet | elite_options_system/core/strategies.py:442-467 | with the built-in configuration the time policy gives the bucket's built-in set |
| Weights.SelectedSet | elite_options_system/core/strategies.py:439-493 | a selected set is a non-empty dict |
| Weights.DefaultSelection | elite_options_system/core/strategies.py:442-467 | the built-in configuration picks the morning, midday or final set by the bucket |
| Weights.UltimateFallbackIsMidday | elite_options_system/core/strategies.py:433-437 | the ultimate fallback is the built-in midday set |
| Weights.UltimateFallback | elite_options_system/core/strategies.py:433-437 | the ultimate fallback is never empty: it is the built-in midday set, or else the hard-coded failsafe set |
| Weights.ItemKey | elite_options_system/core/strategies.py:506-509 | an enabled methodology contributes `sdag_<m>_norm` and nothing else; a non-numeric weight raises TypeError |
| Weights.ItemKeyPositive | elite_options_system/core/strategies.py:507-509 | a methodology contributes its key exactly when its `weight_in_mspi` is above 0 |
| Weights.SdagKeys | elite_options_system/core/strategies.py:504-509 | the keys are exactly those the enabled methodologies contribute, and it raises exactly when one of them raises |
| Weights.ComponentKeys | elite_options_system/core/strategies.py:500-511 | the keys always include `dag_custom`, `tdpi` and `vri`; without a methodology dict they are exactly those |
| Weights.ComponentKeysExact | elite_options_system/core/strategies.py:500-511 | a key is present exactly when it is a base key or `sdag_<m>_norm` for an enabled m with positive weight |
| Weights.DefaultComponentKeys | elite_options_system/core/strategies.py:500-511 | with the built-in configuration the keys are the three base keys plus the multiplicative, weighted and volatility-focused norms |
| Weights.WeightValue | elite_options_system/core/strategies.py:515-519 | an absent key gives 0.0; a present value gives `float()` of it when that succeeds, else 0.0: a float gives itself, an int n gives n, a bool 1.0 or 0.0, text its parsed number or 0.0 when it does not parse, None, lists and dicts 0.0 |
| Weights.TextWeight | elite_options_system/core/strategies.py:515-517 | a weight written as the text of a whole number n reads as n |
| Text.NatTextParses | elite_options_system/core/strategies.py:517 | `float(str(n))` of a natural number n is n |
| Weights.Chosen | elite_options_system/core/strategies.py:495-497 | the selected set is used when there is one; otherwise the fallback, which is not empty |
| Weights.WeightsFrom | elite_options_system/core/strategies.py:513-519 | the weight map has exactly the component keys |
| Weights.FillWeights | elite_options_system/core/strategies.py:513-519 | the loop over the component keys fills exactly the weight map |
| Weights.WeightsSpec | elite_options_system/core/strategies.py:425-523 | the weights have exactly the component keys |
| Weights.GetWeights | elite_options_system/core/strategies.py:425-523 | the method returns exactly the specified weights |
| Weights.WeightsSteps | elite_options_system/core/strategies.py:495-519 | the weights are those of the chosen set, or of the midday fallback, over the component keys |
| Weights.FallbackIsMidday | elite_options_system/core/strategies.py:495-497 | when no set is selected, each weight is that of the built-in midday set |
| Weights.SelectedSetUsed | elite_options_system/core/strategies.py:495-519 | when a set is selected, each weight comes from it |
| Weights.DefaultWeights | elite_options_system/core/strategies.py:425-523 | the built-in configuration's weights, bucket by bucket |
| Atr.CellAt | elite_options_system/core/strategies.py:555-558 | a cell of an existing column at an existing row is that cell |
| Atr.RowBar | elite_options_system/core/strategies.py:548-549 | a row makes a bar exactly when it has a date and none of high, low or close is missing |
| Atr.DropMissing | elite_options_system/core/strategies.py:549 | `dropna` keeps only bars of complete rows and never adds rows |
| Atr.DropMissingKeeps | elite_options_system/core/strategies.py:549 | every complete row survives `dropna` |
| Atr.WithDates | elite_options_system/core/strategies.py:548 | the date column is coerced to a datetime column of the same length with only timestamps or NaT; the height and every other column stay |
| Atr.Insert | elite_options_system/core/strategies.py:552 | inserting keeps every bar (as a multiset) and adds one |
| Atr.SortByDate | elite_options_system/core/strategies.py:552 | sorting is a permutation of the bars |
| Atr.InsertSorted | elite_options_system/core/strategies.py:552 | inserting into a date-sorted list keeps it sorted |
| Atr.SortByDateSorted | elite_options_system/core/strategies.py:552 | the bars come out in ascending date order |
| Atr.SortedUnique | elite_options_system/core/strategies.py:552 | two date-ordered arrangements of the same bars with no repeated date are equal |
| Atr.SortByDateUnique | elite_options_system/core/strategies.py:552 | when no two bars share a date, any date-ordered permutation, such as the one quicksort gives, is exactly `SortByDate`'s result |
| Atr.Max3 | elite_options_system/core/strategies.py:560-561 | the row maximum with `skipna=False` is NaN exactly when one of the three is, and otherwise the largest of them |
| Atr.TrueRanges | elite_options_system/core/strategies.py:555-566 | one true range per bar; the first is high − low; each later one is NaN exactly when one of its three candidates is, and otherwise is at least each candidate and equal to one of them |
| Atr.SaneBarsSaneRanges | elite_options_system/core/strategies.py:555-566 | bars with finite prices and low ≤ high give finite, non-negative true ranges |
| Atr.Present | elite_options_system/core/strategies.py:568 | `dropna` keeps no NaN, nothing not in the input, and every non-NaN value of the input |
| Atr.PresentAppend | elite_options_system/core/strategies.py:568 | `dropna` of a concatenation is the concatenation of the two results, so the kept values stay in input order |
| Atr.PresentOne | elite_options_system/core/strategies.py:568 | on one value, NaN is dropped and anything else kept |
| Atr.PresentKeepsAll | elite_options_system/core/strategies.py:568 | with no NaN nothing is dropped |
| Atr.ExponentialMean | elite_options_system/core/strategies.py:572-575 | the recurrence loop with α = 2/15 computes the last EMA value |
| Atr.EmaBounds | elite_options_system/core/strategies.py:572-575 | the EMA of values in [lo, hi] is finite and in [lo, hi] |
| Atr.EmaConstant | elite_options_system/core/strategies.py:572-575 | the EMA of a constant series is that constant |
| Atr.HistoryEma | elite_options_system/core/strategies.py:533-587 | the history gives an EMA only when it is non-empty, passes the column check and leaves at least 14 complete rows |
| Atr.MinValue | elite_options_system/core/strategies.py:530 | reading `min_value` fails only by TypeError or ValueError |
| Atr.FallbackOf | elite_options_system/core/strategies.py:597-610 | computed from a section: a section that is not a dict raises AttributeError; without a positive price, or for another `type`, the result is `float(min_value)` of the section; for `percentage_of_price` and a usable price it is max(price × `float(percentage)`, `float(min_value)`); the only errors are AttributeError, TypeError and ValueError |
| Atr.FallbackAtr | elite_options_system/core/strategies.py:596-610 | a configured fallback section that is not a dict raises AttributeError; without a positive price the result is `float(min_value)`; for `percentage_of_price` and a usable price it is max(price × `float(percentage)`, `float(min_value)`); the only errors are AttributeError, TypeError and ValueError |
| Atr.AtrSpec | elite_options_system/core/strategies.py:525-612 | a `min_value` that does not convert raises first; with no history the fallback is used |
| Atr.CorrectedAtr | elite_options_system/core/strategies.py:525-612 | as `AtrSpec`, with the fallback's finiteness checks switched on |
| Atr.GetAtr | elite_options_system/core/strategies.py:525-612 | the method (copy, repair, drop, sort, EMA loop, fallback) computes exactly `_get_atr` as written |
| Atr.AtrSteps | elite_options_system/core/strategies.py:529-612 | a usable EMA gives max(EMA, min); otherwise the fallback is used |
| Atr.FallbackFloorMatches | elite_options_system/core/strategies.py:530-598 | a successful fallback read the same minimum as the first read |
| Atr.FallbackFloor | elite_options_system/core/strategies.py:596-610 | the fallback is never below its configured minimum, and is finite when the minimum is and non-finite prices are refused |
| Atr.AtrFloor | elite_options_system/core/strategies.py:525-612 | the ATR is never below the configured `min_value` |
| Atr.DefaultMinValue | elite_options_system/core/strategies.py:530 | the built-in minimum is 1.0 |
| Atr.DefaultFallback | elite_options_system/core/strategies.py:596-610 | with the built-in configuration the fallback is max(price × 0.005, 1.0) for a positive price, else 1.0 |
| Atr.DefaultSection | elite_options_system/core/strategies.py:596 | the built-in configuration chain gives the built-in `tdpi_atr_fallback` section |
| Atr.NoHistoryFallback | elite_options_system/core/strategies.py:529-610 | without history, once `min_value` converts, the estimate is the fallback of the configured section |
| Atr.BuiltInFallback | elite_options_system/core/strategies.py:596-610 | the built-in section gives max(price × 0.005, 1.0) for a usable positive price, else 1.0 |
| Atr.BuiltInFallbackExamples | elite_options_system/core/strategies.py:596-610 | the built-in section: price 100 gives 1.0, 1000 gives 5.0, none gives 1.0, +inf gives +inf as written and 1.0 with the finiteness checks |
| Atr.DefaultExamples | elite_options_system/core/strategies.py:596-610 | with no history, price 100 gives 1.0, price 1000 gives 5.0, no price gives 1.0 |
| Atr.CleanHistoryUnchanged | elite_options_system/core/strategies.py:540-546 | a history whose columns pass the check is used as it is |
| Atr.InfinitePriceGivesInfiniteAtr | elite_options_system/core/strategies.py:603-605 | as written, price +inf with no history gives ATR +inf; the corrected version gives 1.0 |
| Atr.CorrectedAtrFinite | elite_options_system/core/strategies.py:525-612 | with finiteness checks on the EMA and the price, the ATR is finite and at least the configured minimum |
| Stars.ScoreValue | elite_options_system/core/strategies.py:616-620 | an int or a finite float is used as it is; anything else non-numeric or non-finite counts as 0.0 |
| Stars.StarsFor | elite_options_system/core/strategies.py:629-639 | 0 to 5 stars; 5 exactly when the top cutoff is reached; 0 exactly when no cutoff is |
| Stars.MapScoreToStars | elite_options_system/core/strategies.py:614-642 | the result is in 0..5, and it fails exactly when reading the cutoffs fails |
| Stars.StarsMonotone | elite_options_system/core/strategies.py:629-639 | a higher score never gets fewer stars |
| Stars.StarsCountCutoffs | elite_options_system/core/strategies.py:629-639 | with descending cutoffs the stars are the number of cutoffs reached |
| Stars.ReadCutoffs | elite_options_system/core/strategies.py:622-627 | a recommendations section that is not a dict raises AttributeError; otherwise only TypeError or ValueError from `float()` |
| Stars.CutoffsFrom | elite_options_system/core/strategies.py:622-627 | each cutoff is `float()` of its key, or of its default; an empty section gives 4.0, 3.0, 2.0, 1.0 and 0.5 |
| Stars.DefaultReadCutoffs | elite_options_system/core/strategies.py:622-627 | the built-in cutoffs are 4.0, 3.0, 2.0, 1.0 and 0.5 |
| Stars.DefaultExamples | elite_options_system/core/strategies.py:614-642 | 3.5 gives 4, 4.0 gives 5, 0.4 gives 0, 2 gives 3, +inf and "5" give 0 |
| Thresholds.FloatList | elite_options_system/core/strategies.py:690 | converting a tier list succeeds exactly when every tier converts, giving one float per tier |
| Thresholds.FixedThreshold | elite_options_system/core/strategies.py:684-691 | a non-None `value` decides alone, giving its float or nothing; tiers are used only without a value, and a tier list given is non-empty and converted |
| Thresholds.FiniteValues | elite_options_system/core/strategies.py:698 | cleaning keeps exactly the finite values |
| Thresholds.ClampPercentile | elite_options_system/core/strategies.py:706-707 | the percentile is clamped into [0, 100] |
| Thresholds.InsertReal | elite_options_system/core/strategies.py:708 | inserting keeps every value and adds one |
| Thresholds.SortReals | elite_options_system/core/strategies.py:708 | sorting is a permutation |
| Thresholds.InsertRealSorted | elite_options_system/core/strategies.py:708 | inserting into a sorted list keeps it sorted |
| Thresholds.SortRealsSorted | elite_options_system/core/strategies.py:708 | the values come out sorted |
| Thresholds.SortSorted | elite_options_system/core/strategies.py:708 | sorting sorted values changes nothing |
| Thresholds.Interpolate | elite_options_system/core/strategies.py:708 | linear interpolation stays between the first and the last sorted value |
| Thresholds.Rank | elite_options_system/core/strategies.py:708 | the fractional rank p/100 × (n − 1) is between 0 and n − 1 |
| Thresholds.Percentile | elite_options_system/core/strategies.py:708 | the percentile lies between two of the values |
| Thresholds.RankEnds | elite_options_system/core/strategies.py:708 | percentile 0 is rank 0 and percentile 100 is rank n − 1 |
| Thresholds.RankMonotone | elite_options_system/core/strategies.py:708 | the rank grows with the percentile |
| Thresholds.InterpolateEnds | elite_options_system/core/strategies.py:708 | interpolation at the ends gives the first and the last value |
| Thresholds.InterpolateMonotone | elite_options_system/core/strategies.py:708 | interpolation grows with the rank |
| Thresholds.PercentileEnds | elite_options_system/core/strategies.py:708 | percentile 0 is the minimum and percentile 100 is the maximum |
| Thresholds.PercentileMonotone | elite_options_system/core/strategies.py:708 | the percentile grows with p |
| Thresholds.MedianExample | elite_options_system/core/strategies.py:708 | the 50th percentile of [1, 2, 3, 4, 5] is 3 |
| Thresholds.AbsAll | elite_options_system/core/strategies.py:711 | each value is replaced by its absolute value |
| Thresholds.MeanSeries | elite_options_system/core/strategies.py:711 | the series averaged has the cleaned series' length |
| Thresholds.RelativeThreshold | elite_options_system/core/strategies.py:705-719 | only the two relative kinds give a value, and it is one number; a percentile lies between two of the values |
| Thresholds.Computed | elite_options_system/core/strategies.py:678-722 | the kind `fixed` gives the fixed threshold; any other result needs a `relative_` kind and finite data, and is one number |
| Thresholds.SumBounds | elite_options_system/core/strategies.py:715 | a sum of values in [lo, hi] is between n × lo and n × hi |
| Thresholds.MeanWithin | elite_options_system/core/strategies.py:715 | the mean of values in [lo, hi] is in [lo, hi] |
| Thresholds.AboveAbsNonNegative | elite_options_system/core/strategies.py:709-716 | in `above_abs` mode a non-negative factor gives a non-negative threshold |
| Thresholds.CalculateDynamicThreshold | elite_options_system/core/strategies.py:676-740 | a result is given exactly when the calculation yields a finite value or an all-finite tier list, and it is that value |
| Thresholds.CalculatedIsFinite | elite_options_system/core/strategies.py:724-736 | every calculated threshold is finite |
| Thresholds.FixedValueWins | elite_options_system/core/strategies.py:684-688 | for `fixed`, a non-None `value` is the threshold, taking precedence over `tiers` |
| Thresholds.FixedTiers | elite_options_system/core/strategies.py:684-690 | without a value, a non-empty tier list gives the tiers exactly when every tier converts to a finite float |
| Thresholds.FixedNeedsValueOrTiers | elite_options_system/core/strategies.py:684-691 | `fixed` with no value and no non-empty tier list gives None |
| Thresholds.RelativeNeedsData | elite_options_system/core/strategies.py:693-701 | a `relative_` kind with no data, or no finite data, gives None |
| Thresholds.UnknownKind | elite_options_system/core/strategies.py:717-722 | any other kind gives None |
| Thresholds.PercentileThreshold | elite_options_system/core/strategies.py:705-708 | `relative_percentile` gives the clamped percentile of the finite values |
| Thresholds.MeanFactorThreshold | elite_options_system/core/strategies.py:709-716 | `relative_mean_factor` gives factor × mean (of absolute values in `above_abs` mode) when finite |
| Thresholds.MeanFactorValue | elite_options_system/core/strategies.py:709-716 | the mean-factor value is factor × mean of the series the mode picks |
| Thresholds.RelativePercentileExample | elite_options_system/core/strategies.py:705-708 | percentile 50 over [1, 2, 3, 4, 5] gives 3.0 |
| Thresholds.DynamicThreshold | elite_options_system/core/strategies.py:644-674 | a missing, empty or non-dict section gives None |
| Thresholds.WrapperChoice | elite_options_system/core/strategies.py:655-674 | a successful calculation is the answer; otherwise `fallback_value` is converted |
| Thresholds.WrapperSteps | elite_options_system/core/strategies.py:655-674 | the wrapper from its section: the calculated value, or the converted `fallback_value` |
| Thresholds.FallbackThreshold | elite_options_system/core/strategies.py:657-665 | None or a dict gives nothing; an int or a float gives itself; a list gives its floats exactly when every item converts |
| Thresholds.FallbackNotChecked | elite_options_system/core/strategies.py:657-665 | when the calculation fails, a configured number comes back even if it is NaN or infinite |
| Thresholds.DefaultSection | elite_options_system/core/strategies.py:646-647 | a named built-in threshold section is read from `DEFAULT_CONFIG` |
| Thresholds.DefaultSsiStructureChange | elite_options_system/core/strategies.py:644-674 | with no data, the built-in `ssi_structure_change` falls back to 0.3 |
| Thresholds.DefaultSsiStructureChangeOnData | elite_options_system/core/strategies.py:644-708 | over [1, 2, 3, 4, 5], the built-in `ssi_structure_change` (15th percentile) is 1.6 |
| Thresholds.Percentile15 | elite_options_system/core/strategies.py:708 | the 15th percentile of [1, 2, 3, 4, 5] is 1.6 |
| Thresholds.DefaultCfiFlowDivergence | elite_options_system/core/strategies.py:684-690 | the built-in `cfi_flow_divergence` is the tier list [0.75, 1.25] |
| Thresholds.DefaultSaiHighConviction | elite_options_system/core/strategies.py:684-688 | the built-in `sai_high_conviction` is 0.7 |
| Thresholds.DefaultVolExpansionOnData | elite_options_system/core/strategies.py:709-716 | over [1, 2, 3, 4, 5], outside `above_abs` mode, the built-in `vol_expansion_vri_trigger` (factor 1.5 × mean 3) is 4.5 |
| Thresholds.DefaultUnknownName | elite_options_system/core/strategies.py:647-653 | a name without a built-in section gives None |
| Levels.EnabledItems | elite_options_system/core/strategies.py:775-777 | reading the enabled methodologies fails only by TypeError, for a non-iterable `enabled` |
| Levels.Logic | elite_options_system/core/strategies.py:763-788 | the table holds exactly the present columns that are listed or are `sdag_<m>`/`sdag_<m>_norm` of an enabled m |
| Levels.Coerced | elite_options_system/core/strategies.py:797-802 | coercion keeps the height and the column names |
| Levels.CoercedColumn | elite_options_system/core/strategies.py:797-802 | a column keeps its length; a listed column outside the exempt ones is numeric; any other column is unchanged |
| Levels.CoerceColumns | elite_options_system/core/strategies.py:797-802 | the in-place coercion loop gives exactly the coerced frame |
| Levels.CoercedColumns | elite_options_system/core/strategies.py:797-802 | a listed column outside the exempt ones ends numeric; other columns are unchanged |
| Levels.Pairs | elite_options_system/core/strategies.py:804 | each row's strike is paired with its value |
| Levels.SumWhere | elite_options_system/core/strategies.py:804 | the sum over a strike's rows is finite when none is infinite |
| Levels.FirstWhere | elite_options_system/core/strategies.py:804 | "first" is NaN exactly when every value for the strike is NaN |
| Levels.FirstIsEarliest | elite_options_system/core/strategies.py:804 | otherwise "first" is the earliest non-NaN value of the strike |
| Levels.Fill | elite_options_system/core/strategies.py:806-816 | filling leaves no NaN; it keeps present values and gives 0.5 for `ssi`, else 0.0 |
| Levels.NeutralFill | elite_options_system/core/strategies.py:804-816 | a strike with no values gets 0.5 for `ssi` under "first", else 0.0 |
| Levels.NothingSumsToZero | elite_options_system/core/strategies.py:804 | summing no values gives 0 |
| Levels.SumIsRealSum | elite_options_system/core/strategies.py:804 | with no infinity, "sum" is the sum of the non-NaN values |
| Levels.Strikes | elite_options_system/core/strategies.py:755-757 | the groups are exactly the non-missing strikes |
| Levels.LevelRow | elite_options_system/core/strategies.py:804-816 | a strike's row has exactly the table's columns except the group column |
| Levels.Rows | elite_options_system/core/strategies.py:804 | there is one row per distinct non-missing strike |
| Levels.AggregateForLevels | elite_options_system/core/strategies.py:742-822 | no frame, an empty frame or a missing group column gives an empty result; the only failure is TypeError |
| Levels.AggregateSteps | elite_options_system/core/strategies.py:746-816 | with strikes and a non-empty table, the result is the grouped rows |
| Levels.OneRowPerStrike | elite_options_system/core/strategies.py:746-816 | one row per distinct strike, each with the table's columns and no NaN |
| Levels.StrikesNotMissing | elite_options_system/core/strategies.py:755-757 | every result strike occurs in the group column and is not missing |
| Levels.NoStrikesNoRows | elite_options_system/core/strategies.py:757-761 | all strikes missing gives an empty result |
| Levels.NoListedColumnNoRows | elite_options_system/core/strategies.py:785-792 | no column named in the table gives an empty result |
| Levels.CellValue | elite_options_system/core/strategies.py:797-816 | each cell is the column's table reduction over the strike's coerced values, then filled |
| Levels.NeverUntouched | elite_options_system/core/strategies.py:797-798 | a listed column other than the group is never an exempt one |
| Levels.SdagReductions | elite_options_system/core/strategies.py:777-783 | a present `sdag_<m>` is summed; a present `sdag_<m>_norm` that is no other methodology's raw column takes "first" |
| Levels.NormNeverSummed | elite_options_system/core/strategies.py:777-783 | when no enabled name ends in `_norm`, every `sdag_<m>_norm` takes "first" |
| Levels.NormNotSum | elite_options_system/core/strategies.py:777-783 | such a norm column is no methodology's raw column |
| Levels.SdagNotBase | elite_options_system/core/strategies.py:763-773 | an `sd…` column is not in the base table |
| Levels.BaseNotSdag | elite_options_system/core/strategies.py:763-773 | no base entry starts with `sd` |
| Levels.DefaultEnabledItems | elite_options_system/core/strategies.py:775-777 | the built-in methodologies are multiplicative, directional, weighted and volatility-focused |
| Levels.DefaultSdagColumns | elite_options_system/core/strategies.py:777-783 | with the built-in methodologies raw columns are summed and norm columns take "first" |
| TradingSystem.HistoryCapacity | elite_options_system/core/strategies.py:212-216 | the capacity is at least 1: the configured value when it is a positive int, else 5 |
| TradingSystem.IntegratedTradingSystem.constructor | elite_options_system/core/strategies.py:173-219 | the new system has the validated capacity, an empty history, no active recommendations, counter 0 and no managed symbol |
| TradingSystem.RejectedCapacity | elite_options_system/core/strategies.py:212-215 | a configured value that is not a positive int gives 5 |
| TradingSystem.AcceptedCapacity | elite_options_system/core/strategies.py:212-216 | a positive int gives itself, and `True` gives 1 |
| TradingSystem.MissingCapacity | elite_options_system/core/strategies.py:212-216 | a missing or None value gives the built-in 5 |
| DashboardUtils.ConfigValue | elite_options_system/dashboard/utils.py:114-134 | a non-dict cache gives the default; otherwise the value at the path, or the default when the walk fails |
| DashboardUtils.GetConfigValue | elite_options_system/dashboard/utils.py:100-134 | the loop over the path returns exactly that value, without raising |
| DashboardUtils.StoredNoneReturned | elite_options_system/dashboard/utils.py:119-125 | a stored None is returned as it is, not replaced by the default |
| DashboardUtils.EmptyPathWholeConfig | elite_options_system/dashboard/utils.py:114-125 | the empty path gives the whole configuration |
| DashboardUtils.ConfigValueAppend | elite_options_system/dashboard/utils.py:119-125 | walking p + q is walking q from the dict that p reaches |
| DashboardUtils.CacheTimeout | elite_options_system/dashboard/utils.py:177-182 | the configured timeout when it is a non-negative int (bool included), else 600 |
| DashboardUtils.Hit | elite_options_system/dashboard/utils.py:224-232 | a fresh dict bundle is returned exactly when its `processed_data` probe can run; otherwise AttributeError |
| DashboardUtils.TimeoutFallback | elite_options_system/dashboard/utils.py:177-182 | a missing or invalid timeout gives 600 |
| DashboardUtils.CacheRead | elite_options_system/dashboard/utils.py:196-235 | None exactly when the key is invalid or absent, the entry older than the timeout, or the bundle not a dict; otherwise the stored bundle, or AttributeError exactly when its `processed_data` is not a dict |
| DashboardUtils.CacheAfterRead | elite_options_system/dashboard/utils.py:200-224 | a read removes at most the key read, and nothing unless it returns None |
| DashboardUtils.StoreOutcome | elite_options_system/dashboard/utils.py:243-257 | a store raises AttributeError exactly for a valid key and a dict bundle whose `processed_data` is not a dict |
| DashboardUtils.CacheAfterStore | elite_options_system/dashboard/utils.py:243-276 | a storable bundle sets the key to (now, bundle); other keys are unchanged; an invalid key, a non-dict bundle or a raising probe changes nothing |
| DashboardUtils.ServerCache.constructor | elite_options_system/dashboard/utils.py:196-276 | a new cache is empty |
| DashboardUtils.ServerCache.Get | elite_options_system/dashboard/utils.py:196-235 | the method returns the specified read, raising where the probe raises, and leaves the specified entries |
| DashboardUtils.ServerCache.Store | elite_options_system/dashboard/utils.py:237-277 | the method returns the specified outcome and leaves exactly the specified entries |
| DashboardUtils.StoreThenRead | elite_options_system/dashboard/utils.py:207-276 | a dict bundle with a readable `processed_data`, stored and read within the timeout, comes back and the read changes nothing; any other dict bundle raises AttributeError and is not stored |
| DashboardUtils.ExpiryBoundary | elite_options_system/dashboard/utils.py:212-224 | age equal to the timeout is still read as a hit (or the probe's error); an older entry is a miss and is removed |
| DashboardUtils.MissIsFinal | elite_options_system/dashboard/utils.py:200-222 | after a read that returns None, the key stays a miss and is no longer stored |
| DashboardUtils.ReadIdempotent | elite_options_system/dashboard/utils.py:200-235 | reading again after a read gives the same outcome and the same entries |
| DashboardUtils.StoreLeavesOtherKeys | elite_options_system/dashboard/utils.py:276 | a store never changes the read of another key |
| DashboardUtils.StorablePreserved | elite_options_system/dashboard/utils.py:200-276 | reads and stores keep every stored bundle storable; then a read never raises, and misses exactly for an invalid, absent or expired key |
| DashboardUtils.StampText | elite_options_system/dashboard/utils.py:190 | the `%Y%m%d%H%M` text is twelve digits |
| DashboardUtils.StampRoundTrip | elite_options_system/dashboard/utils.py:190 | the minute can be read back from its text |
| DashboardUtils.Truncate | elite_options_system/dashboard/utils.py:189 | `int()` truncates toward zero |
| DashboardUtils.RangeValue | elite_options_system/dashboard/utils.py:189 | the range raises OverflowError exactly for an infinity; a value that is not a number gives 0 |
| DashboardUtils.GenerateCacheKey | elite_options_system/dashboard/utils.py:185-192 | a key is produced exactly when the range converts |
| DashboardUtils.KeyLayout | elite_options_system/dashboard/utils.py:189-192 | the key starts with the stripped, upper-cased symbol and `_`, and ends with the twelve digits of the minute |
| DashboardUtils.RangeNormalized | elite_options_system/dashboard/utils.py:189-191 | a range gives the same key as its integer value |
| DashboardUtils.KeysChangeEachMinute | elite_options_system/dashboard/utils.py:189-192 | two different minutes give two different keys |
| DashboardUtils.FormatStatusMessage | elite_options_system/dashboard/utils.py:281-316 | an error text gets `Error: ` unless it mentions error, failed or critical in any case; other text is unchanged |
| DashboardUtils.StyleOverlay | elite_options_system/dashboard/utils.py:286-314 | the style is the base style overlaid by the category style, the category winning |
| DashboardUtils.ErrorPrefixOnce | elite_options_system/dashboard/utils.py:297-299 | formatting an error text twice adds the prefix once |
| DashboardUtils.DefaultErrorStyle | elite_options_system/dashboard/utils.py:286-297 | without a configuration dict, the error style is the default base overlaid by the default error colours |
| DashboardUtils.LoadedIsSuccess | elite_options_system/dashboard/utils.py:301 | a message mentioning "loaded" takes the success style |

## Left out

- Reading and parsing the configuration file, and resolving its path (`elite_options_system/core/strategies.py:232-257`). The model starts from the parsed value, or none.
- `load_app_config` and the module-global `CONFIG_CACHE` in `elite_options_system/dashboard/utils.py:54-98`. The cached configuration is a parameter.
- The other `__init__` settings: the column names and the log level.
- All logging, including the messages about the type of `options_chain` in the cache functions. The `.get` probe before them is modelled, with its AttributeError.
- `copy.deepcopy`: values are immutable here, so a copy is equal to its original.
- The placeholder methods at `elite_options_system/core/strategies.py:839-964`. They return constants, so there is no behaviour to specify.
- `create_empty_figure`, which builds a Plotly figure.
- `parse_timestamp`, which wraps a foreign date parser.
- The `html.Div` wrapper: `FormatStatusMessage` gives only the text.
- IEEE rounding, overflow and subnormals. Finite floats are exact reals, so sums, products and EMA values are not rounded.
- `float()` of a very large Python int (OverflowError) is not modelled.
- Row order and the index of the aggregated frame. `AggregateForLevels` returns a map from strike to row, so the sorting of mixed-type strike keys by `groupby` is not modelled.
- Levels.AggregateForLevels: a group column that is itself listed in the aggregation table is not aggregated as pandas would (its row leaves it out).
- Levels.Logic: a column that is both `sdag_<m>` of one methodology and `sdag_<n>_norm` of another is treated as "sum". In the source the answer depends on the order of the enabled list.
- Text.Upper and Text.Lower: they treat only ASCII letters. Python also changes the case of other letters.
- DashboardUtils.StampText: `%Y` is always four zero-padded digits. The C library may leave years below 1000 unpadded.
- Atr.GetAtr: the `except Exception` around the history branch is not modelled, because nothing in that branch of the model can fail.
- Schema.AsDatetime: only the ISO forms `YYYY-MM-DD` and `YYYY-MM-DD HH:MM:SS` (or with `T`), timestamps, and whole numbers read as nanoseconds are converted. Other text formats, format inference, fractional seconds, time zones and non-whole numbers become NaT in the model, where pandas may read them.
- Schema.AsText and Schema.RenderedText: a float that is not whole is written as the stand-in `<float>` instead of Python's shortest repr; a timestamp is written as its nanosecond count instead of `2024-01-05 00:00:00`; NaT in a datetime column is written `None` instead of `NaT`. Whole floats of magnitude 1e16 or more, which Python writes in exponent form (`1e+16`), also get the stand-in. Only texts, whole floats below 1e16, NaN and the infinities are written as Python writes them.
- Schema.AsText and Schema.RenderedText: integer and bool columns are modelled as float columns, since `Frames.Cell` has no integer or bool cell. So `astype(str)` of an int64 id column (an epoch `fetch_timestamp`, an `expiration_date` such as 20240105) is written `<n>.0` where pandas writes `<n>`, and a bool column is written `1.0`/`0.0` where pandas writes `True`/`False`.
- Atr.SortByDate: it keeps the input order of bars with the same date. pandas' default quicksort is not stable, so bars sharing a date may come out in another order, and the true ranges after them can differ. When no two bars share a date the order is the same (`Atr.SortByDateUnique`).
- Frames.ToNumericCell: a timestamp becomes NaN, while `pd.to_numeric` gives its nanosecond count.
- Json.StrOf: a float gives nothing, so `f"sdag_{3.5}"` and a float IV-percentile key are not modelled; those inputs select nothing.
- Weights.ParseClock and Text.ParseNumber: `_` digit separators and non-ASCII digits are refused, where Python accepts them.
- Weights.GetWeights: the current time is a parameter, so the `datetime.now()` default is not modelled, and neither is a current time that is not a `time` at all.

## Findings

| source | as written | input that shows it | evidently intended | confidence | as-written member | corrected member |
|---|---|---|---|---|---|---|
| elite_options_system/core/strategies.py:603-605 | the price fallback accepts any price that `pd.notna` passes and that is above 0, including +inf, and returns max(price × percentage, min_value) | price `float('inf')` with no history and the built-in configuration: the ATR is +inf | an ATR that is always finite and at least the configured minimum; a non-finite price (or EMA) is not used | not executed | Atr.InfinitePriceGivesInfiniteAtr | Atr.CorrectedAtrFinite |
