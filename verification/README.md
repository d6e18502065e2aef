# canary detectors and backends in Dafny

canary is a small HTTP service that decides whether the latest points of a
time series are anomalous. This project models its algorithmic core:

- **Detectors** (`canary/skyline.py`, `canary/outlier.py`).
  - MedianAbsoluteDeviation: the last value's distance from the median, against the median of all distances.
  - StddevFromAverage: the three-point tail average against the mean and three sample standard deviations.
  - FirstHourAverage: the same test against a baseline of the records stamped before a cutoff.
  - Tukey: the interquartile-range outlier filter, which returns whole records.
- **Shared helpers** (`canary/utils.py`): the three-point tail average with its `IndexError` fallback, and the retrieval step that hands the caller's parameters to a backend.
- **Backends** (`canary/backend.py`).
  - The InfluxDB and Graphite adapters. Each adds a default `protocol` to the caller's dictionary in place, builds a URL and query, and reports its column layout. InfluxDB is (time, value) and Graphite is (value, time).
  - The dispatch on the backend name.
  - The enumeration of `backend_*` names.

Modules:

| file | module | contents |
|---|---|---|
| `common.dfy` | `Common` | `Option` |
| `series.dfy` | `Series` | records as `seq<real>`, columns, `np.where` (`Where`), fancy indexing (`Gather`), the Influx/Graphite column swap |
| `stats.dfy` | `Stats` | sum, mean, sample variance, insertion sort, median, numpy's linear-interpolation percentile |
| `backend.dfy` | `Backend` | adapters, the mutated parameter dictionary (`class ParamDict`), dispatch, enumeration, a URL parser used as the builder's inverse |
| `utils.dfy` | `Utils` | tail average, backend retrieval |
| `skyline.dfy` | `Skyline` | the three Skyline detectors |
| `outlier.dfy` | `Outlier` | the Tukey filter |

Observations are exact `real`s. A test `|d| > 3 * std` is decided as
`d * d > 9 * variance`, which needs no square root. The lemma
`Skyline.ThreeSigmaSquared` shows that the two tests agree for any
non-negative square root of the variance.

Where pandas would compute a standard deviation of fewer than two values,
the result is NaN and every comparison with it is false. The detectors
answer `false` there.

Where the source raises, the model excludes the input by a precondition:
- the series is empty;
- a record lacks the value column;
- an empty series reaches `series[:, vidx]` in `Tukey._work`.

The clock reading that `FirstHourAverage` takes from `time()` is a
parameter `now`.

Two names the detectors call are never imported, `tail_avg` and
`_tail_avg`, so each call would raise `NameError`. The model uses the
evidently intended `utils._tail_avg`. `time` is imported as a module
(`canary/skyline.py:4`), so `time()` would raise `TypeError`; the model reads
it as the current time, `time.time()`.

`backend_retreival` builds a `falcon.HTTPBadRequest` when the `backend`
parameter is missing, but never raises it. So nothing is fetched and the
result is `None`; `Utils.BackendRetrieval` models exactly that.

`Tukey._work` (`canary/outlier.py:33-53`) always returns the list of
outlying records; there is no mode that returns one boolean for the last
record.

## Model

| member | source | states |
|---|---|---|
| Series.Column | canary/skyline.py:33 | `[x[vidx] for x in timeseries]`: one value per record, in order, each the record's `vidx` entry |
| Series.Where | canary/outlier.py:46-47 | `np.where(values < bound)` (or `>`): strictly increasing positions; every listed position is beyond the bound, and every position beyond it is listed |
| Series.WhereNone | canary/outlier.py:46-47 | when no value is beyond the bound, nothing is selected |
| Series.Gather | canary/outlier.py:53 | `series[indexes]`: one record per index, in index order, each the input record at that index |
| Series.SwapColumns | canary/backend.py:87 | the Graphite (value, time) layout of an InfluxDB (time, value) series: each pair reversed |
| Series.SwapColumnsMirrors | canary/backend.py:49 | the swap exchanges the time and value columns and is its own inverse |
| Stats.DivisionThreshold | canary/skyline.py:44-48 | arithmetic helper for the quotient test: for a positive divisor, `x / d > t` holds exactly when `x > t * d` |
| Stats.SumOfConstant | canary/skyline.py:133 | the sum of `n` copies of `c` is `n * c` |
| Stats.MeanOfConstant | canary/skyline.py:133 | the mean of a constant series is that constant |
| Stats.SquaredDeviationsNonnegative | canary/skyline.py:134 | a sum of squared deviations is never negative |
| Stats.SquaredDeviationsOfConstant | canary/skyline.py:134 | a constant series has no deviation from its constant |
| Stats.SampleVariance | canary/skyline.py:134 | definition of pandas' `std()` squared (divisor `n - 1`); properties in SampleVarianceNonnegative, SampleVarianceOfConstant and ThreeSigmaSquared |
| Stats.SampleVarianceNonnegative | canary/skyline.py:134 | pandas' sample variance (divisor `n - 1`) is never negative |
| Stats.SampleVarianceOfConstant | canary/skyline.py:134 | the sample variance of a constant series is zero |
| Stats.Insert | canary/skyline.py:34 | inserting into a sorted sequence keeps it sorted and adds exactly that value |
| Stats.Sort | canary/skyline.py:34 | the sort behind pandas' median: sorted, and a permutation of its input |
| Stats.SortedHeadsAgree | canary/skyline.py:34 | two sorted permutations of each other start with the same value, and their tails are permutations of each other |
| Stats.SortedUnique | canary/skyline.py:34 | two sorted permutations of each other are equal, so the sorted order is unique |
| Stats.SortOfSorted | canary/skyline.py:34 | sorting a sorted sequence changes nothing |
| Stats.SortedFromInput | canary/skyline.py:34 | every order statistic is one of the input values |
| Stats.SortPreservesLength | canary/skyline.py:34 | sorting keeps the length |
| Stats.MiddleOfSortedBetween | canary/skyline.py:34 | the middle of a sorted sequence lies between its two middle entries |
| Stats.Median | canary/skyline.py:34 | definition of pandas' `median()` (middle of the sorted values, mean of the two middles for even length); properties in MedianBetweenMiddles, MedianOfPermutation, MedianOfConstant and MedianIsFiftiethPercentile |
| Stats.MedianBetweenMiddles | canary/skyline.py:34 | the median lies between the two middle order statistics (and is the middle one for odd length) |
| Stats.MedianOfPermutation | canary/skyline.py:34 | the median does not depend on the order of the values |
| Stats.MedianNonnegative | canary/skyline.py:36 | the median of non-negative values is non-negative |
| Stats.MedianOfConstant | canary/skyline.py:34 | the median of a constant series is that constant |
| Stats.InterpolateBetween | canary/outlier.py:38 | linear interpolation with a weight in [0, 1] stays between its two ends, and a zero weight gives the lower end |
| Stats.InterpolateMonotone | canary/outlier.py:38 | arithmetic helper for PercentileMonotone: more weight on the larger end never gives a smaller result |
| Stats.RankOf | canary/outlier.py:38 | numpy's fractional rank `p / 100 * (n - 1)` lies in `[0, n - 1]`, so both neighbouring order statistics exist |
| Stats.RankMonotone | canary/outlier.py:38 | a higher percentile has a rank at least as high |
| Stats.Percentile | canary/outlier.py:38 | definition of numpy's linear-interpolation `np.percentile`; properties in PercentileBetweenNeighbours, PercentileMonotone, PercentileOfConstant and MedianIsFiftiethPercentile |
| Stats.PercentileBetweenNeighbours | canary/outlier.py:38 | a linearly interpolated percentile lies between its two neighbouring order statistics, and equals the lower one at a whole rank |
| Stats.PercentileMonotone | canary/outlier.py:38 | a higher percentile is never below a lower one |
| Stats.PercentileOfConstant | canary/outlier.py:38 | every percentile of a constant series is that constant |
| Stats.MedianIsFiftiethPercentile | canary/outlier.py:38 | the 50th linear percentile is the median, so the two definitions agree |
| Backend.WithDefaultProtocol | canary/backend.py:33-34 | the dictionary gains `protocol = "http"` only when it has no protocol; a given protocol and every other entry are kept |
| Backend.DefaultProtocolIdempotent | canary/backend.py:70-71 | defaulting twice equals defaulting once; a dictionary with a protocol is unchanged |
| Backend.FirstMissing | canary/backend.py:36-45 | the first required key, in Python's lookup order, that the dictionary lacks (the `KeyError` raised), or none when all are present |
| Backend.InfluxQuery | canary/backend.py:41-45 | the InfluxDB query has exactly the keys `db`, `epoch` and `q` |
| Backend.GraphiteQuery | canary/backend.py:78-83 | the Graphite query has exactly the keys `target`, `from`, `until` and `format` |
| Backend.Build | canary/backend.py:36-49 | a request built from complete parameters carries the adapter's (time, value) indices, (0, 1) or (1, 0), and exactly its query keys |
| Backend.AdapterRequest | canary/backend.py:36-45 | the request succeeds exactly when every required key is present, and is then the built request. Otherwise the error names the first missing key in lookup order |
| Backend.InfluxQueryNamesSeries | canary/backend.py:41-45 | the InfluxDB query passes `db` and `epoch` through, and `q` is `select value from ` followed by the series name |
| Backend.GraphiteQueryRange | canary/backend.py:78-83 | the Graphite query passes `target`, `from` and `until` through and asks for `format = json` |
| Backend.SplitAt | canary/backend.py:36-39 | helper of the URL parser, the inverse of the URL format (not in the source): splitting at the first separator, rejoining the parts gives the text back, and the first part holds no separator |
| Backend.SplitAtJoin | canary/backend.py:36-39 | helper of the URL parser (not in the source): splitting a joined text at a separator absent from its first part recovers both parts |
| Backend.Url | canary/backend.py:36-39 | definition of the `{protocol}://{host}:{port}{path}` format; properties in UrlRoundTrip and RequestUrlRoundTrip |
| Backend.AuthorityRoundTrip | canary/backend.py:36-39 | `host:port/path` parses back into host, port and path |
| Backend.SchemeRoundTrip | canary/backend.py:36 | `protocol://` followed by a parsable authority parses back into the protocol and the authority's parts |
| Backend.UrlRoundTrip | canary/backend.py:36-39 | a URL built as `{protocol}://{host}:{port}{path}` parses back into the same four parts |
| Backend.RequestUrlRoundTrip | canary/backend.py:73-76 | a built request's URL determines the caller's protocol, host and port and the adapter's path (`/query` or `/render`) |
| Backend.AdapterFor | canary/backend.py:89-93 | `"influxdb"` selects the InfluxDB adapter, `"graphite"` the Graphite one, and nothing else selects either |
| Backend.ParamDict.constructor | canary/backend.py:14 | the dictionary starts with the caller's entries |
| Backend.SetDefaultProtocol | canary/backend.py:33-34 | updates the caller's dictionary in place to its protocol-defaulted form |
| Backend.BackendInfluxDb | canary/backend.py:14-49 | defaults the protocol in the caller's dictionary, then builds the InfluxDB request from the updated entries |
| Backend.BackendGraphite | canary/backend.py:51-87 | defaults the protocol in the caller's dictionary, then builds the Graphite request from the updated entries |
| Backend.PullBackend | canary/backend.py:89-93 | a known name runs its adapter, changing the dictionary only by the protocol default. Any other name yields nothing and leaves the dictionary unchanged |
| Backend.GetBackends | canary/backend.py:95-97 | a name is listed exactly when `backend_` followed by it is among the scanned names; the list is no longer than the scan |
| Backend.PrefixedHasPrefix | canary/backend.py:97 | `backend_` + x passes the `x[:8] == "backend_"` test |
| Backend.OnlyAdaptersStartWithB | canary/backend.py:97 | list helper for BackendsEnumerated: among the module's names only the two adapter functions begin with `b` |
| Backend.PrefixedModuleName | canary/backend.py:95-97 | `backend_` + x is a module name exactly for `influxdb` and `graphite` |
| Backend.BackendsEnumerated | canary/backend.py:95-97 | over the module's names the enumeration yields exactly `influxdb` and `graphite` |
| Backend.EnumerationMatchesDispatch | canary/backend.py:89-97 | a name is enumerated exactly when the dispatch accepts it |
| Utils.TailAvg | canary/utils.py:5-17 | with three or more records whose last three carry the column, the mean of those three values; with fewer than three records, or when `ts[-2]` or `ts[-3]` lacks the column (the `IndexError` fallback), the last value |
| Utils.TailAvgReadsOnlyTail | canary/utils.py:12-17 | only the value column of the last three records matters: two series of one length whose last three records carry the column at the same places, with the same values, have the same tail average |
| Utils.TailAvgOfConstant | canary/utils.py:12-17 | when the last (up to) three records carry the same value, that value is the tail average |
| Utils.TailAvgWithinWindow | canary/utils.py:12-17 | the tail average lies between the smallest and the largest value present in the last three records |
| Utils.BackendRetrieval | canary/utils.py:20-25 | with a `backend` parameter, the whole dictionary goes to the dispatch; without one, nothing is fetched and the dictionary is untouched |
| Skyline.SquareStrictlyMonotone | canary/skyline.py:109 | arithmetic helper for ThreeSigmaSquared: squaring is strictly increasing on non-negative reals |
| Skyline.ThreeSigmaSquared | canary/skyline.py:137 | the squared test `d * d > 9 * variance` is `abs(d) > 3 * std` for any non-negative root `std` of the variance |
| Skyline.AbsDeviations | canary/skyline.py:35 | `np.abs(series - median)`: one distance per value, so the length is kept; entries in AbsDeviationsAt |
| Skyline.AbsDeviationsAt | canary/skyline.py:35 | `np.abs(series - median)`: each entry is the distance of the matching value from the median |
| Skyline.MedianDeviation | canary/skyline.py:36 | definition of `demedianed.median()`; properties in MedianDeviationNonnegative, MadQuietOnConstant and MadBlindSpot |
| Skyline.MedianAbsoluteDeviation | canary/skyline.py:31-51 | definition of `MedianAbsoluteDeviation._work` on the value column; properties in MadVerdict, MadMonotoneInThreshold, MadQuietOnConstant, MadBlindSpot and DetectorsAgreeAcrossLayouts |
| Skyline.MedianDeviationNonnegative | canary/skyline.py:35-36 | the median deviation is never negative |
| Skyline.ExceedsVerdict | canary/skyline.py:44-51 | for a positive spread, the quotient test `x / spread > t` is `x > t * spread` |
| Skyline.ExceedsMonotone | canary/skyline.py:48-51 | passing a threshold means passing every smaller one |
| Skyline.MadQuietWhenDeviationZero | canary/skyline.py:41-42 | a zero median deviation answers false at every threshold |
| Skyline.MadTestVerdict | canary/skyline.py:33-51 | with a non-zero median deviation, anomalous exactly when the last value lies more than `threshold` median deviations from the median |
| Skyline.MadVerdict | canary/skyline.py:31-51 | the same verdict, stated on the series' value column |
| Skyline.MadMonotoneInThreshold | canary/skyline.py:48-51 | a series flagged at one threshold is flagged at every smaller one |
| Skyline.MadQuietOnConstant | canary/skyline.py:31-42 | a constant series is never flagged, because its median deviation is zero |
| Skyline.MadBlindSpot | canary/skyline.py:38-42 | four equal values followed by a far outlier are not flagged: the median deviation is zero |
| Skyline.StddevFromAverage | canary/skyline.py:130-137 | definition of `StddevFromAverage._work` with the tail read from the value column (corrected, see Findings); properties in StddevFromAverageVerdict, StddevFromAverageQuietOnConstant, StddevFromAverageReadsValueColumn and DetectorsAgreeAcrossLayouts |
| Skyline.StddevFromAverageAsWritten | canary/skyline.py:130-137 | definition of `StddevFromAverage._work` as written, with the tail read from column 1; the discrepancy in StddevFromAverageAsWrittenReadsTimestamps |
| Skyline.StddevFromAverageVerdict | canary/skyline.py:130-137 | with two or more values, anomalous exactly when the tail average lies more than three sample standard deviations from the mean |
| Skyline.StddevFromAverageQuietOnConstant | canary/skyline.py:130-137 | a constant series, or a single record, is never flagged |
| Skyline.StddevFromAverageReadsValueColumn | canary/skyline.py:132-135 | the verdict depends on the value column only, and not on the timestamps |
| Skyline.StddevFromAverageAsWrittenReadsTimestamps | canary/skyline.py:135 | as written, a Graphite-layout series has its timestamps averaged as the tail, so a series that is not anomalous gets flagged |
| Skyline.FirstHourBaseline | canary/skyline.py:103-104 | definition of `[x[vidx] for x in timeseries if x[tidx] < last_hour_threshold]`; properties in FirstHourBaselineExact |
| Skyline.FirstHourAverage | canary/skyline.py:100-109 | definition of `FirstHourAverage._work` with the clock reading `now` passed in; properties in FirstHourAverageVerdict, FirstHourAverageQuietOnConstant and DetectorsAgreeAcrossLayouts |
| Skyline.FirstHourBaselineExact | canary/skyline.py:103-104 | the baseline is exactly the values of the records stamped before `now - (fullDuration - 3600)`, in series order |
| Skyline.FirstHourAverageVerdict | canary/skyline.py:100-109 | with a baseline of two or more values, anomalous exactly when the tail average lies more than three baseline standard deviations from the baseline mean |
| Skyline.FirstHourAverageQuietOnConstant | canary/skyline.py:100-109 | a constant value column is never flagged, whatever the timestamps and the clock |
| Skyline.DetectorsAgreeAcrossLayouts | canary/skyline.py:31-33 | given the same observations in the InfluxDB and Graphite layouts with each adapter's indices, the tail average and every modelled detector, StddevFromAverage in its corrected form, give the same result |
| Outlier.ResolveThreshold | canary/outlier.py:22-28 | a present non-zero integer threshold is used as given; an absent or zero one leaves the default 1.5; the result is never zero |
| Outlier.QuartilesOrdered | canary/outlier.py:38-39 | `q25 <= q75`, so the interquartile range is never negative |
| Outlier.FencesAround | canary/outlier.py:39-43 | for ordered quartiles and a non-negative `k`, `low <= q25 <= q75 <= high`. Equal quartiles give fences equal to them |
| Outlier.FencesOrdered | canary/outlier.py:38-43 | for `k >= 0`, the Tukey fences of a series enclose both of its quartiles |
| Outlier.OutlierPositions | canary/outlier.py:46-50 | the concatenated low and high positions all index the series |
| Outlier.Beyond | canary/outlier.py:46-53 | definition of `series[indexes]` for the low then high positions; properties in BeyondReturnsOnlyOutliers, BeyondReturnsEveryOutlier, BeyondOrder and BeyondNoDuplicates |
| Outlier.BeyondReturnsOnlyOutliers | canary/outlier.py:46-53 | every returned item is a whole input record whose value lies strictly outside the fences |
| Outlier.BeyondReturnsEveryOutlier | canary/outlier.py:46-53 | every input record whose value lies strictly outside the fences is returned |
| Outlier.BeyondOrder | canary/outlier.py:46-50 | the output is the records at `lows` then at `highs`, where `lows` lists every position below the low fence and `highs` every position above the high fence, each in increasing order |
| Outlier.BeyondNoDuplicates | canary/outlier.py:42-50 | with fences that do not cross, no position is selected twice and at most every record is returned |
| Outlier.WhereSidesCount | canary/outlier.py:46-47 | with `low <= high`, the two selections together are no longer than the series |
| Outlier.TukeyWork | canary/outlier.py:33-53 | definition of `Tukey._work`: the records beyond the Tukey fences of the value column; properties in TukeySelectsOutliers, TukeyQuietOnConstant and TukeyAgreesAcrossLayouts |
| Outlier.TukeyRun | canary/outlier.py:20-28 | definition of `Tukey._run`: `_work` at the resolved threshold; properties in TukeyRunZeroIsDefault |
| Outlier.TukeySelectsOutliers | canary/outlier.py:33-53 | `Tukey._work` returns exactly the input records outside the Tukey fences. For `k >= 0` it returns at most `len(timeseries)` records |
| Outlier.TukeyQuietOnConstant | canary/outlier.py:39-47 | a constant series has no outliers: its interquartile range is zero and the comparisons are strict |
| Outlier.TukeyRunZeroIsDefault | canary/outlier.py:20-28 | a zero `outlier_threshold` behaves exactly like an absent one, which uses 1.5 |
| Outlier.TukeyAgreesAcrossLayouts | canary/outlier.py:33-35 | on the Graphite layout the filter returns the mirror image of what it returns on the InfluxDB layout |

## Left out

- Grubbs (`canary/skyline.py:68-81`): it needs the inverse Student-t distribution and square roots, which are foreign floating-point library calls.
- Floating point: values are exact reals. The only NaN behaviour modelled is pandas' std of fewer than two values, which makes every comparison false.
- Utils.TailAvg: does not model Python 2's integer division of `/ 3` when all three values are integers; the model divides exactly.
- The network: `requests.get` and the extraction of rows from the JSON response (`canary/backend.py:47-49, 85-87`). An adapter's result stops at the request (URL and query) and the column indices.
- Backend.GetBackends: `globals()` reflection is modelled as a scan over an explicit list of the module's names (`Backend.ModuleNames`).
- The falcon handlers (`on_get`, `on_post`, `on_put`), response bodies and statuses, and the routing in `canary/app.py` are HTTP plumbing.
- Outlier.ResolveThreshold: falcon's `get_param_as_int` parsing and its error for a non-integer parameter are not modelled; the parameter arrives already parsed, or absent.
- Python's negative indexing is modelled only where the source uses it: `[-1]`, `[-2]`, `[-3]` in the tail average and `.iat[-1]`.
- Ragged series: numpy's `series[:, vidx]` on rows of unequal length is not modelled. MedianAbsoluteDeviation, StddevFromAverage and Tukey require every record to carry the value column, as `[x[vidx] for x in timeseries]` and `series[:, vidx]` do. FirstHourAverage requires it only of the records stamped before the cutoff and of the last record, as `canary/skyline.py:104` and the tail average require no other values (the tail average falls back to the last value when an earlier record of its window lacks the column).
- Skyline.MedianAbsoluteDeviation, Skyline.StddevFromAverage and `Tukey._work` (`canary/outlier.py:33`) accept a `tidx` parameter in the source that they never read; the model omits it.
- Skyline.MadVerdict: the median deviation is passed in as `spread`, fixed by a precondition to equal `MedianDeviation`, rather than written into the conclusion.
- The unimported names `tail_avg` and `_tail_avg` are modelled as the intended helper, not as the `NameError` the code would raise. The call `time()` on the imported `time` module is modelled as a clock parameter, not as the `TypeError` it would raise.

## Findings

| source | as written | input that shows it | evidently intended | confidence | as-written member | corrected member |
|---|---|---|---|---|---|---|
| canary/skyline.py:135 | the tail average is taken with the default indices, so it reads column 1 whatever `vidx` is | the Graphite-layout series `[[1, 100], [2, 200], [3, 300]]` with `vidx = 0`: as written the tail is 200 against a mean of 2 and std 1, so it is flagged | the tail average of the value column, passing `vidx` on, as FirstHourAverage does | not executed | Skyline.StddevFromAverageAsWrittenReadsTimestamps | Skyline.StddevFromAverageReadsValueColumn |
