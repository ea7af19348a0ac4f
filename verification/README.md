# P16 insights dashboard — a verified model of its data pipeline

P16 shows the activity of one GitHub repository over time: stars, forks,
pull requests, release downloads, issues and commit contributions, each
as a daily series with a `date` column and one value column. Three layers
produce these series, and this project models all three in Dafny.

- **Fetchers** (`fetchers/github_fetcher.py`) talk to GitHub.
  - `_request` makes up to three GETs, retrying while GitHub answers 403.
  - Each fetcher walks REST pages or GraphQL cursors, turns the event
    timestamps into days and sums them per day.
  - Commit statistics expand weekly buckets into days, with a fallback to
    the commits endpoint.
  - Downloads sum the asset counters of each release.
  - `fetch_all` gathers all six series.
- **DataManager** (`data_manager.py`) keeps one CSV per metric.
  - It fetches when forced or when the file is older than the threshold.
  - It narrows fetched frames to the metric's two expected columns.
  - It turns every failure into an empty frame of the right schema.
  - For a date range, it reuses a covering cache or refetches and merges
    the fresh rows into the cached ones.
- **The dashboard** (`app.py`) loads the six series with a chain of
  fallbacks. It filters them to a date range, sums them, checks that they
  look like daily counts, and converts them for plotting.

What the model treats as data:

- Every day is an integer day number.
- A data frame is a `Table`: its column labels and its `(date, value)` rows.
- GitHub's answers are a finite sequence of pages or GraphQL answers.
  Asking past the end gets a failed answer.
- The cache directory is a map from metric to file, holding the frame and
  its modification time.
- Fetcher exceptions, write failures and the clock are inputs.

Modules:

| file | module | models |
|---|---|---|
| `wrappers.dfy` | `Wrappers` | `Option` |
| `series.dfy` | `Series` | daily series: group-by-day sums, running sums, duplicate removal, sorting, the cache merge |
| `metrics.dfy` | `Metrics` | the six metric types, their schemas, frames, and the shared "group by date" tail of the fetchers |
| `transport.dfy` | `Transport` | `_request`'s retry and backoff |
| `paging.dfy` | `Paging` | the REST page loop and the GraphQL cursor loop, with their stop conditions |
| `fetchers.dfy` | `Fetchers` | the six fetchers and `fetch_all` |
| `cache.dfy` | `Cache` | `DataManager`: staleness, fetch-and-save, `get_data`, range retrieval with merge, forced fetch |
| `app.py` → `app.dfy` | `Dashboard` | `get_data`'s fallbacks, `filter_by_date`, the sum helpers, `validate_data_quality`, `to_plotly_xy` |

Where the code and its documentation disagree, the model follows the code:

- The range merge keeps the **cached** value when a date appears in both
  the cache and the fresh fetch. The frames are concatenated cached-first
  and duplicates keep their first row (`data_manager.py:196-198`). A
  fresh-wins merge would be the alternative; the code keeps the cached row.
  `Cache.RangeMergeKeepsCached` states the behaviour as written.
- Two defects in the GraphQL readers, described under Findings, are
  modelled as written: `Fetchers.ForksFetch` and `Fetchers.FetchAll` return
  the running forks sum and the always-empty issues frame, as the code does.
  `Fetchers.FetchAllCorrected` composes the corrected readers, and
  `Fetchers.CorrectionScope`, `Fetchers.AsWrittenIssuesEmpty` and
  `Fetchers.CorrectedForksAreDeltas` relate the two versions.

## Model

| member | source | states |
|---|---|---|
| Series.GroupSumProperties | fetchers/github_fetcher.py:145-146 | grouping by date and summing gives one row per date, strictly ascending, with exactly the input's dates, per-date sums and total |
| Series.GroupSumPositive | fetchers/github_fetcher.py:610-615 | grouping positive counts yields positive daily values |
| Series.CumSumShape | fetchers/github_fetcher.py:294-295 | a running sum of non-negative counts never decreases and ends at the total |
| Series.DeltasUndoRunning | fetchers/github_fetcher.py:294-295 | differencing a running sum gives back the daily series |
| Series.KeepFirstProperties | data_manager.py:198 | dropping duplicate dates leaves distinct dates, drawn from the input, keeping the first value seen for each date |
| Series.SortByDateProperties | data_manager.py:198 | sorting by date yields a date-ordered permutation with the same dates; distinct dates stay distinct |
| Series.MergeProperties | data_manager.py:196-198 | the merge of cached and fresh rows is strictly ascending, covers the union of their dates, and takes the cached value wherever the cache had the date |
| Series.MergeExample | data_manager.py:196-198 | on a clash at date 2 the cached 3 wins over the fresh 7 |
| Metrics.ParseMetric | data_manager.py:271-273 | a known type name maps to the metric of that name |
| Metrics.ParseName | data_manager.py:35 | every metric's name maps back to it, and every metric is one of the six processed types |
| Metrics.EmptyOf | data_manager.py:94-102 | the error frame has the metric's two columns and no rows |
| Metrics.DailyCountsProperties | fetchers/github_fetcher.py:325-331 | the fetchers' common tail gives the schema, one ascending row per date, per-day sums and total preserved, empty exactly when there were no rows, positive rows from positive input |
| Transport.Request | fetchers/github_fetcher.py:27-61 | at most three GETs; the result is the first non-403 answer or the third 403; every earlier answer was a 403; one sleep follows each 403 except a returned one, each as the reset-or-backoff rule gives |
| Transport.WaitBounds | fetchers/github_fetcher.py:41-51 | every sleep is between 1 and 10 seconds |
| Transport.BackoffBounds | fetchers/github_fetcher.py:32-51 | the backoff stays between 2 and 5 seconds |
| Transport.ResetWait | fetchers/github_fetcher.py:41-44 | with a numeric reset header the sleep is the time to the reset plus one, at least 1 and capped at 10 |
| Transport.BackoffSchedule | fetchers/github_fetcher.py:47-51 | three 403s without a reset header sleep 2, 4 and 5 seconds |
| Transport.RequestExhausted | fetchers/github_fetcher.py:53-61 | once retries are exhausted, the last 403 is returned after sleeps of 2, 4 and 5 seconds |
| Paging.Parsed | fetchers/github_fetcher.py:64-68 | parsing keeps at most as many dates as there were items |
| Paging.ParsedMembership | fetchers/github_fetcher.py:131-140 | a date is collected exactly when some item parsed to it |
| Paging.PagesKept | fetchers/github_fetcher.py:378-399 | the walk keeps only accepted pages (status 200, non-empty), respects the page cap, and stops only at the cap, a failed or empty page, a short page or the row cap |
| Paging.CollectRest | fetchers/github_fetcher.py:119-138 | the page loop gathers, in page order, what the pages kept by the walk yield |
| Paging.StopsAtFailure | fetchers/github_fetcher.py:121-129 | a failing or empty page ends the walk and what earlier pages gave is kept |
| Paging.GatheredPrefix | fetchers/github_fetcher.py:131-138 | gathering only appends; earlier pages' rows are never dropped |
| Paging.QueriesMade | fetchers/github_fetcher.py:172-199 | the cursor loop respects its query cap, continues only while the answer has a next page (and a cursor, and the date cap is not passed), and stops at the first answer that says otherwise |
| Paging.CollectGraphql | fetchers/github_fetcher.py:172-199 | the cursor loop collects exactly the dates read from the answers it queried |
| Paging.UnselectedListReadsNothing | fetchers/github_fetcher.py:415-428 | a loop that reads a list its query did not select collects nothing |
| Paging.FollowsPagesFrom | fetchers/github_fetcher.py:193-195 | without caps, the loop sends queries up to and including the first answer without a next page |
| Fetchers.EventTableProperties | fetchers/github_fetcher.py:325-331 | an event series has the schema, one ascending row per event date whose count is the number of events that day, the number of events as total, and is empty exactly when there were no events |
| Fetchers.StarsExample | fetchers/github_fetcher.py:141-147 | two stars on one day and one on the next give counts 2 and 1 |
| Fetchers.StarsRest | fetchers/github_fetcher.py:113-148 | the stargazers walk without a short-page stop, counted per day |
| Fetchers.StarsGraphql | fetchers/github_fetcher.py:150-209 | the unbounded stargazers cursor loop, stopped by a missing cursor, counted per day |
| Fetchers.StarsFetch | fetchers/github_fetcher.py:107-111 | GraphQL when the switch is on, REST otherwise |
| Fetchers.ForksRest | fetchers/github_fetcher.py:228-263 | the forks walk without a short-page stop, counted per day |
| Fetchers.ForksGraphqlAsWritten | fetchers/github_fetcher.py:265-296 | the forks cursor loop, at most 200 queries, reported as a running sum |
| Fetchers.ForksGraphql | fetchers/github_fetcher.py:212-216 | the forks cursor loop reported as daily counts, as the class documents |
| Fetchers.RunningForksIsCumulative | fetchers/github_fetcher.py:293-296 | the as-written forks series has the daily series' dates, never decreases, ends at the number of forks, and differences back to the daily series |
| Fetchers.RunningForksExample | fetchers/github_fetcher.py:293-296 | forks on two days give 1, 2 as written but 1, 1 as daily counts |
| Fetchers.ForksFetch | fetchers/github_fetcher.py:222-226 | with the switch on, the as-written GraphQL reader and its running sum; REST daily counts otherwise |
| Fetchers.PrsFetch | fetchers/github_fetcher.py:305-331 | the pulls walk, stopped by a short page, counted per day |
| Fetchers.PrsGraphql | fetchers/github_fetcher.py:333-364 | the pull-request cursor loop, at most 200 queries, counted per day |
| Fetchers.IssueDatesMembership | fetchers/github_fetcher.py:387-393 | a date is counted exactly when a genuine issue, not a pull request, was created on it |
| Fetchers.IssuesFetch | fetchers/github_fetcher.py:373-407 | at most 20 pages; a short page or more than 1000 dates ends the walk; counted per day |
| Fetchers.IssuesGraphqlAsWritten | fetchers/github_fetcher.py:409-445 | the issues cursor loop as written yields the empty issues frame whatever GitHub answers |
| Fetchers.IssuesGraphql | fetchers/github_fetcher.py:409-445 | the issues cursor loop reading the nodes it selects: at most 10 queries, a 500-date cap, counted per day |
| Fetchers.IssuesGraphqlExample | fetchers/github_fetcher.py:415-428 | one issue in one answer is found by the corrected loop and missed by the as-written one |
| Fetchers.DayRowsMembership | fetchers/github_fetcher.py:494-505 | a week's rows are exactly the days start+i with a positive count, carrying that count |
| Fetchers.DayRowsPositive | fetchers/github_fetcher.py:503-505 | only positive day counts make rows |
| Fetchers.StatsRowsPositive | fetchers/github_fetcher.py:494-505 | every row built from the weeks has a positive count |
| Fetchers.FetchCommitStats | fetchers/github_fetcher.py:466-516 | up to three stats requests with a 2-second sleep after each early 202; three 202s give the empty frame; otherwise the first other answer decides the table |
| Fetchers.StatsTableProperties | fetchers/github_fetcher.py:507-514 | a stats table has the commits schema and date-sorted positive rows, a permutation of the weeks' positive days |
| Fetchers.StatsExample | fetchers/github_fetcher.py:494-505 | the week of 2024-01-07 with counts on Monday and Thursday gives rows on those two days |
| Fetchers.CommitsFallback | fetchers/github_fetcher.py:518-559 | the commits walk, at most min(10, max_pages) pages, stopped by a short page, counted per day |
| Fetchers.ContributionsFetch | fetchers/github_fetcher.py:456-464 | the stats table when it is non-empty, the commits fallback otherwise |
| Fetchers.AssetRowsPositive | fetchers/github_fetcher.py:608-615 | every asset row is positive |
| Fetchers.AssetRowsMembership | fetchers/github_fetcher.py:600-615 | a row (d, c) is produced exactly when some asset has counter c > 0 and the first present of its created_at, its updated_at and the release date parses to d |
| Fetchers.ReleaseRowsPositive | fetchers/github_fetcher.py:588-615 | every download row built from releases is positive |
| Fetchers.AssetDateFallback | fetchers/github_fetcher.py:602-615 | an asset without its own timestamps is dated by its release |
| Fetchers.UnparsedReleaseSkipped | fetchers/github_fetcher.py:590-597 | a release without a parseable date contributes nothing |
| Fetchers.GatheredReleasesPositive | fetchers/github_fetcher.py:576-622 | everything the releases walk gathers is positive |
| Fetchers.DownloadsFetch | fetchers/github_fetcher.py:568-636 | the releases walk, stopped by a short page, summed per day |
| Fetchers.DownloadsProperties | fetchers/github_fetcher.py:629-636 | the downloads series has the schema, ascending positive rows, and each day's and the overall sum of counted assets |
| Fetchers.FetchAll | fetchers/github_fetcher.py:651-671 | all six metrics get an entry, each the series of its fetcher as written; stars, forks, PRs and issues use GraphQL when the switch is on, with the running forks sum and the empty issues frame; downloads and contributions always use REST |
| Fetchers.FetchAllCorrected | fetchers/github_fetcher.py:651-671 | the same dictionary with the forks and issues GraphQL readers corrected |
| Fetchers.CorrectionScope | fetchers/github_fetcher.py:651-671 | the corrections change no series except forks and issues, and those only with GraphQL on |
| Fetchers.AsWrittenIssuesEmpty | fetchers/github_fetcher.py:415-428 | with GraphQL on, the issues series fetch_all returns is always the empty issues frame |
| Fetchers.CorrectedForksAreDeltas | fetchers/github_fetcher.py:293-296 | with GraphQL on, differencing the forks series fetch_all returns gives the corrected daily series |
| Fetchers.SeriesByMetric | fetchers/github_fetcher.py:664-671 | the returned dictionary has an entry for each of the six metrics, holding that metric's series |
| Fetchers.SeriesSchema | fetchers/github_fetcher.py:662-671 | every series fetch_all answers, as written or corrected, has its metric's two-column schema |
| Fetchers.ContributionsSchema | fetchers/github_fetcher.py:456-464 | whichever source answers, the contributions frame has the commits schema |
| Cache.Store | data_manager.py:200-205 | writing one metric's file changes that file and no other |
| Cache.StalenessBoundary | data_manager.py:37-42 | a missing file is stale; a file exactly threshold hours old is fresh; one second older is stale |
| Cache.FetchAndSave | data_manager.py:44-102 | the result always has the metric's schema; an exception or a missing column gives the empty frame and writes nothing; otherwise the rows are kept and written when the write succeeds |
| Cache.FetchAndSaveIdempotent | data_manager.py:44-102 | fetching and saving twice with the same outcome leaves what fetching once left |
| Cache.GetDataDecision | data_manager.py:107-113 | when forced or stale, returns the fetch-and-save frame and leaves its file (rewritten after a good save, the old one after a failed fetch or write); otherwise returns the cached frame without writing; other metrics' files never change |
| Cache.GetDataServesWhatItSaved | data_manager.py:107-113 | after a successful forced fetch and write, an unforced call within the threshold serves the same frame from the cache |
| Cache.MinMaxAttained | data_manager.py:148-156 | the earliest and latest cached dates are dates of cached rows and bound all of them |
| Cache.RangeCoveredMeans | data_manager.py:148-156 | the cache covers the range exactly when some row is on or before its start and some on or after its end |
| Cache.FetchMissing | data_manager.py:225-234 | the partial fetch always yields an empty frame without columns |
| Cache.ColumnUnionOfKnown | data_manager.py:197 | concatenating frames with the same columns keeps those columns |
| Cache.RangeServesCacheIff | data_manager.py:140-158 | the cache is returned untouched exactly when not forced, covering the range and fresh |
| Cache.RangeEmptyCacheIsFetch | data_manager.py:192-194 | with no usable cache the result is what fetch-and-save returned |
| Cache.RangeMergeKeepsCached | data_manager.py:192-206 | a refetched, merged frame has unique ascending dates, the union of cached and fresh dates, the cached value on every cached date, and the schema |
| Cache.RangeMergeFailureReturnsCache | data_manager.py:208-218 | when merging raises, the cached frame is returned and the file is what fetch-and-save left |
| Cache.RangeStepKeepsFiles | data_manager.py:190-221 | a range step never removes a cache file |
| Cache.RangeEntry | data_manager.py:130-221 | one metric's step, including its need_fetch flag, matches the specified range step |
| Cache.GetAllCachedDataForRange | data_manager.py:119-223 | every metric gets an entry, its own range step's result, and each file is what its own step left |
| Cache.ForceFetchRealData | data_manager.py:260-301 | exactly the known requested types get an entry, each the frame of its last request; each metric's file is what its requests' fetch-and-save calls left, in order |
| Cache.ForceOne | data_manager.py:270-286 | one pass of the loop: an unknown name changes nothing; a known one adds its fetch-and-save frame and stores its file |
| Cache.ForcedFileUntouched | data_manager.py:270-279 | a metric not requested keeps its file |
| Cache.ForcedFileLastWins | data_manager.py:270-286 | for a repeated type the last request decides: if its fetch has the schema and its write succeeds, the file holds that frame |
| Cache.ForceFetchDefault | data_manager.py:265-266 | with no list, exactly downloads and contributions are fetched |
| Dashboard.FilterByDateProperties | app.py:196-212 | an empty frame comes back unchanged; otherwise exactly the rows with a parsed date in [start, end] remain, under the same columns |
| Dashboard.KeepInRangeAppend | app.py:208-212 | filtering a concatenation filters each part, so the kept rows stay in order |
| Dashboard.FilterInclusive | app.py:208-209 | both bounds are inclusive and unparsed dates are dropped |
| Dashboard.KeepInRangeIdempotent | app.py:196-212 | filtering twice is filtering once |
| Dashboard.SumHelpersAgree | app.py:163-191 | the three sum helpers agree, whatever the metric type, and give 0 for an empty frame |
| Dashboard.PeriodActivitySplits | app.py:185-212 | the activity of a range is the activity of its first part plus that of the rest |
| Dashboard.CurrentTotalOfTable | app.py:177-183 | the total shown for a metric is the sum of its daily series |
| Dashboard.MaxValueIsMax | app.py:326-327 | the maximum value is some row's value and bounds every row's value |
| Dashboard.ValidateDataQualityIff | app.py:315-339 | the check fails exactly when the frame is non-empty, has a value column, and some value exceeds one million |
| Dashboard.ToPlotlyXY | app.py:155-158 | two empty lists for an empty frame, else equal-length date and value lists in row order |
| Dashboard.CachedFrameServed | app.py:94-97 | without force, a non-empty cached frame is shown unchanged |
| Dashboard.FailuresGiveEmptySchema | app.py:133-148 | any exception escaping the per-metric calls gives the empty schema frame: the loader raising without force, the direct fetcher raising without a token, DataManager and then the fetcher raising with one |
| Dashboard.LoadMetricSchema | app.py:55-148 | if every frame that can be returned has the schema, so does the loaded one |
| Dashboard.ForcedLoadUsesManager | app.py:57-62 | with a token, a forced load shows DataManager's fetch-and-save frame, which always has the schema |
| Dashboard.LoadDashboardData | app.py:44-150 | every one of the six types gets an entry, the outcome of its own loader, manager and fetcher calls |

## Left out

- HTTP, JSON decoding, GitHub tokens, timeouts and sleeping are not modelled. Each fetcher receives the sequence of answers `_request` or the GraphQL client returned. `Transport.Request` models the retry loop on its own, and the pagers take its results as given.
- `_to_date` and `pd.to_datetime` are not modelled. Timestamps arrive already parsed, as a day number or as a parse failure.
- Environment variables are parameters: `P16_USE_GRAPHQL` is `useGraphql` and `GITHUB_TOKEN` is `hasToken`.
- File age is in whole seconds. The source divides by 3600.0 in floating point, but the comparison is the same for integer clocks.
- The CSV format, `DataLoader` and `path_for` are not modelled. A cached file is its frame and modification time. Loading is a `Fetched` input of the dashboard.
- `get_all_cached_data` (`data_manager.py:115-117`) is not modelled separately. It is `get_data` applied to each of the six types.
- `get_data_status` and `clear_cache` are not modelled. They use a `type_to_file` attribute that `DataManager` never defines.
- Streamlit rendering, caching with `st.cache_data`, plotly, PyPI downloads and CSV export are not modelled.
- Tables carry only the date and one value column. Extra columns a fetcher builds (asset name, release tag) and a `y_col` missing from a frame (a KeyError) are not modelled.
- Fetchers.StatsTableProperties: the stats table is sorted with a stable sort. Pandas' default sort is not stable, so the order of rows sharing a date may differ. The contract states only sortedness and the multiset of rows.
- `isdigit` on the reset header is abstracted to "present and numeric". Unicode digits that `int()` rejects are not distinguished.
- The merge-with-missing-data branch (`data_manager.py:165-178`) is not modelled. `_fetch_missing_data` always returns an empty frame, so that branch never runs. `Cache.FetchMissing` states this.
- Exceptions raised while checking coverage (`data_manager.py:185-187`) are not modelled. Cached rows always carry a date in this model.
- The `except` in `force_fetch_real_data` (`data_manager.py:289-299`) is not modelled. `_fetch_and_save_data` catches everything, so that handler cannot run.
- Values are unbounded integers. `int()` of a float sum and NaN values are not modelled.

## Findings

| source | as written | input that shows it | evidently intended | confidence | as-written member | corrected member |
|---|---|---|---|---|---|---|
| fetchers/github_fetcher.py:293-296 | forks via GraphQL are returned as a running sum under the `forks` column | forks created on two different days: the code reports 1 then 2 | daily counts, as the class documents at lines 212-216 and as the REST path returns | high, not executed | Fetchers.ForksGraphqlAsWritten | Fetchers.ForksGraphql |
| fetchers/github_fetcher.py:415-428 | the issues query selects `nodes` but the loop reads `edges`, which is never present | any answer containing an issue: the series is empty | read the `nodes` the query selects | high, not executed | Fetchers.IssuesGraphqlAsWritten | Fetchers.IssuesGraphql |
