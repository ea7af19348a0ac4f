/**
 * The six metrics the dashboard tracks, their CSV schemas, and the table
 * value every fetcher, the cache and the app pass around.
 */
module Metrics {

  import opened Wrappers
  import opened Series

  datatype Metric = Stars | Forks | Prs | Downloads | Issues | Contributions

  /** The processing order used by the data manager and the app. */
  const AllTypes: seq<Metric> := [Stars, Forks, Prs, Downloads, Issues, Contributions]

  /** The key under which a metric is stored and requested. */
  function Name(m: Metric): string
  {
    match m
    case Stars => "stars"
    case Forks => "forks"
    case Prs => "prs"
    case Downloads => "downloads"
    case Issues => "issues"
    case Contributions => "contributions"
  }

  /** The name of a metric's value column in its CSV file. */
  function ValueColumn(m: Metric): string
  {
    match m
    case Stars => "stars"
    case Forks => "forks"
    case Prs => "pr_count"
    case Downloads => "downloads"
    case Issues => "issues"
    case Contributions => "commits"
  }

  /** The two expected columns of a metric's series. */
  function Schema(m: Metric): seq<string>
  {
    ["date", ValueColumn(m)]
  }

  /** Looks a requested type name up among the known metrics. */
  function ParseMetric(s: string): (r: Option<Metric>)
    ensures r.Some? ==> s == Name(r.value)
  {
    if s == "stars" then Some(Stars)
    else if s == "forks" then Some(Forks)
    else if s == "prs" then Some(Prs)
    else if s == "downloads" then Some(Downloads)
    else if s == "issues" then Some(Issues)
    else if s == "contributions" then Some(Contributions)
    else None
  }

  /** Every metric's name parses back to it, and nothing else does. */
  lemma ParseName(m: Metric)
    ensures ParseMetric(Name(m)) == Some(m)
    ensures m in AllTypes
  {
  }

  /** A data frame: its column labels and its (date, value) rows. */
  datatype Table = Table(columns: seq<string>, rows: seq<Row>)

  /** pandas' DataFrame.empty: no rows, or no columns. */
  predicate IsEmpty(t: Table)
  {
    t.rows == [] || t.columns == []
  }

  /** An empty frame carrying a metric's schema. */
  function EmptyOf(m: Metric): (t: Table)
    ensures t.columns == Schema(m) && IsEmpty(t)
  {
    Table(Schema(m), [])
  }

  /** What calling a fetcher or the loader produced: a frame, or an exception. */
  datatype Fetched = Returned(table: Table) | Raised

  /**
   * The common tail of the fetchers: no rows gives the metric's empty frame,
   * otherwise the rows grouped by day with a sum.
   */
  function DailyCounts(m: Metric, rows: seq<Row>): Table
  {
    if rows == [] then EmptyOf(m) else Table(Schema(m), GroupSum(rows))
  }

  /**
   * A daily series has the metric's schema, one row per date in ascending
   * order, exactly the input dates, the input's per-day sums and total, and
   * is empty exactly when there were no input rows.
   */
  lemma DailyCountsProperties(m: Metric, rows: seq<Row>)
    ensures DailyCounts(m, rows).columns == Schema(m)
    ensures StrictlyIncreasing(DailyCounts(m, rows).rows)
    ensures Dates(DailyCounts(m, rows).rows) == Dates(rows)
    ensures Total(DailyCounts(m, rows).rows) == Total(rows)
    ensures forall d :: CountOn(DailyCounts(m, rows).rows, d) == CountOn(rows, d)
    ensures IsEmpty(DailyCounts(m, rows)) <==> rows == []
    ensures AllPositive(rows) ==> AllPositive(DailyCounts(m, rows).rows)
  {
    GroupSumProperties(rows);
    if rows != [] {
      assert rows[0].date in Dates(rows);
      if AllPositive(rows) {
        GroupSumPositive(rows);
      }
    }
  }
}
