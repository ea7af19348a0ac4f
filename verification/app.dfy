/**
 * The dashboard's helpers: inclusive date filtering, period sums, the
 * data-quality check, the plot conversion, and get_data's per-metric
 * loading with its fallbacks to an empty frame of the right schema.
 */
module Dashboard {

  import opened Wrappers
  import opened Series
  import opened Metrics
  import Cache

  /** A row as the app reads it: the date cell may fail to parse (errors="coerce"). */
  datatype Cell = Cell(date: Option<Day>, value: int)

  /** A data frame in the app: column labels and rows, whose value is the first non-date column. */
  datatype Frame = Frame(columns: seq<string>, cells: seq<Cell>)

  /** DataFrame.empty: no rows or no columns. */
  predicate FrameEmpty(f: Frame)
  {
    f.cells == [] || f.columns == []
  }

  function Cells(rows: seq<Row>): (cs: seq<Cell>)
    ensures |cs| == |rows|
    ensures forall i :: 0 <= i < |rows| ==> cs[i] == Cell(Some(rows[i].date), rows[i].value)
  {
    if rows == [] then [] else [Cell(Some(rows[0].date), rows[0].value)] + Cells(rows[1..])
  }

  /** A metric table as a frame. */
  function AsFrame(t: Table): Frame
  {
    Frame(t.columns, Cells(t.rows))
  }

  // ---------------------------------------------------------------------
  // filter_by_date
  // ---------------------------------------------------------------------

  predicate InRange(c: Cell, start: Day, end: Day)
  {
    c.date.Some? && start <= c.date.value <= end
  }

  /** The rows whose date parsed and lies in [start, end], in their original order. */
  function KeepInRange(cells: seq<Cell>, start: Day, end: Day): seq<Cell>
  {
    if cells == [] then []
    else (if InRange(cells[0], start, end) then [cells[0]] else []) + KeepInRange(cells[1..], start, end)
  }

  function FilterByDate(f: Frame, start: Day, end: Day): Frame
  {
    if FrameEmpty(f) then f else Frame(f.columns, KeepInRange(f.cells, start, end))
  }

  lemma {:induction false} KeepInRangeMembership(cells: seq<Cell>, start: Day, end: Day, c: Cell)
    ensures c in KeepInRange(cells, start, end) <==> c in cells && InRange(c, start, end)
  {
    if cells != [] {
      KeepInRangeMembership(cells[1..], start, end, c);
      assert cells == [cells[0]] + cells[1..];
    }
  }

  lemma {:induction false} KeepInRangeAppend(a: seq<Cell>, b: seq<Cell>, start: Day, end: Day)
    ensures KeepInRange(a + b, start, end) == KeepInRange(a, start, end) + KeepInRange(b, start, end)
  {
    if a == [] {
      assert a + b == b;
    } else {
      var h := if InRange(a[0], start, end) then [a[0]] else [];
      assert (a + b)[0] == a[0];
      assert (a + b)[1..] == a[1..] + b;
      KeepInRangeAppend(a[1..], b, start, end);
      calc {
        KeepInRange(a + b, start, end);
        h + KeepInRange(a[1..] + b, start, end);
        h + (KeepInRange(a[1..], start, end) + KeepInRange(b, start, end));
        (h + KeepInRange(a[1..], start, end)) + KeepInRange(b, start, end);
        KeepInRange(a, start, end) + KeepInRange(b, start, end);
      }
    }
  }

  /**
   * Filtering keeps exactly the rows with a parsed date in [start, end],
   * both ends included; an empty frame comes back unchanged. Order is kept,
   * as KeepInRangeAppend shows.
   */
  lemma FilterByDateProperties(f: Frame, start: Day, end: Day)
    ensures FrameEmpty(f) ==> FilterByDate(f, start, end) == f
    ensures !FrameEmpty(f) ==> FilterByDate(f, start, end).columns == f.columns
    ensures !FrameEmpty(f) ==> forall c :: c in FilterByDate(f, start, end).cells <==> c in f.cells && InRange(c, start, end)
  {
    forall c {
      KeepInRangeMembership(f.cells, start, end, c);
    }
  }

  /** Both bounds are inclusive: rows dated start and end are kept, the days just outside are not. */
  lemma FilterInclusive(start: Day, end: Day, v: int)
    requires start <= end
    ensures FilterByDate(Frame(["date", "stars"], [Cell(Some(start - 1), v), Cell(Some(start), v), Cell(Some(end), v), Cell(Some(end + 1), v), Cell(None, v)]), start, end).cells
            == [Cell(Some(start), v), Cell(Some(end), v)]
  {
    var cs := [Cell(Some(start - 1), v), Cell(Some(start), v), Cell(Some(end), v), Cell(Some(end + 1), v), Cell(None, v)];
    assert KeepInRange(cs[4..], start, end) == [] by {
      assert cs[4..][1..] == [];
    }
    assert KeepInRange(cs[3..], start, end) == [] by {
      assert cs[3..][1..] == cs[4..];
    }
    assert KeepInRange(cs[2..], start, end) == [Cell(Some(end), v)] by {
      assert cs[2..][1..] == cs[3..];
    }
    assert KeepInRange(cs[1..], start, end) == [Cell(Some(start), v), Cell(Some(end), v)] by {
      assert cs[1..][1..] == cs[2..];
    }
  }

  /** Filtering an already filtered frame again changes nothing. */
  lemma {:induction false} KeepInRangeIdempotent(cells: seq<Cell>, start: Day, end: Day)
    ensures KeepInRange(KeepInRange(cells, start, end), start, end) == KeepInRange(cells, start, end)
  {
    if cells != [] {
      KeepInRangeIdempotent(cells[1..], start, end);
      var head := if InRange(cells[0], start, end) then [cells[0]] else [];
      KeepInRangeAppend(head, KeepInRange(cells[1..], start, end), start, end);
    }
  }

  // ---------------------------------------------------------------------
  // Period sums
  // ---------------------------------------------------------------------

  function CellTotal(cells: seq<Cell>): int
  {
    if cells == [] then 0 else cells[0].value + CellTotal(cells[1..])
  }

  /** get_period_activity: 0 for an empty frame, else the sum of the value column. */
  function PeriodActivity(f: Frame): int
  {
    if FrameEmpty(f) then 0 else CellTotal(f.cells)
  }

  /** get_current_total. */
  function CurrentTotal(f: Frame): int
  {
    if FrameEmpty(f) then 0 else CellTotal(f.cells)
  }

  /** summarize_total: stars and forks take the same sum as every other metric. */
  function SummarizeTotal(f: Frame, metricType: Option<string>): int
  {
    if FrameEmpty(f) then 0
    else if metricType == Some("stars") || metricType == Some("forks") then CellTotal(f.cells)
    else CellTotal(f.cells)
  }

  /** The three sum helpers agree, whatever the metric type. */
  lemma SumHelpersAgree(f: Frame, metricType: Option<string>)
    ensures SummarizeTotal(f, metricType) == PeriodActivity(f) == CurrentTotal(f)
    ensures FrameEmpty(f) ==> PeriodActivity(f) == 0
  {
  }

  lemma {:induction false} CellTotalAppend(a: seq<Cell>, b: seq<Cell>)
    ensures CellTotal(a + b) == CellTotal(a) + CellTotal(b)
  {
    if a == [] {
      assert a + b == b;
    } else {
      assert (a + b)[1..] == a[1..] + b;
      CellTotalAppend(a[1..], b);
    }
  }

  lemma {:induction false} CellsTotal(rows: seq<Row>)
    ensures CellTotal(Cells(rows)) == Total(rows)
  {
    if rows != [] {
      CellsTotal(rows[1..]);
      assert Cells(rows)[1..] == Cells(rows[1..]);
    }
  }

  lemma {:induction false} KeepInRangeSplit(cells: seq<Cell>, start: Day, mid: Day, end: Day)
    requires start <= mid < end
    ensures CellTotal(KeepInRange(cells, start, end))
            == CellTotal(KeepInRange(cells, start, mid)) + CellTotal(KeepInRange(cells, mid + 1, end))
  {
    if cells != [] {
      KeepInRangeSplit(cells[1..], start, mid, end);
      var c := cells[0];
      var h := if InRange(c, start, end) then [c] else [];
      var h1 := if InRange(c, start, mid) then [c] else [];
      var h2 := if InRange(c, mid + 1, end) then [c] else [];
      CellTotalAppend(h, KeepInRange(cells[1..], start, end));
      CellTotalAppend(h1, KeepInRange(cells[1..], start, mid));
      CellTotalAppend(h2, KeepInRange(cells[1..], mid + 1, end));
      assert CellTotal(h) == CellTotal(h1) + CellTotal(h2);
    }
  }

  /**
   * The activity of a period is the activity of its first part plus that of
   * the rest: splitting [start, end] at mid loses and double-counts nothing.
   */
  lemma PeriodActivitySplits(f: Frame, start: Day, mid: Day, end: Day)
    requires start <= mid < end
    ensures PeriodActivity(FilterByDate(f, start, end))
            == PeriodActivity(FilterByDate(f, start, mid)) + PeriodActivity(FilterByDate(f, mid + 1, end))
  {
    KeepInRangeSplit(f.cells, start, mid, end);
  }

  /** The total shown for a metric table is the sum of its series. */
  lemma CurrentTotalOfTable(t: Table)
    requires t.columns != []
    ensures CurrentTotal(AsFrame(t)) == Total(t.rows)
  {
    CellsTotal(t.rows);
  }

  // ---------------------------------------------------------------------
  // validate_data_quality
  // ---------------------------------------------------------------------

  const CumulativeSuspect: int := 1000000
  const DailyTypical: int := 10000

  function ValueColumns(columns: seq<string>): seq<string>
  {
    if columns == [] then []
    else (if columns[0] != "date" then [columns[0]] else []) + ValueColumns(columns[1..])
  }

  function MaxValue(cells: seq<Cell>): int
    requires cells != []
  {
    if |cells| == 1 then cells[0].value
    else if cells[0].value >= MaxValue(cells[1..]) then cells[0].value else MaxValue(cells[1..])
  }

  /** False only when the largest value exceeds one million (which suggests cumulative data). */
  function ValidateDataQuality(f: Frame): bool
  {
    if FrameEmpty(f) then true
    else if ValueColumns(f.columns) == [] then true
    else if MaxValue(f.cells) > CumulativeSuspect then false
    else if MaxValue(f.cells) <= DailyTypical then true
    else true
  }

  lemma {:induction false} MaxValueIsMax(cells: seq<Cell>)
    requires cells != []
    ensures forall c | c in cells :: c.value <= MaxValue(cells)
    ensures exists c | c in cells :: c.value == MaxValue(cells)
  {
    assert cells[0] in cells;
    if |cells| > 1 {
      var rest := cells[1..];
      MaxValueIsMax(rest);
      var w :| w in rest && w.value == MaxValue(rest);
      assert w in cells;
      forall c | c in cells ensures c.value <= MaxValue(cells) {
        var k :| 0 <= k < |cells| && cells[k] == c;
        if k > 0 {
          assert rest[k - 1] == c;
        }
      }
    }
  }

  /**
   * The check fails exactly when the frame is non-empty, has a value
   * column, and some value exceeds one million.
   */
  lemma ValidateDataQualityIff(f: Frame)
    ensures !ValidateDataQuality(f) <==>
            !FrameEmpty(f) && ValueColumns(f.columns) != [] && exists c | c in f.cells :: c.value > CumulativeSuspect
  {
    if !FrameEmpty(f) {
      MaxValueIsMax(f.cells);
    }
  }

  // ---------------------------------------------------------------------
  // to_plotly_xy
  // ---------------------------------------------------------------------

  function Xs(cells: seq<Cell>): (xs: seq<Option<Day>>)
    ensures |xs| == |cells| && forall i :: 0 <= i < |cells| ==> xs[i] == cells[i].date
  {
    if cells == [] then [] else [cells[0].date] + Xs(cells[1..])
  }

  function Ys(cells: seq<Cell>): (ys: seq<int>)
    ensures |ys| == |cells| && forall i :: 0 <= i < |cells| ==> ys[i] == cells[i].value
  {
    if cells == [] then [] else [cells[0].value] + Ys(cells[1..])
  }

  /** Two empty lists for an empty frame; otherwise the date and value columns in row order. */
  function ToPlotlyXY(f: Frame): (xy: (seq<Option<Day>>, seq<int>))
    ensures FrameEmpty(f) ==> xy == ([], [])
    ensures !FrameEmpty(f) ==> |xy.0| == |xy.1| == |f.cells|
    ensures !FrameEmpty(f) ==> forall i :: 0 <= i < |f.cells| ==> f.cells[i] == Cell(xy.0[i], xy.1[i])
  {
    if FrameEmpty(f) then ([], []) else (Xs(f.cells), Ys(f.cells))
  }

  // ---------------------------------------------------------------------
  // get_data
  // ---------------------------------------------------------------------

  /**
   * The outcome of each call get_data may make for a metric: the loader,
   * DataManager.get_data with force_refresh=True, and the fetcher itself.
   */
  datatype MetricIo = MetricIo(loaded: Fetched, managed: Fetched, direct: Fetched)

  /** The fetcher called directly; if it raises, the outer handler's empty frame. */
  function Direct(m: Metric, io: MetricIo): Table
  {
    if io.direct.Returned? then io.direct.table else EmptyOf(m)
  }

  /** DataManager.get_data, falling back to the fetcher when it raises. */
  function Managed(m: Metric, io: MetricIo): Table
  {
    if io.managed.Returned? then io.managed.table else Direct(m, io)
  }

  /** One metric of get_data. */
  function LoadMetric(m: Metric, force: bool, hasToken: bool, io: MetricIo): Table
  {
    if force then (if hasToken then Managed(m, io) else Direct(m, io))
    else if io.loaded.Raised? then EmptyOf(m)
    else if !IsEmpty(io.loaded.table) then io.loaded.table
    else if hasToken then Managed(m, io)
    else Direct(m, io)
  }

  /** Without force, a non-empty cache is returned unchanged and nothing is fetched. */
  lemma CachedFrameServed(m: Metric, hasToken: bool, io: MetricIo)
    requires io.loaded.Returned? && !IsEmpty(io.loaded.table)
    ensures LoadMetric(m, false, hasToken, io) == io.loaded.table
  {
  }

  /**
   * Any exception that escapes the per-metric calls gives the metric's empty
   * schema frame: the loader raising without force; the fetcher raising when
   * it is called directly, with force and no token or after an empty cache
   * without a token; DataManager and then the fetcher raising otherwise.
   */
  lemma FailuresGiveEmptySchema(m: Metric, force: bool, hasToken: bool, io: MetricIo)
    ensures !force && io.loaded.Raised? ==> LoadMetric(m, force, hasToken, io) == EmptyOf(m)
    ensures (force || (io.loaded.Returned? && IsEmpty(io.loaded.table))) && !hasToken && io.direct.Raised?
            ==> LoadMetric(m, force, hasToken, io) == EmptyOf(m)
    ensures (force || (io.loaded.Returned? && IsEmpty(io.loaded.table))) && io.managed.Raised? && io.direct.Raised?
            ==> LoadMetric(m, force, hasToken, io) == EmptyOf(m)
  {
  }

  /** If every frame that may be returned has the metric's schema, so does the result. */
  lemma LoadMetricSchema(m: Metric, force: bool, hasToken: bool, io: MetricIo)
    requires io.loaded.Returned? ==> io.loaded.table.columns == Schema(m)
    requires io.managed.Returned? ==> io.managed.table.columns == Schema(m)
    requires io.direct.Returned? ==> io.direct.table.columns == Schema(m)
    ensures LoadMetric(m, force, hasToken, io).columns == Schema(m)
  {
  }

  /**
   * With a token, a forced load shows what DataManager.get_data returned:
   * DataManager catches every fetch failure itself, so its frame always has
   * the metric's schema and the direct fetcher is never consulted.
   */
  lemma ForcedLoadUsesManager(m: Metric, disk: Cache.Disk, now: int, thresholdHours: int, fio: Cache.FetchIo, io: MetricIo)
    requires io.managed == Returned(Cache.GetData(m, true, disk, now, thresholdHours, fio).0)
    ensures LoadMetric(m, true, true, io) == Cache.FetchAndSave(m, fio, Cache.FileOf(disk, m), now).table
    ensures LoadMetric(m, true, true, io).columns == Schema(m)
  {
  }

  /** get_data: every one of the six types gets an entry, the outcome of its own calls. */
  method LoadDashboardData(force: bool, hasToken: bool, io: Metric -> MetricIo) returns (result: map<Metric, Table>)
    ensures forall m :: m in result && result[m] == LoadMetric(m, force, hasToken, io(m))
  {
    var typesToLoad := AllTypes;
    result := map[];
    var i := 0;
    while i < |typesToLoad|
      invariant 0 <= i <= |typesToLoad|
      invariant forall j :: 0 <= j < i ==> typesToLoad[j] in result
      invariant forall m | m in result :: result[m] == LoadMetric(m, force, hasToken, io(m))
    {
      var m := typesToLoad[i];
      var mio := io(m);
      var t;
      if force {
        if hasToken {
          if mio.managed.Returned? {
            t := mio.managed.table;
          } else {
            t := Direct(m, mio);
          }
        } else {
          t := Direct(m, mio);
        }
      } else if mio.loaded.Raised? {
        t := EmptyOf(m);
      } else {
        var cachedData := mio.loaded.table;
        if !IsEmpty(cachedData) {
          t := cachedData;
        } else if hasToken {
          t := Managed(m, mio);
        } else {
          t := Direct(m, mio);
        }
      }
      result := result[m := t];
      i := i + 1;
    }
    forall m ensures m in result {
      ParseName(m);
      var k :| 0 <= k < |AllTypes| && AllTypes[k] == m;
    }
  }
}
