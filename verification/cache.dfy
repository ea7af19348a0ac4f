/**
 * DataManager: the CSV cache in front of the fetchers. It decides between
 * fetching and loading by file age, enforces each metric's two-column
 * schema on fetched frames, merges fresh rows into cached ones for a date
 * range, and never lets a fetch or write failure escape.
 *
 * The file system is a map from metric to the cached file (its frame and
 * modification time); fetcher outcomes, write success and the clock are
 * inputs.
 */
module Cache {

  import opened Wrappers
  import opened Series
  import opened Metrics

  datatype CacheFile = CacheFile(table: Table, mtime: int)

  type Disk = map<Metric, CacheFile>

  function FileOf(disk: Disk, m: Metric): Option<CacheFile>
  {
    if m in disk then Some(disk[m]) else None
  }

  /** The disk after a step left file f for metric m. */
  function Store(disk: Disk, m: Metric, f: Option<CacheFile>): (d: Disk)
    ensures FileOf(d, m) == f
    ensures forall n | n != m :: FileOf(d, n) == FileOf(disk, n)
  {
    if f.Some? then disk[m := f.value] else disk - {m}
  }

  const SecondsPerHour: int := 3600

  /** _is_data_stale: a missing file is stale; otherwise stale when strictly older than the threshold. */
  predicate IsStale(file: Option<CacheFile>, now: int, thresholdHours: int)
  {
    file.None? || now - file.value.mtime > thresholdHours * SecondsPerHour
  }

  /** A file exactly threshold hours old is still fresh; one second later it is stale. */
  lemma StalenessBoundary(f: CacheFile, thresholdHours: int)
    ensures !IsStale(Some(f), f.mtime + thresholdHours * SecondsPerHour, thresholdHours)
    ensures IsStale(Some(f), f.mtime + thresholdHours * SecondsPerHour + 1, thresholdHours)
    ensures IsStale(None, f.mtime, thresholdHours)
  {
  }

  /** The outcome of a fetcher call and of the CSV write that follows it. */
  datatype FetchIo = FetchIo(outcome: Fetched, saveOk: bool)

  /** What a cache operation returns and the file it leaves for that metric. */
  datatype Step = Step(table: Table, file: Option<CacheFile>)

  /** Whether a frame carries both of the metric's expected columns. */
  predicate HasSchema(t: Table, m: Metric)
  {
    forall c | c in Schema(m) :: c in t.columns
  }

  /**
   * _fetch_and_save_data: an exception or a missing expected column yields
   * the metric's empty frame and writes nothing; otherwise the frame is
   * narrowed to the expected columns, written if the write succeeds, and
   * returned either way.
   */
  function FetchAndSave(m: Metric, io: FetchIo, prior: Option<CacheFile>, now: int): (s: Step)
    ensures s.table.columns == Schema(m)
    ensures io.outcome.Raised? ==> s == Step(EmptyOf(m), prior)
    ensures io.outcome.Returned? && !HasSchema(io.outcome.table, m) ==> s == Step(EmptyOf(m), prior)
    ensures io.outcome.Returned? && HasSchema(io.outcome.table, m) ==>
              s.table.rows == io.outcome.table.rows
              && s.file == (if io.saveOk then Some(CacheFile(s.table, now)) else prior)
  {
    match io.outcome
    case Raised => Step(EmptyOf(m), prior)
    case Returned(t) =>
      if !("date" in t.columns && ValueColumn(m) in t.columns) then Step(EmptyOf(m), prior)
      else
        var narrowed := Table(Schema(m), t.rows);
        Step(narrowed, if io.saveOk then Some(CacheFile(narrowed, now)) else prior)
  }

  /** Fetching twice in a row with the same outcome leaves the same file as fetching once. */
  lemma FetchAndSaveIdempotent(m: Metric, io: FetchIo, prior: Option<CacheFile>, now: int)
    ensures FetchAndSave(m, io, FetchAndSave(m, io, prior, now).file, now) == FetchAndSave(m, io, prior, now)
  {
  }

  /** get_data: fetch and save when forced or stale, otherwise the cached frame. */
  function GetData(m: Metric, force: bool, disk: Disk, now: int, thresholdHours: int, io: FetchIo): (Table, Disk)
  {
    var file := FileOf(disk, m);
    if force || IsStale(file, now, thresholdHours) then
      var s := FetchAndSave(m, io, file, now);
      (s.table, Store(disk, m, s.file))
    else (file.value.table, disk)
  }

  /**
   * get_data fetches exactly when forced or stale, returning the
   * fetch-and-save frame and leaving its file (rewritten after a good save,
   * the old one after a failed fetch or write); otherwise it returns the
   * cached frame and leaves the disk alone. Other metrics' files are never
   * touched.
   */
  lemma GetDataDecision(m: Metric, force: bool, disk: Disk, now: int, thresholdHours: int, io: FetchIo)
    ensures var (t, d) := GetData(m, force, disk, now, thresholdHours, io);
            (force || IsStale(FileOf(disk, m), now, thresholdHours) ==>
               (t == FetchAndSave(m, io, FileOf(disk, m), now).table && FileOf(d, m) == FetchAndSave(m, io, FileOf(disk, m), now).file))
            && (!force && !IsStale(FileOf(disk, m), now, thresholdHours) ==> m in disk && t == disk[m].table && d == disk)
            && forall n | n != m :: FileOf(d, n) == FileOf(disk, n)
  {
  }

  /**
   * After a successful fetch and write, asking again without force within
   * the threshold serves the same frame from the cache and writes nothing.
   */
  lemma GetDataServesWhatItSaved(m: Metric, disk: Disk, now: int, later: int, thresholdHours: int, io: FetchIo, io2: FetchIo)
    requires io.outcome.Returned? && HasSchema(io.outcome.table, m) && io.saveOk
    requires now <= later <= now + thresholdHours * SecondsPerHour
    ensures var (t, d) := GetData(m, true, disk, now, thresholdHours, io);
            GetData(m, false, d, later, thresholdHours, io2) == (t, d)
  {
  }

  // ---------------------------------------------------------------------
  // Range-aware retrieval
  // ---------------------------------------------------------------------

  function MinDate(rows: seq<Row>): Day
    requires rows != []
  {
    if |rows| == 1 then rows[0].date
    else if rows[0].date <= MinDate(rows[1..]) then rows[0].date else MinDate(rows[1..])
  }

  function MaxDate(rows: seq<Row>): Day
    requires rows != []
  {
    if |rows| == 1 then rows[0].date
    else if rows[0].date >= MaxDate(rows[1..]) then rows[0].date else MaxDate(rows[1..])
  }

  /** The coverage test of the range path: earliest date at or before start, latest at or after end. */
  predicate RangeCovered(rows: seq<Row>, start: Day, end: Day)
    requires rows != []
  {
    MinDate(rows) <= start && MaxDate(rows) >= end
  }

  lemma {:induction false} MinMaxAttained(rows: seq<Row>)
    requires rows != []
    ensures exists r | r in rows :: r.date == MinDate(rows)
    ensures exists r | r in rows :: r.date == MaxDate(rows)
    ensures forall r | r in rows :: MinDate(rows) <= r.date <= MaxDate(rows)
  {
    assert rows[0] in rows;
    if |rows| > 1 {
      var rest := rows[1..];
      MinMaxAttained(rest);
      var a :| a in rest && a.date == MinDate(rest);
      var b :| b in rest && b.date == MaxDate(rest);
      assert a in rows && b in rows;
      forall r | r in rows ensures MinDate(rows) <= r.date <= MaxDate(rows) {
        var k :| 0 <= k < |rows| && rows[k] == r;
        if k > 0 {
          assert rest[k - 1] == r;
        }
      }
    }
  }

  /** The cache covers [start, end] exactly when some row is on or before start and some row on or after end. */
  lemma RangeCoveredMeans(rows: seq<Row>, start: Day, end: Day)
    requires rows != []
    ensures RangeCovered(rows, start, end) <==>
            (exists r | r in rows :: r.date <= start) && (exists r | r in rows :: r.date >= end)
  {
    MinMaxAttained(rows);
  }

  /** _fetch_missing_data: always an empty frame without columns. */
  function FetchMissing(m: Metric, cached: Table, start: Day, end: Day): (t: Table)
    ensures IsEmpty(t) && t.columns == []
  {
    Table([], [])
  }

  /** The columns of pd.concat: the first frame's, then the second's new ones. */
  function ColumnUnion(a: seq<string>, b: seq<string>): seq<string>
    decreases |b|
  {
    if b == [] then a
    else if b[0] in a then ColumnUnion(a, b[1..])
    else ColumnUnion(a + [b[0]], b[1..])
  }

  lemma {:induction false} ColumnUnionOfKnown(a: seq<string>, b: seq<string>)
    requires forall c | c in b :: c in a
    ensures ColumnUnion(a, b) == a
  {
    if b != [] {
      assert b[0] in a;
      ColumnUnionOfKnown(a, b[1..]);
    }
  }

  /** concat([cached, fetched]).drop_duplicates("date").sort_values("date") */
  function MergeTables(cached: Table, fetched: Table): Table
  {
    Table(ColumnUnion(cached.columns, fetched.columns), Merge(cached.rows, fetched.rows))
  }

  /** How the range path's I/O turns out for one metric: the fetch, whether the merge raises, whether the merged write succeeds. */
  datatype RangeIo = RangeIo(fetch: FetchIo, mergeRaises: bool, mergedSaveOk: bool)

  /** The cached frame the range path starts from: the file's, or the metric's empty frame. */
  function CachedOrEmpty(m: Metric, file: Option<CacheFile>): Table
  {
    if file.Some? then file.value.table else EmptyOf(m)
  }

  /** Whether the range path uses the cache as-is. */
  predicate ServesCache(m: Metric, force: bool, file: Option<CacheFile>, start: Day, end: Day, now: int, thresholdHours: int)
  {
    var cached := CachedOrEmpty(m, file);
    !force && !IsEmpty(cached) && RangeCovered(cached.rows, start, end) && !IsStale(file, now, thresholdHours)
  }

  /** The full fetch of the range path, merged into a non-empty cache. */
  function FullFetch(m: Metric, cached: Table, file: Option<CacheFile>, now: int, io: RangeIo): Step
  {
    var s := FetchAndSave(m, io.fetch, file, now);
    if IsEmpty(cached) then
      Step(s.table, if io.mergedSaveOk then Some(CacheFile(s.table, now)) else s.file)
    else if io.mergeRaises then Step(cached, s.file)
    else
      var merged := MergeTables(cached, s.table);
      Step(merged, if io.mergedSaveOk then Some(CacheFile(merged, now)) else s.file)
  }

  /** One metric of get_all_cached_data_for_range. */
  function RangeStep(m: Metric, force: bool, file: Option<CacheFile>, start: Day, end: Day, now: int, thresholdHours: int, io: RangeIo): Step
  {
    if ServesCache(m, force, file, start, end, now, thresholdHours) then Step(file.value.table, file)
    else FullFetch(m, CachedOrEmpty(m, file), file, now, io)
  }

  /**
   * The range path returns the cache untouched exactly when it is
   * non-empty, not forced, covers the range and is fresh.
   */
  lemma RangeServesCacheIff(m: Metric, force: bool, file: Option<CacheFile>, start: Day, end: Day, now: int, thresholdHours: int, io: RangeIo)
    requires file.Some? && !IsEmpty(file.value.table)
    ensures ServesCache(m, force, file, start, end, now, thresholdHours) ==>
              RangeStep(m, force, file, start, end, now, thresholdHours, io) == Step(file.value.table, file)
    ensures ServesCache(m, force, file, start, end, now, thresholdHours) <==>
              !force && RangeCovered(file.value.table.rows, start, end) && !IsStale(file, now, thresholdHours)
  {
  }

  /** With nothing cached, the range path returns exactly what fetch-and-save returned. */
  lemma RangeEmptyCacheIsFetch(m: Metric, force: bool, file: Option<CacheFile>, start: Day, end: Day, now: int, thresholdHours: int, io: RangeIo)
    requires file.None? || IsEmpty(file.value.table)
    ensures RangeStep(m, force, file, start, end, now, thresholdHours, io).table == FetchAndSave(m, io.fetch, file, now).table
  {
  }

  /**
   * When the cache is refetched and merged, the result has unique ascending
   * dates, the union of cached and fetched dates, and the cached value on
   * every date the cache had.
   */
  lemma RangeMergeKeepsCached(m: Metric, force: bool, file: Option<CacheFile>, start: Day, end: Day, now: int, thresholdHours: int, io: RangeIo, d: Day)
    requires file.Some? && !IsEmpty(file.value.table) && !io.mergeRaises
    requires !ServesCache(m, force, file, start, end, now, thresholdHours)
    ensures var t := RangeStep(m, force, file, start, end, now, thresholdHours, io).table;
            var fetched := FetchAndSave(m, io.fetch, file, now).table;
            StrictlyIncreasing(t.rows)
            && Dates(t.rows) == Dates(file.value.table.rows) + Dates(fetched.rows)
            && (d in Dates(file.value.table.rows) ==> FirstValue(t.rows, d) == FirstValue(file.value.table.rows, d))
            && (d !in Dates(file.value.table.rows) ==> FirstValue(t.rows, d) == FirstValue(fetched.rows, d))
            && (file.value.table.columns == Schema(m) ==> t.columns == Schema(m))
  {
    MergeProperties(file.value.table.rows, FetchAndSave(m, io.fetch, file, now).table.rows);
    if file.value.table.columns == Schema(m) {
      ColumnUnionOfKnown(Schema(m), Schema(m));
    }
  }

  /** When the merge raises, the non-empty cache is returned, while the file keeps what fetch-and-save wrote. */
  lemma RangeMergeFailureReturnsCache(m: Metric, force: bool, file: Option<CacheFile>, start: Day, end: Day, now: int, thresholdHours: int, io: RangeIo)
    requires file.Some? && !IsEmpty(file.value.table) && io.mergeRaises
    requires !ServesCache(m, force, file, start, end, now, thresholdHours)
    ensures RangeStep(m, force, file, start, end, now, thresholdHours, io).table == file.value.table
    ensures RangeStep(m, force, file, start, end, now, thresholdHours, io).file == FetchAndSave(m, io.fetch, file, now).file
  {
  }

  /** A range step never removes a cache file. */
  lemma RangeStepKeepsFiles(m: Metric, force: bool, file: Option<CacheFile>, start: Day, end: Day, now: int, thresholdHours: int, io: RangeIo)
    requires file.Some?
    ensures RangeStep(m, force, file, start, end, now, thresholdHours, io).file.Some?
  {
  }

  /** The body of the loop in get_all_cached_data_for_range for one metric, with its need_fetch flag. */
  method RangeEntry(m: Metric, force: bool, file: Option<CacheFile>, start: Day, end: Day, now: int, thresholdHours: int, io: RangeIo)
    returns (s: Step)
    ensures s == RangeStep(m, force, file, start, end, now, thresholdHours, io)
  {
    var cached := CachedOrEmpty(m, file);
    var needFetch := force || IsEmpty(cached);
    if !needFetch && !IsEmpty(cached) {
      var rangeCovered := RangeCovered(cached.rows, start, end) && !IsStale(file, now, thresholdHours);
      if !rangeCovered {
        needFetch := true;
        var missing := FetchMissing(m, cached, start, end);
        if IsEmpty(missing) {
          needFetch := true;
        }
      }
    }
    if needFetch {
      var fetched := FetchAndSave(m, io.fetch, file, now);
      var after := fetched.file;
      if IsEmpty(cached) {
        s := Step(fetched.table, if io.mergedSaveOk then Some(CacheFile(fetched.table, now)) else after);
      } else if io.mergeRaises {
        s := Step(cached, after);
      } else {
        var merged := MergeTables(cached, fetched.table);
        s := Step(merged, if io.mergedSaveOk then Some(CacheFile(merged, now)) else after);
      }
    } else {
      s := Step(cached, file);
    }
  }

  /**
   * get_all_cached_data_for_range: every metric gets an entry, each the
   * result of its range step, and each metric's file is what its own step
   * left.
   */
  method GetAllCachedDataForRange(disk: Disk, force: bool, start: Day, end: Day, now: int, thresholdHours: int, io: Metric -> RangeIo)
    returns (result: map<Metric, Table>, after: Disk)
    ensures forall m :: m in result
    ensures forall m :: result[m] == RangeStep(m, force, FileOf(disk, m), start, end, now, thresholdHours, io(m)).table
    ensures forall m :: FileOf(after, m) == RangeStep(m, force, FileOf(disk, m), start, end, now, thresholdHours, io(m)).file
  {
    result := map[];
    after := disk;
    var i := 0;
    while i < |AllTypes|
      invariant 0 <= i <= |AllTypes|
      invariant forall j :: 0 <= j < i ==> AllTypes[j] in result
      invariant forall m | m in result :: result[m] == RangeStep(m, force, FileOf(disk, m), start, end, now, thresholdHours, io(m)).table
      invariant forall m :: FileOf(after, m) ==
                  if m in AllTypes[..i] then RangeStep(m, force, FileOf(disk, m), start, end, now, thresholdHours, io(m)).file
                  else FileOf(disk, m)
    {
      var m := AllTypes[i];
      assert m !in AllTypes[..i];
      var s := RangeEntry(m, force, FileOf(after, m), start, end, now, thresholdHours, io(m));
      result := result[m := s.table];
      after := Store(after, m, s.file);
      assert AllTypes[..i + 1] == AllTypes[..i] + [m];
      i := i + 1;
    }
    assert AllTypes[..i] == AllTypes;
    forall m ensures m in result && m in AllTypes[..i] {
      ParseName(m);
    }
  }

  // ---------------------------------------------------------------------
  // force_fetch_real_data
  // ---------------------------------------------------------------------

  /** The requested type names, downloads and contributions when none are given. */
  function RequestedNames(names: Option<seq<string>>): seq<string>
  {
    if names.Some? then names.value else ["downloads", "contributions"]
  }

  /** The position of the last occurrence of s in names. */
  function LastIndexOf(names: seq<string>, s: string): (j: nat)
    requires s in names
    ensures j < |names| && names[j] == s
    ensures forall k | j < k < |names| :: names[k] != s
  {
    if names[|names| - 1] == s then |names| - 1
    else
      assert s in names[..|names| - 1] by {
        var k :| 0 <= k < |names| && names[k] == s;
        assert names[..|names| - 1][k] == s;
      }
      LastIndexOf(names[..|names| - 1], s)
  }

  /**
   * The file of metric m after forcing the requested names in order, the
   * call for position i having outcome io(i): every position naming m
   * fetches and saves over what the earlier ones left.
   */
  function ForcedFile(m: Metric, names: seq<string>, io: nat -> FetchIo, prior: Option<CacheFile>, now: int): Option<CacheFile>
  {
    if names == [] then prior
    else
      var f := ForcedFile(m, names[..|names| - 1], io, prior, now);
      if names[|names| - 1] == Name(m) then FetchAndSave(m, io(|names| - 1), f, now).file else f
  }

  /** A metric that is not requested keeps its file. */
  lemma {:induction false} ForcedFileUntouched(m: Metric, names: seq<string>, io: nat -> FetchIo, prior: Option<CacheFile>, now: int)
    requires Name(m) !in names
    ensures ForcedFile(m, names, io, prior, now) == prior
  {
    if names != [] {
      assert Name(m) !in names[..|names| - 1];
      ForcedFileUntouched(m, names[..|names| - 1], io, prior, now);
    }
  }

  /**
   * When a metric is requested more than once, the last request decides:
   * if its fetch returns the schema and its write succeeds, the file holds
   * that frame, whatever the earlier requests wrote.
   */
  lemma {:induction false} ForcedFileLastWins(m: Metric, names: seq<string>, io: nat -> FetchIo, prior: Option<CacheFile>, now: int)
    requires Name(m) in names
    requires var last := io(LastIndexOf(names, Name(m)));
             last.outcome.Returned? && HasSchema(last.outcome.table, m) && last.saveOk
    ensures ForcedFile(m, names, io, prior, now)
            == Some(CacheFile(FetchAndSave(m, io(LastIndexOf(names, Name(m))), None, now).table, now))
  {
    var n := |names| - 1;
    if names[n] != Name(m) {
      assert LastIndexOf(names, Name(m)) == LastIndexOf(names[..n], Name(m));
      ForcedFileLastWins(m, names[..n], io, prior, now);
    }
  }

  /** Extending the requested prefix by one name: one more fetch and save if it names m. */
  lemma ForcedFileStep(m: Metric, names: seq<string>, i: nat, io: nat -> FetchIo, prior: Option<CacheFile>, now: int)
    requires i < |names|
    ensures ForcedFile(m, names[..i + 1], io, prior, now)
            == if names[i] == Name(m) then FetchAndSave(m, io(i), ForcedFile(m, names[..i], io, prior, now), now).file
               else ForcedFile(m, names[..i], io, prior, now)
  {
    assert names[..i + 1][..i] == names[..i];
  }

  /** Extending the requested prefix by one name moves only that name's last position. */
  lemma LastIndexStep(names: seq<string>, i: nat, s: string)
    requires i < |names| && s in names[..i + 1]
    ensures names[i] != s ==> s in names[..i]
    ensures LastIndexOf(names[..i + 1], s) == if names[i] == s then i else LastIndexOf(names[..i], s)
  {
    assert names[..i + 1][..i] == names[..i];
    assert names[..i + 1] == names[..i] + [names[i]];
  }

  /** The disk after one more requested name, if it names a metric. */
  function ForcedDisk(after: Disk, name: string, i: nat, io: nat -> FetchIo, now: int): Disk
  {
    if ParseMetric(name).Some? then
      var m := ParseMetric(name).value;
      Store(after, m, FetchAndSave(m, io(i), FileOf(after, m), now).file)
    else after
  }

  /** The entries after one more requested name, if it names a metric. */
  function ForcedEntries(result: map<string, Table>, after: Disk, name: string, i: nat, io: nat -> FetchIo, now: int): map<string, Table>
  {
    if ParseMetric(name).Some? then
      var m := ParseMetric(name).value;
      result[name := FetchAndSave(m, io(i), FileOf(after, m), now).table]
    else result
  }

  /**
   * What handling the first i requested names leaves: an entry for each
   * known name among them, the frame of its last request, and each
   * metric's file the fold of its requests.
   */
  ghost predicate ForcedSoFar(result: map<string, Table>, after: Disk, disk: Disk, names: seq<string>, i: nat, io: nat -> FetchIo, now: int)
    requires i <= |names|
  {
    && (forall s :: s in result <==> s in names[..i] && ParseMetric(s).Some?)
    && (forall s | s in result ::
          result[s] == FetchAndSave(ParseMetric(s).value, io(LastIndexOf(names[..i], s)), None, now).table)
    && (forall m :: FileOf(after, m) == ForcedFile(m, names[..i], io, FileOf(disk, m), now))
  }

  /** Handling one more requested name keeps every entry the frame of its name's last request. */
  lemma ForcedEntriesStep(result: map<string, Table>, after: Disk, names: seq<string>, i: nat, io: nat -> FetchIo, now: int)
    requires i < |names|
    requires forall s :: s in result <==> s in names[..i] && ParseMetric(s).Some?
    requires forall s | s in result ::
               result[s] == FetchAndSave(ParseMetric(s).value, io(LastIndexOf(names[..i], s)), None, now).table
    ensures var r := ForcedEntries(result, after, names[i], i, io, now);
            (forall s :: s in r <==> s in names[..i + 1] && ParseMetric(s).Some?)
            && forall s | s in r :: r[s] == FetchAndSave(ParseMetric(s).value, io(LastIndexOf(names[..i + 1], s)), None, now).table
  {
    assert names[..i + 1] == names[..i] + [names[i]];
    var r := ForcedEntries(result, after, names[i], i, io, now);
    forall s | s in r
      ensures r[s] == FetchAndSave(ParseMetric(s).value, io(LastIndexOf(names[..i + 1], s)), None, now).table
    {
      LastIndexStep(names, i, s);
    }
  }

  /** Handling one more requested name keeps every file the fold of the requests so far. */
  lemma ForcedDiskStep(after: Disk, disk: Disk, names: seq<string>, i: nat, io: nat -> FetchIo, now: int)
    requires i < |names|
    requires forall m :: FileOf(after, m) == ForcedFile(m, names[..i], io, FileOf(disk, m), now)
    ensures forall m :: FileOf(ForcedDisk(after, names[i], i, io, now), m) == ForcedFile(m, names[..i + 1], io, FileOf(disk, m), now)
  {
    forall n ensures FileOf(ForcedDisk(after, names[i], i, io, now), n) == ForcedFile(n, names[..i + 1], io, FileOf(disk, n), now) {
      ParseName(n);
      ForcedFileStep(n, names, i, io, FileOf(disk, n), now);
    }
  }

  /** Handling one more requested name keeps ForcedSoFar. */
  lemma ForcedStep(result: map<string, Table>, after: Disk, disk: Disk, names: seq<string>, i: nat, io: nat -> FetchIo, now: int)
    requires i < |names|
    requires ForcedSoFar(result, after, disk, names, i, io, now)
    ensures ForcedSoFar(ForcedEntries(result, after, names[i], i, io, now), ForcedDisk(after, names[i], i, io, now), disk, names, i + 1, io, now)
  {
    ForcedEntriesStep(result, after, names, i, io, now);
    ForcedDiskStep(after, disk, names, i, io, now);
  }

  /** Before any name is handled there are no entries and every file is as it was. */
  lemma ForcedStart(disk: Disk, names: seq<string>, io: nat -> FetchIo, now: int)
    ensures ForcedSoFar(map[], disk, disk, names, 0, io, now)
  {
    assert names[..0] == [];
  }

  /** Once every requested name is handled, ForcedSoFar is the whole contract. */
  lemma ForcedDone(result: map<string, Table>, after: Disk, disk: Disk, names: seq<string>, io: nat -> FetchIo, now: int)
    requires ForcedSoFar(result, after, disk, names, |names|, io, now)
    ensures forall s :: s in result <==> s in names && ParseMetric(s).Some?
    ensures forall s | s in result :: result[s] == FetchAndSave(ParseMetric(s).value, io(LastIndexOf(names, s)), None, now).table
    ensures forall m :: FileOf(after, m) == ForcedFile(m, names, io, FileOf(disk, m), now)
  {
    assert names[..|names|] == names;
  }

  /** One pass of force_fetch_real_data's loop: an unknown name is skipped, a known one fetched and saved. */
  method ForceOne(result: map<string, Table>, after: Disk, name: string, i: nat, io: nat -> FetchIo, now: int)
    returns (result': map<string, Table>, after': Disk)
    ensures result' == ForcedEntries(result, after, name, i, io, now)
    ensures after' == ForcedDisk(after, name, i, io, now)
  {
    result', after' := result, after;
    var parsed := ParseMetric(name);
    if parsed.Some? {
      var m := parsed.value;
      var s := FetchAndSave(m, io(i), FileOf(after, m), now);
      result' := result[name := s.table];
      after' := Store(after, m, s.file);
    }
  }

  /**
   * force_fetch_real_data: each known requested type is fetched and saved
   * and gets an entry, the frame of its last request; unknown names are
   * skipped and get none. io(i) is the outcome of the request at position i.
   */
  method ForceFetchRealData(names: Option<seq<string>>, disk: Disk, now: int, io: nat -> FetchIo)
    returns (result: map<string, Table>, after: Disk)
    ensures forall s :: s in result <==> s in RequestedNames(names) && ParseMetric(s).Some?
    ensures forall s | s in result ::
              result[s] == FetchAndSave(ParseMetric(s).value, io(LastIndexOf(RequestedNames(names), s)), None, now).table
    ensures forall m :: FileOf(after, m) == ForcedFile(m, RequestedNames(names), io, FileOf(disk, m), now)
  {
    var types := RequestedNames(names);
    result := map[];
    after := disk;
    var i := 0;
    ForcedStart(disk, types, io, now);
    while i < |types|
      invariant 0 <= i <= |types|
      invariant ForcedSoFar(result, after, disk, types, i, io, now)
    {
      ForcedStep(result, after, disk, types, i, io, now);
      result, after := ForceOne(result, after, types[i], i, io, now);
      i := i + 1;
    }
    ForcedDone(result, after, disk, types, io, now);
  }

  /** With no list given, exactly downloads and contributions are fetched. */
  lemma ForceFetchDefault()
    ensures forall s :: (s in RequestedNames(None) && ParseMetric(s).Some?) <==> s == "downloads" || s == "contributions"
  {
  }
}
