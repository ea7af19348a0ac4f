/**
 * The six GitHub fetchers and GitHubFetcher.fetch_all. Each fetcher walks
 * its REST pages or GraphQL answers with the loops of Paging, then turns the
 * collected event dates into a daily series. Commit statistics expand week
 * buckets into days, and downloads sum asset counters per date.
 */
module Fetchers {

  import opened Wrappers
  import opened Series
  import opened Metrics
  import opened Paging
  import Transport

  /** per_page and max_pages of BaseFetcher. */
  datatype Config = Config(perPage: nat, maxPages: nat)

  const DefaultConfig: Config := Config(100, 1000)

  // ---------------------------------------------------------------------
  // Event series
  // ---------------------------------------------------------------------

  /** One event per date, grouped by day: the series every event fetcher returns. */
  function EventTable(m: Metric, dates: seq<Day>): Table
  {
    DailyCounts(m, UnitRows(dates))
  }

  lemma {:induction false} UnitRowsDates(dates: seq<Day>)
    ensures Dates(UnitRows(dates)) == set d | d in dates
  {
    if dates != [] {
      UnitRowsDates(dates[1..]);
      DatesCons(UnitRows(dates));
      assert UnitRows(dates)[1..] == UnitRows(dates[1..]);
      assert dates == [dates[0]] + dates[1..];
    }
  }

  lemma {:induction false} UnitRowsCount(dates: seq<Day>, d: Day)
    ensures CountOn(UnitRows(dates), d) == multiset(dates)[d]
  {
    if dates != [] {
      var rows := UnitRows(dates);
      UnitRowsCount(dates[1..], d);
      assert rows[1..] == UnitRows(dates[1..]);
      assert CountOn(rows, d) == (if dates[0] == d then 1 else 0) + CountOn(rows[1..], d);
      assert multiset(dates) == multiset{dates[0]} + multiset(dates[1..]) by {
        assert dates == [dates[0]] + dates[1..];
      }
    }
  }

  /**
   * An event series has the metric's schema, one row per event date in
   * ascending order, a count of at least 1 on each row equal to the number
   * of events that day, a total equal to the number of events, and is empty
   * exactly when no event was collected.
   */
  lemma EventTableProperties(m: Metric, dates: seq<Day>)
    ensures EventTable(m, dates).columns == Schema(m)
    ensures StrictlyIncreasing(EventTable(m, dates).rows)
    ensures AllPositive(EventTable(m, dates).rows)
    ensures Dates(EventTable(m, dates).rows) == set d | d in dates
    ensures forall d :: CountOn(EventTable(m, dates).rows, d) == multiset(dates)[d]
    ensures Total(EventTable(m, dates).rows) == |dates|
    ensures IsEmpty(EventTable(m, dates)) <==> dates == []
  {
    var rows := UnitRows(dates);
    UnitTotal(rows);
    UnitRowsDates(dates);
    DailyCountsProperties(m, rows);
    forall d ensures CountOn(EventTable(m, dates).rows, d) == multiset(dates)[d] {
      UnitRowsCount(dates, d);
    }
  }

  /** Two stars on 2024-01-01 (day 19723) and one on 2024-01-02. */
  lemma StarsExample()
    ensures EventTable(Stars, [19723, 19723, 19724]).rows == [Row(19723, 2), Row(19724, 1)]
  {
    var rows := UnitRows([19723, 19723, 19724]);
    assert rows == [Row(19723, 1), Row(19723, 1), Row(19724, 1)];
    assert rows[1..] == [Row(19723, 1), Row(19724, 1)];
    assert rows[1..][1..] == [Row(19724, 1)];
    assert GroupSum([Row(19724, 1)]) == [Row(19724, 1)];
    assert GroupSum(rows[1..]) == [Row(19723, 1), Row(19724, 1)];
  }

  /** The dates collected by a REST walk. */
  function RestGathered<T, U>(pages: seq<RestPage<T>>, p: RestPolicy, extract: seq<T> -> seq<U>): seq<U>
  {
    GatheredUpTo(pages, extract, PagesKept(pages, p, extract, 0))
  }

  /** The dates collected by a GraphQL walk. */
  function GqlDates(resps: seq<GqlResponse>, p: GqlPolicy): seq<Day>
  {
    DatesUpTo(resps, p, QueriesMade(resps, p, 0))
  }

  // ---------------------------------------------------------------------
  // Stars
  // ---------------------------------------------------------------------

  /** Stargazers REST: no short-page stop. */
  function StarsPolicy(cfg: Config): RestPolicy
  {
    RestPolicy(cfg.maxPages, cfg.perPage, false, None)
  }

  /** Stargazers GraphQL: unbounded, stops when endCursor is missing, reads the edges it selects. */
  const StarsGqlPolicy: GqlPolicy := GqlPolicy(None, true, None, Edges, Edges)

  method StarsRest(pages: seq<RestPage<Option<Day>>>, cfg: Config) returns (t: Table)
    ensures t == EventTable(Stars, RestGathered(pages, StarsPolicy(cfg), Parsed))
  {
    var dates := CollectRest(pages, StarsPolicy(cfg), Parsed);
    t := EventTable(Stars, dates);
  }

  method StarsGraphql(resps: seq<GqlResponse>) returns (t: Table)
    ensures t == EventTable(Stars, GqlDates(resps, StarsGqlPolicy))
  {
    var dates, _ := CollectGraphql(resps, StarsGqlPolicy);
    t := EventTable(Stars, dates);
  }

  /** StarsFetcher.fetch: GraphQL when P16_USE_GRAPHQL is "1", REST otherwise. */
  method StarsFetch(useGraphql: bool, pages: seq<RestPage<Option<Day>>>, resps: seq<GqlResponse>, cfg: Config) returns (t: Table)
    ensures t == if useGraphql then EventTable(Stars, GqlDates(resps, StarsGqlPolicy))
                 else EventTable(Stars, RestGathered(pages, StarsPolicy(cfg), Parsed))
  {
    if useGraphql {
      t := StarsGraphql(resps);
    } else {
      t := StarsRest(pages, cfg);
    }
  }

  // ---------------------------------------------------------------------
  // Forks
  // ---------------------------------------------------------------------

  function ForksPolicy(cfg: Config): RestPolicy
  {
    RestPolicy(cfg.maxPages, cfg.perPage, false, None)
  }

  /** Forks GraphQL: at most 200 queries over the selected nodes. */
  const ForksGqlPolicy: GqlPolicy := GqlPolicy(Some(200), false, None, Nodes, Nodes)

  method ForksRest(pages: seq<RestPage<Option<Day>>>, cfg: Config) returns (t: Table)
    ensures t == EventTable(Forks, RestGathered(pages, ForksPolicy(cfg), Parsed))
  {
    var dates := CollectRest(pages, ForksPolicy(cfg), Parsed);
    t := EventTable(Forks, dates);
  }

  /** The forks GraphQL table as the code builds it: grouped by day, then a running sum. */
  function RunningForks(dates: seq<Day>): Table
  {
    if dates == [] then EmptyOf(Forks) else Table(Schema(Forks), CumSum(GroupSum(UnitRows(dates))))
  }

  /** ForksFetcher.fetch_graphql as written: cumulative counts under the "forks" column. */
  method ForksGraphqlAsWritten(resps: seq<GqlResponse>) returns (t: Table)
    ensures t == RunningForks(GqlDates(resps, ForksGqlPolicy))
  {
    var dates, _ := CollectGraphql(resps, ForksGqlPolicy);
    t := RunningForks(dates);
  }

  /** ForksFetcher.fetch_graphql with the daily counts its class documents. */
  method ForksGraphql(resps: seq<GqlResponse>) returns (t: Table)
    ensures t == EventTable(Forks, GqlDates(resps, ForksGqlPolicy))
  {
    var dates, _ := CollectGraphql(resps, ForksGqlPolicy);
    t := EventTable(Forks, dates);
  }

  /**
   * The as-written forks series is the running sum of the daily one: same
   * dates, non-decreasing, ending at the number of forks, and the daily
   * series is recovered by differencing.
   */
  lemma RunningForksIsCumulative(dates: seq<Day>)
    ensures |RunningForks(dates).rows| == |EventTable(Forks, dates).rows|
    ensures forall i :: 0 <= i < |RunningForks(dates).rows| ==>
              RunningForks(dates).rows[i].date == EventTable(Forks, dates).rows[i].date
    ensures forall i, j :: 0 <= i < j < |RunningForks(dates).rows| ==>
              RunningForks(dates).rows[i].value <= RunningForks(dates).rows[j].value
    ensures dates != [] ==> RunningForks(dates).rows[|RunningForks(dates).rows| - 1].value == |dates|
    ensures DeltasFrom(RunningForks(dates).rows, 0) == EventTable(Forks, dates).rows
  {
    var daily := EventTable(Forks, dates).rows;
    EventTableProperties(Forks, dates);
    if dates != [] {
      assert daily == GroupSum(UnitRows(dates));
      CumSumDates(daily);
      CumSumShape(daily);
      DeltasUndoRunning(daily, 0);
    }
  }

  /** Forks on two different days: the code reports 1 then 2, the documented daily series 1 then 1. */
  lemma RunningForksExample()
    ensures RunningForks([10, 11]).rows == [Row(10, 1), Row(11, 2)]
    ensures EventTable(Forks, [10, 11]).rows == [Row(10, 1), Row(11, 1)]
  {
    assert UnitRows([10, 11]) == [Row(10, 1), Row(11, 1)];
    assert UnitRows([10, 11])[1..] == [Row(11, 1)];
    assert GroupSum([Row(11, 1)]) == [Row(11, 1)];
    assert GroupSum(UnitRows([10, 11])) == [Row(10, 1), Row(11, 1)];
  }

  /** ForksFetcher.fetch: fetch_graphql, as written, when the switch is on, REST otherwise. */
  method ForksFetch(useGraphql: bool, pages: seq<RestPage<Option<Day>>>, resps: seq<GqlResponse>, cfg: Config) returns (t: Table)
    ensures t == if useGraphql then RunningForks(GqlDates(resps, ForksGqlPolicy))
                 else EventTable(Forks, RestGathered(pages, ForksPolicy(cfg), Parsed))
  {
    if useGraphql {
      t := ForksGraphqlAsWritten(resps);
    } else {
      t := ForksRest(pages, cfg);
    }
  }

  // ---------------------------------------------------------------------
  // Pull requests
  // ---------------------------------------------------------------------

  /** PRs REST: max_pages pages, a short page ends the walk. */
  function PrsPolicy(cfg: Config): RestPolicy
  {
    RestPolicy(cfg.maxPages, cfg.perPage, true, None)
  }

  const PrsGqlPolicy: GqlPolicy := GqlPolicy(Some(200), false, None, Nodes, Nodes)

  method PrsFetch(pages: seq<RestPage<Option<Day>>>, cfg: Config) returns (t: Table)
    ensures t == EventTable(Prs, RestGathered(pages, PrsPolicy(cfg), Parsed))
  {
    var dates := CollectRest(pages, PrsPolicy(cfg), Parsed);
    t := EventTable(Prs, dates);
  }

  method PrsGraphql(resps: seq<GqlResponse>) returns (t: Table)
    ensures t == EventTable(Prs, GqlDates(resps, PrsGqlPolicy))
  {
    var dates, _ := CollectGraphql(resps, PrsGqlPolicy);
    t := EventTable(Prs, dates);
  }

  // ---------------------------------------------------------------------
  // Issues
  // ---------------------------------------------------------------------

  /** An entry of the issues endpoint: whether it carries a pull_request field, and its parsed created_at. */
  datatype IssueItem = IssueItem(isPullRequest: bool, created: Option<Day>)

  /** The creation dates of the genuine issues on a page; pull requests are skipped. */
  function IssueDates(items: seq<IssueItem>): seq<Day>
  {
    if items == [] then []
    else (if !items[0].isPullRequest && items[0].created.Some? then [items[0].created.value] else [])
         + IssueDates(items[1..])
  }

  /** A date is counted exactly when a genuine issue, not a pull request, was created on it. */
  lemma {:induction false} IssueDatesMembership(items: seq<IssueItem>, d: Day)
    ensures d in IssueDates(items) <==> exists i :: 0 <= i < |items| && !items[i].isPullRequest && items[i].created == Some(d)
  {
    if items != [] {
      IssueDatesMembership(items[1..], d);
      if d in IssueDates(items[1..]) {
        var i :| 0 <= i < |items[1..]| && !items[1..][i].isPullRequest && items[1..][i].created == Some(d);
        assert items[i + 1] == items[1..][i];
      }
      if exists i :: 0 <= i < |items| && !items[i].isPullRequest && items[i].created == Some(d) {
        var i :| 0 <= i < |items| && !items[i].isPullRequest && items[i].created == Some(d);
        if i > 0 {
          assert items[1..][i - 1] == items[i];
        }
      }
    }
  }

  /** Issues REST: 20 pages at most, a short page ends the walk, and so do more than 1000 dates. */
  function IssuesPolicy(cfg: Config): RestPolicy
  {
    RestPolicy(20, cfg.perPage, true, Some(1000))
  }

  /** Issues GraphQL as written: 10 queries, a 500-date cap, nodes selected but edges read. */
  const IssuesGqlPolicyAsWritten: GqlPolicy := GqlPolicy(Some(10), false, Some(500), Nodes, Edges)

  /** Issues GraphQL reading the nodes its query selects. */
  const IssuesGqlPolicy: GqlPolicy := GqlPolicy(Some(10), false, Some(500), Nodes, Nodes)

  method IssuesFetch(pages: seq<RestPage<IssueItem>>, cfg: Config) returns (t: Table)
    ensures t == EventTable(Issues, RestGathered(pages, IssuesPolicy(cfg), IssueDates))
  {
    var dates := CollectRest(pages, IssuesPolicy(cfg), IssueDates);
    t := EventTable(Issues, dates);
  }

  /** IssuesFetcher.fetch_graphql as written: whatever GitHub answers, the series is empty. */
  method IssuesGraphqlAsWritten(resps: seq<GqlResponse>) returns (t: Table)
    ensures t == EmptyOf(Issues)
  {
    var dates, queries := CollectGraphql(resps, IssuesGqlPolicyAsWritten);
    UnselectedListReadsNothing(resps, IssuesGqlPolicyAsWritten, queries);
    t := EventTable(Issues, dates);
  }

  method IssuesGraphql(resps: seq<GqlResponse>) returns (t: Table)
    ensures t == EventTable(Issues, GqlDates(resps, IssuesGqlPolicy))
  {
    var dates, _ := CollectGraphql(resps, IssuesGqlPolicy);
    t := EventTable(Issues, dates);
  }

  /** One answer holding one issue: reading the selected nodes finds it, the as-written loop does not. */
  lemma IssuesGraphqlExample()
    ensures GqlDates([Connection([Some(5)], false, false)], IssuesGqlPolicy) == [5]
    ensures GqlDates([Connection([Some(5)], false, false)], IssuesGqlPolicyAsWritten) == []
  {
    var resps := [Connection([Some(5)], false, false)];
    assert QueriesMade(resps, IssuesGqlPolicy, 0) == 1;
    assert QueriesMade(resps, IssuesGqlPolicyAsWritten, 0) == 1;
    assert Parsed([Some(5)]) == [5] by {
      assert [Some(5)][1..] == [];
    }
  }

  // ---------------------------------------------------------------------
  // Contributions
  // ---------------------------------------------------------------------

  const SecondsPerDay: int := 86400
  const StatsPending: int := 202

  /** A bucket of /stats/commit_activity: its start (Unix seconds) and seven daily counts. */
  datatype Week = Week(start: int, days: seq<int>)

  /** A stats answer: status and the list of weeks (empty when the body was null or []). */
  datatype StatsReply = StatsReply(status: int, weeks: seq<Week>)

  function StatsAt(replies: seq<StatsReply>, i: nat): StatsReply
  {
    if i < |replies| then replies[i] else StatsReply(0, [])
  }

  /** Day base + i carries counts[i], and only positive counts make a row. */
  function DayRows(base: Day, counts: seq<int>): seq<Row>
    decreases |counts|
  {
    if counts == [] then []
    else (if counts[0] > 0 then [Row(base, counts[0])] else []) + DayRows(base + 1, counts[1..])
  }

  /** The rows of one week: day i of the bucket is the start's calendar day plus i. */
  function WeekRows(w: Week): seq<Row>
  {
    DayRows(w.start / SecondsPerDay, w.days)
  }

  function StatsRows(weeks: seq<Week>): seq<Row>
    decreases |weeks|
  {
    if weeks == [] then [] else StatsRows(weeks[..|weeks| - 1]) + WeekRows(weeks[|weeks| - 1])
  }

  /** A row of a week bucket is day base + i with the positive count days[i], and every such day gives a row. */
  lemma {:induction false} DayRowsMembership(base: Day, counts: seq<int>, r: Row)
    ensures r in DayRows(base, counts) <==>
            exists i :: 0 <= i < |counts| && counts[i] > 0 && r == Row(base + i, counts[i])
    decreases |counts|
  {
    if counts != [] {
      DayRowsMembership(base + 1, counts[1..], r);
      if r in DayRows(base + 1, counts[1..]) {
        var i :| 0 <= i < |counts[1..]| && counts[1..][i] > 0 && r == Row(base + 1 + i, counts[1..][i]);
        assert counts[i + 1] == counts[1..][i];
      }
      if exists i :: 0 <= i < |counts| && counts[i] > 0 && r == Row(base + i, counts[i]) {
        var i :| 0 <= i < |counts| && counts[i] > 0 && r == Row(base + i, counts[i]);
        if i > 0 {
          assert counts[1..][i - 1] == counts[i];
        }
      }
    }
  }

  lemma {:induction false} DayRowsPositive(base: Day, counts: seq<int>)
    ensures AllPositive(DayRows(base, counts))
    decreases |counts|
  {
    if counts != [] {
      DayRowsPositive(base + 1, counts[1..]);
    }
  }

  lemma {:induction false} StatsRowsPositive(weeks: seq<Week>)
    ensures AllPositive(StatsRows(weeks))
    decreases |weeks|
  {
    if weeks != [] {
      StatsRowsPositive(weeks[..|weeks| - 1]);
      DayRowsPositive(weeks[|weeks| - 1].start / SecondsPerDay, weeks[|weeks| - 1].days);
    }
  }

  /** The table built from a 200 answer: empty when it had no weeks or no positive day, else the rows sorted by date. */
  function StatsTable(reply: StatsReply): Table
  {
    if reply.status != Ok || reply.weeks == [] || StatsRows(reply.weeks) == [] then EmptyOf(Contributions)
    else Table(Schema(Contributions), SortByDate(StatsRows(reply.weeks)))
  }

  /** The first of the three stats attempts that did not answer 202, if any. */
  function StatsAnswer(replies: seq<StatsReply>): Option<nat>
  {
    if StatsAt(replies, 0).status != StatsPending then Some(0)
    else if StatsAt(replies, 1).status != StatsPending then Some(1)
    else if StatsAt(replies, 2).status != StatsPending then Some(2)
    else None
  }

  /**
   * _fetch_from_stats_api: up to three requests, sleeping 2 s after each
   * early 202; the first other answer decides the table.
   */
  method FetchCommitStats(replies: seq<StatsReply>) returns (t: Table, sleeps: seq<int>)
    ensures StatsAnswer(replies).None? ==> t == EmptyOf(Contributions) && sleeps == [2, 2]
    ensures StatsAnswer(replies).Some? ==>
              t == StatsTable(StatsAt(replies, StatsAnswer(replies).value))
              && |sleeps| == StatsAnswer(replies).value
              && forall k :: 0 <= k < |sleeps| ==> sleeps[k] == 2
  {
    sleeps := [];
    var attempt := 0;
    while attempt < 3
      invariant 0 <= attempt <= 2
      invariant forall k :: 0 <= k < attempt ==> StatsAt(replies, k).status == StatsPending
      invariant |sleeps| == attempt && forall k :: 0 <= k < attempt ==> sleeps[k] == 2
      decreases 3 - attempt
    {
      var resp := StatsAt(replies, attempt);
      if resp.status == StatsPending {
        if attempt < 2 {
          sleeps := sleeps + [2];
          attempt := attempt + 1;
          continue;
        }
        return EmptyOf(Contributions), sleeps;
      }
      if resp.status != Ok {
        return EmptyOf(Contributions), sleeps;
      }
      if resp.weeks == [] {
        return EmptyOf(Contributions), sleeps;
      }
      var rows := [];
      var w := 0;
      while w < |resp.weeks|
        invariant 0 <= w <= |resp.weeks|
        invariant rows == StatsRows(resp.weeks[..w])
      {
        assert resp.weeks[..w + 1][..w] == resp.weeks[..w];
        rows := rows + WeekRows(resp.weeks[w]);
        w := w + 1;
      }
      assert resp.weeks[..w] == resp.weeks;
      if rows == [] {
        return EmptyOf(Contributions), sleeps;
      }
      return Table(Schema(Contributions), SortByDate(rows)), sleeps;
    }
    t := EmptyOf(Contributions);
  }

  /**
   * A stats table has the contributions schema, rows sorted by date that are
   * exactly the positive day counts of the answer's weeks, each at least 1.
   */
  lemma StatsTableProperties(reply: StatsReply)
    ensures StatsTable(reply).columns == Schema(Contributions)
    ensures SortedByDate(StatsTable(reply).rows)
    ensures AllPositive(StatsTable(reply).rows)
    ensures reply.status == Ok ==> multiset(StatsTable(reply).rows) == multiset(StatsRows(reply.weeks))
  {
    var rows := StatsRows(reply.weeks);
    SortByDateProperties(rows);
    StatsRowsPositive(reply.weeks);
    if !IsEmpty(StatsTable(reply)) {
      forall r | r in StatsTable(reply).rows ensures r.value >= 1 {
        assert r in multiset(rows);
      }
    }
  }

  /** The week starting 2024-01-07 (day 19729) with 2 commits on Monday and 1 on Thursday. */
  lemma StatsExample()
    ensures StatsTable(StatsReply(200, [Week(1704585600, [0, 2, 0, 0, 1, 0, 0])])).rows == [Row(19730, 2), Row(19733, 1)]
  {
    var w := Week(1704585600, [0, 2, 0, 0, 1, 0, 0]);
    assert w.start / SecondsPerDay == 19729;
    var c := w.days;
    assert DayRows(19735, c[6..]) == [] by { assert c[6..][1..] == []; }
    assert DayRows(19734, c[5..]) == [] by { assert c[5..][1..] == c[6..]; }
    assert DayRows(19733, c[4..]) == [Row(19733, 1)] by { assert c[4..][1..] == c[5..]; }
    assert DayRows(19732, c[3..]) == [Row(19733, 1)] by { assert c[3..][1..] == c[4..]; }
    assert DayRows(19731, c[2..]) == [Row(19733, 1)] by { assert c[2..][1..] == c[3..]; }
    assert DayRows(19730, c[1..]) == [Row(19730, 2), Row(19733, 1)] by { assert c[1..][1..] == c[2..]; }
    assert DayRows(19729, c) == [Row(19730, 2), Row(19733, 1)] by { assert c[1..] == c[1..]; }
    assert StatsRows([w]) == [Row(19730, 2), Row(19733, 1)] by { assert [w][..0] == []; }
    assert SortByDate([Row(19733, 1)]) == [Row(19733, 1)];
  }

  /** The commits fallback: min(10, max_pages) pages, a short page ends the walk. */
  function CommitsPolicy(cfg: Config): RestPolicy
  {
    RestPolicy(Transport.Min(10, cfg.maxPages), cfg.perPage, true, None)
  }

  method CommitsFallback(pages: seq<RestPage<Option<Day>>>, cfg: Config) returns (t: Table)
    ensures t == EventTable(Contributions, RestGathered(pages, CommitsPolicy(cfg), Parsed))
  {
    var dates := CollectRest(pages, CommitsPolicy(cfg), Parsed);
    t := EventTable(Contributions, dates);
  }

  /** ContributionsFetcher.fetch: the stats table unless it is empty, then the commits fallback. */
  function ContributionsTable(replies: seq<StatsReply>, pages: seq<RestPage<Option<Day>>>, cfg: Config): Table
  {
    if StatsAnswer(replies).Some? && !IsEmpty(StatsTable(StatsAt(replies, StatsAnswer(replies).value)))
    then StatsTable(StatsAt(replies, StatsAnswer(replies).value))
    else EventTable(Contributions, RestGathered(pages, CommitsPolicy(cfg), Parsed))
  }

  method ContributionsFetch(replies: seq<StatsReply>, pages: seq<RestPage<Option<Day>>>, cfg: Config) returns (t: Table)
    ensures StatsAnswer(replies).Some? && !IsEmpty(StatsTable(StatsAt(replies, StatsAnswer(replies).value)))
            ==> t == StatsTable(StatsAt(replies, StatsAnswer(replies).value))
    ensures StatsAnswer(replies).None? || IsEmpty(StatsTable(StatsAt(replies, StatsAnswer(replies).value)))
            ==> t == EventTable(Contributions, RestGathered(pages, CommitsPolicy(cfg), Parsed))
    ensures t == ContributionsTable(replies, pages, cfg)
  {
    var stats, _ := FetchCommitStats(replies);
    if !IsEmpty(stats) {
      return stats;
    }
    t := CommitsFallback(pages, cfg);
  }

  // ---------------------------------------------------------------------
  // Downloads
  // ---------------------------------------------------------------------

  /** A timestamp field: missing or empty (falsy), or a non-empty string and what _to_date made of it. */
  datatype Stamp = Absent | Text(parsed: Option<Day>)

  datatype Asset = Asset(created: Stamp, updated: Stamp, downloadCount: int)

  datatype Release = Release(published: Stamp, created: Stamp, assets: seq<Asset>)

  /** Python's `a or b` on timestamp strings. */
  function Or(a: Stamp, b: Stamp): Stamp
  {
    if a.Text? then a else b
  }

  /** The rows of a release's assets: the first present of created_at, updated_at and the release date, parsed, with a positive count. */
  function AssetRows(releaseStamp: Stamp, assets: seq<Asset>): seq<Row>
  {
    if assets == [] then []
    else
      var a := assets[0];
      var s := Or(Or(a.created, a.updated), releaseStamp);
      (if s.Text? && s.parsed.Some? && a.downloadCount > 0 then [Row(s.parsed.value, a.downloadCount)] else [])
      + AssetRows(releaseStamp, assets[1..])
  }

  /** The rows of a page of releases; a release without a parseable published_at or created_at is skipped. */
  function ReleaseRows(releases: seq<Release>): seq<Row>
  {
    if releases == [] then []
    else
      var r := releases[0];
      var stamp := Or(r.published, r.created);
      (if stamp.Text? && stamp.parsed.Some? then AssetRows(stamp, r.assets) else [])
      + ReleaseRows(releases[1..])
  }

  lemma {:induction false} AssetRowsPositive(stamp: Stamp, assets: seq<Asset>)
    ensures AllPositive(AssetRows(stamp, assets))
  {
    if assets != [] {
      AssetRowsPositive(stamp, assets[1..]);
    }
  }

  /**
   * A row comes from an asset exactly when that asset has a positive counter,
   * which the row carries, and the first present of its created_at, its
   * updated_at and the release date parses to the row's date.
   */
  lemma {:induction false} AssetRowsMembership(stamp: Stamp, assets: seq<Asset>, d: Day, c: int)
    ensures Row(d, c) in AssetRows(stamp, assets) <==>
            exists i :: 0 <= i < |assets| && assets[i].downloadCount == c && c > 0
                        && Or(Or(assets[i].created, assets[i].updated), stamp) == Text(Some(d))
  {
    if assets != [] {
      AssetRowsMembership(stamp, assets[1..], d, c);
      if exists i :: 0 <= i < |assets[1..]| && assets[1..][i].downloadCount == c && c > 0
                     && Or(Or(assets[1..][i].created, assets[1..][i].updated), stamp) == Text(Some(d)) {
        var i :| 0 <= i < |assets[1..]| && assets[1..][i].downloadCount == c && c > 0
                 && Or(Or(assets[1..][i].created, assets[1..][i].updated), stamp) == Text(Some(d));
        assert assets[i + 1] == assets[1..][i];
      }
      if exists i :: 0 <= i < |assets| && assets[i].downloadCount == c && c > 0
                     && Or(Or(assets[i].created, assets[i].updated), stamp) == Text(Some(d)) {
        var i :| 0 <= i < |assets| && assets[i].downloadCount == c && c > 0
                 && Or(Or(assets[i].created, assets[i].updated), stamp) == Text(Some(d));
        if i > 0 {
          assert assets[1..][i - 1] == assets[i];
        }
      }
    }
  }

  lemma {:induction false} ReleaseRowsPositive(releases: seq<Release>)
    ensures AllPositive(ReleaseRows(releases))
  {
    if releases != [] {
      ReleaseRowsPositive(releases[1..]);
      AssetRowsPositive(Or(releases[0].published, releases[0].created), releases[0].assets);
    }
  }

  /** An asset without its own timestamps is dated by its release, and only a positive counter counts. */
  lemma AssetDateFallback(day: Day, count: int)
    ensures AssetRows(Text(Some(day)), [Asset(Absent, Absent, count)]) == if count > 0 then [Row(day, count)] else []
  {
  }

  /** A release whose date string does not parse contributes nothing, even if its assets carry dates. */
  lemma UnparsedReleaseSkipped(r: Release, rest: seq<Release>)
    requires Or(r.published, r.created).Absent? || Or(r.published, r.created).parsed.None?
    ensures ReleaseRows([r] + rest) == ReleaseRows(rest)
  {
    assert ([r] + rest)[1..] == rest;
  }

  lemma GatheredReleasesPositive(pages: seq<RestPage<Release>>, n: nat)
    ensures AllPositive(GatheredUpTo(pages, ReleaseRows, n))
  {
    forall items ensures AllPositive(ReleaseRows(items)) {
      ReleaseRowsPositive(items);
    }
    GatheredPositive(pages, ReleaseRows, n);
  }

  /** Releases REST: max_pages pages, a short page ends the walk. */
  function DownloadsPolicy(cfg: Config): RestPolicy
  {
    RestPolicy(cfg.maxPages, cfg.perPage, true, None)
  }

  method DownloadsFetch(pages: seq<RestPage<Release>>, cfg: Config) returns (t: Table)
    ensures t == DailyCounts(Downloads, RestGathered(pages, DownloadsPolicy(cfg), ReleaseRows))
  {
    var rows := CollectRest(pages, DownloadsPolicy(cfg), ReleaseRows);
    t := DailyCounts(Downloads, rows);
  }

  /**
   * The downloads series has one row per date in ascending order, each a
   * positive sum of the asset counters dated that day, and its total is the
   * sum of all counted assets.
   */
  lemma DownloadsProperties(pages: seq<RestPage<Release>>, cfg: Config)
    ensures var t := DailyCounts(Downloads, RestGathered(pages, DownloadsPolicy(cfg), ReleaseRows));
            t.columns == Schema(Downloads) && StrictlyIncreasing(t.rows) && AllPositive(t.rows)
            && Total(t.rows) == Total(RestGathered(pages, DownloadsPolicy(cfg), ReleaseRows))
            && forall d :: CountOn(t.rows, d) == CountOn(RestGathered(pages, DownloadsPolicy(cfg), ReleaseRows), d)
  {
    var rows := RestGathered(pages, DownloadsPolicy(cfg), ReleaseRows);
    GatheredReleasesPositive(pages, PagesKept(pages, DownloadsPolicy(cfg), ReleaseRows, 0));
    DailyCountsProperties(Downloads, rows);
  }

  // ---------------------------------------------------------------------
  // GitHubFetcher.fetch_all
  // ---------------------------------------------------------------------

  /** The answers GitHub gives each endpoint during one run. */
  datatype Traffic = Traffic(
    starPages: seq<RestPage<Option<Day>>>, starAnswers: seq<GqlResponse>,
    forkPages: seq<RestPage<Option<Day>>>, forkAnswers: seq<GqlResponse>,
    prPages: seq<RestPage<Option<Day>>>, prAnswers: seq<GqlResponse>,
    issuePages: seq<RestPage<IssueItem>>, issueAnswers: seq<GqlResponse>,
    releasePages: seq<RestPage<Release>>,
    statsReplies: seq<StatsReply>, commitPages: seq<RestPage<Option<Day>>>)

  /** Whether the forks and issues GraphQL readers are taken as written or with their defects corrected. */
  datatype Variant = AsWritten | Corrected

  function StarsSeries(useGraphql: bool, traffic: Traffic, cfg: Config): Table
  {
    if useGraphql then EventTable(Stars, GqlDates(traffic.starAnswers, StarsGqlPolicy))
    else EventTable(Stars, RestGathered(traffic.starPages, StarsPolicy(cfg), Parsed))
  }

  function ForksSeries(v: Variant, useGraphql: bool, traffic: Traffic, cfg: Config): Table
  {
    if useGraphql then
      (if v == AsWritten then RunningForks(GqlDates(traffic.forkAnswers, ForksGqlPolicy))
       else EventTable(Forks, GqlDates(traffic.forkAnswers, ForksGqlPolicy)))
    else EventTable(Forks, RestGathered(traffic.forkPages, ForksPolicy(cfg), Parsed))
  }

  function PrsSeries(useGraphql: bool, traffic: Traffic, cfg: Config): Table
  {
    if useGraphql then EventTable(Prs, GqlDates(traffic.prAnswers, PrsGqlPolicy))
    else EventTable(Prs, RestGathered(traffic.prPages, PrsPolicy(cfg), Parsed))
  }

  function IssuesSeries(v: Variant, useGraphql: bool, traffic: Traffic, cfg: Config): Table
  {
    if useGraphql then
      EventTable(Issues, GqlDates(traffic.issueAnswers, if v == AsWritten then IssuesGqlPolicyAsWritten else IssuesGqlPolicy))
    else EventTable(Issues, RestGathered(traffic.issuePages, IssuesPolicy(cfg), IssueDates))
  }

  function DownloadsSeries(traffic: Traffic, cfg: Config): Table
  {
    DailyCounts(Downloads, RestGathered(traffic.releasePages, DownloadsPolicy(cfg), ReleaseRows))
  }

  /**
   * One metric's series. With GraphQL on, stars, forks, PRs and issues come
   * from GraphQL; downloads and contributions always come from REST.
   */
  function SeriesOf(m: Metric, v: Variant, useGraphql: bool, traffic: Traffic, cfg: Config): Table
  {
    match m
    case Stars => StarsSeries(useGraphql, traffic, cfg)
    case Forks => ForksSeries(v, useGraphql, traffic, cfg)
    case Prs => PrsSeries(useGraphql, traffic, cfg)
    case Downloads => DownloadsSeries(traffic, cfg)
    case Issues => IssuesSeries(v, useGraphql, traffic, cfg)
    case Contributions => ContributionsTable(traffic.statsReplies, traffic.commitPages, cfg)
  }

  /**
   * fetch_all as written: every metric gets an entry, the series its fetcher
   * produces, including the running forks sum and the empty issues frame of
   * the GraphQL readers.
   */
  method FetchAll(useGraphql: bool, traffic: Traffic, cfg: Config) returns (result: map<Metric, Table>)
    ensures forall m :: m in result && result[m] == SeriesOf(m, AsWritten, useGraphql, traffic, cfg)
  {
    var stars, forks, prs, issues;
    if useGraphql {
      stars := StarsGraphql(traffic.starAnswers);
      forks := ForksGraphqlAsWritten(traffic.forkAnswers);
      prs := PrsGraphql(traffic.prAnswers);
      issues := IssuesGraphqlAsWritten(traffic.issueAnswers);
      UnselectedListReadsNothing(traffic.issueAnswers, IssuesGqlPolicyAsWritten,
                                 QueriesMade(traffic.issueAnswers, IssuesGqlPolicyAsWritten, 0));
    } else {
      stars := StarsFetch(false, traffic.starPages, traffic.starAnswers, cfg);
      forks := ForksFetch(false, traffic.forkPages, traffic.forkAnswers, cfg);
      prs := PrsFetch(traffic.prPages, cfg);
      issues := IssuesFetch(traffic.issuePages, cfg);
    }
    var downloads := DownloadsFetch(traffic.releasePages, cfg);
    var contribs := ContributionsFetch(traffic.statsReplies, traffic.commitPages, cfg);
    assert stars == StarsSeries(useGraphql, traffic, cfg);
    assert forks == ForksSeries(AsWritten, useGraphql, traffic, cfg);
    assert prs == PrsSeries(useGraphql, traffic, cfg);
    assert issues == IssuesSeries(AsWritten, useGraphql, traffic, cfg);
    assert downloads == DownloadsSeries(traffic, cfg);
    result := ByMetric(stars, forks, prs, downloads, issues, contribs);
    SeriesByMetric(AsWritten, useGraphql, traffic, cfg);
  }

  /** fetch_all with the forks and issues GraphQL readers corrected. */
  method FetchAllCorrected(useGraphql: bool, traffic: Traffic, cfg: Config) returns (result: map<Metric, Table>)
    ensures forall m :: m in result && result[m] == SeriesOf(m, Corrected, useGraphql, traffic, cfg)
  {
    var stars, forks, prs, issues;
    if useGraphql {
      stars := StarsGraphql(traffic.starAnswers);
      forks := ForksGraphql(traffic.forkAnswers);
      prs := PrsGraphql(traffic.prAnswers);
      issues := IssuesGraphql(traffic.issueAnswers);
    } else {
      stars := StarsFetch(false, traffic.starPages, traffic.starAnswers, cfg);
      forks := ForksFetch(false, traffic.forkPages, traffic.forkAnswers, cfg);
      prs := PrsFetch(traffic.prPages, cfg);
      issues := IssuesFetch(traffic.issuePages, cfg);
    }
    var downloads := DownloadsFetch(traffic.releasePages, cfg);
    var contribs := ContributionsFetch(traffic.statsReplies, traffic.commitPages, cfg);
    assert stars == StarsSeries(useGraphql, traffic, cfg);
    assert forks == ForksSeries(Corrected, useGraphql, traffic, cfg);
    assert prs == PrsSeries(useGraphql, traffic, cfg);
    assert issues == IssuesSeries(Corrected, useGraphql, traffic, cfg);
    assert downloads == DownloadsSeries(traffic, cfg);
    result := ByMetric(stars, forks, prs, downloads, issues, contribs);
    SeriesByMetric(Corrected, useGraphql, traffic, cfg);
  }

  /** The corrections change nothing but the forks and issues series under GraphQL. */
  lemma CorrectionScope(m: Metric, useGraphql: bool, traffic: Traffic, cfg: Config)
    ensures !useGraphql || (m != Forks && m != Issues) ==>
              SeriesOf(m, AsWritten, useGraphql, traffic, cfg) == SeriesOf(m, Corrected, useGraphql, traffic, cfg)
  {
    match m
    case Stars =>
    case Forks =>
    case Prs =>
    case Downloads =>
    case Issues =>
    case Contributions =>
  }

  /** Under GraphQL the as-written fetch_all always reports an empty issues series. */
  lemma AsWrittenIssuesEmpty(traffic: Traffic, cfg: Config)
    ensures SeriesOf(Issues, AsWritten, true, traffic, cfg) == EmptyOf(Issues)
  {
    UnselectedListReadsNothing(traffic.issueAnswers, IssuesGqlPolicyAsWritten,
                               QueriesMade(traffic.issueAnswers, IssuesGqlPolicyAsWritten, 0));
  }

  /** Under GraphQL the corrected forks series is the as-written one differenced back to daily counts. */
  lemma CorrectedForksAreDeltas(traffic: Traffic, cfg: Config)
    ensures DeltasFrom(SeriesOf(Forks, AsWritten, true, traffic, cfg).rows, 0) == SeriesOf(Forks, Corrected, true, traffic, cfg).rows
  {
    RunningForksIsCumulative(GqlDates(traffic.forkAnswers, ForksGqlPolicy));
  }

  /** The dictionary of the six fetchers' series holds, under each metric, that metric's series. */
  lemma SeriesByMetric(v: Variant, useGraphql: bool, traffic: Traffic, cfg: Config)
    ensures var r := ByMetric(StarsSeries(useGraphql, traffic, cfg), ForksSeries(v, useGraphql, traffic, cfg),
                              PrsSeries(useGraphql, traffic, cfg), DownloadsSeries(traffic, cfg),
                              IssuesSeries(v, useGraphql, traffic, cfg), ContributionsTable(traffic.statsReplies, traffic.commitPages, cfg));
            forall m :: m in r && r[m] == SeriesOf(m, v, useGraphql, traffic, cfg)
  {
    var r := ByMetric(StarsSeries(useGraphql, traffic, cfg), ForksSeries(v, useGraphql, traffic, cfg),
                      PrsSeries(useGraphql, traffic, cfg), DownloadsSeries(traffic, cfg),
                      IssuesSeries(v, useGraphql, traffic, cfg), ContributionsTable(traffic.statsReplies, traffic.commitPages, cfg));
    forall m ensures m in r && r[m] == SeriesOf(m, v, useGraphql, traffic, cfg) {
      match m
      case Stars =>
      case Forks =>
      case Prs =>
      case Downloads =>
      case Issues =>
      case Contributions =>
    }
  }

  /** The dictionary fetch_all returns, keyed by metric. */
  function ByMetric(stars: Table, forks: Table, prs: Table, downloads: Table, issues: Table, contribs: Table): (r: map<Metric, Table>)
    ensures Stars in r && r[Stars] == stars
    ensures Forks in r && r[Forks] == forks
    ensures Prs in r && r[Prs] == prs
    ensures Downloads in r && r[Downloads] == downloads
    ensures Issues in r && r[Issues] == issues
    ensures Contributions in r && r[Contributions] == contribs
  {
    map[Stars := stars, Forks := forks, Prs := prs, Downloads := downloads, Issues := issues, Contributions := contribs]
  }

  /** Each series fetch_all answers, as written or corrected, carries its metric's two-column schema. */
  lemma SeriesSchema(m: Metric, v: Variant, useGraphql: bool, traffic: Traffic, cfg: Config)
    ensures SeriesOf(m, v, useGraphql, traffic, cfg).columns == Schema(m)
  {
    if m == Contributions {
      ContributionsSchema(traffic.statsReplies, traffic.commitPages, cfg);
    }
  }

  /** Whichever source answers, the contributions table carries the commits schema. */
  lemma ContributionsSchema(replies: seq<StatsReply>, pages: seq<RestPage<Option<Day>>>, cfg: Config)
    ensures ContributionsTable(replies, pages, cfg).columns == Schema(Contributions)
  {
    EventTableProperties(Contributions, RestGathered(pages, CommitsPolicy(cfg), Parsed));
  }
}
