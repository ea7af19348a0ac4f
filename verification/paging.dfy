/**
 * The pagination loops shared by the fetchers. A REST fetcher walks
 * ?page=1,2,... and stops on a non-200 answer, an empty page, a short page,
 * a page cap or a row cap. A GraphQL fetcher follows pageInfo.hasNextPage
 * and stops on a failed query, a missing cursor, a query cap or a date cap.
 * In both, the rows gathered before the stop are kept.
 */
module Paging {

  import opened Wrappers
  import opened Series

  const Ok: int := 200

  /** The dates that parsed, in order (the abstraction of _to_date applied to each item). */
  function Parsed(items: seq<Option<Day>>): (ds: seq<Day>)
    ensures |ds| <= |items|
  {
    if items == [] then []
    else (if items[0].Some? then [items[0].value] else []) + Parsed(items[1..])
  }

  /** A date is collected exactly when some item parsed to it. */
  lemma {:induction false} ParsedMembership(items: seq<Option<Day>>, d: Day)
    ensures d in Parsed(items) <==> Some(d) in items
  {
    if items != [] {
      ParsedMembership(items[1..], d);
      assert items == [items[0]] + items[1..];
    }
  }

  // ---------------------------------------------------------------------
  // REST
  // ---------------------------------------------------------------------

  /** The response _request returned for one page: its status and its JSON list. */
  datatype RestPage<T> = RestPage(status: int, items: seq<T>)

  /** The traffic is finite: asking past its end gets a failed response. */
  function PageAt<T>(pages: seq<RestPage<T>>, i: nat): RestPage<T>
  {
    if i < |pages| then pages[i] else RestPage(0, [])
  }

  /** A fetcher's loop parameters: page cap, requested page size, whether a short page ends the walk, and a cap on gathered entries. */
  datatype RestPolicy = RestPolicy(pageLimit: nat, perPage: nat, stopOnShortPage: bool, cap: Option<nat>)

  /** A page the loop processes: status 200 and a non-empty list. */
  predicate Accepted<T>(page: RestPage<T>)
  {
    page.status == Ok && page.items != []
  }

  /** What the first n pages yielded, in page order. */
  function GatheredUpTo<T, U>(pages: seq<RestPage<T>>, extract: seq<T> -> seq<U>, n: nat): seq<U>
  {
    if n == 0 then [] else GatheredUpTo(pages, extract, n - 1) + extract(PageAt(pages, n - 1).items)
  }

  /** The checks made after processing a page: a short page, or more gathered entries than the cap. */
  predicate StopsAfter<T>(p: RestPolicy, page: RestPage<T>, gatheredSoFar: nat)
  {
    (p.stopOnShortPage && |page.items| < p.perPage) || (p.cap.Some? && gatheredSoFar > p.cap.value)
  }

  /**
   * The number of pages whose rows are kept, when pages before i were kept
   * and did not stop the walk: every kept page was accepted, none but the
   * last triggered a stop, and the walk ended for one of the listed reasons.
   */
  function PagesKept<T, U>(pages: seq<RestPage<T>>, p: RestPolicy, extract: seq<T> -> seq<U>, i: nat): (k: nat)
    requires i <= p.pageLimit
    decreases p.pageLimit - i
    ensures i <= k <= p.pageLimit
    ensures k == i || k <= |pages|
    ensures forall j :: i <= j < k ==> Accepted(PageAt(pages, j))
    ensures forall j :: i <= j < k - 1 ==> !StopsAfter(p, PageAt(pages, j), |GatheredUpTo(pages, extract, j + 1)|)
    ensures k == p.pageLimit || !Accepted(PageAt(pages, k))
            || (k > i && StopsAfter(p, PageAt(pages, k - 1), |GatheredUpTo(pages, extract, k)|))
  {
    if i == p.pageLimit then i
    else if !Accepted(PageAt(pages, i)) then i
    else if StopsAfter(p, PageAt(pages, i), |GatheredUpTo(pages, extract, i + 1)|) then i + 1
    else PagesKept(pages, p, extract, i + 1)
  }

  /** Walks the pages under policy p, appending what each accepted page yields. */
  method CollectRest<T, U>(pages: seq<RestPage<T>>, p: RestPolicy, extract: seq<T> -> seq<U>) returns (gathered: seq<U>)
    ensures gathered == GatheredUpTo(pages, extract, PagesKept(pages, p, extract, 0))
  {
    gathered := [];
    var page := 0;
    while page < p.pageLimit
      invariant page <= p.pageLimit
      invariant gathered == GatheredUpTo(pages, extract, page)
      invariant PagesKept(pages, p, extract, 0) == PagesKept(pages, p, extract, page)
      decreases p.pageLimit - page
    {
      var resp := PageAt(pages, page);
      if resp.status != Ok {
        break;
      }
      if resp.items == [] {
        break;
      }
      gathered := gathered + extract(resp.items);
      page := page + 1;
      if p.stopOnShortPage && |resp.items| < p.perPage {
        break;
      }
      if p.cap.Some? && |gathered| > p.cap.value {
        break;
      }
    }
  }

  lemma {:induction false} StopsAtFailureFrom<T, U>(pages: seq<RestPage<T>>, p: RestPolicy, extract: seq<T> -> seq<U>, i: nat, j: nat)
    requires i <= j < p.pageLimit
    requires !Accepted(PageAt(pages, j))
    requires forall k :: i <= k < j ==> Accepted(PageAt(pages, k)) && !StopsAfter(p, PageAt(pages, k), |GatheredUpTo(pages, extract, k + 1)|)
    ensures PagesKept(pages, p, extract, i) == j
    decreases j - i
  {
    if i < j {
      StopsAtFailureFrom(pages, p, extract, i + 1, j);
    }
  }

  /**
   * A failing or empty page ends the walk, and what the pages before it
   * yielded is kept.
   */
  lemma StopsAtFailure<T, U>(pages: seq<RestPage<T>>, p: RestPolicy, extract: seq<T> -> seq<U>, j: nat)
    requires j < p.pageLimit
    requires !Accepted(PageAt(pages, j))
    requires forall k :: 0 <= k < j ==> Accepted(PageAt(pages, k)) && !StopsAfter(p, PageAt(pages, k), |GatheredUpTo(pages, extract, k + 1)|)
    ensures PagesKept(pages, p, extract, 0) == j
    ensures GatheredUpTo(pages, extract, PagesKept(pages, p, extract, 0)) == GatheredUpTo(pages, extract, j)
  {
    StopsAtFailureFrom(pages, p, extract, 0, j);
  }

  /** Gathering only appends: what earlier pages yielded is never dropped. */
  lemma {:induction false} GatheredPrefix<T, U>(pages: seq<RestPage<T>>, extract: seq<T> -> seq<U>, m: nat, n: nat)
    requires m <= n
    ensures GatheredUpTo(pages, extract, m) <= GatheredUpTo(pages, extract, n)
    decreases n - m
  {
    if m < n {
      GatheredPrefix(pages, extract, m, n - 1);
    }
  }

  /** When every page's rows are positive, so is everything gathered. */
  lemma {:induction false} GatheredPositive<T>(pages: seq<RestPage<T>>, extract: seq<T> -> seq<Row>, n: nat)
    requires forall items :: AllPositive(extract(items))
    ensures AllPositive(GatheredUpTo(pages, extract, n))
  {
    if n > 0 {
      GatheredPositive(pages, extract, n - 1);
      AllPositiveAppend(GatheredUpTo(pages, extract, n - 1), extract(PageAt(pages, n - 1).items));
    }
  }

  // ---------------------------------------------------------------------
  // GraphQL
  // ---------------------------------------------------------------------

  /** Which list of a connection a query selects, or a loop reads. */
  datatype ListKey = Nodes | Edges

  /**
   * A GraphQL answer: no usable connection (non-200, no data, no repository),
   * or a connection's list of parsed timestamps and its pageInfo.
   */
  datatype GqlResponse = NoConnection | Connection(items: seq<Option<Day>>, hasNextPage: bool, hasCursor: bool)

  /**
   * A GraphQL loop's parameters: query cap (None for an unbounded loop),
   * whether a missing endCursor ends it, a cap on collected dates, the list
   * the query selects and the list the code reads.
   */
  datatype GqlPolicy = GqlPolicy(pageLimit: Option<nat>, stopWithoutCursor: bool, dateCap: Option<nat>, selected: ListKey, readFrom: ListKey)

  function GqlAt(resps: seq<GqlResponse>, i: nat): GqlResponse
  {
    if i < |resps| then resps[i] else NoConnection
  }

  /** The list the code reads: absent (hence empty) when the query did not select it. */
  function ListRead(p: GqlPolicy, r: GqlResponse): seq<Option<Day>>
  {
    if r.Connection? && p.selected == p.readFrom then r.items else []
  }

  /** The dates collected from the first n answers. */
  function DatesUpTo(resps: seq<GqlResponse>, p: GqlPolicy, n: nat): seq<Day>
  {
    if n == 0 then [] else DatesUpTo(resps, p, n - 1) + Parsed(ListRead(p, GqlAt(resps, n - 1)))
  }

  /** Whether the loop goes on after answer i. */
  predicate Proceeds(resps: seq<GqlResponse>, p: GqlPolicy, i: nat)
  {
    var r := GqlAt(resps, i);
    r.Connection? && r.hasNextPage && !(p.stopWithoutCursor && !r.hasCursor)
    && !(p.dateCap.Some? && |DatesUpTo(resps, p, i + 1)| > p.dateCap.value)
  }

  /**
   * The number of queries sent when queries before i went on: every query
   * but the last went on, the cap is respected, and the loop ended because
   * the cap was reached or the last answer said to stop.
   */
  function QueriesMade(resps: seq<GqlResponse>, p: GqlPolicy, i: nat): (n: nat)
    requires i <= |resps|
    requires p.pageLimit.Some? ==> i <= p.pageLimit.value
    decreases |resps| - i
    ensures i <= n <= |resps| + 1
    ensures p.pageLimit.Some? ==> n <= p.pageLimit.value
    ensures forall j :: i <= j < n - 1 ==> Proceeds(resps, p, j)
    ensures (p.pageLimit.Some? && n == p.pageLimit.value) || (n > i && !Proceeds(resps, p, n - 1))
  {
    if p.pageLimit.Some? && i == p.pageLimit.value then i
    else if Proceeds(resps, p, i) then QueriesMade(resps, p, i + 1)
    else i + 1
  }

  /** One step of QueriesMade: below the cap, the count goes on exactly when answer i lets the loop proceed. */
  lemma QueriesMadeStep(resps: seq<GqlResponse>, p: GqlPolicy, i: nat)
    requires i <= |resps|
    requires p.pageLimit.Some? ==> i < p.pageLimit.value
    ensures GqlAt(resps, i).Connection? ==> i < |resps|
    ensures Proceeds(resps, p, i) ==> i < |resps| && QueriesMade(resps, p, i) == QueriesMade(resps, p, i + 1)
    ensures !Proceeds(resps, p, i) ==> QueriesMade(resps, p, i) == i + 1
    ensures DatesUpTo(resps, p, i + 1) == DatesUpTo(resps, p, i) + Parsed(ListRead(p, GqlAt(resps, i)))
  {
  }

  /** Sends queries while the answers say there is a next page, collecting the dates read. */
  method CollectGraphql(resps: seq<GqlResponse>, p: GqlPolicy) returns (dates: seq<Day>, queries: nat)
    ensures queries == QueriesMade(resps, p, 0)
    ensures dates == DatesUpTo(resps, p, queries)
  {
    dates := [];
    queries := 0;
    while p.pageLimit.None? || queries < p.pageLimit.value
      invariant queries <= |resps|
      invariant p.pageLimit.Some? ==> queries <= p.pageLimit.value
      invariant dates == DatesUpTo(resps, p, queries)
      invariant QueriesMade(resps, p, 0) == QueriesMade(resps, p, queries)
      decreases |resps| - queries
    {
      var r := GqlAt(resps, queries);
      QueriesMadeStep(resps, p, queries);
      queries := queries + 1;
      if r.NoConnection? {
        assert !Proceeds(resps, p, queries - 1);
        break;
      }
      dates := dates + Parsed(ListRead(p, r));
      if !r.hasNextPage {
        assert !Proceeds(resps, p, queries - 1);
        break;
      }
      if p.stopWithoutCursor && !r.hasCursor {
        assert !Proceeds(resps, p, queries - 1);
        break;
      }
      if p.dateCap.Some? && |dates| > p.dateCap.value {
        assert !Proceeds(resps, p, queries - 1);
        break;
      }
      assert Proceeds(resps, p, queries - 1);
    }
  }

  /** A loop that reads a list its query never selected collects nothing, whatever the answers. */
  lemma {:induction false} UnselectedListReadsNothing(resps: seq<GqlResponse>, p: GqlPolicy, n: nat)
    requires p.selected != p.readFrom
    ensures DatesUpTo(resps, p, n) == []
  {
    if n > 0 {
      UnselectedListReadsNothing(resps, p, n - 1);
    }
  }

  /** Without caps, the loop reads answers until the first one without a next page. */
  lemma {:induction false} FollowsPagesFrom(resps: seq<GqlResponse>, p: GqlPolicy, i: nat, j: nat)
    requires i <= j < |resps|
    requires p.pageLimit.None? && p.dateCap.None? && !p.stopWithoutCursor
    requires forall k :: i <= k < j ==> resps[k].Connection? && resps[k].hasNextPage
    requires resps[j].NoConnection? || !resps[j].hasNextPage
    ensures QueriesMade(resps, p, i) == j + 1
    decreases j - i
  {
    if i < j {
      FollowsPagesFrom(resps, p, i + 1, j);
    }
  }
}
