/**
 * Metric series: sequences of (date, value) rows, and the pandas
 * transformations the fetchers and the cache apply to them — group by day
 * with a sum, running sum, keep-first de-duplication by date, and sorting
 * by date.
 */
module Series {

  import opened Wrappers

  /** A calendar day, counted in days since 1970-01-01 (time of day discarded). */
  type Day = int

  datatype Row = Row(date: Day, value: int)

  /** The set of dates that occur in a series. */
  function Dates(s: seq<Row>): set<Day>
  {
    set r | r in s :: r.date
  }

  /** Dates strictly ascending: sorted and unique. */
  predicate StrictlyIncreasing(s: seq<Row>)
  {
    forall i, j :: 0 <= i < j < |s| ==> s[i].date < s[j].date
  }

  /** Dates non-decreasing. */
  predicate SortedByDate(s: seq<Row>)
  {
    forall i, j :: 0 <= i < j < |s| ==> s[i].date <= s[j].date
  }

  /** No date occurs twice. */
  predicate DistinctDates(s: seq<Row>)
  {
    forall i, j :: 0 <= i < j < |s| ==> s[i].date != s[j].date
  }

  predicate AllPositive(s: seq<Row>)
  {
    forall r | r in s :: r.value >= 1
  }

  lemma AllPositiveAppend(a: seq<Row>, b: seq<Row>)
    requires AllPositive(a) && AllPositive(b)
    ensures AllPositive(a + b)
  {
    forall r | r in a + b ensures r.value >= 1 {
      if r in a {
        assert r.value >= 1;
      } else {
        assert r in b;
      }
    }
  }

  /** Sum of the value column. */
  function Total(s: seq<Row>): int
  {
    if s == [] then 0 else s[0].value + Total(s[1..])
  }

  /** Sum of the values recorded on day d. */
  function CountOn(s: seq<Row>, d: Day): int
  {
    if s == [] then 0
    else (if s[0].date == d then s[0].value else 0) + CountOn(s[1..], d)
  }

  /** The value of the first row dated d, if any. */
  function FirstValue(s: seq<Row>, d: Day): Option<int>
  {
    if s == [] then None
    else if s[0].date == d then Some(s[0].value)
    else FirstValue(s[1..], d)
  }

  lemma DatesCons(s: seq<Row>)
    requires s != []
    ensures Dates(s) == {s[0].date} + Dates(s[1..])
  {
    assert s == [s[0]] + s[1..];
    forall x | x in Dates(s) ensures x in {s[0].date} + Dates(s[1..]) {
      var r :| r in s && r.date == x;
    }
  }

  lemma DatesAppend(a: seq<Row>, b: seq<Row>)
    ensures Dates(a + b) == Dates(a) + Dates(b)
  {
    forall x | x in Dates(a + b) ensures x in Dates(a) + Dates(b) {
      var r :| r in a + b && r.date == x;
    }
    forall x | x in Dates(a) + Dates(b) ensures x in Dates(a + b) {
      if x in Dates(a) {
        var r :| r in a && r.date == x;
        assert r in a + b;
      } else {
        var r :| r in b && r.date == x;
        assert r in a + b;
      }
    }
  }

  lemma {:induction false} TotalAppend(a: seq<Row>, b: seq<Row>)
    ensures Total(a + b) == Total(a) + Total(b)
  {
    if a == [] {
      assert a + b == b;
    } else {
      assert a + b == [a[0]] + (a[1..] + b);
      TotalAppend(a[1..], b);
    }
  }

  lemma {:induction false} CountOnAppend(a: seq<Row>, b: seq<Row>, d: Day)
    ensures CountOn(a + b, d) == CountOn(a, d) + CountOn(b, d)
  {
    if a == [] {
      assert a + b == b;
    } else {
      assert a + b == [a[0]] + (a[1..] + b);
      CountOnAppend(a[1..], b, d);
    }
  }

  // ---------------------------------------------------------------------
  // Group by day with a sum: df.groupby("date")[col].sum().sort_values("date")
  // ---------------------------------------------------------------------

  /** Adds one row into a series kept in ascending date order. */
  function AddRow(s: seq<Row>, r: Row): seq<Row>
  {
    if s == [] then [r]
    else if s[0].date == r.date then [Row(r.date, s[0].value + r.value)] + s[1..]
    else if r.date < s[0].date then [r] + s
    else [s[0]] + AddRow(s[1..], r)
  }

  /** Group rows by date, summing the values. */
  function GroupSum(rows: seq<Row>): seq<Row>
  {
    if rows == [] then [] else AddRow(GroupSum(rows[1..]), rows[0])
  }

  lemma {:induction false} AddRowDates(s: seq<Row>, r: Row)
    ensures Dates(AddRow(s, r)) == Dates(s) + {r.date}
  {
    if s == [] {
      assert Dates([r]) == {r.date} by { DatesCons([r]); }
    } else {
      DatesCons(s);
      var t := AddRow(s, r);
      if s[0].date == r.date {
        DatesCons(t);
        assert t[1..] == s[1..];
      } else if r.date < s[0].date {
        DatesCons(t);
        assert t[1..] == s;
      } else {
        AddRowDates(s[1..], r);
        DatesCons(t);
        assert t[1..] == AddRow(s[1..], r);
      }
    }
  }

  lemma {:induction false} AddRowIncreasing(s: seq<Row>, r: Row)
    requires StrictlyIncreasing(s)
    ensures StrictlyIncreasing(AddRow(s, r))
  {
    if s != [] && s[0].date < r.date {
      var rest := AddRow(s[1..], r);
      AddRowIncreasing(s[1..], r);
      AddRowDates(s[1..], r);
      forall x | x in rest ensures s[0].date < x.date {
        assert x.date in Dates(rest);
        if x.date != r.date {
          var y :| y in s[1..] && y.date == x.date;
          var k :| 0 <= k < |s[1..]| && s[1..][k] == y;
          assert s[k + 1] == y;
        }
      }
      IncreasingCons(s[0], rest);
    }
  }

  lemma IncreasingCons(x: Row, s: seq<Row>)
    requires StrictlyIncreasing(s)
    requires forall y | y in s :: x.date < y.date
    ensures StrictlyIncreasing([x] + s)
  {
    var t := [x] + s;
    forall i, j | 0 <= i < j < |t| ensures t[i].date < t[j].date {
      if i == 0 { assert t[j] in s; } else { assert t[i] == s[i - 1] && t[j] == s[j - 1]; }
    }
  }

  lemma {:induction false} AddRowTotal(s: seq<Row>, r: Row)
    ensures Total(AddRow(s, r)) == Total(s) + r.value
  {
    if s != [] && s[0].date != r.date && r.date >= s[0].date {
      AddRowTotal(s[1..], r);
    }
  }

  lemma {:induction false} AddRowPositive(s: seq<Row>, r: Row)
    requires AllPositive(s) && r.value >= 1
    ensures AllPositive(AddRow(s, r))
  {
    if s != [] {
      assert s[0] in s;
      assert forall x | x in s[1..] :: x in s;
      if s[0].date != r.date && r.date >= s[0].date {
        AddRowPositive(s[1..], r);
      }
    }
  }

  lemma {:induction false} AddRowCount(s: seq<Row>, r: Row, d: Day)
    ensures CountOn(AddRow(s, r), d) == CountOn(s, d) + (if d == r.date then r.value else 0)
  {
    if s != [] && s[0].date != r.date && r.date >= s[0].date {
      AddRowCount(s[1..], r, d);
    }
  }

  /**
   * Grouping yields one row per date in ascending order, the dates of the
   * input, the same per-day sums and the same grand total.
   */
  lemma {:induction false} GroupSumProperties(rows: seq<Row>)
    ensures StrictlyIncreasing(GroupSum(rows))
    ensures Dates(GroupSum(rows)) == Dates(rows)
    ensures Total(GroupSum(rows)) == Total(rows)
    ensures forall d :: CountOn(GroupSum(rows), d) == CountOn(rows, d)
  {
    if rows != [] {
      var g := GroupSum(rows[1..]);
      GroupSumProperties(rows[1..]);
      AddRowIncreasing(g, rows[0]);
      AddRowDates(g, rows[0]);
      DatesCons(rows);
      AddRowTotal(g, rows[0]);
      forall d ensures CountOn(GroupSum(rows), d) == CountOn(rows, d) {
        AddRowCount(g, rows[0], d);
      }
    }
  }

  /** Grouping rows that are all at least 1 gives daily counts that are all at least 1. */
  lemma {:induction false} GroupSumPositive(rows: seq<Row>)
    requires AllPositive(rows)
    ensures AllPositive(GroupSum(rows))
  {
    if rows != [] {
      assert rows[0] in rows;
      assert forall x | x in rows[1..] :: x in rows;
      GroupSumPositive(rows[1..]);
      AddRowPositive(GroupSum(rows[1..]), rows[0]);
    }
  }

  /** One row of weight 1 per event date. */
  function UnitRows(dates: seq<Day>): (rows: seq<Row>)
    ensures |rows| == |dates|
    ensures forall i :: 0 <= i < |dates| ==> rows[i] == Row(dates[i], 1)
  {
    if dates == [] then [] else [Row(dates[0], 1)] + UnitRows(dates[1..])
  }

  lemma {:induction false} UnitRowsAppend(a: seq<Day>, b: seq<Day>)
    ensures UnitRows(a + b) == UnitRows(a) + UnitRows(b)
  {
    if a == [] {
      assert a + b == b;
    } else {
      assert (a + b)[1..] == a[1..] + b;
      UnitRowsAppend(a[1..], b);
    }
  }

  /** Rows all of weight 1 sum to their number. */
  lemma {:induction false} UnitTotal(rows: seq<Row>)
    requires forall r | r in rows :: r.value == 1
    ensures Total(rows) == |rows|
    ensures AllPositive(rows)
  {
    if rows != [] {
      assert rows[0] in rows;
      assert forall r | r in rows[1..] :: r in rows;
      UnitTotal(rows[1..]);
    }
  }

  // ---------------------------------------------------------------------
  // Running sum: daily["forks"] = daily["delta"].cumsum()
  // ---------------------------------------------------------------------

  /** Running sum of the values, starting from base. */
  function RunningFrom(s: seq<Row>, base: int): (t: seq<Row>)
    ensures |t| == |s|
  {
    if s == [] then [] else [Row(s[0].date, base + s[0].value)] + RunningFrom(s[1..], base + s[0].value)
  }

  function CumSum(s: seq<Row>): seq<Row>
  {
    RunningFrom(s, 0)
  }

  /** Entry i of a running sum keeps the date of entry i and holds base plus the total up to i. */
  lemma {:induction false} RunningAt(s: seq<Row>, base: int, i: nat)
    requires i < |s|
    ensures RunningFrom(s, base)[i] == Row(s[i].date, base + Total(s[..i + 1]))
  {
    if i > 0 {
      RunningAt(s[1..], base + s[0].value, i - 1);
      assert s[..i + 1][1..] == s[1..][..i];
    }
  }

  /** The inverse of a running sum: each value minus the one before it. */
  function DeltasFrom(c: seq<Row>, prev: int): (t: seq<Row>)
    ensures |t| == |c|
  {
    if c == [] then [] else [Row(c[0].date, c[0].value - prev)] + DeltasFrom(c[1..], c[0].value)
  }

  lemma {:induction false} NonNegativeTotal(s: seq<Row>)
    requires forall r | r in s :: r.value >= 0
    ensures Total(s) >= 0
  {
    if s != [] {
      assert s[0] in s;
      assert forall r | r in s[1..] :: r in s;
      NonNegativeTotal(s[1..]);
    }
  }

  /** Every entry of a running sum over non-negative counts is at least its base. */
  lemma {:induction false} RunningAtLeast(s: seq<Row>, base: int, k: nat)
    requires forall r | r in s :: r.value >= 0
    requires k < |s|
    ensures RunningFrom(s, base)[k].value >= base
  {
    assert s[0] in s;
    if k > 0 {
      assert forall r | r in s[1..] :: r in s;
      RunningAtLeast(s[1..], base + s[0].value, k - 1);
    }
  }

  /** A running sum over non-negative counts never decreases. */
  lemma {:induction false} RunningMonotone(s: seq<Row>, base: int, i: nat, j: nat)
    requires forall r | r in s :: r.value >= 0
    requires i < j < |s|
    ensures RunningFrom(s, base)[i].value <= RunningFrom(s, base)[j].value
  {
    assert s[0] in s;
    assert forall r | r in s[1..] :: r in s;
    if i == 0 {
      RunningAtLeast(s[1..], base + s[0].value, j - 1);
    } else {
      RunningMonotone(s[1..], base + s[0].value, i - 1, j - 1);
    }
  }

  /** A running sum keeps the dates of its input. */
  lemma CumSumDates(s: seq<Row>)
    ensures |CumSum(s)| == |s|
    ensures forall i :: 0 <= i < |s| ==> CumSum(s)[i].date == s[i].date
  {
    forall i | 0 <= i < |s| ensures CumSum(s)[i].date == s[i].date {
      RunningAt(s, 0, i);
    }
  }

  /** A running sum over non-negative counts never decreases and ends at the total. */
  lemma CumSumShape(s: seq<Row>)
    requires forall r | r in s :: r.value >= 0
    ensures forall i, j :: 0 <= i < j < |s| ==> CumSum(s)[i].value <= CumSum(s)[j].value
    ensures s != [] ==> CumSum(s)[|s| - 1].value == Total(s)
  {
    forall i, j | 0 <= i < j < |s|
      ensures CumSum(s)[i].value <= CumSum(s)[j].value
    {
      RunningMonotone(s, 0, i, j);
    }
    if s != [] {
      RunningAt(s, 0, |s| - 1);
      assert s[..|s|] == s;
    }
  }

  /** Taking differences undoes the running sum. */
  lemma {:induction false} DeltasUndoRunning(s: seq<Row>, base: int)
    ensures DeltasFrom(RunningFrom(s, base), base) == s
  {
    if s != [] {
      DeltasUndoRunning(s[1..], base + s[0].value);
    }
  }

  // ---------------------------------------------------------------------
  // drop_duplicates(subset=["date"]) keeps the first row of each date
  // ---------------------------------------------------------------------

  /** Keeps the first row of each date not already in seen, in order. */
  function KeepFirst(s: seq<Row>, seen: set<Day>): seq<Row>
  {
    if s == [] then []
    else if s[0].date in seen then KeepFirst(s[1..], seen)
    else [s[0]] + KeepFirst(s[1..], seen + {s[0].date})
  }

  function DropDuplicateDates(s: seq<Row>): seq<Row>
  {
    KeepFirst(s, {})
  }

  /** KeepFirst keeps rows of the input only, one per date, never a seen date, and the first value of each other date. */
  lemma {:induction false} KeepFirstProperties(s: seq<Row>, seen: set<Day>)
    ensures DistinctDates(KeepFirst(s, seen))
    ensures forall r | r in KeepFirst(s, seen) :: r in s && r.date !in seen
    ensures forall d | d !in seen :: FirstValue(KeepFirst(s, seen), d) == FirstValue(s, d)
  {
    if s != [] {
      if s[0].date in seen {
        KeepFirstProperties(s[1..], seen);
        forall r | r in KeepFirst(s, seen) ensures r in s { assert r in s[1..]; }
      } else {
        var rest := KeepFirst(s[1..], seen + {s[0].date});
        KeepFirstProperties(s[1..], seen + {s[0].date});
        var t := [s[0]] + rest;
        assert t[1..] == rest;
        forall i, j | 0 <= i < j < |t| ensures t[i].date != t[j].date {
          if i == 0 {
            assert t[j] in rest;
          }
        }
        forall r | r in t ensures r in s && r.date !in seen {
          if r != s[0] { assert r in rest; assert r in s[1..]; }
        }
      }
    }
  }

  // ---------------------------------------------------------------------
  // sort_values("date")
  // ---------------------------------------------------------------------

  /** Inserts r before the first row dated on or after it. */
  function Insert(r: Row, s: seq<Row>): seq<Row>
  {
    if s == [] || r.date <= s[0].date then [r] + s
    else [s[0]] + Insert(r, s[1..])
  }

  /** Sorts rows by date (insertion sort). */
  function SortByDate(s: seq<Row>): seq<Row>
  {
    if s == [] then [] else Insert(s[0], SortByDate(s[1..]))
  }

  /** No row of s is dated before d. */
  predicate AllFrom(s: seq<Row>, d: Day)
  {
    forall r | r in s :: d <= r.date
  }

  lemma {:induction false} InsertMultiset(r: Row, s: seq<Row>)
    ensures multiset(Insert(r, s)) == multiset(s) + multiset{r}
  {
    if s != [] && r.date > s[0].date {
      InsertMultiset(r, s[1..]);
      assert s == [s[0]] + s[1..];
    }
  }

  lemma {:induction false} InsertDates(r: Row, s: seq<Row>)
    ensures Dates(Insert(r, s)) == Dates(s) + {r.date}
  {
    var t := Insert(r, s);
    DatesCons(t);
    if s == [] || r.date <= s[0].date {
      assert t[1..] == s;
    } else {
      DatesCons(s);
      InsertDates(r, s[1..]);
      assert t[1..] == Insert(r, s[1..]);
    }
  }

  lemma {:induction false} InsertFrom(r: Row, s: seq<Row>, d: Day)
    requires AllFrom(s, d) && d <= r.date
    ensures AllFrom(Insert(r, s), d)
  {
    if s != [] && r.date > s[0].date {
      assert s[0] in s;
      assert forall x | x in s[1..] :: x in s;
      InsertFrom(r, s[1..], d);
    }
  }

  lemma SortedHead(s: seq<Row>)
    requires SortedByDate(s) && s != []
    ensures AllFrom(s[1..], s[0].date) && SortedByDate(s[1..])
  {
    forall x | x in s[1..] ensures s[0].date <= x.date {
      var k :| 0 <= k < |s[1..]| && s[1..][k] == x;
      assert s[k + 1] == x;
    }
  }

  lemma SortedCons(x: Row, s: seq<Row>)
    requires SortedByDate(s) && AllFrom(s, x.date)
    ensures SortedByDate([x] + s)
  {
    var t := [x] + s;
    forall i, j | 0 <= i < j < |t| ensures t[i].date <= t[j].date {
      if i == 0 { assert t[j] in s; } else { assert t[i] == s[i - 1] && t[j] == s[j - 1]; }
    }
  }

  lemma {:induction false} InsertSorted(r: Row, s: seq<Row>)
    requires SortedByDate(s)
    ensures SortedByDate(Insert(r, s))
  {
    if s == [] || r.date <= s[0].date {
      if s != [] {
        SortedHead(s);
      }
      SortedCons(r, s);
    } else {
      SortedHead(s);
      InsertSorted(r, s[1..]);
      InsertFrom(r, s[1..], s[0].date);
      SortedCons(s[0], Insert(r, s[1..]));
    }
  }

  lemma DistinctHead(s: seq<Row>)
    requires DistinctDates(s) && s != []
    ensures s[0].date !in Dates(s[1..]) && DistinctDates(s[1..])
  {
    forall x | x in s[1..] ensures x.date != s[0].date {
      var k :| 0 <= k < |s[1..]| && s[1..][k] == x;
      assert s[k + 1] == x;
    }
  }

  lemma DistinctCons(x: Row, s: seq<Row>)
    requires DistinctDates(s) && x.date !in Dates(s)
    ensures DistinctDates([x] + s)
  {
    var t := [x] + s;
    forall i, j | 0 <= i < j < |t| ensures t[i].date != t[j].date {
      if i == 0 { assert t[j] in s; } else { assert t[i] == s[i - 1] && t[j] == s[j - 1]; }
    }
  }

  lemma {:induction false} InsertDistinct(r: Row, s: seq<Row>)
    requires DistinctDates(s) && r.date !in Dates(s)
    ensures DistinctDates(Insert(r, s))
  {
    if s == [] || r.date <= s[0].date {
      DistinctCons(r, s);
    } else {
      DistinctHead(s);
      DatesCons(s);
      InsertDistinct(r, s[1..]);
      InsertDates(r, s[1..]);
      DistinctCons(s[0], Insert(r, s[1..]));
    }
  }

  lemma {:induction false} SortByDateSorted(s: seq<Row>)
    ensures SortedByDate(SortByDate(s))
  {
    if s != [] {
      SortByDateSorted(s[1..]);
      InsertSorted(s[0], SortByDate(s[1..]));
    }
  }

  lemma {:induction false} SortByDateMultiset(s: seq<Row>)
    ensures multiset(SortByDate(s)) == multiset(s)
  {
    if s != [] {
      SortByDateMultiset(s[1..]);
      InsertMultiset(s[0], SortByDate(s[1..]));
      assert s == [s[0]] + s[1..];
    }
  }

  lemma {:induction false} SortByDateDates(s: seq<Row>)
    ensures Dates(SortByDate(s)) == Dates(s)
  {
    if s != [] {
      SortByDateDates(s[1..]);
      InsertDates(s[0], SortByDate(s[1..]));
      DatesCons(s);
    }
  }

  lemma {:induction false} SortByDateDistinct(s: seq<Row>)
    requires DistinctDates(s)
    ensures DistinctDates(SortByDate(s))
  {
    if s != [] {
      DistinctHead(s);
      SortByDateDistinct(s[1..]);
      SortByDateDates(s[1..]);
      InsertDistinct(s[0], SortByDate(s[1..]));
    }
  }

  /** Sorting yields rows in date order that are a permutation of the input, with the same dates. */
  lemma SortByDateProperties(s: seq<Row>)
    ensures SortedByDate(SortByDate(s))
    ensures multiset(SortByDate(s)) == multiset(s)
    ensures Dates(SortByDate(s)) == Dates(s)
    ensures DistinctDates(s) ==> DistinctDates(SortByDate(s))
  {
    SortByDateSorted(s);
    SortByDateMultiset(s);
    SortByDateDates(s);
    if DistinctDates(s) {
      SortByDateDistinct(s);
    }
  }

  // ---------------------------------------------------------------------
  // Facts about FirstValue
  // ---------------------------------------------------------------------

  lemma {:induction false} FirstValueIn(s: seq<Row>, d: Day)
    ensures FirstValue(s, d).None? <==> d !in Dates(s)
    ensures FirstValue(s, d).Some? ==> Row(d, FirstValue(s, d).value) in s
  {
    if s != [] {
      DatesCons(s);
      FirstValueIn(s[1..], d);
    }
  }

  lemma {:induction false} FirstValueOfDistinct(s: seq<Row>, d: Day, v: int)
    requires DistinctDates(s)
    requires Row(d, v) in s
    ensures FirstValue(s, d) == Some(v)
  {
    var k :| 0 <= k < |s| && s[k] == Row(d, v);
    if k > 0 {
      assert s[0].date != d;
      assert s[1..][k - 1] == Row(d, v);
      FirstValueOfDistinct(s[1..], d, v);
    }
  }

  lemma {:induction false} FirstValueConcat(a: seq<Row>, b: seq<Row>, d: Day)
    ensures FirstValue(a + b, d) == if d in Dates(a) then FirstValue(a, d) else FirstValue(b, d)
  {
    if a == [] {
      assert a + b == b;
    } else {
      assert a + b == [a[0]] + (a[1..] + b);
      DatesCons(a);
      FirstValueConcat(a[1..], b, d);
    }
  }

  /** Two date-distinct orderings of the same rows agree on every date's value. */
  lemma SameRowsSameValues(u: seq<Row>, t: seq<Row>, d: Day)
    requires DistinctDates(u) && DistinctDates(t)
    requires multiset(u) == multiset(t)
    ensures FirstValue(t, d) == FirstValue(u, d)
  {
    FirstValueIn(u, d);
    FirstValueIn(t, d);
    if FirstValue(u, d).Some? {
      var v := FirstValue(u, d).value;
      assert Row(d, v) in multiset(t);
      FirstValueOfDistinct(t, d, v);
    }
    if FirstValue(t, d).Some? {
      var v := FirstValue(t, d).value;
      assert Row(d, v) in multiset(u);
      FirstValueOfDistinct(u, d, v);
    }
  }

  // ---------------------------------------------------------------------
  // The cache merge: concat([cached, fetched]).drop_duplicates("date").sort_values("date")
  // ---------------------------------------------------------------------

  function Merge(cached: seq<Row>, fetched: seq<Row>): seq<Row>
  {
    SortByDate(DropDuplicateDates(cached + fetched))
  }

  /**
   * The merged series has unique ascending dates, holds exactly the dates of
   * both inputs, and on a date present in both keeps the cached value.
   */
  lemma MergeProperties(cached: seq<Row>, fetched: seq<Row>)
    ensures StrictlyIncreasing(Merge(cached, fetched))
    ensures Dates(Merge(cached, fetched)) == Dates(cached) + Dates(fetched)
    ensures forall d ::
              FirstValue(Merge(cached, fetched), d) ==
              (if d in Dates(cached) then FirstValue(cached, d) else FirstValue(fetched, d))
  {
    var u := DropDuplicateDates(cached + fetched);
    var t := Merge(cached, fetched);
    KeepFirstProperties(cached + fetched, {});
    SortByDateProperties(u);
    forall d ensures FirstValue(t, d) == FirstValue(cached + fetched, d) {
      SameRowsSameValues(u, t, d);
    }
    forall d
      ensures FirstValue(t, d) == (if d in Dates(cached) then FirstValue(cached, d) else FirstValue(fetched, d))
    {
      FirstValueConcat(cached, fetched, d);
    }
    DatesAppend(cached, fetched);
    forall d ensures d in Dates(t) <==> d in Dates(cached + fetched) {
      FirstValueIn(t, d);
      FirstValueIn(cached + fetched, d);
    }
  }

  /** On the shared date 2 the cached value 3 survives, not the fetched 7. */
  lemma MergeExample()
    ensures Merge([Row(1, 5), Row(2, 3)], [Row(2, 7), Row(3, 1)]) == [Row(1, 5), Row(2, 3), Row(3, 1)]
  {
    var all := [Row(1, 5), Row(2, 3)] + [Row(2, 7), Row(3, 1)];
    assert all == [Row(1, 5), Row(2, 3), Row(2, 7), Row(3, 1)];
    assert {} + {1} == {1} && {1} + {2} == {1, 2} && {1, 2} + {3} == {1, 2, 3};
    assert all[1..] == [Row(2, 3), Row(2, 7), Row(3, 1)];
    assert all[1..][1..] == [Row(2, 7), Row(3, 1)];
    assert all[1..][1..][1..] == [Row(3, 1)];
    assert KeepFirst([Row(3, 1)], {1, 2}) == [Row(3, 1)];
    assert KeepFirst([Row(2, 7), Row(3, 1)], {1, 2}) == [Row(3, 1)];
    assert KeepFirst([Row(2, 3), Row(2, 7), Row(3, 1)], {1}) == [Row(2, 3), Row(3, 1)];
    assert DropDuplicateDates(all) == [Row(1, 5), Row(2, 3), Row(3, 1)];
    assert SortByDate([Row(3, 1)]) == [Row(3, 1)];
    assert SortByDate([Row(2, 3), Row(3, 1)]) == [Row(2, 3), Row(3, 1)];
  }
}
