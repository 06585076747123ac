/** Month arithmetic, the monthly series of expenses and income, and the collapse of small categories. */
module Months {
  import opened Common

  datatype Date = Date(year: int, month: int, day: int)

  /** Dates of the datetime module: years 1 to 9999. Day numbers matter only for comparison. */
  predicate Real(d: Date) {
    1 <= d.year <= 9999 && 1 <= d.month <= 12 && 1 <= d.day <= 31
  }

  predicate NotAfter(a: Date, b: Date) {
    a.year < b.year || (a.year == b.year && (a.month < b.month || (a.month == b.month && a.day <= b.day)))
  }

  /** Months since year 0. */
  function Index(d: Date): int {
    12 * d.year + d.month - 1
  }

  function FirstOfMonth(d: Date): Date {
    d.(day := 1)
  }

  /** The first of the month `n` months later, or nothing where the year would leave the calendar, which raises. */
  function AddMonths(d: Date, n: int): (later: Option<Date>)
    requires Real(d)
    ensures later.Some? ==> Real(later.value) && later.value.day == 1 && Index(later.value) == Index(d) + n
    ensures later.Some? <==> 12 <= Index(d) + n <= 12 * 9999 + 11
  {
    var month := d.month - 1 + n;
    var year := d.year + month / 12;
    if 1 <= year <= 9999 then Some(Date(year, month % 12 + 1, 1)) else None
  }

  lemma SameMonth(a: Date, b: Date)
    requires Real(a) && Real(b)
    ensures Index(a) == Index(b) <==> a.year == b.year && a.month == b.month
    ensures NotAfter(a, b) ==> Index(a) <= Index(b)
    ensures NotAfter(FirstOfMonth(a), FirstOfMonth(b)) <==> Index(a) <= Index(b)
  {
  }

  /** Steps add up, forward and backward, as long as the first one stays in the calendar. */
  lemma AddMonthsComposes(d: Date, a: int, b: int)
    requires Real(d) && AddMonths(d, a).Some?
    ensures AddMonths(AddMonths(d, a).value, b) == AddMonths(d, a + b)
  {
    var there := AddMonths(AddMonths(d, a).value, b);
    var direct := AddMonths(d, a + b);
    if direct.Some? {
      SameMonth(there.value, direct.value);
    }
  }

  function PeriodStart(period: string, today: Date): Option<Date>
    requires Real(today)
  {
    if period == "3m" then AddMonths(today, -2)
    else if period == "6m" then AddMonths(today, -5)
    else if period == "1y" then AddMonths(today, -11)
    else Some(FirstOfMonth(today))
  }

  /** A period of n months starts on the first of the month n - 1 months before this one. */
  lemma PeriodHasItsMonths(period: string, today: Date)
    requires Real(today) && PeriodStart(period, today).Some?
    ensures var start := PeriodStart(period, today).value;
            && Real(start) && start.day == 1 && NotAfter(start, today)
            && Index(today) - Index(start) + 1
                 == (if period == "3m" then 3 else if period == "6m" then 6 else if period == "1y" then 12 else 1)
  {
  }

  // --- The monthly series ---

  datatype Kind = Expense | Income

  /** A transaction that the queries count, apart from the date window. */
  datatype Entry = Entry(kind: Kind, date: Date, amount: real)

  predicate InWindow(e: Entry, kind: Kind, start: Date, end: Date) {
    e.kind == kind && NotAfter(start, e.date) && NotAfter(e.date, end)
  }

  /** The window in terms of calendar dates read as numbers, both ends included. */
  lemma InWindowMeans(e: Entry, kind: Kind, start: Date, end: Date)
    requires Real(e.date) && Real(start) && Real(end)
    ensures InWindow(e, kind, start, end) <==>
            e.kind == kind && Numbered(start) <= Numbered(e.date) <= Numbered(end)
  {
  }

  /** YYYYMMDD. */
  function Numbered(d: Date): int {
    10000 * d.year + 100 * d.month + d.day
  }

  /** The sum over the window without grouping. */
  function WindowSum(entries: seq<Entry>, kind: Kind, start: Date, end: Date): real {
    if entries == [] then 0.0
    else (if InWindow(entries[0], kind, start, end) then entries[0].amount else 0.0)
         + WindowSum(entries[1..], kind, start, end)
  }

  /** The part of the sum that falls in one month. */
  function MonthSum(entries: seq<Entry>, kind: Kind, start: Date, end: Date, index: int): real {
    if entries == [] then 0.0
    else
      (if InWindow(entries[0], kind, start, end) && Index(entries[0].date) == index then entries[0].amount else 0.0)
      + MonthSum(entries[1..], kind, start, end, index)
  }

  /** One row of the grouped query. */
  datatype Group = Group(index: int, total: real)

  predicate HasMonth(entries: seq<Entry>, kind: Kind, start: Date, end: Date, index: int) {
    exists k :: 0 <= k < |entries| && InWindow(entries[k], kind, start, end) && Index(entries[k].date) == index
  }

  /** The answer of the grouped query, in any order: one row per month that has entries. */
  ghost predicate Grouping(groups: seq<Group>, entries: seq<Entry>, kind: Kind, start: Date, end: Date) {
    && (forall i, j :: 0 <= i < j < |groups| ==> groups[i].index != groups[j].index)
    && (forall i :: 0 <= i < |groups| ==>
          && HasMonth(entries, kind, start, end, groups[i].index)
          && groups[i].total == MonthSum(entries, kind, start, end, groups[i].index))
    && (forall m :: HasMonth(entries, kind, start, end, m) ==> exists i :: 0 <= i < |groups| && groups[i].index == m)
  }

  datatype Bucket = Bucket(index: int, expenses: real, income: real)

  /** What the first `n` rows of a query have in the month. */
  function Found(groups: seq<Group>, n: nat, index: int): real
    requires n <= |groups|
  {
    if n == 0 then 0.0
    else Found(groups, n - 1, index) + if groups[n - 1].index == index then groups[n - 1].total else 0.0
  }

  lemma {:induction false} NothingInMonth(
      entries: seq<Entry>, kind: Kind, start: Date, end: Date, index: int)
    requires !HasMonth(entries, kind, start, end, index)
    ensures MonthSum(entries, kind, start, end, index) == 0.0
  {
    if entries != [] {
      assert InWindow(entries[0], kind, start, end) ==> Index(entries[0].date) != index;
      assert !HasMonth(entries[1..], kind, start, end, index) by {
        forall k | 0 <= k < |entries| - 1
          ensures !(InWindow(entries[1..][k], kind, start, end) && Index(entries[1..][k].date) == index)
        {
          assert entries[1..][k] == entries[k + 1];
        }
      }
      NothingInMonth(entries[1..], kind, start, end, index);
    }
  }

  lemma {:induction false} FoundOnce(groups: seq<Group>, n: nat, index: int)
    requires n <= |groups| && forall i, j :: 0 <= i < j < |groups| ==> groups[i].index != groups[j].index
    ensures (forall i :: 0 <= i < n ==> groups[i].index != index) ==> Found(groups, n, index) == 0.0
    ensures forall i :: 0 <= i < n && groups[i].index == index ==> Found(groups, n, index) == groups[i].total
  {
    if n > 0 {
      FoundOnce(groups, n - 1, index);
    }
  }

  /** A month finds its own sum among the rows of the query, or nothing where there is nothing. */
  lemma {:induction false} FoundIsMonthSum(
      groups: seq<Group>, entries: seq<Entry>, kind: Kind, start: Date, end: Date, index: int)
    requires Grouping(groups, entries, kind, start, end)
    ensures Found(groups, |groups|, index) == MonthSum(entries, kind, start, end, index)
  {
    FoundOnce(groups, |groups|, index);
    if HasMonth(entries, kind, start, end, index) {
      var i :| 0 <= i < |groups| && groups[i].index == index;
    } else {
      NothingInMonth(entries, kind, start, end, index);
    }
  }

  /** The number of months from the start to the end, which may lie before it. */
  function Span(start: Date, end: Date): nat {
    if Index(start) <= Index(end) then Index(end) - Index(start) + 1 else 0
  }

  /** The months of the window without amounts; raises where the loop steps beyond December 9999. */
  method EmptyMonths(start: Date, end: Date) returns (months: Option<map<int, Bucket>>)
    requires Real(start) && Real(end)
    ensures months.None? <==> Index(start) <= Index(end) && end.year == 9999 && end.month == 12
    ensures months.Some? ==> forall i :: i in months.value <==> Index(start) <= i < Index(start) + Span(start, end)
    ensures months.Some? ==> forall i :: i in months.value ==> months.value[i] == Bucket(i, 0.0, 0.0)
  {
    var made: map<int, Bucket> := map[];
    var m := FirstOfMonth(start);
    SameMonth(m, end);
    while NotAfter(m, FirstOfMonth(end))
      invariant Real(m) && m.day == 1 && Index(start) <= Index(m) <= Index(start) + Span(start, end)
      invariant NotAfter(m, FirstOfMonth(end)) <==> Index(m) <= Index(end)
      invariant forall i :: i in made <==> Index(start) <= i < Index(m)
      invariant forall i :: i in made ==> made[i] == Bucket(i, 0.0, 0.0)
      decreases Index(end) - Index(m)
    {
      made := made[Index(m) := Bucket(Index(m), 0.0, 0.0)];
      var next := AddMonths(m, 1);
      if next.None? {
        return None;
      }
      m := next.value;
      SameMonth(m, end);
    }
    months := Some(made);
  }

  /**
   The series: one bucket for each month of the window, in order, with the month's expenses and income. It
   raises if and only if the window reaches December 9999.
   */
  method MonthlyData(
      entries: seq<Entry>, start: Date, end: Date, expenses: seq<Group>, income: seq<Group>)
    returns (series: Option<seq<Bucket>>)
    requires Real(start) && Real(end)
    requires Grouping(expenses, entries, Expense, start, end) && Grouping(income, entries, Income, start, end)
    ensures series.None? <==> Index(start) <= Index(end) && end.year == 9999 && end.month == 12
    ensures series.Some? ==> |series.value| == Span(start, end)
    ensures series.Some? ==> forall i :: 0 <= i < |series.value| ==>
              series.value[i] == Bucket(Index(start) + i,
                                        MonthSum(entries, Expense, start, end, Index(start) + i),
                                        MonthSum(entries, Income, start, end, Index(start) + i))
  {
    hide Grouping, MonthSum, Index, Span;
    var empty := EmptyMonths(start, end);
    if empty.None? {
      return None;
    }
    var months := empty.value;
    var first, span := Index(start), Span(start, end);
    for k := 0 to |expenses|
      invariant forall i :: i in months <==> first <= i < first + span
      invariant forall i :: i in months ==> months[i] == Bucket(i, Found(expenses, k, i), 0.0)
    {
      var key := expenses[k].index;
      if key in months {
        months := months[key := months[key].(expenses := months[key].expenses + expenses[k].total)];
      }
    }
    for k := 0 to |income|
      invariant forall i :: i in months <==> first <= i < first + span
      invariant forall i :: i in months ==>
                  months[i] == Bucket(i, Found(expenses, |expenses|, i), Found(income, k, i))
    {
      var key := income[k].index;
      if key in months {
        months := months[key := months[key].(income := months[key].income + income[k].total)];
      }
    }
    var result: seq<Bucket> := [];
    for i := 0 to span
      invariant |result| == i
      invariant forall j :: 0 <= j < i ==>
                  result[j] == Bucket(first + j, MonthSum(entries, Expense, start, end, first + j),
                                      MonthSum(entries, Income, start, end, first + j))
    {
      FoundIsMonthSum(expenses, entries, Expense, start, end, first + i);
      FoundIsMonthSum(income, entries, Income, start, end, first + i);
      result := result + [months[first + i]];
    }
    series := Some(result);
  }

  /** The sum over `n` consecutive months. */
  function MonthsTotal(entries: seq<Entry>, kind: Kind, start: Date, end: Date, first: int, n: nat): real {
    if n == 0 then 0.0
    else MonthsTotal(entries, kind, start, end, first, n - 1) + MonthSum(entries, kind, start, end, first + n - 1)
  }

  lemma {:induction false} MonthsTotalSplits(
      entries: seq<Entry>, kind: Kind, start: Date, end: Date, first: int, n: nat)
    requires entries != []
    ensures var e := entries[0];
            MonthsTotal(entries, kind, start, end, first, n)
              == MonthsTotal(entries[1..], kind, start, end, first, n)
                 + if InWindow(e, kind, start, end) && first <= Index(e.date) < first + n then e.amount else 0.0
  {
    if n > 0 {
      MonthsTotalSplits(entries, kind, start, end, first, n - 1);
    }
  }

  lemma {:induction false} NoEntriesNoTotal(kind: Kind, start: Date, end: Date, first: int, n: nat)
    ensures MonthsTotal([], kind, start, end, first, n) == 0.0
  {
    if n > 0 {
      NoEntriesNoTotal(kind, start, end, first, n - 1);
    }
  }

  /** Grouping by month loses and doubles nothing: the buckets of the series add up to the ungrouped sum. */
  lemma {:induction false} SeriesAddsUp(entries: seq<Entry>, kind: Kind, start: Date, end: Date)
    requires Real(start) && Real(end) && forall k :: 0 <= k < |entries| ==> Real(entries[k].date)
    ensures MonthsTotal(entries, kind, start, end, Index(start), Span(start, end))
         == WindowSum(entries, kind, start, end)
  {
    if entries == [] {
      NoEntriesNoTotal(kind, start, end, Index(start), Span(start, end));
    } else {
      MonthsTotalSplits(entries, kind, start, end, Index(start), Span(start, end));
      SeriesAddsUp(entries[1..], kind, start, end);
      SameMonth(start, entries[0].date);
      SameMonth(entries[0].date, end);
    }
  }

  // --- The category breakdown ---

  /** A row of the breakdown; amounts are rounded to cents before the collapse. */
  datatype Share = Share(category: string, cents: int, count: nat)

  function Cents(rows: seq<Share>): int {
    if rows == [] then 0 else rows[0].cents + Cents(rows[1..])
  }

  function Count(rows: seq<Share>): nat {
    if rows == [] then 0 else rows[0].count + Count(rows[1..])
  }

  /** All rows beyond the limit become one. */
  function Collapse(rows: seq<Share>, limit: nat): seq<Share> {
    if |rows| > limit then rows[..limit] + [Share("Other", Cents(rows[limit..]), Count(rows[limit..]))] else rows
  }

  lemma {:induction false} TotalsOfBoth(a: seq<Share>, b: seq<Share>)
    ensures Cents(a + b) == Cents(a) + Cents(b) && Count(a + b) == Count(a) + Count(b)
  {
    if a == [] {
      assert a + b == b;
    } else {
      assert (a + b)[1..] == a[1..] + b;
      TotalsOfBoth(a[1..], b);
    }
  }

  /** The collapse keeps the leading rows, the sum of the amounts and the number of transactions. */
  lemma {:induction false} CollapseKeepsTotals(rows: seq<Share>, limit: nat)
    ensures var short := Collapse(rows, limit);
            && |short| <= limit + 1
            && Cents(short) == Cents(rows) && Count(short) == Count(rows)
            && (forall i :: 0 <= i < |rows| && i < limit ==> short[i] == rows[i])
            && (|rows| <= limit ==> short == rows)
            && (|rows| > limit ==> |short| == limit + 1 && short[limit].category == "Other")
  {
    if |rows| > limit {
      var other := Share("Other", Cents(rows[limit..]), Count(rows[limit..]));
      assert rows == rows[..limit] + rows[limit..];
      TotalsOfBoth(rows[..limit], rows[limit..]);
      TotalsOfBoth(rows[..limit], [other]);
      assert [other][1..] == [];
    }
  }
}
