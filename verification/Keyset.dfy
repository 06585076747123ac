/**
 Keyset iteration: cursor pages, bulk batches and export batches all fetch "the next rows after this
 key". Each query may meet a different table, since rows come, go and change between the queries.
 */
module Keyset {
  import opened Common

  /** A transaction as these queries see it; `owner` is the user of its email, if that email is stored. */
  datatype Row = Row(
    id: nat, email: Option<nat>, owner: Option<nat>, date: Option<int>, tag: string, category: Option<string>, status: string,
    read: bool, flagged: bool)

  type Table = map<nat, Row>

  /** The listing goes by date and id, latest first; bulk actions and exports go by id. */
  datatype Order = LatestFirst | ById

  /** The conditions of a query, and its order. */
  datatype Query = Query(order: Order, wanted: Row -> bool)

  /** A key of the iteration, written so that it grows as the iteration proceeds. */
  type Position = (int, int)

  /** Where a row stands; rows without a date have no place in the listing's cursor order. */
  function Place(order: Order, row: Row): Option<Position> {
    match order
    case LatestFirst => if row.date.Some? then Some((0 - row.date.value, 0 - row.id)) else None
    case ById => Some((0, row.id))
  }

  predicate After(a: Position, b: Position) {
    a.0 > b.0 || (a.0 == b.0 && a.1 > b.1)
  }

  /** Rows sit under their own ids. */
  ghost predicate Keyed(table: Table) {
    forall id :: id in table ==> table[id].id == id
  }

  /** The row meets the conditions, and can still come after the position. */
  predicate Ahead(q: Query, row: Row, from: Position) {
    q.wanted(row) && Place(q.order, row).Some? && After(Place(q.order, row).value, from)
  }

  predicate NotAfter(order: Order, a: Row, b: Row) {
    Place(order, a).Some? && Place(order, b).Some? && !After(Place(order, a).value, Place(order, b).value)
  }

  function Candidates(q: Query, table: Table, from: Position): set<nat> {
    set id | id in table && Ahead(q, table[id], from)
  }

  ghost predicate Least(order: Order, table: Table, ids: set<nat>, id: nat)
    requires ids <= table.Keys
  {
    id in ids && forall other :: other in ids ==> NotAfter(order, table[id], table[other])
  }

  lemma {:induction false} FirstExists(order: Order, table: Table, ids: set<nat>) returns (first: nat)
    requires ids <= table.Keys && ids != {}
    requires forall id :: id in ids ==> Place(order, table[id]).Some?
    ensures Least(order, table, ids, first)
    decreases |ids|
  {
    first :| first in ids;
    var rest := ids - {first};
    assert ids == {first} + rest;
    if rest != {} {
      var y := FirstExists(order, table, rest);
      if !NotAfter(order, table[first], table[y]) {
        first := y;
      }
    }
  }

  /** The first row after a position. */
  function First(q: Query, table: Table, from: Position): (row: Option<Row>)
    requires Keyed(table)
    ensures row.None? <==> Candidates(q, table, from) == {}
    ensures row.Some? ==>
              && row.value.id in Candidates(q, table, from) && table[row.value.id] == row.value
              && forall other :: other in Candidates(q, table, from) ==> NotAfter(q.order, row.value, table[other])
  {
    var ids := Candidates(q, table, from);
    if ids == {} then None
    else
      assert exists id :: Least(q.order, table, ids, id) by {
        var first := FirstExists(q.order, table, ids);
      }
      var id :| id in ids && forall other :: other in ids ==> NotAfter(q.order, table[id], table[other]);
      Some(table[id])
  }

  /** The query: up to `limit` rows after a position, in order. */
  function Fetch(q: Query, table: Table, from: Position, limit: nat): (rows: seq<Row>)
    requires Keyed(table)
    ensures |rows| <= limit
    ensures forall i :: 0 <= i < |rows| ==> rows[i].id in table && table[rows[i].id] == rows[i]
    decreases limit
  {
    var first := First(q, table, from);
    if limit == 0 || first.None? then []
    else [first.value] + Fetch(q, table, Place(q.order, first.value).value, limit - 1)
  }

  /** A query only sees what lies ahead: tables that agree on that get the same answer. */
  lemma {:induction false} FetchSeesAhead(q: Query, a: Table, b: Table, from: Position, limit: nat)
    requires Keyed(a) && Keyed(b) && Candidates(q, a, from) == Candidates(q, b, from)
    requires forall id :: id in Candidates(q, a, from) ==> a[id] == b[id]
    ensures Fetch(q, a, from, limit) == Fetch(q, b, from, limit)
    decreases limit
  {
    if limit > 0 && Candidates(q, a, from) != {} {
      var first := First(q, a, from).value;
      assert First(q, b, from) == Some(first) by {
        var other := First(q, b, from).value;
        assert NotAfter(q.order, first, a[other.id]) && NotAfter(q.order, other, b[first.id]);
      }
      var next := Place(q.order, first).value;
      CandidatesAfterFirst(q, a, from);
      CandidatesAfterFirst(q, b, from);
      FetchSeesAhead(q, a, b, next, limit - 1);
    }
  }

  /** Positions go strictly forward, starting after `from`. */
  ghost predicate Forward(q: Query, rows: seq<Row>, from: Position) {
    rows == [] || (Ahead(q, rows[0], from) && Forward(q, rows[1..], Place(q.order, rows[0]).value))
  }

  /** The position of the last row, or the start if there is none. */
  function EndOf(order: Order, rows: seq<Row>, from: Position): Position {
    if rows == [] || Place(order, rows[|rows| - 1]).None? then from
    else Place(order, rows[|rows| - 1]).value
  }

  lemma {:induction false} FetchForward(q: Query, table: Table, from: Position, limit: nat)
    requires Keyed(table)
    ensures Forward(q, Fetch(q, table, from, limit), from)
    decreases limit
  {
    var rows := Fetch(q, table, from, limit);
    if rows != [] {
      assert rows[1..] == Fetch(q, table, Place(q.order, rows[0]).value, limit - 1);
      FetchForward(q, table, Place(q.order, rows[0]).value, limit - 1);
    }
  }

  /** All rows of a forward walk lie after its start and none lies after its end. */
  lemma {:induction false} ForwardBounds(q: Query, rows: seq<Row>, from: Position, row: Row)
    requires Forward(q, rows, from)
    ensures rows == [] ==> EndOf(q.order, rows, from) == from
    ensures rows != [] ==> After(EndOf(q.order, rows, from), from)
    ensures row in rows ==> Ahead(q, row, from) && !Ahead(q, row, EndOf(q.order, rows, from))
  {
    if rows != [] {
      var next := Place(q.order, rows[0]).value;
      ForwardBounds(q, rows[1..], next, row);
      ForwardBounds(q, rows[1..], next, rows[0]);
      EndOfTail(q, rows, from);
    }
  }

  lemma EndOfTail(q: Query, rows: seq<Row>, from: Position)
    requires Forward(q, rows, from) && rows != []
    ensures EndOf(q.order, rows, from) == EndOf(q.order, rows[1..], Place(q.order, rows[0]).value)
  {
    if |rows| > 1 {
      assert rows[1..][|rows| - 2] == rows[|rows| - 1];
      LastHasPlace(q, rows, from);
    }
  }

  lemma {:induction false} LastHasPlace(q: Query, rows: seq<Row>, from: Position)
    requires Forward(q, rows, from) && rows != []
    ensures Place(q.order, rows[|rows| - 1]).Some?
  {
    if |rows| > 1 {
      LastHasPlace(q, rows[1..], Place(q.order, rows[0]).value);
    }
  }

  /** A query skips no row before its end, and a short answer means that there is no more. */
  lemma {:induction false} FetchIsExact(q: Query, table: Table, from: Position, limit: nat, row: Row)
    requires Keyed(table) && row.id in table && table[row.id] == row && Ahead(q, row, from)
    ensures var rows := Fetch(q, table, from, limit);
            && (row in rows <==> !Ahead(q, row, EndOf(q.order, rows, from)))
            && (|rows| < limit ==> row in rows)
    decreases limit
  {
    hide *;
    var rows := Fetch(q, table, from, limit);
    FirstOrAfter(q, table, from, row);
    FetchUnfolds(q, table, from, limit);
    FetchForward(q, table, from, limit);
    ForwardBounds(q, rows, from, row);
    if limit > 0 && row != rows[0] {
      var next := Place(q.order, rows[0]).value;
      assert rows[1..] == Fetch(q, table, next, limit - 1);
      FetchIsExact(q, table, next, limit - 1, row);
      EndOfTail(q, rows, from);
      assert row in rows <==> row in rows[1..];
    }
  }

  /** A row ahead is the first one, or comes after it. */
  lemma FirstOrAfter(q: Query, table: Table, from: Position, row: Row)
    requires Keyed(table) && row.id in table && table[row.id] == row && Ahead(q, row, from)
    ensures First(q, table, from).Some?
    ensures row == First(q, table, from).value
            || (Place(q.order, First(q, table, from).value).Some?
                && Ahead(q, row, Place(q.order, First(q, table, from).value).value))
  {
    assert row.id in Candidates(q, table, from);
    hide First;
  }

  // --- Walks: one query after another ---

  /** Cursor pages look one row ahead and stop when there is none; the loops stop at an empty batch. */
  datatype Stop = NoNextCursor | EmptyBatch

  /** The rows shown so far, the key to go on from, and whether the iteration is over. */
  datatype Walk = Walk(shown: seq<Row>, end: Position, finished: bool)

  /** One step: its rows, and whether it is the last one. */
  function Step(q: Query, stop: Stop, table: Table, from: Position, size: nat): (page: Walk)
    requires Keyed(table) && size > 0
  {
    match stop
    case NoNextCursor =>
      var rows := Fetch(q, table, from, size + 1);
      var shown := if |rows| > size then rows[..size] else rows;
      Walk(shown, EndOf(q.order, shown, from), |rows| <= size)
    case EmptyBatch =>
      var rows := Fetch(q, table, from, size);
      Walk(rows, EndOf(q.order, rows, from), rows == [])
  }

  /** The k-th step meets the k-th table. */
  function Follow(q: Query, stop: Stop, tables: seq<Table>, from: Position, size: nat): (walk: Walk)
    requires size > 0 && forall k :: 0 <= k < |tables| ==> Keyed(tables[k])
    decreases |tables|
  {
    if tables == [] then Walk([], from, false)
    else
      var page := Step(q, stop, tables[0], from, size);
      if page.finished then page
      else
        var rest := Follow(q, stop, tables[1..], page.end, size);
        Walk(page.shown + rest.shown, rest.end, rest.finished)
  }

  lemma FetchUnfolds(q: Query, table: Table, from: Position, limit: nat)
    requires Keyed(table)
    ensures limit == 0 || First(q, table, from).None? ==> Fetch(q, table, from, limit) == []
    ensures limit > 0 && First(q, table, from).Some? ==>
              && Place(q.order, First(q, table, from).value).Some?
              && Fetch(q, table, from, limit) == [First(q, table, from).value]
                + Fetch(q, table, Place(q.order, First(q, table, from).value).value, limit - 1)
  {
  }

  /** A shorter query answers the beginning of a longer one, and the longer one goes on where it ended. */
  lemma {:induction false} FetchSplits(q: Query, table: Table, from: Position, first: nat, more: nat)
    requires Keyed(table)
    ensures var rows := Fetch(q, table, from, first);
            Fetch(q, table, from, first + more) == rows + Fetch(q, table, EndOf(q.order, rows, from), more)
    decreases first
  {
    hide *;
    var rows := Fetch(q, table, from, first);
    if rows == [] {
      FetchNothing(q, table, from, first, more);
    } else {
      FetchUnfolds(q, table, from, first);
      FetchUnfolds(q, table, from, first + more);
      var next := Place(q.order, rows[0]).value;
      var tail := Fetch(q, table, next, first - 1);
      assert rows == [rows[0]] + tail && rows[1..] == tail;
      FetchSplits(q, table, next, first - 1, more);
      FetchForward(q, table, from, first);
      EndOfTail(q, rows, from);
      var end := EndOf(q.order, rows, from);
      assert [rows[0]] + (tail + Fetch(q, table, end, more)) == rows + Fetch(q, table, end, more);
    }
  }

  lemma FetchNothing(q: Query, table: Table, from: Position, limit: nat, more: nat)
    requires Keyed(table) && Fetch(q, table, from, limit) == []
    ensures EndOf(q.order, [], from) == from
    ensures Fetch(q, table, from, limit + more) == Fetch(q, table, from, more)
  {
    hide Candidates;
    FetchUnfolds(q, table, from, limit);
    FetchUnfolds(q, table, from, limit + more);
    FetchUnfolds(q, table, from, more);
  }

  /** Every step answers the plain query for its size; the last one has shown everything. */
  lemma {:induction false} StepFetches(q: Query, stop: Stop, table: Table, from: Position, size: nat)
    requires Keyed(table) && size > 0
    ensures var page := Step(q, stop, table, from, size);
            && page.shown == Fetch(q, table, from, size)
            && page.end == EndOf(q.order, page.shown, from)
            && (page.finished ==> Candidates(q, table, page.end) == {})
            && (page.finished || page.shown != [])
  {
    hide First, Place, EndOf, Fetch, Candidates, Forward;
    var page := Step(q, stop, table, from, size);
    var rows := Fetch(q, table, from, size);
    FetchSplits(q, table, from, size, 1);
    var longer := Fetch(q, table, from, size + 1);
    FetchCounts(q, table, from, size);
    FetchCounts(q, table, from, size + 1);
    assert |longer| > size ==> longer[..size] == rows;
    assert |longer| <= size ==> longer == rows;
  }

  lemma {:induction false} ForwardJoin(q: Query, a: seq<Row>, b: seq<Row>, from: Position)
    requires Forward(q, a, from) && Forward(q, b, EndOf(q.order, a, from))
    ensures Forward(q, a + b, from) && EndOf(q.order, a + b, from) == EndOf(q.order, b, EndOf(q.order, a, from))
  {
    if a == [] {
      assert a + b == b;
    } else {
      var next := Place(q.order, a[0]).value;
      EndOfTail(q, a, from);
      ForwardJoin(q, a[1..], b, next);
      assert (a + b)[1..] == a[1..] + b;
      EndOfTail(q, a + b, from);
    }
  }

  /** Whatever happens to the table between the queries, the keys shown only ever go forward. */
  lemma {:induction false} WalkGoesForward(q: Query, stop: Stop, tables: seq<Table>, from: Position, size: nat)
    requires size > 0 && forall k :: 0 <= k < |tables| ==> Keyed(tables[k])
    ensures var walk := Follow(q, stop, tables, from, size);
            Forward(q, walk.shown, from) && walk.end == EndOf(q.order, walk.shown, from)
    decreases |tables|
  {
    if tables != [] {
      var page := Step(q, stop, tables[0], from, size);
      StepFetches(q, stop, tables[0], from, size);
      FetchForward(q, tables[0], from, size);
      if !page.finished {
        WalkGoesForward(q, stop, tables[1..], page.end, size);
        ForwardJoin(q, page.shown, Follow(q, stop, tables[1..], page.end, size).shown, from);
      }
    }
  }

  /** Keys that go forward differ pairwise. */
  lemma {:induction false} ForwardApart(q: Query, rows: seq<Row>, from: Position, i: nat, j: nat)
    requires Forward(q, rows, from) && i < j < |rows|
    ensures Place(q.order, rows[i]).Some? && Place(q.order, rows[j]).Some?
    ensures After(Place(q.order, rows[j]).value, Place(q.order, rows[i]).value)
    ensures rows[i] != rows[j]
  {
    if i == 0 {
      ForwardBounds(q, rows[1..], Place(q.order, rows[0]).value, rows[1..][j - 1]);
    } else {
      ForwardApart(q, rows[1..], Place(q.order, rows[0]).value, i - 1, j - 1);
    }
  }

  /** The row was there, the same, at every query. */
  ghost predicate Stays(tables: seq<Table>, row: Row) {
    forall k :: 0 <= k < |tables| ==> row.id in tables[k] && tables[k][row.id] == row
  }

  /**
   A row that stays unchanged and lies ahead is shown exactly once if the iteration finishes; while it
   goes on, the row has been shown if and only if the current key has passed it.
   */
  lemma {:induction false} StayingRowShownOnce(
      q: Query, stop: Stop, tables: seq<Table>, from: Position, size: nat, row: Row)
    requires size > 0 && (forall k :: 0 <= k < |tables| ==> Keyed(tables[k])) && Stays(tables, row)
    requires Ahead(q, row, from)
    ensures var walk := Follow(q, stop, tables, from, size);
            && (row in walk.shown <==> !Ahead(q, row, walk.end))
            && (walk.finished ==> row in walk.shown)
            && (forall i, j :: 0 <= i < j < |walk.shown| && walk.shown[i] == row ==> walk.shown[j] != row)
    decreases |tables|
  {
    var walk := Follow(q, stop, tables, from, size);
    if tables != [] {
      StayingRowShown(q, stop, tables, from, size, row);
      WalkGoesForward(q, stop, tables, from, size);
      forall i, j | 0 <= i < j < |walk.shown| && walk.shown[i] == row ensures walk.shown[j] != row {
        ForwardApart(q, walk.shown, from, i, j);
      }
    }
  }

  lemma {:induction false} StayingRowShown(
      q: Query, stop: Stop, tables: seq<Table>, from: Position, size: nat, row: Row)
    requires size > 0 && (forall k :: 0 <= k < |tables| ==> Keyed(tables[k])) && Stays(tables, row)
    requires Ahead(q, row, from)
    ensures var walk := Follow(q, stop, tables, from, size);
            (row in walk.shown <==> !Ahead(q, row, walk.end)) && (walk.finished ==> row in walk.shown)
    decreases |tables|
  {
    if tables != [] {
      var page := Step(q, stop, tables[0], from, size);
      StepFetches(q, stop, tables[0], from, size);
      assert row.id in tables[0] && tables[0][row.id] == row;
      FetchIsExact(q, tables[0], from, size, row);
      if page.finished {
        assert row.id in Candidates(q, tables[0], page.end) <==> Ahead(q, row, page.end);
      } else {
        var rest := Follow(q, stop, tables[1..], page.end, size);
        WalkGoesForward(q, stop, tables[1..], page.end, size);
        ForwardBounds(q, rest.shown, page.end, row);
        if Ahead(q, row, page.end) {
          StayingRowShown(q, stop, tables[1..], page.end, size, row);
        } else {
          PassedStaysPassed(q, row, page.end, rest.end);
        }
      }
    }
  }

  lemma PassedStaysPassed(q: Query, row: Row, a: Position, b: Position)
    requires !Ahead(q, row, a) && (a == b || After(b, a))
    ensures !Ahead(q, row, b)
  {
  }

  /** Only rows of the consulted tables are shown. */
  lemma {:induction false} ShownWereThere(
      q: Query, stop: Stop, tables: seq<Table>, from: Position, size: nat, row: Row) returns (k: nat)
    requires size > 0 && (forall k :: 0 <= k < |tables| ==> Keyed(tables[k]))
    requires row in Follow(q, stop, tables, from, size).shown
    ensures k < |tables| && row.id in tables[k] && tables[k][row.id] == row && Ahead(q, row, from)
    decreases |tables|
  {
    hide Step, Forward, EndOf, Candidates, Fetch, Ahead, First;
    var page := Step(q, stop, tables[0], from, size);
    WalkGoesForward(q, stop, tables, from, size);
    ForwardBounds(q, Follow(q, stop, tables, from, size).shown, from, row);
    StepFetches(q, stop, tables[0], from, size);
    if row in page.shown {
      k := 0;
    } else {
      var later := ShownWereThere(q, stop, tables[1..], page.end, size, row);
      k := later + 1;
    }
  }

  /** All that lies ahead, in order. */
  function Listing(q: Query, table: Table, from: Position): seq<Row>
    requires Keyed(table)
  {
    Fetch(q, table, from, |Candidates(q, table, from)|)
  }

  /** A query with room for all of them answers with exactly the rows ahead. */
  lemma {:induction false} ListingIsAll(q: Query, table: Table, from: Position)
    requires Keyed(table)
    ensures var rows := Listing(q, table, from);
            && |rows| == |Candidates(q, table, from)|
            && Forward(q, rows, from)
            && (forall id :: id in Candidates(q, table, from) ==> table[id] in rows)
  {
    var n := |Candidates(q, table, from)|;
    FetchCounts(q, table, from, n);
    FetchForward(q, table, from, n);
    var rows := Listing(q, table, from);
    forall id | id in Candidates(q, table, from) ensures table[id] in rows {
      FetchIsExact(q, table, from, n, table[id]);
      var end := EndOf(q.order, rows, from);
      assert Candidates(q, table, end) == {};
      assert id in Candidates(q, table, end) <==> Ahead(q, table[id], end);
    }
  }

  /** A query takes as many as there are, up to its limit; the others remain ahead. */
  lemma {:induction false} FetchCounts(q: Query, table: Table, from: Position, limit: nat)
    requires Keyed(table)
    ensures var rows := Fetch(q, table, from, limit);
            var all := Candidates(q, table, from);
            && |rows| == (if |all| <= limit then |all| else limit)
            && |Candidates(q, table, EndOf(q.order, rows, from))| == |all| - |rows|
    decreases limit
  {
    hide Candidates, Forward, Ahead, Place;
    var rows := Fetch(q, table, from, limit);
    var all := Candidates(q, table, from);
    if rows != [] {
      FetchUnfolds(q, table, from, limit);
      hide Fetch, First, EndOf;
      var next := Place(q.order, rows[0]).value;
      assert rows[1..] == Fetch(q, table, next, limit - 1);
      CandidatesAfterFirst(q, table, from);
      FetchCounts(q, table, next, limit - 1);
      FetchForward(q, table, from, limit);
      EndOfTail(q, rows, from);
    } else if limit > 0 {
      assert all == {};
    }
  }

  lemma CandidatesAfterFirst(q: Query, table: Table, from: Position)
    requires Keyed(table) && First(q, table, from).Some?
    ensures var first := First(q, table, from).value;
            Candidates(q, table, Place(q.order, first).value) == Candidates(q, table, from) - {first.id}
  {
  }

  /** Asking for as many rows as were found gives the same answer. */
  lemma {:induction false} FetchAsMany(q: Query, table: Table, from: Position, limit: nat)
    requires Keyed(table)
    ensures var rows := Fetch(q, table, from, limit); |rows| <= limit && Fetch(q, table, from, |rows|) == rows
  {
    hide First, Place, EndOf, Fetch, Candidates, Forward;
    var found := |Fetch(q, table, from, limit)|;
    FetchCounts(q, table, from, limit);
    FetchCounts(q, table, from, found);
    FetchSplits(q, table, from, found, limit - found);
  }

  /** On a table that does not change, the iteration ends and has shown the whole ordered list. */
  lemma {:induction false} StaticWalkShowsListing(
      q: Query, stop: Stop, table: Table, tables: seq<Table>, from: Position, size: nat)
    requires size > 0 && Keyed(table) && forall k :: 0 <= k < |tables| ==> tables[k] == table
    requires |tables| > |Candidates(q, table, from)|
    ensures var walk := Follow(q, stop, tables, from, size);
            walk.finished && walk.shown == Listing(q, table, from)
    decreases |tables|
  {
    hide First, Place, EndOf, Fetch, Candidates, Forward, Step;
    var page := Step(q, stop, tables[0], from, size);
    var n := |Candidates(q, table, from)|;
    var m := |page.shown|;
    assert tables[0] == table;
    StepFetches(q, stop, table, from, size);
    FetchCounts(q, table, from, size);
    FetchAsMany(q, table, from, size);
    if !page.finished {
      StaticWalkShowsListing(q, stop, table, tables[1..], page.end, size);
      FetchSplits(q, table, from, m, n - m);
    }
  }

  /** By id, no id is shown twice, however the rows are edited. */
  lemma {:induction false} IdsShownOnce(q: Query, stop: Stop, tables: seq<Table>, from: Position, size: nat, i: nat, j: nat)
    requires size > 0 && (forall k :: 0 <= k < |tables| ==> Keyed(tables[k])) && q.order.ById?
    requires i < j < |Follow(q, stop, tables, from, size).shown|
    ensures var shown := Follow(q, stop, tables, from, size).shown; shown[i].id < shown[j].id
  {
    WalkGoesForward(q, stop, tables, from, size);
    ForwardApart(q, Follow(q, stop, tables, from, size).shown, from, i, j);
  }

  /** By date, rows come latest first, and those of one date with the larger id first. */
  lemma {:induction false} LatestComeFirst(
      q: Query, stop: Stop, tables: seq<Table>, from: Position, size: nat, i: nat, j: nat)
    requires size > 0 && (forall k :: 0 <= k < |tables| ==> Keyed(tables[k])) && q.order.LatestFirst?
    requires i < j < |Follow(q, stop, tables, from, size).shown|
    ensures var shown := Follow(q, stop, tables, from, size).shown;
            && shown[i].date.Some? && shown[j].date.Some?
            && (shown[j].date.value < shown[i].date.value
                || (shown[j].date.value == shown[i].date.value && shown[j].id < shown[i].id))
  {
    WalkGoesForward(q, stop, tables, from, size);
    ForwardApart(q, Follow(q, stop, tables, from, size).shown, from, i, j);
  }

  /** By date, an id can come up again only with an earlier date: a row never dated back is shown at most once. */
  lemma {:induction false} RepeatedIdIsDatedBack(
      q: Query, stop: Stop, tables: seq<Table>, from: Position, size: nat, i: nat, j: nat)
    requires size > 0 && (forall k :: 0 <= k < |tables| ==> Keyed(tables[k])) && q.order.LatestFirst?
    requires i < j < |Follow(q, stop, tables, from, size).shown|
    ensures var shown := Follow(q, stop, tables, from, size).shown;
            && shown[i].date.Some? && shown[j].date.Some?
            && (shown[i].id == shown[j].id ==> shown[j].date.value < shown[i].date.value)
  {
    WalkGoesForward(q, stop, tables, from, size);
    ForwardApart(q, Follow(q, stop, tables, from, size).shown, from, i, j);
  }

  /** A walk that is not over goes on from its key over the further tables. */
  lemma {:induction false} FollowGoesOn(
      q: Query, stop: Stop, tables: seq<Table>, more: seq<Table>, from: Position, size: nat)
    requires size > 0 && (forall k :: 0 <= k < |tables| ==> Keyed(tables[k]))
    requires forall k :: 0 <= k < |more| ==> Keyed(more[k])
    requires !Follow(q, stop, tables, from, size).finished
    ensures var walk := Follow(q, stop, tables, from, size);
            var rest := Follow(q, stop, more, walk.end, size);
            && Follow(q, stop, tables + more, from, size)
                 == Walk(walk.shown + rest.shown, rest.end, rest.finished)
    decreases |tables|
  {
    hide Step;
    if tables == [] {
      assert tables + more == more;
      NoStepKeepsKey(q, stop, from, size);
    } else {
      var page := Step(q, stop, tables[0], from, size);
      FollowGoesOn(q, stop, tables[1..], more, page.end, size);
      assert (tables + more)[0] == tables[0] && (tables + more)[1..] == tables[1..] + more;
    }
  }

  lemma NoStepKeepsKey(q: Query, stop: Stop, from: Position, size: nat)
    requires size > 0
    ensures Follow(q, stop, [], from, size) == Walk([], from, false)
  {
  }

  /**
   When exactly an edited row is shown again: it has been shown, it is edited and then stays, and the walk
   finishes over any further tables. The new version is shown if and only if it lies ahead of the key that the
   walk had reached, which by date means that the row was dated back beyond that key.
   */
  lemma {:induction false} EditedRowShownAgainIff(
      q: Query, stop: Stop, tables: seq<Table>, more: seq<Table>, from: Position, size: nat, row: Row, edited: Row)
    requires size > 0 && (forall k :: 0 <= k < |tables| ==> Keyed(tables[k]))
    requires (forall k :: 0 <= k < |more| ==> Keyed(more[k])) && Stays(more, edited) && edited.id == row.id
    requires var walk := Follow(q, stop, tables, from, size); !walk.finished && row in walk.shown
    requires Follow(q, stop, tables + more, from, size).finished
    ensures var walk := Follow(q, stop, tables, from, size);
            var whole := Follow(q, stop, tables + more, from, size);
            (exists j :: |walk.shown| <= j < |whole.shown| && whole.shown[j].id == row.id)
            <==> Ahead(q, edited, walk.end)
  {
    var walk := Follow(q, stop, tables, from, size);
    var rest := Follow(q, stop, more, walk.end, size);
    var whole := Follow(q, stop, tables + more, from, size);
    FollowGoesOn(q, stop, tables, more, from, size);
    hide *;
    StayingIdShownIff(q, stop, more, walk.end, size, edited);
    ShownLaterIff(walk.shown, rest.shown, row.id);
  }

  lemma {:induction false} ShownLaterIff(shown: seq<Row>, more: seq<Row>, id: nat)
    ensures (exists j :: |shown| <= j < |shown + more| && (shown + more)[j].id == id)
            <==> (exists j :: 0 <= j < |more| && more[j].id == id)
  {
    if j :| 0 <= j < |more| && more[j].id == id {
      assert (shown + more)[|shown| + j] == more[j];
    }
    if j :| |shown| <= j < |shown + more| && (shown + more)[j].id == id {
      assert more[j - |shown|] == (shown + more)[j];
    }
  }

  /** A walk that finishes shows a staying row if and only if the row lies ahead of its start. */
  lemma {:induction false} StayingIdShownIff(
      q: Query, stop: Stop, tables: seq<Table>, from: Position, size: nat, row: Row)
    requires size > 0 && (forall k :: 0 <= k < |tables| ==> Keyed(tables[k])) && Stays(tables, row)
    requires Follow(q, stop, tables, from, size).finished
    ensures (exists j :: 0 <= j < |Follow(q, stop, tables, from, size).shown|
                         && Follow(q, stop, tables, from, size).shown[j].id == row.id)
            <==> Ahead(q, row, from)
  {
    var shown := Follow(q, stop, tables, from, size).shown;
    hide Step, Follow, Ahead;
    if Ahead(q, row, from) {
      StayingRowShown(q, stop, tables, from, size, row);
      var j :| 0 <= j < |shown| && shown[j] == row;
    }
    if j :| 0 <= j < |shown| && shown[j].id == row.id {
      var k := ShownWereThere(q, stop, tables, from, size, shown[j]);
      assert tables[k][row.id] == row;
    }
  }

  /** By date, a row that is shown and then dated back, but still before another one, is shown again. */
  lemma {:induction false} RedatedRowShownTwice(q: Query, row: Row, back: int, other: Row, from: Position)
    requires q.order.LatestFirst? && row.date.Some? && back < row.date.value && Ahead(q, row, from)
    requires q.wanted(row.(date := Some(back)))
    requires other.id != row.id && other.date.Some? && other.date.value < back && q.wanted(other)
    ensures var redated := row.(date := Some(back));
            var tables := [map[row.id := row, other.id := other], map[row.id := redated, other.id := other]];
            Follow(q, NoNextCursor, tables, from, 1).shown == [row, redated]
  {
    var redated := row.(date := Some(back));
    var first: Table := map[row.id := row, other.id := other];
    var second: Table := map[row.id := redated, other.id := other];
    var tables := [first, second];
    var here := Place(q.order, row).value;
    LeadingRow(q, first, row, other, from);
    LeadingRow(q, second, redated, other, here);
    assert tables[1..] == [second] && [second][1..] == [];
    assert Follow(q, NoNextCursor, [second], here, 1).shown == [redated] + [];
  }

  lemma {:induction false} LeadingRow(q: Query, table: Table, row: Row, other: Row, from: Position)
    requires table == map[row.id := row, other.id := other] && row.id != other.id
    requires Ahead(q, row, from) && Ahead(q, other, Place(q.order, row).value)
    ensures Step(q, NoNextCursor, table, from, 1) == Walk([row], Place(q.order, row).value, false)
  {
    var all := Candidates(q, table, from);
    assert row.id in all && other.id in all;
    assert First(q, table, from).value == row;
    assert other.id in Candidates(q, table, Place(q.order, row).value);
    assert Fetch(q, table, from, 2)[0] == row;
    assert |Fetch(q, table, Place(q.order, row).value, 1)| == 1;
    assert |Fetch(q, table, from, 2)| == 2;
    assert Fetch(q, table, from, 2)[..1] == [row];
  }
}
