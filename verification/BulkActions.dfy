/** The bulk endpoint with "select all": an action applied to every transaction of a user, batch by batch. */
module BulkActions {
  import opened Common
  import opened Keyset

  const BULK_SELECT_ALL_MAX := 5000
  const BATCH_SIZE := 500
  const CORRECTED := "corrected"

  datatype Action =
    | MarkRead
    | MarkUnread
    | Flag
    | Unflag
    | Delete
    | DetectDuplicates
    | SetCategory(category: Option<string>)
    | SetTag(tag: Option<string>)

  /** Done carries the number of rows and the months to recompute; the others are answers with status 422. */
  datatype Outcome = Done(updated: nat, months: set<int>) | TooMany(total: nat) | ValueMissing

  predicate Complete(action: Action) {
    match action
    case SetCategory(c) => c.Some? && c.value != ""
    case SetTag(t) => t.Some? && t.value != ""
    case _ => true
  }

  /**
   What the action does to one row. Deleting drops the row's email, and its owner with it; the detection of
   duplicates adds pairs and leaves the rows alone.
   */
  function Applied(action: Action, row: Row): Row
    requires Complete(action)
  {
    match action
    case MarkRead => row.(read := true)
    case MarkUnread => row.(read := false)
    case Flag => row.(flagged := true)
    case Unflag => row.(flagged := false)
    case Delete => row.(email := None, owner := None)
    case DetectDuplicates => row
    case SetCategory(c) => row.(category := c, status := CORRECTED)
    case SetTag(t) => row.(tag := t.value, status := CORRECTED)
  }

  /** The rows that a user's queries find. */
  function Mine(user: nat, table: Table): set<nat> {
    set id | id in table && table[id].owner == Some(user)
  }

  /** Two rows belong to the same email. */
  predicate Share(a: Row, b: Row) {
    a.email.Some? && a.email == b.email
  }

  /** Only stored emails have an owner, and rows of one email have the same. */
  ghost predicate OwnersAgree(table: Table) {
    && (forall id :: id in table && table[id].owner.Some? ==> table[id].email.Some?)
    && (forall a, b :: a in table && b in table && Share(table[a], table[b]) ==> table[a].owner == table[b].owner)
  }

  /** The row shares its email with one of these rows. */
  predicate Bereft(table: Table, ids: set<nat>, id: nat)
    requires id in table
  {
    exists other :: other in ids && other in table && Share(table[other], table[id])
  }

  /** The table after the action has reached the rows in `ids`; a deleted email is gone for all of its rows. */
  function Treated(action: Action, table: Table, ids: set<nat>): Table
    requires Complete(action)
  {
    map id | id in table ::
      if id in ids then Applied(action, table[id])
      else if action.Delete? && Bereft(table, ids, id) then table[id].(owner := None)
      else table[id]
  }

  function Months(table: Table, ids: set<nat>, month: int -> int): set<int> {
    set id | id in ids && id in table && table[id].date.Some? :: month(table[id].date.value)
  }

  function AllOf(user: nat): Query {
    Query(ById, (row: Row) => row.owner == Some(user))
  }

  function IdsOf(rows: seq<Row>): set<nat> {
    set k | 0 <= k < |rows| :: rows[k].id
  }

  /** What one row's turn does to the table as it stands. */
  function OneTreated(action: Action, table: Table, id: nat): Table
    requires Complete(action) && id in table
  {
    map other | other in table ::
      if other == id then Applied(action, table[id])
      else if action.Delete? && Share(table[id], table[other]) then table[other].(owner := None)
      else table[other]
  }

  // --- The course of a bulk action ---

  function Below(ids: set<nat>, bound: int): set<nat> {
    set id | id in ids && id < bound
  }

  /** The batch in which a row's turn comes, when these rows are taken in order and so many at a time. */
  function Block(ids: set<nat>, id: nat): nat {
    |Below(ids, id)| / BATCH_SIZE
  }

  /** The row shares its email with a row reached in an earlier batch. */
  predicate Preceded(table: Table, reached: set<nat>, id: nat)
    requires id in table
  {
    exists a :: a in reached && a in table && Share(table[a], table[id]) && Block(reached, a) < Block(reached, id)
  }

  /**
   Which of the user's rows an action reaches: a row is left out exactly when it is to be deleted and its email
   went with a row of an earlier batch.
   */
  ghost predicate Course(action: Action, table: Table, mine: set<nat>, reached: set<nat>)
    requires mine <= table.Keys
  {
    && reached <= mine
    && forall id :: id in mine ==> (id in reached <==> !(action.Delete? && Preceded(table, reached, id)))
  }

  /** The course so far: up to `last`, or over all rows once a batch has come short. */
  ghost predicate Progress(user: nat, action: Action, table: Table, reached: set<nat>, last: int, over: bool) {
    && reached <= Mine(user, table) && (over || |reached| % BATCH_SIZE == 0)
    && (forall id :: id in reached ==> id <= last)
    && (forall id :: id in Mine(user, table) && (over || id <= last) ==>
          (id in reached <==> !(action.Delete? && Preceded(table, reached, id))))
  }

  /** The loop between two batches; an incomplete action has reached nothing. */
  ghost predicate Underway(
      user: nat, action: Action, before: Table, now: Table, reached: set<nat>, last: int, over: bool)
  {
    && Keyed(before) && Keyed(now) && OwnersAgree(before) && reached <= Mine(user, before)
    && (reached != {} ==> Complete(action)) && (reached == {} ==> now == before && last == -1)
    && (Complete(action) ==>
          now == Treated(action, before, reached) && Progress(user, action, before, reached, last, over))
  }

  /** Treating one more row that has not been reached is one step from the table as it stands. */
  lemma TreatOneMore(action: Action, table: Table, ids: set<nat>, id: nat)
    requires Complete(action) && id in table && id !in ids
    ensures Treated(action, table, ids + {id}) == OneTreated(action, Treated(action, table, ids), id)
  {
    var now := Treated(action, table, ids);
    forall other | other in table ensures Treated(action, table, ids + {id})[other] == OneTreated(action, now, id)[other] {
      assert now[id].email == table[id].email;
      assert Bereft(table, ids + {id}, other) <==> Bereft(table, ids, other) || Share(table[id], table[other]);
      if action.Delete? && other !in ids && other != id {
        assert now[other].email == table[other].email;
      }
    }
  }

  /** Of the rows not reached, the user still finds exactly those that are not bereft, and finds them unchanged. */
  ghost predicate RestFound(user: nat, action: Action, before: Table, now: Table, reached: set<nat>) {
    && now.Keys == before.Keys
    && (forall id :: id in now && id !in reached ==>
          (now[id].owner == Some(user) <==> id in Mine(user, before) && !(action.Delete? && Bereft(before, reached, id))))
    && (forall id :: id in now && id !in reached && now[id].owner == Some(user) ==> now[id] == before[id])
  }

  lemma TreatedFindsRest(user: nat, action: Action, before: Table, reached: set<nat>)
    requires Complete(action)
    ensures RestFound(user, action, before, Treated(action, before, reached), reached)
  {
  }

  /** The rows of a batch are the user's next ones. */
  lemma {:induction false} BatchIs(user: nat, table: Table, last: int, limit: nat, i: nat)
    requires Keyed(table) && i < |Fetch(AllOf(user), table, (0, last), limit)|
    ensures var batch := Fetch(AllOf(user), table, (0, last), limit);
            && last < batch[i].id <= batch[|batch| - 1].id
            && batch[i].id in table && table[batch[i].id] == batch[i] && batch[i].owner == Some(user)
  {
    var q := AllOf(user);
    var batch := Fetch(q, table, (0, last), limit);
    FetchForward(q, table, (0, last), limit);
    hide *;
    ForwardBounds(q, batch, (0, last), batch[i]);
    AheadById(user, batch, batch[i], last);
  }

  /** They come once each. */
  lemma {:induction false} DistinctBatch(user: nat, table: Table, last: int, batch: seq<Row>)
    requires Keyed(table) && batch == Fetch(AllOf(user), table, (0, last), BATCH_SIZE)
    ensures forall i, j :: 0 <= i < j < |batch| ==> batch[i].id != batch[j].id
  {
    var q := AllOf(user);
    FetchForward(q, table, (0, last), BATCH_SIZE);
    hide *;
    forall i, j | 0 <= i < j < |batch| ensures batch[i].id != batch[j].id {
      ForwardApart(q, batch, (0, last), i, j);
      AfterById(user, batch[j], batch[i]);
    }
  }

  /** By id, what lies ahead of a key or of the end of a batch is what has a larger id. */
  lemma AheadById(user: nat, batch: seq<Row>, row: Row, last: int)
    ensures Ahead(AllOf(user), row, (0, last)) <==> row.owner == Some(user) && last < row.id
    ensures batch != [] ==>
              (Ahead(AllOf(user), row, EndOf(AllOf(user).order, batch, (0, last)))
               <==> row.owner == Some(user) && batch[|batch| - 1].id < row.id)
  {
  }

  lemma AfterById(user: nat, a: Row, b: Row)
    requires Place(AllOf(user).order, a).Some? && Place(AllOf(user).order, b).Some?
    requires After(Place(AllOf(user).order, a).value, Place(AllOf(user).order, b).value)
    ensures b.id < a.id
  {
  }

  /** A row that the user's query finds is in the batch, if the batch reaches it or has room. */
  lemma {:induction false} BatchHas(user: nat, table: Table, last: int, limit: nat, id: nat)
    requires Keyed(table) && id in table && table[id].owner == Some(user) && last < id
    ensures var batch := Fetch(AllOf(user), table, (0, last), limit);
            |batch| < limit || (batch != [] && id <= batch[|batch| - 1].id) ==> id in IdsOf(batch)
  {
    var q, row := AllOf(user), table[id];
    var batch := Fetch(q, table, (0, last), limit);
    hide Fetch, First, Ahead, EndOf, Place, AllOf, IdsOf;
    AheadById(user, batch, row, last);
    FetchIsExact(q, table, (0, last), limit, row);
    if row in batch {
      var k :| 0 <= k < |batch| && batch[k] == row;
      InIds(batch, k);
    }
  }

  lemma InIds(batch: seq<Row>, k: nat)
    requires k < |batch|
    ensures batch[k].id in IdsOf(batch)
  {
  }

  /** A batch is made of the user's rows after the last id, each as it was before the action. */
  lemma {:induction false} BatchIsMine(
      user: nat, action: Action, before: Table, now: Table, reached: set<nat>, last: int, batch: seq<Row>, k: nat)
    requires Keyed(now) && RestFound(user, action, before, now, reached) && forall id :: id in reached ==> id <= last
    requires batch == Fetch(AllOf(user), now, (0, last), BATCH_SIZE) && k < |batch|
    ensures last < batch[k].id <= batch[|batch| - 1].id
    ensures batch[k].id in Mine(user, before) && before[batch[k].id] == batch[k]
    ensures !(action.Delete? && Bereft(before, reached, batch[k].id))
  {
    hide Fetch, First, AllOf, Bereft;
    BatchIs(user, now, last, BATCH_SIZE, k);
  }

  /**
   Of the user's rows after the last id, up to the end of a full batch or altogether, a batch holds exactly those
   that have not lost their email to a row reached before it.
   */
  lemma {:induction false} CoverBatch(
      user: nat, action: Action, before: Table, now: Table, reached: set<nat>, last: int, batch: seq<Row>)
    requires Complete(action) && Keyed(now) && now == Treated(action, before, reached)
    requires forall id :: id in reached ==> id <= last
    requires batch == Fetch(AllOf(user), now, (0, last), BATCH_SIZE)
    ensures |IdsOf(batch)| == |batch| <= BATCH_SIZE && IdsOf(batch) <= Mine(user, before)
    ensures forall id :: id in Mine(user, before) && last < id ==>
              (|batch| < BATCH_SIZE || id <= batch[|batch| - 1].id) ==>
                (id in IdsOf(batch) <==> !(action.Delete? && Bereft(before, reached, id)))
    ensures forall id :: id in IdsOf(batch) ==> last < id <= batch[|batch| - 1].id
    ensures forall k :: 0 <= k < |batch| ==> batch[k].id in before && before[batch[k].id] == batch[k]
  {
    hide Treated, Fetch, First, AllOf, Bereft, Complete, RestFound, Keyed;
    TreatedFindsRest(user, action, before, reached);
    forall k | 0 <= k < |batch|
      ensures last < batch[k].id <= batch[|batch| - 1].id && batch[k].id in Mine(user, before)
      ensures batch[k].id in before && before[batch[k].id] == batch[k]
      ensures !(action.Delete? && Bereft(before, reached, batch[k].id))
    {
      BatchIsMine(user, action, before, now, reached, last, batch, k);
    }
    assert |IdsOf(batch)| == |batch| by {
      DistinctBatch(user, now, last, batch);
      DistinctIds(batch);
    }
    forall id | id in Mine(user, before) && last < id && (|batch| < BATCH_SIZE || id <= batch[|batch| - 1].id)
                && !(action.Delete? && Bereft(before, reached, id))
      ensures id in IdsOf(batch)
    {
      RestFetched(user, action, before, now, reached, last, batch, id);
    }
  }

  lemma RestFetched(
      user: nat, action: Action, before: Table, now: Table, reached: set<nat>, last: int, batch: seq<Row>, id: nat)
    requires Keyed(now) && RestFound(user, action, before, now, reached) && id !in reached && last < id
    requires batch == Fetch(AllOf(user), now, (0, last), BATCH_SIZE)
    requires id in Mine(user, before) && !(action.Delete? && Bereft(before, reached, id))
    ensures |batch| < BATCH_SIZE || id <= batch[|batch| - 1].id ==> id in IdsOf(batch)
  {
    assert id in now && now[id].owner == Some(user);
    hide *;
    BatchHas(user, now, last, BATCH_SIZE, id);
  }

  lemma {:induction false} DistinctIds(rows: seq<Row>)
    requires forall i, j :: 0 <= i < j < |rows| ==> rows[i].id != rows[j].id
    ensures |IdsOf(rows)| == |rows|
  {
    if rows != [] {
      var front, last := rows[..|rows| - 1], rows[|rows| - 1];
      DistinctIds(front);
      assert IdsOf(rows) == IdsOf(front) + {last.id};
      assert last.id !in IdsOf(front);
    }
  }

  lemma SubsetCount(a: set<nat>, b: set<nat>)
    requires a <= b
    ensures |a| <= |b|
  {
    assert b == a + (b - a);
  }

  /** Rows reached earlier keep their batch. */
  lemma EarlierBlock(reached: set<nat>, batch: set<nat>, last: int, id: nat)
    requires |reached| % BATCH_SIZE == 0 && id <= last && forall x :: x in batch ==> last < x
    ensures Block(reached + batch, id) == Block(reached, id) <= |reached| / BATCH_SIZE
    ensures id in reached ==> Block(reached, id) < |reached| / BATCH_SIZE
  {
    assert Below(reached + batch, id) == Below(reached, id);
    SubsetCount(Below(reached, id), reached);
    if id in reached {
      SubsetCount(Below(reached, id) + {id}, reached);
    }
  }

  /** The rows of one batch have the same turn. */
  lemma ThisBlock(reached: set<nat>, batch: set<nat>, last: int, end: nat, id: nat)
    requires |reached| % BATCH_SIZE == 0 && |batch| <= BATCH_SIZE && end in batch
    requires last < id && forall x :: x in reached ==> x <= last
    requires |batch| == BATCH_SIZE ==> id <= end
    ensures Block(reached + batch, id) == |reached| / BATCH_SIZE
  {
    var below := Below(batch, id);
    assert Below(reached + batch, id) == reached + (below - reached);
    SubsetCount(below - reached, batch);
    if |batch| == BATCH_SIZE {
      SubsetCount((below - reached) + {end}, batch);
    }
  }

  /** One batch further: its rows have one turn, and nothing changes for the rows before it. */
  lemma {:induction false} Advance(
      user: nat, action: Action, table: Table, reached: set<nat>, last: int, batch: set<nat>, end: nat)
    requires Progress(user, action, table, reached, last, false)
    requires end in batch && batch <= Mine(user, table) && |batch| <= BATCH_SIZE
    requires forall id :: id in batch ==> last < id <= end
    requires forall id :: id in Mine(user, table) && last < id && (|batch| < BATCH_SIZE || id <= end) ==>
               (id in batch <==> !(action.Delete? && Bereft(table, reached, id)))
    ensures Progress(user, action, table, reached + batch, end, |batch| < BATCH_SIZE)
    ensures reached !! batch && |reached + batch| == |reached| + |batch|
  {
    var all := reached + batch;
    hide Block, Share;
    assert reached !! batch;
    forall id | id in Mine(user, table) && (|batch| < BATCH_SIZE || id <= end)
      ensures id in all <==> !(action.Delete? && Preceded(table, all, id))
    {
      PrecededNext(user, action, table, reached, last, batch, end, id);
    }
  }

  /** Who is preceded after a batch: earlier rows as before, and rows of this turn exactly when bereft before it. */
  lemma PrecededNext(
      user: nat, action: Action, table: Table, reached: set<nat>, last: int, batch: set<nat>, end: nat, id: nat)
    requires Progress(user, action, table, reached, last, false) && id in Mine(user, table)
    requires end in batch && |batch| <= BATCH_SIZE && forall x :: x in batch ==> last < x <= end
    requires |batch| == BATCH_SIZE ==> id <= end
    ensures id in table
    ensures id <= last ==> (Preceded(table, reached + batch, id) <==> Preceded(table, reached, id))
    ensures last < id ==> (Preceded(table, reached + batch, id) <==> Bereft(table, reached, id))
  {
    hide Block, Share;
    forall x | x in reached || (x == id && id <= last)
      ensures Block(reached + batch, x) == Block(reached, x) <= |reached| / BATCH_SIZE
      ensures x in reached ==> Block(reached, x) < |reached| / BATCH_SIZE
    {
      EarlierBlock(reached, batch, last, x);
    }
    forall x | x in batch || (x == id && last < id) ensures Block(reached + batch, x) == |reached| / BATCH_SIZE {
      ThisBlock(reached, batch, last, end, x);
    }
  }

  /** An empty batch means that no row of the user's is left to be found. */
  lemma {:induction false} NothingLeft(
      user: nat, action: Action, before: Table, now: Table, reached: set<nat>, last: int, over: bool)
    requires Complete(action) && Keyed(now) && now == Treated(action, before, reached)
    requires Progress(user, action, before, reached, last, over)
    requires Fetch(AllOf(user), now, (0, last), BATCH_SIZE) == []
    ensures Course(action, before, Mine(user, before), reached)
    ensures forall id :: id in Mine(user, before) ==> id in reached || (action.Delete? && Bereft(before, reached, id))
  {
    hide Treated, Fetch, First, AllOf, Block, Share;
    CoverBatch(user, action, before, now, reached, last, []);
    if !over {
      forall id | id in Mine(user, before) && last < id
        ensures id !in reached && action.Delete? && Preceded(before, reached, id)
      {
        BereftIsPreceded(before, reached, last, id);
      }
    }
  }

  /** Behind full batches, a bereft row has lost its email in one of them. */
  lemma BereftIsPreceded(table: Table, reached: set<nat>, last: int, id: nat)
    requires |reached| % BATCH_SIZE == 0 && last < id && forall x :: x in reached ==> x <= last
    requires id in table && Bereft(table, reached, id)
    ensures Preceded(table, reached, id)
  {
    hide Share;
    var a :| a in reached && a in table && Share(table[a], table[id]);
    EarlierBlock(reached, {}, last, a);
    assert Below(reached, id) == reached;
  }

  /** After a short batch the next one is empty. */
  lemma {:induction false} OverIsEmpty(
      user: nat, action: Action, before: Table, now: Table, reached: set<nat>, last: int, batch: seq<Row>)
    requires Complete(action) && Keyed(now) && now == Treated(action, before, reached)
    requires Progress(user, action, before, reached, last, true)
    requires batch == Fetch(AllOf(user), now, (0, last), BATCH_SIZE)
    ensures batch == []
  {
    hide Treated, Fetch, First, AllOf, Block, Share;
    CoverBatch(user, action, before, now, reached, last, batch);
    if batch != [] {
      InIds(batch, 0);
    }
  }

  /** Emails of the user's rows belong to no other of their rows. */
  ghost predicate Unshared(user: nat, table: Table) {
    forall a, b :: a in Mine(user, table) && b in Mine(user, table) && a != b ==> !Share(table[a], table[b])
  }

  /** When the action has come to the end, what it has reached is all there was, but for rows deleted with others. */
  lemma CoverEnds(user: nat, action: Action, before: Table, reached: set<nat>)
    requires Complete(action) && OwnersAgree(before) && reached <= Mine(user, before)
    requires forall id :: id in Mine(user, before) ==> id in reached || (action.Delete? && Bereft(before, reached, id))
    ensures action.Delete? ==> Mine(user, Treated(action, before, reached)) == {}
    ensures !action.Delete? ==> reached == Mine(user, before)
    ensures OwnersAgree(Treated(action, before, reached))
  {
    TreatedAgree(user, action, before, reached);
    var after := Treated(action, before, reached);
    if action.Delete? {
      forall id | id in after ensures after[id].owner != Some(user) {
        assert id in Mine(user, before) || before[id].owner != Some(user);
      }
    }
  }

  lemma TreatedAgree(user: nat, action: Action, before: Table, reached: set<nat>)
    requires Complete(action) && OwnersAgree(before)
    ensures OwnersAgree(Treated(action, before, reached))
  {
    var after := Treated(action, before, reached);
    forall a, b | a in after && b in after && Share(after[a], after[b]) ensures after[a].owner == after[b].owner {
      assert Share(before[a], before[b]);
      if action.Delete? {
        assert Bereft(before, reached, a) <==> Bereft(before, reached, b);
      }
    }
  }

  lemma SameRows(action: Action, table: Table, ids: set<nat>)
    requires Complete(action)
    ensures Treated(action, table, ids).Keys == table.Keys
  {
  }

  lemma OneMoreMonth(table: Table, ids: set<nat>, row: Row, month: int -> int)
    requires row.id in table && table[row.id] == row
    ensures Months(table, ids + {row.id}, month)
         == Months(table, ids, month) + if row.date.Some? then {month(row.date.value)} else {}
  {
  }

  lemma StartCovered(user: nat, action: Action, table: Table, month: int -> int)
    requires Keyed(table) && OwnersAgree(table)
    ensures Months(table, {}, month) == {} && Underway(user, action, table, table, {}, -1, false)
  {
  }

  lemma SomeOfMine(
      user: nat, action: Action, before: Table, now: Table, reached: set<nat>, last: int, over: bool)
    requires !Complete(action) && Underway(user, action, before, now, reached, last, over)
    requires Keyed(now) && Fetch(AllOf(user), now, (0, last), BATCH_SIZE) != []
    ensures now == before && Mine(user, before) != {}
  {
    BatchIs(user, before, -1, BATCH_SIZE, 0);
    assert Fetch(AllOf(user), before, (0, -1), BATCH_SIZE)[0].id in Mine(user, before);
  }

  lemma ReachedMore(user: nat, action: Action, table: Table, reached: set<nat>)
    requires Complete(action) && Keyed(table) && reached <= Mine(user, table)
    ensures Keyed(Treated(action, table, reached)) && |reached| <= |Mine(user, table)|
  {
    var mine := Mine(user, table);
    var rest := mine - reached;
    assert mine == reached + rest;
    assert |mine| == |reached| + |rest|;
  }

  /** One round of the loop: a batch that is not empty follows full ones, and the course goes on over it. */
  lemma BatchTaken(
      user: nat, action: Action, before: Table, now: Table, reached: set<nat>, last: int, over: bool, batch: seq<Row>)
    requires Complete(action) && Underway(user, action, before, now, reached, last, over)
    requires Keyed(now) && batch == Fetch(AllOf(user), now, (0, last), BATCH_SIZE) && batch != []
    ensures now == Treated(action, before, reached) && reached !! IdsOf(batch)
    ensures var all := reached + IdsOf(batch);
            && |all| == |reached| + |batch| <= |Mine(user, before)|
            && Underway(user, action, before, Treated(action, before, all), all, batch[|batch| - 1].id, |batch| < BATCH_SIZE)
    ensures forall k :: 0 <= k < |batch| ==> batch[k].id in before && before[batch[k].id] == batch[k]
    ensures forall i, j :: 0 <= i < j < |batch| ==> batch[i].id != batch[j].id
  {
    var all := reached + IdsOf(batch);
    assert Keyed(before) && OwnersAgree(before) && reached <= Mine(user, before);
    assert now == Treated(action, before, reached) && Progress(user, action, before, reached, last, over);
    hide Keyed, Treated, Progress, OwnersAgree, Mine, IdsOf, Fetch, First, AllOf, Complete, Share, Bereft;
    if over {
      OverIsEmpty(user, action, before, now, reached, last, batch);
    }
    BatchAdvances(user, action, before, now, reached, last, batch);
    assert all != {};
    ReachedMore(user, action, before, all);
    DistinctBatch(user, now, last, batch);
  }

  lemma BatchAdvances(
      user: nat, action: Action, before: Table, now: Table, reached: set<nat>, last: int, batch: seq<Row>)
    requires Complete(action) && Keyed(now) && now == Treated(action, before, reached)
    requires Progress(user, action, before, reached, last, false)
    requires batch == Fetch(AllOf(user), now, (0, last), BATCH_SIZE) && batch != []
    ensures var all, end := reached + IdsOf(batch), batch[|batch| - 1].id;
            && Progress(user, action, before, all, end, |batch| < BATCH_SIZE) && end in all
            && reached !! IdsOf(batch) && |all| == |reached| + |batch| && all <= Mine(user, before)
    ensures forall k :: 0 <= k < |batch| ==> batch[k].id in before && before[batch[k].id] == batch[k]
  {
    assert reached <= Mine(user, before) && forall id :: id in reached ==> id <= last;
    hide *;
    CoverBatch(user, action, before, now, reached, last, batch);
    InIds(batch, |batch| - 1);
    Advance(user, action, before, reached, last, IdsOf(batch), batch[|batch| - 1].id);
  }

  // --- What is skipped ---

  /** The rows an action reaches are determined by the table. */
  lemma {:induction false} OneCourse(action: Action, table: Table, mine: set<nat>, a: set<nat>, b: set<nat>, id: nat)
    requires mine <= table.Keys && Course(action, table, mine, a) && Course(action, table, mine, b)
    ensures id in a <==> id in b
    decreases id
  {
    hide Share;
    forall x: nat | x < id ensures x in a <==> x in b {
      OneCourse(action, table, mine, a, b, x);
    }
    forall x: nat | x <= id ensures Block(a, x) == Block(b, x) {
      assert Below(a, x) == Below(b, x);
    }
    forall x | x in a || x in b
      ensures Block(a, x) < Block(a, id) || Block(b, x) < Block(b, id) ==> x < id
    {
      BlockGrows(a, id, x);
      BlockGrows(b, id, x);
    }
  }

  lemma BlockGrows(ids: set<nat>, a: nat, b: nat)
    ensures a <= b ==> Block(ids, a) <= Block(ids, b)
  {
    if a <= b {
      SubsetCount(Below(ids, a), Below(ids, b));
    }
  }

  /** Rows of one email fall into one block, when the user's rows are cut into blocks of the batch size. */
  ghost predicate SameBlocks(table: Table, mine: set<nat>)
    requires mine <= table.Keys
  {
    forall a, b :: a in mine && b in mine && Share(table[a], table[b]) ==> Block(mine, a) == Block(mine, b)
  }

  /**
   Deleting reaches all of the user's rows if and only if no two rows of one email fall into different blocks of
   the batch size.
   */
  lemma {:induction false} SkipsNothingIff(table: Table, mine: set<nat>, reached: set<nat>)
    requires mine <= table.Keys && Course(Delete, table, mine, reached)
    ensures reached == mine <==> SameBlocks(table, mine)
  {
    hide Block;
    if reached == mine {
      forall a, b | a in mine && b in mine && Share(table[a], table[b]) ensures Block(mine, a) == Block(mine, b) {
        assert !Preceded(table, reached, a) && !Preceded(table, reached, b);
      }
    }
    if SameBlocks(table, mine) {
      assert Course(Delete, table, mine, mine);
      forall id: nat ensures id in reached <==> id in mine {
        OneCourse(Delete, table, mine, reached, mine, id);
      }
    }
  }

  /** Two ways to skip nothing: no shared emails, or no second batch. */
  lemma FewOrUnshared(user: nat, table: Table)
    requires Unshared(user, table) || |Mine(user, table)| <= BATCH_SIZE
    ensures SameBlocks(table, Mine(user, table))
  {
    var mine := Mine(user, table);
    if |mine| <= BATCH_SIZE {
      forall a | a in mine ensures Block(mine, a) == 0 {
        SubsetCount(Below(mine, a) + {a}, mine);
      }
    }
  }

  function Initial(n: nat): (ids: set<nat>)
    ensures |ids| == n && forall id: nat :: id in ids <==> id < n
  {
    if n == 0 then {} else
      assert n - 1 !in Initial(n - 1);
      Initial(n - 1) + {n - 1}
  }

  /** Rows 0 to 500 of one user, each with its own email but for the last, which has the email of the first. */
  function FirstAndLastShare(user: nat): Table {
    map id | id in Initial(501) ::
      Row(id, Some(if id == 500 then 0 else id), Some(user), None, "expense", None, "auto", false, false)
  }

  lemma FirstAndLastFacts(user: nat)
    ensures var table := FirstAndLastShare(user);
            && Keyed(table) && OwnersAgree(table) && Mine(user, table) == Initial(501) == table.Keys
            && (forall a, b :: a in table && b in table ==>
                  (Share(table[a], table[b]) <==> a == b || (a == 0 && b == 500) || (a == 500 && b == 0)))
  {
    hide Initial;
  }

  lemma FirstBlocks()
    ensures Block(Initial(500), 500) == 1 && forall id: nat :: id < 500 ==> Block(Initial(500), id) == 0
  {
    hide Initial;
    assert Below(Initial(500), 500) == Initial(500);
    forall id: nat | id < 500 ensures Block(Initial(500), id) == 0 {
      SubsetCount(Below(Initial(500), id) + {id}, Initial(500));
    }
  }

  /** An input: of these 501 rows deleting reaches and counts 500, and skips the last. */
  lemma {:induction false} LastRowSkipped(user: nat, reached: set<nat>)
    ensures var table := FirstAndLastShare(user);
            && Keyed(table) && OwnersAgree(table) && |Mine(user, table)| == 501 && Initial(501) == Initial(500) + {500}
            && (Course(Delete, table, Mine(user, table), reached) <==> reached == Initial(500))
  {
    var table := FirstAndLastShare(user);
    FirstAndLastFacts(user);
    FirstBlocks();
    hide Initial, Block, FirstAndLastShare, Keyed, OwnersAgree, Share;
    assert Share(table[0], table[500]);
    assert Preceded(table, Initial(500), 500);
    if Course(Delete, table, Mine(user, table), reached) {
      hide Course;
      forall id: nat ensures id in reached <==> id in Initial(500) {
        OneCourse(Delete, table, Mine(user, table), reached, Initial(500), id);
      }
    }
  }

  lemma AllAhead(user: nat, table: Table)
    requires Keyed(table)
    ensures Candidates(AllOf(user), table, (0, -1)) == Mine(user, table)
  {
  }

  /** What an empty batch tells about the whole action. */
  lemma EndOfBatches(
      user: nat, action: Action, before: Table, now: Table, reached: set<nat>, last: int, over: bool)
    requires Underway(user, action, before, now, reached, last, over)
    requires Keyed(now) && Fetch(AllOf(user), now, (0, last), BATCH_SIZE) == []
    ensures OwnersAgree(now)
    ensures if Mine(user, before) == {} then reached == {} && now == before
            else
              && Complete(action) && now == Treated(action, before, reached)
              && Mine(user, before) <= before.Keys && Course(action, before, Mine(user, before), reached)
              && (!action.Delete? ==> reached == Mine(user, before))
              && (action.Delete? ==>
                    && Mine(user, now) == {}
                    && (reached == Mine(user, before) <==> SameBlocks(before, Mine(user, before))))
  {
    hide Fetch, First, Block, Share, Candidates;
    NoneLeftOfNone(user, before, now, reached, last);
    if Complete(action) {
      NothingLeft(user, action, before, now, reached, last, over);
      CoverEnds(user, action, before, reached);
      if action.Delete? {
        SkipsNothingIff(before, Mine(user, before), reached);
      }
    }
  }

  lemma NoneLeftOfNone(user: nat, before: Table, now: Table, reached: set<nat>, last: int)
    requires Keyed(before) && Keyed(now) && Fetch(AllOf(user), now, (0, last), BATCH_SIZE) == []
    requires reached <= Mine(user, before) && (reached == {} ==> now == before && last == -1)
    ensures reached == {} <==> Mine(user, before) == {}
  {
    AllAhead(user, before);
    hide Candidates;
    FetchUnfolds(AllOf(user), now, (0, last), BATCH_SIZE);
  }

  // --- What an action does, column by column ---

  /** The action needs a category or a label that it does not come with. */
  predicate Lacks(action: Action) {
    action in {SetCategory(None), SetCategory(Some("")), SetTag(None), SetTag(Some(""))}
  }

  predicate Corrects(action: Action) {
    action.SetCategory? || action.SetTag?
  }

  predicate ReachedRow(action: Action, before: Row, after: Row) {
    && after.id == before.id && after.date == before.date
    && after.read == (action.MarkRead? || (before.read && !action.MarkUnread?))
    && after.flagged == (action.Flag? || (before.flagged && !action.Unflag?))
    && after.category == (if action.SetCategory? then action.category else before.category)
    && (if action.SetTag? then action.tag == Some(after.tag) else after.tag == before.tag)
    && after.status == (if Corrects(action) then "corrected" else before.status)
    && (if action.Delete? then after.email.None? && after.owner.None?
        else after.email == before.email && after.owner == before.owner)
  }

  /** A row that is not reached loses its owner where a deleted row has taken its email along, and nothing else. */
  ghost predicate OtherRow(action: Action, table: Table, reached: set<nat>, id: nat, after: Row)
    requires id in table
  {
    var lost := action.Delete? && exists a :: a in reached && a in table && table[a].email.Some?
                                              && table[a].email == table[id].email;
    after == if lost then table[id].(owner := None) else table[id]
  }

  ghost predicate Effect(action: Action, before: Table, reached: set<nat>, after: Table) {
    && after.Keys == before.Keys
    && (forall id :: id in before && id in reached ==> ReachedRow(action, before[id], after[id]))
    && (forall id :: id in before && id !in reached ==> OtherRow(action, before, reached, id, after[id]))
  }

  /** The months reported are those of the dated rows that the action reaches. */
  ghost predicate MonthsReported(table: Table, reached: set<nat>, month: int -> int, months: set<int>) {
    forall m :: m in months <==>
      exists id :: id in reached && id in table && table[id].date.Some? && month(table[id].date.value) == m
  }

  lemma TreatedMeans(action: Action, table: Table, reached: set<nat>, month: int -> int)
    requires Complete(action)
    ensures Effect(action, table, reached, Treated(action, table, reached))
    ensures MonthsReported(table, reached, month, Months(table, reached, month))
  {
    var after := Treated(action, table, reached);
    hide ReachedRow, Applied, OtherRow, Months, Complete;
    forall id | id in table && id in reached ensures ReachedRow(action, table[id], after[id]) {
      AppliedMeans(action, table[id]);
    }
    forall id | id in table && id !in reached ensures OtherRow(action, table, reached, id, after[id]) {
      OtherMeans(action, table, reached, id);
    }
    MonthsMean(table, reached, month);
  }

  lemma AppliedMeans(action: Action, row: Row)
    requires Complete(action)
    ensures ReachedRow(action, row, Applied(action, row))
  {
  }

  lemma OtherMeans(action: Action, table: Table, reached: set<nat>, id: nat)
    requires Complete(action) && id in table && id !in reached
    ensures OtherRow(action, table, reached, id, Treated(action, table, reached)[id])
  {
    hide Applied, Complete;
  }

  lemma MonthsMean(table: Table, reached: set<nat>, month: int -> int)
    ensures MonthsReported(table, reached, month, Months(table, reached, month))
  {
  }

  lemma DoneMeans(action: Action, before: Table, now: Table, reached: set<nat>, month: int -> int)
    requires (reached == {} && now == before) || (Complete(action) && now == Treated(action, before, reached))
    ensures Effect(action, before, reached, now)
    ensures MonthsReported(before, reached, month, Months(before, reached, month))
  {
    if Complete(action) && now == Treated(action, before, reached) {
      TreatedMeans(action, before, reached, month);
    } else {
      assert Effect(action, before, {}, before);
    }
  }

  lemma LacksIs(action: Action)
    ensures Lacks(action) <==> !Complete(action)
  {
  }

  class TransactionTable {
    var rows: Table

    ghost predicate Valid()
      reads this
    {
      Keyed(rows) && OwnersAgree(rows)
    }

    /** One row's turn; deleting looks up the row's email, deletes it, and detaches the row. */
    method ApplyToRow(action: Action, id: nat)
      requires Complete(action) && id in rows
      modifies this`rows
      ensures rows == OneTreated(action, old(rows), id)
    {
      var row := rows[id];
      if action.Delete? {
        if row.email.Some? {
          rows := map other | other in rows :: if Share(row, rows[other]) then rows[other].(owner := None) else rows[other];
        }
        rows := rows[id := rows[id].(email := None, owner := None)];
      } else {
        rows := rows[id := Applied(action, row)];
      }
    }

    /** Assigns the fields of the batch's rows. */
    method ApplyToBatch(action: Action, batch: seq<Row>, ghost before: Table, ghost reached: set<nat>)
      requires Complete(action) && rows == Treated(action, before, reached) && reached !! IdsOf(batch)
      requires forall k :: 0 <= k < |batch| ==> batch[k].id in before
      requires forall i, j :: 0 <= i < j < |batch| ==> batch[i].id != batch[j].id
      modifies this`rows
      ensures rows == Treated(action, before, reached + IdsOf(batch))
    {
      hide Treated, OneTreated;
      assert reached + IdsOf(batch[..0]) == reached;
      SameRows(action, before, reached);
      for i := 0 to |batch|
        invariant rows.Keys == before.Keys
        invariant rows == Treated(action, before, reached + IdsOf(batch[..i]))
      {
        var id := batch[i].id;
        assert id in IdsOf(batch);
        assert id !in IdsOf(batch[..i]);
        assert reached + IdsOf(batch[..i + 1]) == reached + IdsOf(batch[..i]) + {id};
        TreatOneMore(action, before, reached + IdsOf(batch[..i]), id);
        ApplyToRow(action, id);
        SameRows(action, before, reached + IdsOf(batch[..i + 1]));
      }
      assert batch[..|batch|] == batch;
    }

    /** The months of the batch's rows, added to those of the rows before it. */
    method MonthsOf(batch: seq<Row>, month: int -> int, affected0: set<int>, ghost before: Table, ghost reached: set<nat>)
      returns (affected: set<int>)
      requires affected0 == Months(before, reached, month)
      requires forall k :: 0 <= k < |batch| ==> batch[k].id in before && before[batch[k].id] == batch[k]
      ensures affected == Months(before, reached + IdsOf(batch), month)
    {
      affected := affected0;
      assert reached + IdsOf(batch[..0]) == reached;
      for i := 0 to |batch|
        invariant affected == Months(before, reached + IdsOf(batch[..i]), month)
      {
        assert reached + IdsOf(batch[..i + 1]) == reached + IdsOf(batch[..i]) + {batch[i].id};
        OneMoreMonth(before, reached + IdsOf(batch[..i]), batch[i], month);
        if batch[i].date.Some? {
          affected := affected + {month(batch[i].date.value)};
        }
      }
      assert batch[..|batch|] == batch;
    }

    /**
     Applies the action to the user's rows, each at most once; when it refuses, nothing changes. An incomplete
     action is refused only once there is a row to apply it to. Every row is reached, except that deleting a row
     in one batch hides the other rows of its email from the later batches: those lose their owner without being
     counted, and their months are not reported.
     */
    method BulkSelectAll(user: nat, action: Action, month: int -> int)
      returns (outcome: Outcome, ghost reached: set<nat>)
      requires Valid()
      modifies this
      ensures Valid()
      ensures var mine := Mine(user, old(rows));
              if |mine| > BULK_SELECT_ALL_MAX then outcome == TooMany(|mine|) && rows == old(rows)
              else if mine == {} then outcome == Done(0, {}) && rows == old(rows)
              else if !Complete(action) then outcome == ValueMissing && rows == old(rows)
              else
                && Course(action, old(rows), mine, reached)
                && outcome == Done(|reached|, Months(old(rows), reached, month))
                && rows == Treated(action, old(rows), reached)
                && (!action.Delete? ==> reached == mine)
                && (action.Delete? ==> Mine(user, rows) == {} && (reached == mine <==> SameBlocks(old(rows), mine)))
      ensures outcome.TooMany? <==> |Mine(user, old(rows))| > 5000
      ensures outcome.ValueMissing? <==> 0 < |Mine(user, old(rows))| <= 5000 && Lacks(action)
      ensures outcome.Done? ==>
                && outcome.updated == |reached| && MonthsReported(old(rows), reached, month, outcome.months)
                && Effect(action, old(rows), reached, rows)
    {
      reached := {};
      var total := |Mine(user, rows)|;
      if total > BULK_SELECT_ALL_MAX {
        return TooMany(total), {};
      }
      ghost var before, over := rows, false;
      var last: int := -1;
      var updated: nat := 0;
      var affected: set<int> := {};
      StartCovered(user, action, before, month);
      LacksIs(action);
      hide Treated, Months, Mine, Fetch, Complete, Course, SameBlocks, AllOf, IdsOf, Underway, Effect, MonthsReported, Lacks,
           Keyed, OwnersAgree;
      while true
        invariant before == old(rows) && Keyed(rows) && Underway(user, action, before, rows, reached, last, over)
        invariant updated == |reached| <= |Mine(user, before)|
        invariant affected == Months(before, reached, month)
        decreases |Mine(user, before)| - updated
      {
        var batch := Fetch(AllOf(user), rows, (0, last), BATCH_SIZE);
        if batch == [] {
          break;
        }
        if !Complete(action) {
          SomeOfMine(user, action, before, rows, reached, last, over);
          return ValueMissing, {};
        }
        BatchTaken(user, action, before, rows, reached, last, over, batch);
        ApplyToBatch(action, batch, before, reached);
        affected := MonthsOf(batch, month, affected, before, reached);
        reached := reached + IdsOf(batch);
        last := batch[|batch| - 1].id;
        over := |batch| < BATCH_SIZE;
        updated := updated + |batch|;
      }
      EndOfBatches(user, action, before, rows, reached, last, over);
      outcome := Done(updated, affected);
      DoneMeans(action, before, rows, reached, month);
    }
  }
}
