/** What a batch detection records, said of the tables before and after. */
module BatchRecording {
  import opened Common
  import opened Entities
  import opened Scoring
  import opened Evidence
  import opened Detection
  import opened DetectionRuns
  import opened BatchDetection
  import opened Recording

  predicate HasAmount(e: Entry) {
    e.tx.amount.Some? && e.tx.amount.value != 0.0
  }

  /** Some new amounts lie at most a twentieth above, and at most a twentieth below. */
  ghost predicate AmountAround(news: seq<Entry>, amount: real) {
    && (exists low :: low in news && HasAmount(low) && 95.0 * low.tx.amount.value <= 100.0 * amount)
    && (exists high :: high in news && HasAmount(high) && 100.0 * amount <= 105.0 * high.tx.amount.value)
  }

  ghost predicate DayAround(news: seq<Entry>, day: int) {
    && (exists e, first :: e in news && BestDate(e, first) && first - 3 <= day)
    && (exists e, last :: e in news && BestDate(e, last) && day <= last + 3)
  }

  /** An arrival counts from midnight, up to midnight. */
  ghost predicate ArrivalAround(news: seq<Entry>, at: int) {
    && (exists e, first :: e in news && BestDate(e, first) && (first - 3) * DAY <= at)
    && (exists e, last :: e in news && BestDate(e, last) && at <= (last + 3) * DAY)
  }

  /** The window of the batch: the user's expenses around its amounts and its dates. */
  ghost predicate InBatchWindow(news: seq<Entry>, user: Id, c: Entry) {
    && c.tx.tag == Expense && c.email.userId == user
    && c.tx.amount.Some? && AmountAround(news, c.tx.amount.value)
    && (|| (c.tx.txnDate.Some? && DayAround(news, c.tx.txnDate.value))
        || (c.email.receivedAt.Some? && ArrivalAround(news, c.email.receivedAt.value)))
  }

  /** The two are compared: a new transaction with a row of the window, or with a later one of its amount and date. */
  ghost predicate Meet(store: Store, user: Id, news: seq<Entry>, scan: seq<Id>, a: Entry, b: Entry) {
    || (&& a in news && a.tx.amount.Some? && a.tx.tag != Income && Sent(a.email) && (exists d :: BestDate(a, d))
        && b.tx.id != a.tx.id && exists r :: r in scan && Stored(store, r, b) && InBatchWindow(news, user, b))
    || (&& (exists i, j :: 0 <= i < j < |news| && news[i] == a && news[j] == b)
        && HasAmount(a) && a.tx.amount == b.tx.amount && a.tx.txnDate.Some? && a.tx.txnDate == b.tx.txnDate)
  }

  /** One of the user's pairs is about these two. */
  ghost predicate UsersPair(store: Store, user: Id, x: Id, y: Id) {
    exists p, e :: p in store.pairs && Stored(store, store.pairs[p].link.primary, e) && e.email.userId == user
                   && ((store.pairs[p].link.primary == x && store.pairs[p].link.duplicate == y)
                       || (store.pairs[p].link.primary == y && store.pairs[p].link.duplicate == x))
  }

  /** The pending row for two transactions that have met: the first of them first, with what they weigh. */
  ghost predicate RowOfMeeting(
      s: Scale, store: Store, news: seq<Entry>, scan: seq<Id>, a: Entry, b: Entry, pair: Pair)
  {
    && Meet(store, s.user, news, scan, a, b) && !UsersPair(store, s.user, a.tx.id, b.tx.id)
    && Weighs(s, a, b, pair.link.source, pair.link.confidence)
    && pair == Pair(Link(a.tx.id, b.tx.id, Pending, pair.link.confidence, pair.link.source), None)
  }

  ghost predicate HasRowFor(store: Store, after: Store, a: Entry, b: Entry) {
    exists p :: NewRow(store, after, p) && Ends(after.pairs[p].link) == {a.tx.id, b.tx.id}
  }

  /**
   Between the two tables a batch has added pending rows for exactly those transactions that met, are no pair of the
   user's yet, and convince the scorer, one for two transactions; nothing else has changed.
   */
  ghost predicate BatchRecorded(text: Text, store: Store, user: Id, news: seq<Entry>, scan: seq<Id>, after: Store) {
    var s := Scale(text, store.rules, user);
    && after == store.(pairs := after.pairs, nextPair := after.nextPair) && OldRowsKept(store, after)
    && (forall p :: NewRow(store, after, p) ==> exists a, b :: RowOfMeeting(s, store, news, scan, a, b, after.pairs[p]))
    && (forall a, b | Meet(store, user, news, scan, a, b) && !UsersPair(store, user, a.tx.id, b.tx.id)
                      && Convincing(s, a, b) :: HasRowFor(store, after, a, b))
    && OneRowEach(store, after)
  }

  // --- The window ---

  lemma AmountAroundIs(news: seq<Entry>, amount: real)
    ensures AmountAround(news, amount) <==> Amounts(news) != [] && AmountInWindow(Amounts(news), amount)
  {
    var amounts := Amounts(news);
    hide Amounts;
    if amounts != [] {
      assert Least(amounts) in amounts && Greatest(amounts) in amounts;
      var low :| low in news && low.tx.amount == Some(Least(amounts)) && Least(amounts) != 0.0;
      var high :| high in news && high.tx.amount == Some(Greatest(amounts)) && Greatest(amounts) != 0.0;
      assert HasAmount(low) && HasAmount(high);
    }
  }

  lemma SomeDate(news: seq<Entry>, d: int)
    ensures d in Dates(news) <==> exists e :: e in news && BestDate(e, d)
  {
    forall e: Entry ensures EffectiveDate(e.tx, e.email) == Some(d) <==> BestDate(e, d) {
      BestDateIs(e, d);
    }
    hide EffectiveDate, BestDate;
  }

  /** The earliest and the latest date are dates of some new transactions. */
  lemma Bounds(news: seq<Entry>) returns (e: Entry, f: Entry)
    requires Dates(news) != []
    ensures e in news && BestDate(e, Earliest(Dates(news))) && f in news && BestDate(f, Latest(Dates(news)))
  {
    var days := Dates(news);
    SomeDate(news, Earliest(days));
    SomeDate(news, Latest(days));
    hide BestDate, Dates;
    e :| e in news && BestDate(e, Earliest(days));
    f :| f in news && BestDate(f, Latest(days));
  }

  lemma Bounded(news: seq<Entry>, e: Entry, d: int)
    requires e in news && BestDate(e, d)
    ensures Dates(news) != [] && Earliest(Dates(news)) <= d <= Latest(Dates(news))
  {
    SomeDate(news, d);
    hide BestDate, Dates;
  }

  lemma DaysAroundIs(news: seq<Entry>, day: int)
    ensures DayAround(news, day) <==> Dates(news) != [] && DatedInWindow(Dates(news), Some(day))
  {
    hide BestDate, Dates, Earliest, Latest;
    if Dates(news) != [] {
      var e, f := Bounds(news);
    }
    if DayAround(news, day) {
      var e, first :| e in news && BestDate(e, first) && first - 3 <= day;
      var f, last :| f in news && BestDate(f, last) && day <= last + 3;
      Bounded(news, e, first);
      Bounded(news, f, last);
    }
  }

  lemma ArrivalsAroundIs(news: seq<Entry>, at: int)
    ensures ArrivalAround(news, at) <==> Dates(news) != [] && ArrivedInWindow(Dates(news), Some(at))
  {
    hide BestDate, Dates, Earliest, Latest;
    if Dates(news) != [] {
      var e, f := Bounds(news);
    }
    if ArrivalAround(news, at) {
      var e, first :| e in news && BestDate(e, first) && (first - 3) * DAY <= at;
      var f, last :| f in news && BestDate(f, last) && at <= (last + 3) * DAY;
      Bounded(news, e, first);
      Bounded(news, f, last);
    }
  }

  lemma WindowIs(news: seq<Entry>, user: Id, c: Entry)
    ensures InBatchWindow(news, user, c) <==> InWindow(Dates(news), Amounts(news), user, c.tx, c.email)
  {
    if c.tx.amount.Some? {
      AmountAroundIs(news, c.tx.amount.value);
    }
    if c.tx.txnDate.Some? {
      DaysAroundIs(news, c.tx.txnDate.value);
    }
    if c.email.receivedAt.Some? {
      ArrivalsAroundIs(news, c.email.receivedAt.value);
    }
    hide Dates, Amounts, AmountInWindow, AmountAround, DayAround, ArrivalAround;
  }

  // --- The comparisons ---

  lemma ExistingIs(store: Store, user: Id, news: seq<Entry>, scan: seq<Id>, b: Entry)
    ensures b in Existing(store, user, news, scan) <==>
            exists r :: r in scan && Stored(store, r, b) && InBatchWindow(news, user, b)
  {
    WindowIs(news, user, b);
    hide InWindow, InBatchWindow;
    if r :| r in scan && Hits(store, user, news, r) && b == EntryOf(store, r) {
      assert Stored(store, r, b);
    }
    if r :| r in scan && Stored(store, r, b) && InBatchWindow(news, user, b) {
      assert Hits(store, user, news, r) && b == EntryOf(store, r);
    }
  }

  lemma DateIs(e: Entry)
    ensures EffectiveDate(e.tx, e.email).Some? <==> exists d :: BestDate(e, d)
  {
    forall d ensures EffectiveDate(e.tx, e.email) == Some(d) <==> BestDate(e, d) {
      BestDateIs(e, d);
    }
    hide EffectiveDate, BestDate;
    if EffectiveDate(e.tx, e.email).Some? {
      assert BestDate(e, EffectiveDate(e.tx, e.email).value);
    }
  }

  lemma MeetIs(store: Store, user: Id, news: seq<Entry>, scan: seq<Id>, a: Entry, b: Entry)
    ensures Meet(store, user, news, scan, a, b) <==>
            Planned(news, Existing(store, user, news, scan), Comparison(a, b))
  {
    ExistingIs(store, user, news, scan, b);
    DateIs(a);
    hide Existing, EffectiveDate, BestDate, Stored, InBatchWindow;
  }

  lemma UsersPairIs(store: Store, user: Id, x: Id, y: Id)
    ensures UsersPair(store, user, x, y) <==> {x, y} in Known(store, user)
  {
    forall p | p in store.pairs
      ensures Ends(store.pairs[p].link) == {x, y} <==>
              || (store.pairs[p].link.primary == x && store.pairs[p].link.duplicate == y)
              || (store.pairs[p].link.primary == y && store.pairs[p].link.duplicate == x)
      ensures Owner(store, store.pairs[p].link.primary) == Some(user) <==>
              exists e :: Stored(store, store.pairs[p].link.primary, e) && e.email.userId == user
    {
      SamePair(store.pairs[p].link.primary, store.pairs[p].link.duplicate, x, y);
      OwnerIs(store, store.pairs[p].link.primary, user);
    }
    hide Ends, Owner, Stored;
  }

  lemma OwnerIs(store: Store, t: Id, user: Id)
    ensures Owner(store, t) == Some(user) <==> exists e :: Stored(store, t, e) && e.email.userId == user
  {
    if Owner(store, t) == Some(user) {
      assert Stored(store, t, Entry(store.txs[t], store.EmailOf(store.txs[t]).value));
    }
  }

  /** What is worth recording is what convinces. */
  lemma WorthIs(batch: Batch, a: Entry, b: Entry)
    ensures var s := Scale(batch.text, batch.rules, batch.user);
            && (BatchDetection.Worth(batch, Comparison(a, b)) <==> Convincing(s, a, b))
            && (BatchDetection.Worth(batch, Comparison(a, b)) ==>
                  var link := LinkOf(batch, Comparison(a, b));
                  && link == Link(a.tx.id, b.tx.id, Pending, link.confidence, link.source)
                  && Weighs(s, a, b, link.source, link.confidence))
  {
    var s := Scale(batch.text, batch.rules, batch.user);
    var score := ScoreOfEntries(s, a, b);
    ScoreMeans(s, a, b, score.source, score.confidence);
    assert BatchDetection.ScoreOf(batch, Comparison(a, b)) == score;
    hide ScoreOfEntries, BatchDetection.ScoreOf, Convincing, Weighs;
  }

  // --- The batch ---

  /** The comparison that a new row comes from. */
  lemma NewRowDecided(batch: Batch, store: Store, plan: History<Comparison>, p: Id) returns (c: Comparison)
    requires BatchDetection.Matches(batch, Begin(store), Compared(batch, Begin(store), plan), Deciding(batch, plan))
    requires IsNew(store, Compared(batch, Begin(store), plan), p)
    ensures c in Members(plan) && c.Key() !in batch.known && BatchDetection.Worth(batch, c)
    ensures Compared(batch, Begin(store), plan).pairs[p] == Pair(LinkOf(batch, c), None)
  {
    var t := Compared(batch, Begin(store), plan);
    hide Compared, FirstWorth, BatchDetection.Worth, LinkOf, KeysMatch, CountsMatch, TotalMatches, Members;
    assert p in t.owner;
    FirstWorthIsMember(batch, plan, t.owner[p]);
    c := FirstWorth(batch, plan, t.owner[p]).value;
  }

  lemma RowsMet(text: Text, store: Store, user: Id, news: seq<Entry>, scan: seq<Id>, plan: History<Comparison>, p: Id)
    requires Covers(plan, news, Existing(store, user, news, scan))
    requires var batch := Batch(text, store.rules, user, Known(store, user));
             BatchDetection.Matches(batch, Begin(store), Compared(batch, Begin(store), plan), Deciding(batch, plan))
    requires NewRow(store, BatchDetect(text, store, user, plan), p)
    ensures exists a, b :: RowOfMeeting(
              Scale(text, store.rules, user), store, news, scan, a, b, BatchDetect(text, store, user, plan).pairs[p])
  {
    var batch := Batch(text, store.rules, user, Known(store, user));
    hide Compared, Existing, Known, BatchDetection.Worth, Meet, UsersPair, Weighs, LinkOf, Planned, Convincing,
         BatchDetection.Matches, Deciding;
    var c := NewRowDecided(batch, store, plan, p);
    var a, b := c.a, c.b;
    assert c == Comparison(a, b) && c.Key() == {a.tx.id, b.tx.id};
    MeetIs(store, user, news, scan, a, b);
    UsersPairIs(store, user, a.tx.id, b.tx.id);
    WorthIs(batch, a, b);
    assert RowOfMeeting(Scale(text, store.rules, user), store, news, scan, a, b,
                        BatchDetect(text, store, user, plan).pairs[p]);
  }

  /** The batch detector keeps its promise, in whatever order it makes its comparisons. */
  lemma {:induction false} BatchRecords(
      text: Text, store: Store, user: Id, news: seq<Entry>, scan: seq<Id>, plan: History<Comparison>)
    requires forall p :: p in store.pairs ==> p < store.nextPair
    requires Covers(plan, news, Existing(store, user, news, scan))
    ensures BatchRecorded(text, store, user, news, scan, BatchDetect(text, store, user, plan))
  {
    var batch := Batch(text, store.rules, user, Known(store, user));
    var existing, after := Existing(store, user, news, scan), BatchDetect(text, store, user, plan);
    hide *;
    ComparedMatches(batch, store, plan);
    BatchRecordsExactlyWanted(batch, store, plan, news, existing);
    BatchFrame(text, store, user, plan);
    forall p | NewRow(store, after, p)
      ensures exists a, b :: RowOfMeeting(Scale(text, store.rules, user), store, news, scan, a, b, after.pairs[p])
    {
      RowsMet(text, store, user, news, scan, plan, p);
    }
    forall a, b | Meet(store, user, news, scan, a, b) && !UsersPair(store, user, a.tx.id, b.tx.id)
                  && Convincing(Scale(text, store.rules, user), a, b)
      ensures HasRowFor(store, after, a, b)
    {
      MetHasRow(text, store, user, news, scan, plan, a, b);
    }
    BatchRecordedParts(text, store, user, news, scan, after);
  }

  lemma BatchFrame(text: Text, store: Store, user: Id, plan: History<Comparison>)
    requires var t := Compared(Batch(text, store.rules, user, Known(store, user)), Begin(store), plan);
             OldRowsStay(store, t) && OneRowPerKey(store, t)
    ensures var after := BatchDetect(text, store, user, plan);
            && after == store.(pairs := after.pairs, nextPair := after.nextPair)
            && OldRowsKept(store, after) && OneRowEach(store, after)
            && forall p :: NewRow(store, after, p) ==> p in after.pairs
  {
    hide Compared, Known, Ends;
  }

  lemma BatchRecordedParts(text: Text, store: Store, user: Id, news: seq<Entry>, scan: seq<Id>, after: Store)
    requires after == store.(pairs := after.pairs, nextPair := after.nextPair)
    requires OldRowsKept(store, after) && OneRowEach(store, after)
    requires forall p :: NewRow(store, after, p) ==>
               p in after.pairs
               && exists a, b :: RowOfMeeting(Scale(text, store.rules, user), store, news, scan, a, b, after.pairs[p])
    requires forall a, b | Meet(store, user, news, scan, a, b) && !UsersPair(store, user, a.tx.id, b.tx.id)
                           && Convincing(Scale(text, store.rules, user), a, b) :: HasRowFor(store, after, a, b)
    ensures BatchRecorded(text, store, user, news, scan, after)
  {
    hide Meet, UsersPair, Convincing, RowOfMeeting, HasRowFor, OldRowsKept, OneRowEach, NewRow;
  }

  lemma MetHasRow(
      text: Text, store: Store, user: Id, news: seq<Entry>, scan: seq<Id>, plan: History<Comparison>, a: Entry, b: Entry)
    requires Meet(store, user, news, scan, a, b) && !UsersPair(store, user, a.tx.id, b.tx.id)
    requires Convincing(Scale(text, store.rules, user), a, b)
    requires var batch := Batch(text, store.rules, user, Known(store, user));
             forall key :: HasNewRow(store, Compared(batch, Begin(store), plan), key) <==>
               Wanted(batch, news, Existing(store, user, news, scan), key)
    ensures HasRowFor(store, BatchDetect(text, store, user, plan), a, b)
  {
    var batch := Batch(text, store.rules, user, Known(store, user));
    MeetIs(store, user, news, scan, a, b);
    UsersPairIs(store, user, a.tx.id, b.tx.id);
    WorthIs(batch, a, b);
    hide Compared, Existing, Known, Meet, UsersPair, Convincing, Planned, BatchDetection.Worth;
    var t, key := Compared(batch, Begin(store), plan), {a.tx.id, b.tx.id};
    assert Comparison(a, b).Key() == key;
    assert Wanted(batch, news, Existing(store, user, news, scan), key);
    assert HasNewRow(store, t, key);
    var p :| p in t.pairs && p !in store.pairs && Ends(t.pairs[p].link) == key;
    assert NewRow(store, BatchDetect(text, store, user, plan), p);
  }

  function RowsBy(store: Store, after: Store, source: Source): set<Id> {
    set p | p in after.pairs && p !in store.pairs && after.pairs[p].link.source == source
  }

  /** Each counter is the number of new rows that its layer speaks for. */
  ghost predicate CountedBySource(store: Store, after: Store, counts: map<Source, nat>) {
    forall source :: |RowsBy(store, after, source)| == if source in counts then counts[source] else 0
  }

  lemma BatchCounts(text: Text, store: Store, user: Id, news: seq<Entry>, scan: seq<Id>, plan: History<Comparison>)
    requires forall p :: p in store.pairs ==> p < store.nextPair
    requires Covers(plan, news, Existing(store, user, news, scan))
    ensures var t := Compared(Batch(text, store.rules, user, Known(store, user)), Begin(store), plan);
            CountedBySource(store, BatchDetect(text, store, user, plan), t.counts)
  {
    var batch := Batch(text, store.rules, user, Known(store, user));
    hide *;
    ComparedMatches(batch, store, plan);
    CountsAreRows(batch, store, Compared(batch, Begin(store), plan), Deciding(batch, plan));
    CountsCarryOver(text, store, user, plan);
  }

  lemma CountsAreRows(batch: Batch, store: Store, t: Tally, v: set<Id> -> Option<Comparison>)
    requires BatchDetection.Matches(batch, Begin(store), t, v)
    ensures CountedBySource(store, Batched(store, t), t.counts)
  {
    hide KeysMatch, TotalMatches, LinkOf;
    forall source ensures RowsBy(store, Batched(store, t), source) == RowsWith(t, source) {
      assert forall p :: p in t.owner <==> p in t.pairs && p !in store.pairs;
    }
  }

  lemma CountsCarryOver(text: Text, store: Store, user: Id, plan: History<Comparison>)
    ensures BatchDetect(text, store, user, plan)
         == Batched(store, Compared(Batch(text, store.rules, user, Known(store, user)), Begin(store), plan))
  {
    hide Compared, Known;
  }

  /** How many comparisons met a pair that the user already had. */
  ghost function Repeats(store: Store, user: Id, plan: History<Comparison>): nat {
    if plan.Empty? then 0
    else
      Repeats(store, user, plan.past) + if UsersPair(store, user, plan.last.a.tx.id, plan.last.b.tx.id) then 1 else 0
  }

  lemma {:induction false} RepeatsAreCounted(text: Text, store: Store, user: Id, plan: History<Comparison>)
    ensures var t := Compared(Batch(text, store.rules, user, Known(store, user)), Begin(store), plan);
            && t.alreadyPaired == Repeats(store, user, plan)
            && forall key :: key in t.keys ==> key !in Known(store, user)
  {
    if plan.Then? {
      RepeatsAreCounted(text, store, user, plan.past);
      UsersPairIs(store, user, plan.last.a.tx.id, plan.last.b.tx.id);
      hide Known, UsersPair, BatchDetection.Worth, LinkOf;
    }
  }
}
