/**
 Batch duplicate detection. The code compares transactions pair by pair, first each new one with the
 window of existing rows and then the new ones that share amount and date, and keeps a set of the
 pairs it has seen. Here a run is the history of its comparisons, and the pairs it records are
 characterised without that order.
 */
module BatchDetection {
  import opened Common
  import opened Entities
  import opened Scoring
  import opened Detection
  import opened DetectionRuns

  datatype Comparison = Comparison(a: Entry, b: Entry)
  {
    function Key(): set<Id> {
      {a.tx.id, b.tx.id}
    }
  }

  /** What a batch run works with: the rules, the user, and the pairs the user already has. */
  datatype Batch = Batch(text: Text, rules: Rules, user: Id, known: set<set<Id>>)

  function ScoreOf(batch: Batch, c: Comparison): Score {
    ScorePair(batch.text, c.a.tx, Some(c.a.email), c.b.tx, Some(c.b.email), batch.rules, batch.user)
  }

  predicate Worth(batch: Batch, c: Comparison) {
    ScoreOf(batch, c).confidence >= 0.5
  }

  /**
   What has been recorded so far. `keys` are the pair keys seen and `counts` the new pairs by layer;
   `rowOf` and `owner` relate the recorded keys and the new rows.
   */
  datatype Tally = Tally(
    pairs: map<Id, Pair>, nextPair: Id, keys: set<set<Id>>, counts: map<Source, nat>, alreadyPaired: nat,
    rowOf: map<set<Id>, Id>, owner: map<Id, set<Id>>)

  function Begin(store: Store): Tally {
    Tally(store.pairs, store.nextPair, {}, map[], 0, map[], map[])
  }

  function CountOf(counts: map<Source, nat>, source: Source): nat {
    if source in counts then counts[source] else 0
  }

  function LinkOf(batch: Batch, c: Comparison): Link {
    var score := ScoreOf(batch, c);
    Link(c.a.tx.id, c.b.tx.id, Pending, score.confidence, score.source)
  }

  function Record(t: Tally, key: set<Id>, link: Link): Tally {
    Tally(t.pairs[t.nextPair := Pair(link, None)], t.nextPair + 1, t.keys + {key},
          t.counts[link.source := CountOf(t.counts, link.source) + 1], t.alreadyPaired,
          t.rowOf[key := t.nextPair], t.owner[t.nextPair := key])
  }

  /** One comparison. */
  function Compare(batch: Batch, t: Tally, c: Comparison): Tally {
    if c.Key() in t.keys then t
    else if c.Key() in batch.known then Aside(t)
    else if !Worth(batch, c) then t
    else Record(t, c.Key(), LinkOf(batch, c))
  }

  function Compared(batch: Batch, start: Tally, h: History<Comparison>): Tally {
    if h.Empty? then start else Compare(batch, Compared(batch, start, h.past), h.last)
  }

  /** The first comparison with the key that is worth recording. */
  function FirstWorth(batch: Batch, h: History<Comparison>, key: set<Id>): Option<Comparison> {
    if h.Empty? then None
    else if FirstWorth(batch, h.past, key).Some? then FirstWorth(batch, h.past, key)
    else if h.last.Key() == key && Worth(batch, h.last) then Some(h.last)
    else None
  }

  /** The comparison that decides a key, unless the pair is known. */
  function Deciding(batch: Batch, h: History<Comparison>): set<Id> -> Option<Comparison> {
    (key: set<Id>) => if key in batch.known then None else FirstWorth(batch, h, key)
  }

  /** The recorded keys are those with a deciding comparison, and each has its own row. */
  ghost predicate KeysMatch(t: Tally, v: set<Id> -> Option<Comparison>) {
    && (forall key :: key in t.keys <==> v(key).Some?)
    && (forall key :: key in t.rowOf <==> v(key).Some?)
    && (forall key :: key in t.rowOf ==> t.rowOf[key] in t.owner && t.owner[t.rowOf[key]] == key)
    && (forall p :: p in t.owner ==> t.owner[p] in t.rowOf && t.rowOf[t.owner[p]] == p)
  }

  /** The table holds the old rows and, for each recorded key, a pending row from its deciding comparison. */
  ghost predicate TableMatches(batch: Batch, start: Tally, t: Tally, v: set<Id> -> Option<Comparison>) {
    && t.owner.Keys == t.pairs.Keys - start.pairs.Keys
    && (forall p :: p in t.owner ==> v(t.owner[p]).Some? && t.pairs[p] == Pair(LinkOf(batch, v(t.owner[p]).value), None))
    && (forall p :: p in start.pairs ==> p in t.pairs && t.pairs[p] == start.pairs[p])
    && (forall p :: p in t.pairs ==> p < t.nextPair)
  }

  function RowsWith(t: Tally, source: Source): set<Id> {
    set p | p in t.owner && p in t.pairs && t.pairs[p].link.source == source
  }

  /** New pairs counted over all layers. */
  function Total(counts: map<Source, nat>): nat {
    CountOf(counts, SameDomainExact) + CountOf(counts, MerchantAlias) + CountOf(counts, DomainPairRule)
    + CountOf(counts, InvestmentFlow) + CountOf(counts, AmountDate) + CountOf(counts, ReferenceIdMatch)
    + CountOf(counts, BodyDateAnchor) + CountOf(counts, BodyDateMerchant) + CountOf(counts, Unknown)
  }

  ghost predicate TotalMatches(t: Tally) {
    Total(t.counts) == |t.owner|
  }

  /** Each layer's counter is the number of new rows it is responsible for. */
  ghost predicate CountsMatch(t: Tally) {
    && (forall source :: CountOf(t.counts, source) == |RowsWith(t, source)|)
    && (forall p :: p in t.owner ==> p < t.nextPair)
  }

  ghost predicate Matches(batch: Batch, start: Tally, t: Tally, v: set<Id> -> Option<Comparison>) {
    KeysMatch(t, v) && TableMatches(batch, start, t, v) && CountsMatch(t) && TotalMatches(t)
  }

  lemma RecordKeys(t: Tally, v: set<Id> -> Option<Comparison>, w: set<Id> -> Option<Comparison>, c: Comparison, link: Link)
    requires KeysMatch(t, v) && v(c.Key()).None? && t.nextPair !in t.owner
    requires forall key :: w(key) == if key == c.Key() then Some(c) else v(key)
    ensures KeysMatch(Record(t, c.Key(), link), w)
  {
    assert c.Key() !in t.rowOf;
  }

  lemma RecordTable(batch: Batch, start: Tally, t: Tally, v: set<Id> -> Option<Comparison>,
                    w: set<Id> -> Option<Comparison>, c: Comparison)
    requires TableMatches(batch, start, t, v) && v(c.Key()).None?
    requires forall key :: w(key) == if key == c.Key() then Some(c) else v(key)
    ensures TableMatches(batch, start, Record(t, c.Key(), LinkOf(batch, c)), w)
  {
    hide LinkOf, CountOf;
    var u := Record(t, c.Key(), LinkOf(batch, c));
    assert t.nextPair !in t.pairs && t.nextPair !in start.pairs;
    assert u.owner.Keys == u.pairs.Keys - start.pairs.Keys;
  }

  lemma RecordCount(t: Tally, key: set<Id>, link: Link, source: Source)
    requires t.nextPair !in t.owner
    ensures var u := Record(t, key, link);
            |RowsWith(u, source)| == |RowsWith(t, source)| + if link.source == source then 1 else 0
  {
    RecordedRows(t, key, link, source);
    hide Record, RowsWith;
  }

  lemma RecordedRows(t: Tally, key: set<Id>, link: Link, source: Source)
    requires t.nextPair !in t.owner
    ensures t.nextPair !in RowsWith(t, source)
    ensures RowsWith(Record(t, key, link), source)
         == RowsWith(t, source) + if link.source == source then {t.nextPair} else {}
  {
    hide CountOf;
  }

  lemma RecordCounts(t: Tally, key: set<Id>, link: Link)
    requires CountsMatch(t)
    ensures CountsMatch(Record(t, key, link))
  {
    assert t.nextPair !in t.owner;
    forall source ensures CountOf(Record(t, key, link).counts, source) == |RowsWith(Record(t, key, link), source)| {
      hide RowsWith;
      RecordCount(t, key, link, source);
    }
  }

  lemma CountStep(counts: map<Source, nat>, source: Source, s: Source)
    ensures CountOf(counts[source := CountOf(counts, source) + 1], s) ==
            CountOf(counts, s) + if s == source then 1 else 0
  {
  }

  lemma CountOneMore(counts: map<Source, nat>, source: Source)
    ensures Total(counts[source := CountOf(counts, source) + 1]) == Total(counts) + 1
  {
    hide CountOf;
    forall s ensures CountOf(counts[source := CountOf(counts, source) + 1], s) ==
                     CountOf(counts, s) + if s == source then 1 else 0 {
      CountStep(counts, source, s);
    }
  }

  lemma RecordTotal(t: Tally, key: set<Id>, link: Link)
    requires TotalMatches(t) && t.nextPair !in t.owner
    ensures TotalMatches(Record(t, key, link))
  {
    hide Total;
    CountOneMore(t.counts, link.source);
    assert Record(t, key, link).owner.Keys == t.owner.Keys + {t.nextPair};
  }

  lemma RecordMatches(batch: Batch, start: Tally, t: Tally, v: set<Id> -> Option<Comparison>,
                      w: set<Id> -> Option<Comparison>, c: Comparison)
    requires Matches(batch, start, t, v) && v(c.Key()).None?
    requires forall key :: w(key) == if key == c.Key() then Some(c) else v(key)
    ensures Matches(batch, start, Record(t, c.Key(), LinkOf(batch, c)), w)
  {
    assert t.nextPair !in t.owner;
    hide KeysMatch, TableMatches, LinkOf, Record, TotalMatches, CountsMatch;
    RecordTotal(t, c.Key(), LinkOf(batch, c));
    RecordKeys(t, v, w, c, LinkOf(batch, c));
    RecordTable(batch, start, t, v, w, c);
    RecordCounts(t, c.Key(), LinkOf(batch, c));
  }

  lemma MatchesSame(batch: Batch, start: Tally, t: Tally, v: set<Id> -> Option<Comparison>, w: set<Id> -> Option<Comparison>)
    requires Matches(batch, start, t, v) && forall key :: v(key) == w(key)
    ensures Matches(batch, start, t, w)
  {
  }

  lemma BeginMatches(batch: Batch, store: Store)
    requires forall p :: p in store.pairs ==> p < store.nextPair
    ensures Matches(batch, Begin(store), Begin(store), Deciding(batch, Empty))
  {
    var t := Begin(store);
    assert forall source :: RowsWith(t, source) == {};
    assert forall source :: CountOf(t.counts, source) == 0;
    hide RowsWith, CountOf;
  }

  /** The comparisons of a run, in whatever order, record exactly the keys that have a deciding comparison. */
  lemma {:induction false} ComparedMatches(batch: Batch, store: Store, h: History<Comparison>)
    requires forall p :: p in store.pairs ==> p < store.nextPair
    ensures Matches(batch, Begin(store), Compared(batch, Begin(store), h), Deciding(batch, h))
  {
    if h.Empty? {
      BeginMatches(batch, store);
    } else {
      ComparedMatches(batch, store, h.past);
      CompareMatches(batch, Begin(store), Compared(batch, Begin(store), h.past), h);
    }
  }

  lemma CompareMatches(batch: Batch, start: Tally, t: Tally, h: History<Comparison>)
    requires h.Then? && Matches(batch, start, t, Deciding(batch, h.past))
    ensures Matches(batch, start, Compare(batch, t, h.last), Deciding(batch, h))
  {
    var v, w, key := Deciding(batch, h.past), Deciding(batch, h), h.last.Key();
    DecidingStep(batch, h);
    assert key in t.keys <==> v(key).Some?;
    hide KeysMatch, TableMatches, CountsMatch, TotalMatches, Deciding, Worth, LinkOf, Record;
    if key !in t.keys && key !in batch.known && Worth(batch, h.last) {
      RecordMatches(batch, start, t, v, w, h.last);
    } else {
      MatchesSame(batch, start, t, v, w);
      KeysAside(t, w);
      TableAside(batch, start, t, w);
      CountsAside(t);
    }
  }

  function Aside(t: Tally): Tally {
    t.(alreadyPaired := t.alreadyPaired + 1)
  }

  lemma KeysAside(t: Tally, v: set<Id> -> Option<Comparison>)
    requires KeysMatch(t, v)
    ensures KeysMatch(Aside(t), v)
  {
  }

  lemma TableAside(batch: Batch, start: Tally, t: Tally, v: set<Id> -> Option<Comparison>)
    requires TableMatches(batch, start, t, v)
    ensures TableMatches(batch, start, Aside(t), v)
  {
  }

  lemma CountsAside(t: Tally)
    requires CountsMatch(t) && TotalMatches(t)
    ensures CountsMatch(Aside(t)) && TotalMatches(Aside(t))
  {
    hide Total, CountOf;
    assert forall source :: RowsWith(Aside(t), source) == RowsWith(t, source);
  }

  lemma DecidingStep(batch: Batch, h: History<Comparison>)
    requires h.Then?
    ensures forall key ::
              Deciding(batch, h)(key) ==
              if key == h.last.Key() && key !in batch.known && Worth(batch, h.last) && Deciding(batch, h.past)(key).None?
              then Some(h.last) else Deciding(batch, h.past)(key)
  {
  }

  // What a batch run compares

  function Latest(days: seq<int>): (d: int)
    requires days != []
    ensures d in days && forall e :: e in days ==> e <= d
  {
    if |days| == 1 then days[0]
    else
      var d := Latest(days[1..]);
      assert forall e :: e in days <==> e == days[0] || e in days[1..];
      if days[0] >= d then days[0] else d
  }

  function Least(xs: seq<real>): (x: real)
    requires xs != []
    ensures x in xs && forall y :: y in xs ==> x <= y
  {
    if |xs| == 1 then xs[0]
    else
      var x := Least(xs[1..]);
      assert forall y :: y in xs <==> y == xs[0] || y in xs[1..];
      if xs[0] <= x then xs[0] else x
  }

  function Greatest(xs: seq<real>): (x: real)
    requires xs != []
    ensures x in xs && forall y :: y in xs ==> y <= x
  {
    if |xs| == 1 then xs[0]
    else
      var x := Greatest(xs[1..]);
      assert forall y :: y in xs <==> y == xs[0] || y in xs[1..];
      if xs[0] >= x then xs[0] else x
  }

  function Dates(news: seq<Entry>): (days: seq<int>)
    ensures forall e :: e in news && EffectiveDate(e.tx, e.email).Some? ==> EffectiveDate(e.tx, e.email).value in days
    ensures forall d :: d in days ==> exists e :: e in news && EffectiveDate(e.tx, e.email) == Some(d)
  {
    if news == [] then []
    else
      var rest, d := Dates(news[1..]), EffectiveDate(news[0].tx, news[0].email);
      assert forall e :: e in news <==> e == news[0] || e in news[1..];
      if d.Some? then [d.value] + rest else rest
  }

  /** The amounts of the new transactions; the code's truth test leaves out zero. */
  function Amounts(news: seq<Entry>): (amounts: seq<real>)
    ensures forall e :: e in news && e.tx.amount.Some? && e.tx.amount.value != 0.0 ==> e.tx.amount.value in amounts
    ensures forall a :: a in amounts ==> exists e :: e in news && e.tx.amount == Some(a) && a != 0.0
  {
    if news == [] then []
    else
      var rest, a := Amounts(news[1..]), news[0].tx.amount;
      assert forall e :: e in news <==> e == news[0] || e in news[1..];
      if a.Some? && a.value != 0.0 then [a.value] + rest else rest
  }

  predicate AmountInWindow(amounts: seq<real>, amount: real)
    requires amounts != []
  {
    Least(amounts) * 0.95 <= amount <= Greatest(amounts) * 1.05
  }

  predicate DatedInWindow(days: seq<int>, date: Option<int>)
    requires days != []
  {
    date.Some? && Earliest(days) - 3 <= date.value <= Latest(days) + 3
  }

  /** A day number stands for its midnight when compared with an arrival. */
  predicate ArrivedInWindow(days: seq<int>, at: Option<int>)
    requires days != []
  {
    at.Some? && (Earliest(days) - 3) * DAY <= at.value <= (Latest(days) + 3) * DAY
  }

  /** The row conditions of the windowed query. */
  predicate InWindow(days: seq<int>, amounts: seq<real>, user: Id, t: Transaction, e: Email) {
    && days != [] && amounts != []
    && t.tag == Expense && t.amount.Some? && AmountInWindow(amounts, t.amount.value)
    && e.userId == user && (DatedInWindow(days, t.txnDate) || ArrivedInWindow(days, e.receivedAt))
  }

  function Existing(store: Store, user: Id, news: seq<Entry>, scan: seq<Id>): (rows: seq<Entry>)
    ensures forall r :: r in rows <==> exists c :: c in scan && Hits(store, user, news, c) && r == EntryOf(store, c)
  {
    if scan == [] then []
    else
      var rest, c := Existing(store, user, news, scan[1..]), scan[0];
      assert forall d :: d in scan <==> d == c || d in scan[1..];
      if Hits(store, user, news, c) then [EntryOf(store, c)] + rest else rest
  }

  predicate Hits(store: Store, user: Id, news: seq<Entry>, c: Id) {
    && c in store.txs && store.EmailOf(store.txs[c]).Some?
    && InWindow(Dates(news), Amounts(news), user, store.txs[c], store.EmailOf(store.txs[c]).value)
  }

  function EntryOf(store: Store, c: Id): Entry
    requires c in store.txs && store.EmailOf(store.txs[c]).Some?
  {
    Entry(store.txs[c], store.EmailOf(store.txs[c]).value)
  }

  /** The guards at the head of the comparison with existing rows. */
  predicate Eligible(e: Entry) {
    DedupCandidate(e.tx) && HasDomain(e.email) && EffectiveDate(e.tx, e.email).Some?
  }

  /** Whether the second phase puts a new transaction into a group at all, and into the same as another. */
  predicate Grouped(e: Entry) {
    e.tx.amount.Some? && e.tx.amount.value != 0.0 && e.tx.txnDate.Some?
  }

  predicate SameGroup(a: Entry, b: Entry) {
    GroupKey(a).Some? && GroupKey(a) == GroupKey(b)
  }

  /** The key under which the second phase files a transaction. */
  function GroupKey(e: Entry): Option<(real, int)> {
    if Grouped(e) then Some((e.tx.amount.value, e.tx.txnDate.value)) else None
  }

  function GroupOf(news: seq<Entry>, key: (real, int)): seq<Entry> {
    if news == [] then []
    else GroupOf(news[..|news| - 1], key) + if GroupKey(news[|news| - 1]) == Some(key) then [news[|news| - 1]] else []
  }

  /** The entry `a` stands somewhere before `b`. */
  ghost predicate Before(s: seq<Entry>, a: Entry, b: Entry) {
    exists i, j :: 0 <= i < j < |s| && s[i] == a && s[j] == b
  }

  lemma BeforeSnoc(s: seq<Entry>, e: Entry, a: Entry, b: Entry)
    ensures Before(s + [e], a, b) <==> Before(s, a, b) || (e == b && a in s)
  {
    var t := s + [e];
    if Before(s, a, b) {
      var i, j :| 0 <= i < j < |s| && s[i] == a && s[j] == b;
      assert t[i] == a && t[j] == b;
    }
    if e == b && a in s {
      var i :| 0 <= i < |s| && s[i] == a;
      assert t[i] == a && t[|s|] == b;
    }
    if Before(t, a, b) {
      var i, j :| 0 <= i < j < |t| && t[i] == a && t[j] == b;
      assert s[i] == a;
      if j < |s| {
        assert s[j] == b;
      }
    }
  }

  /** A group holds the entries with its key, in the order of the batch. */
  lemma {:induction false} GroupKeepsOrder(news: seq<Entry>, key: (real, int), a: Entry, b: Entry)
    ensures a in GroupOf(news, key) <==> a in news && GroupKey(a) == Some(key)
    ensures Before(GroupOf(news, key), a, b) <==>
            Before(news, a, b) && GroupKey(a) == Some(key) && GroupKey(b) == Some(key)
  {
    if news != [] {
      var front, e := news[..|news| - 1], news[|news| - 1];
      assert news == front + [e];
      GroupKeepsOrder(front, key, a, b);
      BeforeSnoc(front, e, a, b);
      BeforeSnoc(GroupOf(front, key), e, a, b);
      hide Before;
      assert GroupOf(front, key) + [] == GroupOf(front, key);
    }
  }

  /** A comparison of an eligible new transaction with another row of the window. */
  ghost predicate AgainstWindow(news: seq<Entry>, existing: seq<Entry>, c: Comparison) {
    c.a in news && Eligible(c.a) && c.b in existing && c.b.tx.id != c.a.tx.id
  }

  /** A comparison of two new transactions of one group, in the order of the batch. */
  ghost predicate WithinBatch(news: seq<Entry>, c: Comparison) {
    Before(news, c.a, c.b) && SameGroup(c.a, c.b)
  }

  ghost predicate Planned(news: seq<Entry>, existing: seq<Entry>, c: Comparison) {
    AgainstWindow(news, existing, c) || WithinBatch(news, c)
  }

  /** The pairs the user already has: those whose primary belongs to them. */
  function Known(store: Store, user: Id): set<set<Id>> {
    set p | p in store.pairs && Owner(store, store.pairs[p].link.primary) == Some(user) :: Ends(store.pairs[p].link)
  }

  function Batched(store: Store, t: Tally): Store {
    store.(pairs := t.pairs, nextPair := t.nextPair)
  }

  /** One run of the batch detector, by the comparisons that it makes. */
  function BatchDetect(text: Text, store: Store, user: Id, plan: History<Comparison>): Store {
    Batched(store, Compared(Batch(text, store.rules, user, Known(store, user)), Begin(store), plan))
  }

  lemma {:induction false} FirstWorthIsMember(batch: Batch, h: History<Comparison>, key: set<Id>)
    ensures FirstWorth(batch, h, key).Some? <==> exists c :: c in Members(h) && c.Key() == key && Worth(batch, c)
    ensures FirstWorth(batch, h, key).Some? ==>
              var c := FirstWorth(batch, h, key).value; c in Members(h) && c.Key() == key && Worth(batch, c)
  {
    hide Worth;
    if h.Then? {
      FirstWorthIsMember(batch, h.past, key);
    }
  }

  function Members(h: History<Comparison>): set<Comparison> {
    if h.Empty? then {} else Members(h.past) + {h.last}
  }

  /** The run made the planned comparisons and no others. */
  ghost predicate Covers(h: History<Comparison>, news: seq<Entry>, existing: seq<Entry>) {
    forall c :: c in Members(h) <==> Planned(news, existing, c)
  }

  /** Some planned comparison of these two transactions is worth recording, and the pair is not known. */
  ghost predicate Wanted(batch: Batch, news: seq<Entry>, existing: seq<Entry>, key: set<Id>) {
    key !in batch.known && exists c :: Planned(news, existing, c) && c.Key() == key && Worth(batch, c)
  }

  /** A new row about these two transactions. */
  ghost predicate HasNewRow(store: Store, t: Tally, key: set<Id>) {
    exists p :: p in t.pairs && p !in store.pairs && Ends(t.pairs[p].link) == key
  }

  predicate IsNew(store: Store, t: Tally, p: Id) {
    p in t.pairs && p !in store.pairs
  }

  ghost predicate OneRowPerKey(store: Store, t: Tally) {
    forall p, q :: IsNew(store, t, p) && IsNew(store, t, q) && p != q ==> Ends(t.pairs[p].link) != Ends(t.pairs[q].link)
  }

  ghost predicate NewRowsPending(store: Store, t: Tally) {
    forall p :: IsNew(store, t, p) ==> t.pairs[p].link.status == Pending && t.pairs[p].resolvedAt == None
  }

  ghost predicate OldRowsStay(store: Store, t: Tally) {
    forall p :: p in store.pairs ==> p in t.pairs && t.pairs[p] == store.pairs[p]
  }

  /**
   A batch run records exactly the wanted pairs: one pending row each, whatever the order of the
   comparisons, and none for any other pair. The layers' counters add up to the number of new rows.
   */
  lemma BatchRecordsExactlyWanted(batch: Batch, store: Store, h: History<Comparison>, news: seq<Entry>, existing: seq<Entry>)
    requires forall p :: p in store.pairs ==> p < store.nextPair
    requires Covers(h, news, existing)
    ensures var t := Compared(batch, Begin(store), h);
            && (forall key :: HasNewRow(store, t, key) <==> Wanted(batch, news, existing, key))
            && OneRowPerKey(store, t) && NewRowsPending(store, t) && OldRowsStay(store, t)
            && (forall p :: p in t.pairs ==> p < t.nextPair)
            && Total(t.counts) == |t.pairs.Keys - store.pairs.Keys|
            && (forall source :: CountOf(t.counts, source) == |RowsWith(t, source)|)
  {
    var t := Compared(batch, Begin(store), h);
    ComparedMatches(batch, store, h);
    hide Compared, Covers, CountOf, RowsWith, Total, Wanted;
    assert t.owner.Keys == t.pairs.Keys - store.pairs.Keys;
    forall key: set<Id> ensures HasNewRow(store, t, key) <==> Wanted(batch, news, existing, key) {
      DecidingIsWanted(batch, h, news, existing, key);
      RowsForKeys(batch, store, t, h, key);
    }
    RowsApart(batch, store, t, h);
  }

  lemma RowsForKeys(batch: Batch, store: Store, t: Tally, h: History<Comparison>, key: set<Id>)
    requires Matches(batch, Begin(store), t, Deciding(batch, h))
    ensures HasNewRow(store, t, key) <==> Deciding(batch, h)(key).Some?
  {
    forall p | p in t.owner ensures Ends(t.pairs[p].link) == t.owner[p] {
      DecidingHasKey(batch, h, t.owner[p]);
    }
    hide Deciding, LinkOf, CountsMatch, TotalMatches, Ends;
    if key in t.rowOf {
      assert t.rowOf[key] in t.owner;
    }
    assert forall p :: p in t.pairs && p !in store.pairs ==> p in t.owner;
  }

  lemma RowsApart(batch: Batch, store: Store, t: Tally, h: History<Comparison>)
    requires Matches(batch, Begin(store), t, Deciding(batch, h))
    ensures OneRowPerKey(store, t) && NewRowsPending(store, t) && OldRowsStay(store, t)
  {
    forall p, q | IsNew(store, t, p) && IsNew(store, t, q) && p != q
      ensures Ends(t.pairs[p].link) != Ends(t.pairs[q].link)
    {
      assert p in t.owner && q in t.owner;
      DecidingHasKey(batch, h, t.owner[p]);
      DecidingHasKey(batch, h, t.owner[q]);
      assert t.rowOf[t.owner[p]] == p && t.rowOf[t.owner[q]] == q;
      hide Deciding, CountsMatch, TotalMatches, KeysMatch, LinkOf, Ends;
    }
    PendingRows(batch, store, t, Deciding(batch, h));
  }

  lemma PendingRows(batch: Batch, store: Store, t: Tally, v: set<Id> -> Option<Comparison>)
    requires TableMatches(batch, Begin(store), t, v)
    ensures NewRowsPending(store, t) && OldRowsStay(store, t)
  {
    hide ScoreOf;
    assert forall p :: IsNew(store, t, p) ==> p in t.owner;
  }

  lemma DecidingIsWanted(batch: Batch, h: History<Comparison>, news: seq<Entry>, existing: seq<Entry>, key: set<Id>)
    requires Covers(h, news, existing)
    ensures Deciding(batch, h)(key).Some? <==> Wanted(batch, news, existing, key)
  {
    hide Worth, Planned;
    FirstWorthIsMember(batch, h, key);
  }

  lemma DecidingHasKey(batch: Batch, h: History<Comparison>, key: set<Id>)
    requires Deciding(batch, h)(key).Some?
    ensures Ends(LinkOf(batch, Deciding(batch, h)(key).value)) == key
  {
    FirstWorthIsMember(batch, h, key);
  }

  // What the window loses, and what the second phase lets in

  /**
   For a new transaction of at least a hundred and an existing expense with a transaction date and no
   body dates, the window contains every row that passes the scorer's amount and date gates.
   */
  lemma WindowLosesNothing(news: seq<Entry>, user: Id, n: Entry, t: Transaction, e: Email)
    requires n in news && n.tx.amount.Some? && n.tx.amount.value >= 100.0
    requires t.tag == Expense && t.amount.Some? && t.txnDate.Some? && e.userId == user && e.bodyDates == []
    requires AmountGate(n.tx.amount.value, t.amount.value) && DateGate(n.tx, n.email, t, e)
    ensures InWindow(Dates(news), Amounts(news), user, t, e)
  {
    var a, b := n.tx.amount.value, t.amount.value;
    assert a in Amounts(news) && EffectiveDate(n.tx, n.email).value in Dates(news);
    assert 0.95 * a <= b <= 1.05 * a;
    assert Least(Amounts(news)) <= a <= Greatest(Amounts(news));
  }

  /** The tolerance of an amount fits the batch's window. */
  predicate KeepsAll(amounts: seq<real>, a: real)
    requires amounts != []
  {
    AmountInWindow(amounts, a - Tolerance(a, true)) && AmountInWindow(amounts, a + Tolerance(a, true))
  }

  /** The query keeps all that one amount accepts if and only if that is so. */
  lemma AmountKeptIff(news: seq<Entry>, a: real)
    requires Amounts(news) != []
    ensures (forall b :: AmountGate(a, b) ==> AmountInWindow(Amounts(news), b)) <==> KeepsAll(Amounts(news), a)
  {
    assert AmountGate(a, a - Tolerance(a, true)) && AmountGate(a, a + Tolerance(a, true));
  }

  /** A hundred is the exact threshold: the query keeps all that a batch accepts if and only if no amount is less. */
  lemma {:induction false} AmountWindowExact(news: seq<Entry>)
    requires Amounts(news) != []
    ensures (forall n, b :: n in news && n.tx.amount.Some? && AmountGate(n.tx.amount.value, b) ==>
               AmountInWindow(Amounts(news), b))
            <==> (forall n :: n in news && n.tx.amount.Some? ==> n.tx.amount.value >= 100.0)
  {
    var amounts := Amounts(news);
    forall n | n in news && n.tx.amount.Some?
      ensures (forall b :: AmountGate(n.tx.amount.value, b) ==> AmountInWindow(amounts, b))
              <==> KeepsAll(amounts, n.tx.amount.value)
    {
      AmountKeptIff(news, n.tx.amount.value);
    }
    hide AmountGate, AmountInWindow;
    var least :| least in news && least.tx.amount == Some(Least(amounts));
    forall n | n in news && n.tx.amount.Some?
      ensures n.tx.amount.value >= 100.0 && Least(amounts) >= 100.0 ==> KeepsAll(amounts, n.tx.amount.value)
      ensures KeepsAll(amounts, n.tx.amount.value) && KeepsAll(amounts, Least(amounts)) ==> n.tx.amount.value >= 100.0
    {
      KeptFromHundred(amounts, n.tx.amount.value);
    }
  }

  lemma KeptFromHundred(amounts: seq<real>, a: real)
    requires amounts != [] && (a in amounts || a == 0.0)
    ensures a >= 100.0 && Least(amounts) >= 100.0 ==> KeepsAll(amounts, a)
    ensures KeepsAll(amounts, a) && KeepsAll(amounts, Least(amounts)) ==> a >= 100.0
  {
    assert a in amounts ==> Least(amounts) <= a <= Greatest(amounts);
  }

  /**
   How the query loses a row by its date, although the scorer accepts it. A row dated by its body is lost when
   neither its transaction date nor its arrival lies in the window; one dated by its arrival when it arrives later
   than midnight on the last day, for the latest new date; a row dated by its transaction date is never lost.
   */
  predicate LostByDate(days: seq<int>, day: int, t: Transaction, e: Email)
    requires days != []
  {
    if e.bodyDates != [] then !DatedInWindow(days, t.txnDate) && !ArrivedInWindow(days, e.receivedAt)
    else
      && t.txnDate.None? && e.receivedAt.Some?
      && day == Latest(days) && e.receivedAt.value / DAY == day + 3 && e.receivedAt.value % DAY > 0
  }

  /** Of the user's expenses whose date the scorer accepts, the query loses exactly these. */
  lemma {:induction false} WindowExact(news: seq<Entry>, user: Id, n: Entry, t: Transaction, e: Email)
    requires n in news && t.tag == Expense && t.amount.Some? && e.userId == user
    requires DateGate(n.tx, n.email, t, e)
    ensures Dates(news) != []
    ensures !InWindow(Dates(news), Amounts(news), user, t, e) <==>
            || Amounts(news) == [] || !AmountInWindow(Amounts(news), t.amount.value)
            || LostByDate(Dates(news), EffectiveDate(n.tx, n.email).value, t, e)
  {
    var days, day := Dates(news), EffectiveDate(n.tx, n.email).value;
    assert day in days;
    hide Dates, Amounts, AmountInWindow;
    if e.bodyDates == [] && t.txnDate.None? {
      DayOfArrival(e.receivedAt.value, Earliest(days) - 3, Latest(days) + 3);
    }
  }

  /** Such rows exist: the body of the email gives the date of the purchase, and the bank books it ten days later. */
  lemma {:induction false} BodyDateLost(n: Entry, t: Transaction, e: Email, user: Id)
    requires n.tx.amount == t.amount == Some(1000.0) && t.tag == Expense && e.userId == user
    requires EffectiveDate(n.tx, n.email) == Some(100)
    requires e.bodyDates == [100] && t.txnDate == Some(110) && e.receivedAt == Some(110 * DAY)
    ensures AmountGate(n.tx.amount.value, t.amount.value) && DateGate(n.tx, n.email, t, e)
    ensures !InWindow(Dates([n]), Amounts([n]), user, t, e)
  {
    WindowExact([n], user, n, t, e);
    assert Dates([n]) == [100];
  }

  /** When an arrival lies between the midnights of two days, in terms of its own day. */
  lemma DayOfArrival(at: int, first: int, last: int)
    ensures first * DAY <= at <= last * DAY <==> first <= at / DAY && (at / DAY < last || (at / DAY == last && at % DAY == 0))
  {
    assert at == (at / DAY) * DAY + at % DAY;
  }

  /** The first phase never compares an income transaction, so a recorded one comes from the second. */
  lemma IncomeOnlyWithinBatch(store: Store, user: Id, news: seq<Entry>, scan: seq<Id>, c: Comparison)
    requires Planned(news, Existing(store, user, news, scan), c)
    requires c.a.tx.tag == Income || c.b.tx.tag == Income
    ensures WithinBatch(news, c)
  {
  }

  /**
   The second phase does not ask whether its transactions are dedup candidates: two income
   transactions of one batch with the same amount, date and sender domain are recorded as duplicates.
   */
  lemma IncomePairsRecorded(batch: Batch, news: seq<Entry>, existing: seq<Entry>, i: nat, j: nat)
    requires i < j < |news| && SameGroup(news[i], news[j])
    requires news[i].tx.tag == Income && news[j].tx.tag == Income
    requires HasDomain(news[i].email) && HasDomain(news[j].email)
    requires Domain(batch.text, news[i].email) == Domain(batch.text, news[j].email)
    requires DateGate(news[i].tx, news[i].email, news[j].tx, news[j].email)
    requires {news[i].tx.id, news[j].tx.id} !in batch.known
    ensures !Eligible(news[i]) && !Eligible(news[j])
    ensures Wanted(batch, news, existing, {news[i].tx.id, news[j].tx.id})
  {
    var c := Comparison(news[i], news[j]);
    assert WithinBatch(news, c);
    assert AmountGate(c.a.tx.amount.value, c.b.tx.amount.value);
    assert Worth(batch, c);
    assert c.Key() == {news[i].tx.id, news[j].tx.id};
  }

  // What a batch run keeps

  /** The new transactions are rows of the user, each given once. */
  ghost predicate NewsRows(store: Store, user: Id, news: seq<Entry>) {
    && (forall n :: n in news ==>
          n.tx.id in store.txs && store.txs[n.tx.id] == n.tx && store.EmailOf(n.tx) == Some(n.email) && n.email.userId == user)
    && (forall i, j :: 0 <= i < j < |news| ==> news[i].tx.id != news[j].tx.id)
  }

  lemma PlannedIsUsers(store: Store, user: Id, news: seq<Entry>, scan: seq<Id>, c: Comparison)
    requires store.Keyed() && NewsRows(store, user, news) && Planned(news, Existing(store, user, news, scan), c)
    ensures c.a.tx.id != c.b.tx.id
    ensures Owner(store, c.a.tx.id) == Some(user) && Owner(store, c.b.tx.id) == Some(user)
  {
    hide InWindow;
    if AgainstWindow(news, Existing(store, user, news, scan), c) {
      var r :| r in scan && Hits(store, user, news, r) && c.b == EntryOf(store, r);
      HitsAreUsers(store, user, news, r);
    }
  }

  lemma HitsAreUsers(store: Store, user: Id, news: seq<Entry>, r: Id)
    requires Hits(store, user, news, r)
    ensures store.EmailOf(store.txs[r]).value.userId == user
  {
  }

  /**
   A batch run keeps the pair table sound: no two rows about the same two transactions, and every row
   joining two different transactions of one user.
   */
  lemma BatchKeepsSound(text: Text, store: Store, user: Id, news: seq<Entry>, scan: seq<Id>, h: History<Comparison>)
    requires Sound(store) && NewsRows(store, user, news)
    requires Covers(h, news, Existing(store, user, news, scan))
    ensures Sound(BatchDetect(text, store, user, h))
  {
    var batch := Batch(text, store.rules, user, Known(store, user));
    var existing, t := Existing(store, user, news, scan), Compared(batch, Begin(store), h);
    var after := Batched(store, t);
    BatchRecordsExactlyWanted(batch, store, h, news, existing);
    hide Compared, Covers, Total, CountOf, RowsWith, Wanted, Planned;
    forall p | IsNew(store, t, p)
      ensures RowSound(store, t.pairs[p].link) && forall q :: q in store.pairs ==> Ends(store.pairs[q].link) != Ends(t.pairs[p].link)
    {
      assert HasNewRow(store, t, Ends(t.pairs[p].link));
      WantedIsNew(batch, store, user, news, scan, t.pairs[p].link);
    }
    StillSound(store, t);
  }

  lemma WantedIsNew(batch: Batch, store: Store, user: Id, news: seq<Entry>, scan: seq<Id>, link: Link)
    requires Sound(store) && NewsRows(store, user, news) && batch.known == Known(store, user)
    requires Wanted(batch, news, Existing(store, user, news, scan), Ends(link)) && link.status == Pending
    ensures RowSound(store, link)
    ensures forall q :: q in store.pairs ==> Ends(store.pairs[q].link) != Ends(link)
  {
    hide Worth, Planned, Existing, Owner, Sound, Known, InWindow;
    var c :| Planned(news, Existing(store, user, news, scan), c) && c.Key() == Ends(link) && Worth(batch, c);
    assert store.Keyed() by {
      KeyedIfSound(store);
    }
    PlannedIsUsers(store, user, news, scan, c);
    UsersRowSound(store, user, c.a.tx.id, c.b.tx.id, link);
    UnknownPair(store, user, link);
  }

  lemma KeyedIfSound(store: Store)
    requires Sound(store)
    ensures store.Keyed()
  {
  }

  lemma UsersRowSound(store: Store, user: Id, a: Id, b: Id, link: Link)
    requires Ends(link) == {a, b} && a != b && link.status == Pending
    requires Owner(store, a) == Some(user) && Owner(store, b) == Some(user)
    ensures RowSound(store, link) && forall x :: x in Ends(link) ==> Owner(store, x) == Some(user)
  {
    assert a in Ends(link) && b in Ends(link);
    assert link.primary in {a, b} && link.duplicate in {a, b};
  }

  /** A pair of the user's transactions that is not known has no row. */
  lemma UnknownPair(store: Store, user: Id, link: Link)
    requires Ends(link) !in Known(store, user)
    requires forall x :: x in Ends(link) ==> Owner(store, x) == Some(user)
    ensures forall q :: q in store.pairs ==> Ends(store.pairs[q].link) != Ends(link)
  {
    hide Owner;
    forall q | q in store.pairs ensures Ends(store.pairs[q].link) != Ends(link) {
      if store.pairs[q].link.primary in Ends(link) {
        assert Ends(store.pairs[q].link) in Known(store, user);
      } else {
        assert store.pairs[q].link.primary in Ends(store.pairs[q].link);
      }
    }
  }

  lemma StillSound(store: Store, t: Tally)
    requires Sound(store) && OldRowsStay(store, t) && OneRowPerKey(store, t)
    requires forall p :: p in t.pairs ==> p < t.nextPair
    requires forall p :: IsNew(store, t, p) ==>
               && RowSound(store, t.pairs[p].link)
               && forall q :: q in store.pairs ==> Ends(store.pairs[q].link) != Ends(t.pairs[p].link)
    ensures Sound(Batched(store, t))
  {
    var after := Batched(store, t);
    hide DistinctArrivals, Ends;
    forall x: Id ensures Arrival(after, x) == Arrival(store, x) && Owner(after, x) == Owner(store, x) {
    }
    assert DistinctArrivals(after) by {
      SameArrivals(store, after);
    }
    hide Arrival, Owner;
    forall p | p in after.pairs ensures RowSound(after, after.pairs[p].link) {
      assert RowSound(store, after.pairs[p].link);
      RowSoundStill(store, after, after.pairs[p].link);
    }
    assert UniquePairs(after.pairs);
  }
}
