/**
 User decisions on duplicate pairs: resolving a pair, which may delete a transaction, and reopening
 one. The database no longer enforces the foreign keys of pairs and corrections, so these steps must.
 */
module Resolution {
  import opened Common
  import opened Entities
  import opened Scoring
  import opened Detection
  import opened DetectionRuns
  import opened BatchDetection
  import opened Learning

  /** What the user asks for; `Other` is any text that is neither action. */
  datatype Action = Confirm | Dismiss | Other

  datatype Outcome = Done(store: Store) | NotFound | Invalid | Conflict

  /** The pair and its two transactions as the endpoint loads them: the primary's email must be the user's. */
  predicate Loads(store: Store, pairId: Id, user: Id) {
    && pairId in store.pairs
    && var link := store.pairs[pairId].link;
       link.primary in store.txs && link.duplicate in store.txs && Owner(store, link.primary) == Some(user)
  }

  function EmailOfTx(store: Store, t: Id): Option<Email> {
    if t in store.txs then store.EmailOf(store.txs[t]) else None
  }

  /** What a resolution teaches, if both emails have a sender domain and these differ. */
  function LessonOf(text: Text, store: Store, kept: Id, discarded: Id, user: Id, confirmed: bool): Option<Lesson> {
    var e, f := EmailOfTx(store, kept), EmailOfTx(store, discarded);
    if e.None? || f.None? then None
    else
      var d1, d2 := Domain(text, e.value), Domain(text, f.value);
      if d1 != "" && d2 != "" && d1 != d2 then Some(Lesson(user, {d1, d2}, confirmed)) else None
  }

  function Taught(rules: Rules, lesson: Option<Lesson>): Rules {
    if lesson.Some? then Learn(rules, lesson.value) else rules
  }

  /** The tables without a transaction, the pairs that name it, and its corrections. */
  function Without(store: Store, t: Id): Store {
    store.(txs := store.txs - {t},
           pairs := map p | p in store.pairs && t !in Ends(store.pairs[p].link) :: store.pairs[p],
           corrections := map c | c in store.corrections && store.corrections[c] != t :: store.corrections[c])
  }

  /** The transaction that goes when `kept` stays. It is chosen before the pair's primary is overwritten. */
  function Discarded(link: Link, kept: Id): Id {
    if kept == link.primary then link.duplicate else link.primary
  }

  function Stamped(pair: Pair, kept: Id, confirm: bool, now: int): Pair {
    Pair(pair.link.(primary := kept, status := if confirm then Confirmed else Dismissed), Some(now))
  }

  /** The resolution of a pending pair in favour of `kept`. */
  function Settled(text: Text, store: Store, pairId: Id, kept: Id, confirm: bool, user: Id, now: int): Store
    requires pairId in store.pairs
  {
    var pair := store.pairs[pairId];
    var gone := Discarded(pair.link, kept);
    var marked := store.(pairs := store.pairs[pairId := Stamped(pair, kept, confirm, now)],
                         rules := Taught(store.rules, LessonOf(text, store, kept, gone, user, confirm)));
    if confirm then Without(marked, gone) else marked
  }

  function Resolve(text: Text, store: Store, pairId: Id, action: Action, kept: Id, user: Id, now: int): Outcome {
    if action.Other? then Invalid
    else if !Loads(store, pairId, user) then NotFound
    else if kept !in Ends(store.pairs[pairId].link) then Invalid
    else if store.pairs[pairId].link.status != Pending then Conflict
    else Done(Settled(text, store, pairId, kept, action.Confirm?, user, now))
  }

  function Reopen(store: Store, pairId: Id, user: Id): Outcome {
    if !Loads(store, pairId, user) then NotFound
    else if store.pairs[pairId].link.status == Pending then Conflict
    else
      var pair := store.pairs[pairId];
      Done(store.(pairs := store.pairs[pairId := Pair(pair.link.(status := Pending), None)]))
  }

  /** Every id named by a pair or a correction is a row. */
  ghost predicate Integrity(store: Store) {
    && (forall p :: p in store.pairs ==> store.pairs[p].link.primary in store.txs && store.pairs[p].link.duplicate in store.txs)
    && (forall c :: c in store.corrections ==> store.corrections[c] in store.txs)
    && store.Keyed()
  }

  /** Nothing names the transaction any more. */
  ghost predicate Unnamed(store: Store, t: Id) {
    && (forall p :: p in store.pairs ==> t !in Ends(store.pairs[p].link))
    && (forall c :: c in store.corrections ==> store.corrections[c] != t)
  }

  /**
   A resolution keeps integrity for every action and choice, the former duplicate included. A
   confirmation deletes the discarded transaction with everything that names it and no other
   transaction; a dismissal deletes nothing.
   */
  lemma ResolveKeepsIntegrity(text: Text, store: Store, pairId: Id, action: Action, kept: Id, user: Id, now: int)
    requires Integrity(store) && Resolve(text, store, pairId, action, kept, user, now).Done?
    ensures var after := Resolve(text, store, pairId, action, kept, user, now).store;
            var gone := Discarded(store.pairs[pairId].link, kept);
            && Integrity(after)
            && (action.Confirm? ==> after.txs == store.txs - {gone} && Unnamed(after, gone))
            && (action.Dismiss? ==> after.txs == store.txs && after.pairs.Keys == store.pairs.Keys
                                    && after.corrections == store.corrections)
            && (forall p :: p in store.pairs && p != pairId && !(action.Confirm? && gone in Ends(store.pairs[p].link)) ==>
                  p in after.pairs && after.pairs[p] == store.pairs[p])
            && after.pairs.Keys <= store.pairs.Keys
  {
  }

  /**
   The transaction the user names survives the resolution unless the pair names one transaction
   twice: such a pair has nothing else to discard, and confirming it deletes what was to be kept.
   */
  lemma NamedSurvivesUnlessSelfPair(text: Text, store: Store, pairId: Id, action: Action, kept: Id, user: Id, now: int)
    requires Resolve(text, store, pairId, action, kept, user, now).Done?
    ensures kept in Resolve(text, store, pairId, action, kept, user, now).store.txs <==>
            !(action.Confirm? && store.pairs[pairId].link.primary == store.pairs[pairId].link.duplicate)
  {
  }

  /**
   Only `primary_tx_id` is overwritten, so a surviving pair still names two transactions if and only
   if the user kept its current primary; keeping the former duplicate leaves a pair of it with itself.
   */
  lemma TwoEndsIffPrimaryKept(text: Text, store: Store, pairId: Id, action: Action, kept: Id, user: Id, now: int)
    requires Resolve(text, store, pairId, action, kept, user, now).Done?
    requires store.pairs[pairId].link.primary != store.pairs[pairId].link.duplicate
    ensures var after := Resolve(text, store, pairId, action, kept, user, now).store;
            && (pairId in after.pairs <==> action.Dismiss? || kept != store.pairs[pairId].link.primary)
            && (pairId in after.pairs ==>
                  after.pairs[pairId].link.primary == kept
                  && (after.pairs[pairId].link.primary != after.pairs[pairId].link.duplicate <==>
                        kept == store.pairs[pairId].link.primary))
  {
  }

  /**
   The consequence over three requests, for every pending pair: dismiss it in favour of the former
   duplicate, reopen it, confirm it in favour of the same transaction. Each request succeeds, each
   names the transaction as the one to keep, and the last deletes it.
   */
  lemma DismissReopenConfirmDeletesKept(text: Text, store: Store, pairId: Id, user: Id, now: int)
    requires Loads(store, pairId, user) && store.pairs[pairId].link.status == Pending
    requires var link := store.pairs[pairId].link;
             link.primary != link.duplicate && Owner(store, link.duplicate) == Some(user)
    ensures var kept := store.pairs[pairId].link.duplicate;
            var first := Resolve(text, store, pairId, Dismiss, kept, user, now);
            && first.Done?
            && var second := Reopen(first.store, pairId, user);
               && second.Done?
               && var third := Resolve(text, second.store, pairId, Confirm, kept, user, now);
                  third.Done? && kept !in third.store.txs
  {
  }

  /** Reopening changes one pair's status and nothing else, and undoes nothing a confirmation deleted. */
  lemma ReopenKeepsIntegrity(store: Store, pairId: Id, user: Id)
    requires Integrity(store) && Reopen(store, pairId, user).Done?
    ensures var after := Reopen(store, pairId, user).store;
            && Integrity(after)
            && after == store.(pairs := after.pairs) && after.pairs.Keys == store.pairs.Keys
            && Ends(after.pairs[pairId].link) == Ends(store.pairs[pairId].link)
            && after.pairs[pairId].link.status == Pending
            && (forall p :: p in store.pairs && p != pairId ==> after.pairs[p] == store.pairs[p])
  {
  }

  /** The symmetric unique index survives a resolution exactly when the two-ended pair it may collapse meets no equal. */
  lemma UniqueIffNoOtherSelfPair(text: Text, store: Store, pairId: Id, action: Action, kept: Id, user: Id, now: int)
    requires UniquePairs(store.pairs) && Resolve(text, store, pairId, action, kept, user, now).Done?
    ensures var after := Resolve(text, store, pairId, action, kept, user, now).store;
            var link := store.pairs[pairId].link;
            UniquePairs(after.pairs) <==>
            kept == link.primary || !exists q :: q in store.pairs && q != pairId && Ends(store.pairs[q].link) == {kept}
  {
    var after := Resolve(text, store, pairId, action, kept, user, now).store;
    var link, gone := store.pairs[pairId].link, Discarded(store.pairs[pairId].link, kept);
    assert forall p :: p in after.pairs && p != pairId ==> p in store.pairs && after.pairs[p] == store.pairs[p];
    if kept == link.primary {
      assert pairId in after.pairs ==> Ends(after.pairs[pairId].link) == Ends(link);
    } else {
      assert kept == link.duplicate && gone == link.primary && gone != kept;
      assert pairId in after.pairs && Ends(after.pairs[pairId].link) == {kept};
      forall q | q in store.pairs && q != pairId && Ends(store.pairs[q].link) == {kept}
        ensures q in after.pairs && Ends(after.pairs[q].link) == Ends(after.pairs[pairId].link)
      {
        assert gone !in {kept};
      }
    }
  }

  /** Deleting a transaction without its pairs and corrections. */
  function Dropped(store: Store, t: Id): Store {
    store.(txs := store.txs - {t})
  }

  function TransactionsOf(store: Store, email: Id): set<Id> {
    set t | t in store.txs && store.txs[t].emailId == Some(email)
  }

  /**
   What undoing the review of a kept email does to these tables: it deletes the email's transaction, if it has
   one, and raises, leaving all as it was, if the email has several.
   */
  ghost function UndoneKeep(store: Store, email: Id): Store {
    var found := TransactionsOf(store, email);
    if |found| != 1 then store
    else var t :| t in found; Dropped(store, t)
  }

  lemma DropKeepsIntegrityIffUnnamed(store: Store, t: Id)
    requires Integrity(store) && t in store.txs
    ensures Integrity(Dropped(store, t)) <==> Unnamed(store, t)
  {
    if Integrity(Dropped(store, t)) {
      forall p | p in store.pairs ensures t !in Ends(store.pairs[p].link) {
        assert store.pairs[p].link.primary in store.txs - {t} && store.pairs[p].link.duplicate in store.txs - {t};
      }
    }
  }

  /** Undoing a kept email keeps integrity exactly when it raises or nothing names a transaction of the email. */
  lemma {:induction false} UndoKeepsIntegrityIff(store: Store, email: Id)
    requires Integrity(store)
    ensures Integrity(UndoneKeep(store, email)) <==>
            |TransactionsOf(store, email)| > 1 || forall t :: t in TransactionsOf(store, email) ==> Unnamed(store, t)
  {
    var found := TransactionsOf(store, email);
    if |found| == 1 {
      var t :| t in found && UndoneKeep(store, email) == Dropped(store, t);
      assert found == {t} by {
        OnlyMember(found, t);
      }
      hide UndoneKeep, TransactionsOf, Integrity, Unnamed;
      DropKeepsIntegrityIffUnnamed(store, t);
    }
  }

  lemma OnlyMember(s: set<Id>, x: Id)
    requires |s| == 1 && x in s
    ensures s == {x}
  {
    assert |s - {x}| == 0;
  }

  // Whole runs

  datatype Event =
    | Arriving(tx: Transaction, email: Email)
    | ScanRun(txId: Id, scans: seq<seq<Id>>)
    | BatchRun(news: seq<Entry>, user: Id, scan: seq<Id>, plan: History<Comparison>)
    | Correcting(correction: Id, txId: Id)
    | Resolving(pairId: Id, action: Action, kept: Id, user: Id, now: int)
    | Reopening(pairId: Id, user: Id)
    | UndoingKeep(emailId: Id)

  function Accepted(store: Store, outcome: Outcome): Store {
    if outcome.Done? then outcome.store else store
  }

  ghost function Step(text: Text, store: Store, e: Event): Store {
    match e
    case Arriving(tx, email) => store.(txs := store.txs[tx.id := tx], emails := store.emails[email.id := email])
    case ScanRun(txId, scans) => if |scans| == 4 then Detect(text, store, txId, scans) else store
    case BatchRun(_, user, _, plan) => BatchDetect(text, store, user, plan)
    case Correcting(correction, txId) =>
      if txId in store.txs then store.(corrections := store.corrections[correction := txId]) else store
    case Resolving(pairId, action, kept, user, now) => Accepted(store, Resolve(text, store, pairId, action, kept, user, now))
    case Reopening(pairId, user) => Accepted(store, Reopen(store, pairId, user))
    case UndoingKeep(email) => UndoneKeep(store, email)
  }

  /** Queries scan the whole table, batches are of stored rows, and no undo hits a transaction that is named. */
  ghost predicate Sensible(store: Store, e: Event) {
    match e
    case ScanRun(_, scans) => Complete(scans, store.txs)
    case BatchRun(news, user, scan, plan) =>
      NewsRows(store, user, news) && Covers(plan, news, Existing(store, user, news, scan))
    case UndoingKeep(email) => forall t :: t in TransactionsOf(store, email) ==> Unnamed(store, t)
    case _ => true
  }

  ghost function After(text: Text, start: Store, h: History<Event>): Store {
    if h.Empty? then start else Step(text, After(text, start, h.past), h.last)
  }

  ghost predicate SensibleRun(text: Text, start: Store, h: History<Event>) {
    h.Then? ==> SensibleRun(text, start, h.past) && Sensible(After(text, start, h.past), h.last)
  }

  /**
   Over every run of arrivals, detections, corrections, resolutions, reopenings and undone reviews, every
   transaction named by a pair or a correction exists, as long as no undo hits a named one.
   */
  lemma {:induction false} IntegrityOverRuns(text: Text, start: Store, h: History<Event>)
    requires Integrity(start) && SensibleRun(text, start, h)
    ensures Integrity(After(text, start, h))
  {
    if h.Then? {
      IntegrityOverRuns(text, start, h.past);
      StepKeepsIntegrity(text, After(text, start, h.past), h.last);
    }
  }

  lemma StepKeepsIntegrity(text: Text, store: Store, e: Event)
    requires Integrity(store) && Sensible(store, e)
    ensures Integrity(Step(text, store, e))
  {
    match e
    case Arriving(tx, email) =>
    case ScanRun(txId, scans) => ScanKeepsIntegrity(text, store, txId, scans);
    case BatchRun(news, user, scan, plan) => BatchKeepsIntegrity(text, store, news, user, scan, plan);
    case Correcting(_, _) =>
    case Resolving(pairId, action, kept, user, now) =>
      if Resolve(text, store, pairId, action, kept, user, now).Done? {
        ResolveKeepsIntegrity(text, store, pairId, action, kept, user, now);
      }
    case Reopening(_, _) =>
    case UndoingKeep(email) => UndoKeepsIntegrityIff(store, email);
  }

  // Uniqueness over runs

  /** A resolution does not leave a second pair of the kept transaction with itself. */
  ghost predicate LeavesUnique(text: Text, store: Store, e: Event) {
    e.Resolving? && Resolve(text, store, e.pairId, e.action, e.kept, e.user, e.now).Done? ==>
      || e.kept == store.pairs[e.pairId].link.primary
      || !exists q :: q in store.pairs && q != e.pairId && Ends(store.pairs[q].link) == {e.kept}
  }

  ghost predicate AllLeaveUnique(text: Text, start: Store, h: History<Event>) {
    h.Then? ==> AllLeaveUnique(text, start, h.past) && LeavesUnique(text, After(text, start, h.past), h.last)
  }

  /** The symmetric unique index is obeyed all along. */
  ghost predicate UniqueThroughout(text: Text, start: Store, h: History<Event>) {
    UniquePairs(After(text, start, h).pairs) && (h.Then? ==> UniqueThroughout(text, start, h.past))
  }

  /**
   Over every run, the symmetric unique index is obeyed all along if and only if every accepted resolution keeps
   the current primary or finds no other pair of the kept transaction with itself; no other event breaks it.
   */
  lemma {:induction false} UniqueOverRunsIff(text: Text, start: Store, h: History<Event>)
    requires Integrity(start) && UniquePairs(start.pairs) && SensibleRun(text, start, h)
    ensures UniqueThroughout(text, start, h) <==> AllLeaveUnique(text, start, h)
  {
    if h.Then? {
      UniqueOverRunsIff(text, start, h.past);
      IntegrityOverRuns(text, start, h.past);
      if UniqueThroughout(text, start, h.past) {
        StepUniqueIff(text, After(text, start, h.past), h.last);
      }
    }
  }

  lemma StepUniqueIff(text: Text, store: Store, e: Event)
    requires Integrity(store) && UniquePairs(store.pairs) && Sensible(store, e)
    ensures UniquePairs(Step(text, store, e).pairs) <==> LeavesUnique(text, store, e)
  {
    match e
    case Arriving(_, _) =>
    case ScanRun(txId, scans) => ScanKeepsUnique(text, store, txId, scans);
    case BatchRun(news, user, scan, plan) => BatchKeepsUnique(text, store, news, user, scan, plan);
    case Correcting(_, _) =>
    case Resolving(pairId, action, kept, user, now) =>
      if Resolve(text, store, pairId, action, kept, user, now).Done? {
        UniqueIffNoOtherSelfPair(text, store, pairId, action, kept, user, now);
      }
    case Reopening(pairId, user) =>
      if Reopen(store, pairId, user).Done? {
        ReopenKeepsUnique(store, pairId, user);
      }
    case UndoingKeep(_) =>
  }

  lemma ReopenKeepsUnique(store: Store, pairId: Id, user: Id)
    requires UniquePairs(store.pairs) && Reopen(store, pairId, user).Done?
    ensures UniquePairs(Reopen(store, pairId, user).store.pairs)
  {
  }

  lemma ScanKeepsUnique(text: Text, store: Store, txId: Id, scans: seq<seq<Id>>)
    requires Integrity(store) && UniquePairs(store.pairs) && Complete(scans, store.txs)
    ensures UniquePairs(Detect(text, store, txId, scans).pairs)
  {
    hide RunPasses, Final;
    var after := Detect(text, store, txId, scans);
    if after != store {
      var call := Call(text, store.txs[txId], store.EmailOf(store.txs[txId]).value, store);
      DetectDoesWhatVerdictsSay(call, scans);
      DetectKeepsUnique(call, after);
    }
  }

  lemma BatchKeepsUnique(text: Text, store: Store, news: seq<Entry>, user: Id, scan: seq<Id>, plan: History<Comparison>)
    requires Integrity(store) && UniquePairs(store.pairs)
    requires NewsRows(store, user, news) && Covers(plan, news, Existing(store, user, news, scan))
    ensures UniquePairs(BatchDetect(text, store, user, plan).pairs)
  {
    var batch := Batch(text, store.rules, user, Known(store, user));
    var existing, t := Existing(store, user, news, scan), Compared(batch, Begin(store), plan);
    KeyedIfIntegral(store);
    BatchRecordsExactlyWanted(batch, store, plan, news, existing);
    BatchRunIs(text, store, user, plan);
    hide *;
    forall p | IsNew(store, t, p)
      ensures p in t.pairs && forall q :: q in store.pairs ==> Ends(store.pairs[q].link) != Ends(t.pairs[p].link)
    {
      NewRowIsHas(store, t, p);
      WantedIsUnknown(batch, store, user, news, scan, t.pairs[p].link);
    }
    NewRowsKeepUnique(store, t);
  }

  lemma WantedIsUnknown(batch: Batch, store: Store, user: Id, news: seq<Entry>, scan: seq<Id>, link: Link)
    requires store.Keyed() && NewsRows(store, user, news) && batch.known == Known(store, user)
    requires Wanted(batch, news, Existing(store, user, news, scan), Ends(link))
    ensures forall q :: q in store.pairs ==> Ends(store.pairs[q].link) != Ends(link)
  {
    hide Worth, Planned, Existing, NewsRows, Known, Owner;
    var c :| Planned(news, Existing(store, user, news, scan), c) && c.Key() == Ends(link) && Worth(batch, c);
    PlannedIsUsers(store, user, news, scan, c);
    assert forall x :: x in Ends(link) ==> x in c.Key();
    UnknownPair(store, user, link);
  }

  lemma NewRowsKeepUnique(store: Store, t: Tally)
    requires UniquePairs(store.pairs) && OldRowsStay(store, t) && OneRowPerKey(store, t)
    requires forall p :: IsNew(store, t, p) ==>
               p in t.pairs && forall q :: q in store.pairs ==> Ends(store.pairs[q].link) != Ends(t.pairs[p].link)
    ensures UniquePairs(Batched(store, t).pairs)
  {
    hide Ends;
    forall p, q | p in t.pairs && q in t.pairs && p != q ensures Ends(t.pairs[p].link) != Ends(t.pairs[q].link) {
      assert p !in store.pairs ==> IsNew(store, t, p);
      assert q !in store.pairs ==> IsNew(store, t, q);
    }
  }

  // What runs teach

  /** The lesson of a resolution that is accepted, if it has one. */
  function LessonIn(text: Text, store: Store, e: Event): Option<Lesson> {
    if e.Resolving? && Resolve(text, store, e.pairId, e.action, e.kept, e.user, e.now).Done?
    then LessonOf(text, store, e.kept, Discarded(store.pairs[e.pairId].link, e.kept), e.user, e.action.Confirm?)
    else None
  }

  /** The lessons of a run, in order. */
  ghost function LessonsOf(text: Text, start: Store, h: History<Event>): seq<Lesson> {
    if h.Empty? then []
    else
      var lesson := LessonIn(text, After(text, start, h.past), h.last);
      LessonsOf(text, start, h.past) + if lesson.Some? then [lesson.value] else []
  }

  lemma StepTeaches(text: Text, store: Store, e: Event)
    ensures Step(text, store, e).rules == Taught(store.rules, LessonIn(text, store, e))
  {
    hide LessonOf, RunPasses, Compared, Known;
  }

  /**
   Over every run of all these events, the rule table is what the run's accepted resolutions teach, in order,
   and nothing else touches it.
   */
  lemma {:induction false} RunsTeachTheirLessons(text: Text, start: Store, h: History<Event>)
    ensures After(text, start, h).rules == LearnAll(start.rules, LessonsOf(text, start, h))
  {
    if h.Then? {
      RunsTeachTheirLessons(text, start, h.past);
      var before := After(text, start, h.past);
      StepTeaches(text, before, h.last);
      hide Step, LessonIn, Learn;
      var earlier := LessonsOf(text, start, h.past);
      var lesson := LessonIn(text, before, h.last);
      if lesson.Some? {
        assert (earlier + [lesson.value])[..|earlier|] == earlier;
      } else {
        assert earlier + [] == earlier;
      }
    }
  }

  /**
   The counters over runs: a rule ends with its starting counts plus the resolutions that were routed to it
   by the rules at the start, and the trust that they earn; a rule that none was routed to is untouched.
   */
  lemma {:induction false} RunCounters(text: Text, start: Store, h: History<Event>, key: RuleKey)
    ensures var lessons, after := LessonsOf(text, start, h), After(text, start, h).rules;
            var yes, no := Routed(start.rules, lessons, key, true), Routed(start.rules, lessons, key, false);
            && (key in after <==> key in start.rules || yes + no > 0)
            && RuleAt(after, key).confirmed == RuleAt(start.rules, key).confirmed + yes
            && RuleAt(after, key).dismissed == RuleAt(start.rules, key).dismissed + no
            && (yes + no > 0 ==> Earned(after[key]))
            && (yes + no == 0 ==> RuleAt(after, key) == RuleAt(start.rules, key))
  {
    hide *;
    RunsTeachTheirLessons(text, start, h);
    CountersAreExact(start.rules, LessonsOf(text, start, h), key);
  }

  /** Runs with the same lessons in any order end with the same rules, whatever else happens in them. */
  lemma {:induction false} SameLessonsSameRules(
      text: Text, start: Store, other: Store, h: History<Event>, g: History<Event>)
    requires start.rules == other.rules && multiset(LessonsOf(text, start, h)) == multiset(LessonsOf(text, other, g))
    ensures After(text, start, h).rules == After(text, other, g).rules
  {
    RunsTeachTheirLessons(text, start, h);
    RunsTeachTheirLessons(text, other, g);
    hide *;
    OrderIrrelevant(start.rules, LessonsOf(text, start, h), LessonsOf(text, other, g));
  }

  lemma NewRowNamesRows(call: Call, after: Store, p: Id)
    requires call.Valid() && OnlyVerdicts(call, after) && NewRow(call.store, after, p)
    ensures after.pairs[p].link.primary in call.store.txs && after.pairs[p].link.duplicate in call.store.txs
  {
    hide Final;
    var c: Id :| Final(call, c).Record? && after.pairs[p] == Pair(Final(call, c).link, None);
    FinalNamesCandidate(call, c);
    assert after.pairs[p].link.primary in {call.tx.id, c} && after.pairs[p].link.duplicate in {call.tx.id, c};
  }

  lemma ScanKeepsIntegrity(text: Text, store: Store, txId: Id, scans: seq<seq<Id>>)
    requires Integrity(store) && Complete(scans, store.txs)
    ensures Integrity(Detect(text, store, txId, scans))
  {
    hide RunPasses, OnlyVerdicts, EveryVerdict, OneRowEach;
    var after := Detect(text, store, txId, scans);
    if after != store {
      var call := Call(text, store.txs[txId], store.EmailOf(store.txs[txId]).value, store);
      DetectDoesWhatVerdictsSay(call, scans);
      ChangedOnlyLabels(call, after);
      hide RelabelsDuplicates;
      forall p | p in after.pairs
        ensures after.pairs[p].link.primary in store.txs && after.pairs[p].link.duplicate in store.txs
      {
        if NewRow(store, after, p) {
          NewRowNamesRows(call, after, p);
        }
      }
    }
  }

  lemma WantedNamesRows(batch: Batch, store: Store, user: Id, news: seq<Entry>, scan: seq<Id>, link: Link)
    requires store.Keyed() && NewsRows(store, user, news)
    requires Wanted(batch, news, Existing(store, user, news, scan), Ends(link))
    ensures link.primary in store.txs && link.duplicate in store.txs
  {
    hide Worth, Planned, Existing, NewsRows;
    var c :| Planned(news, Existing(store, user, news, scan), c) && c.Key() == Ends(link) && Worth(batch, c);
    PlannedIsUsers(store, user, news, scan, c);
    assert link.primary in c.Key() && link.duplicate in c.Key();
  }

  lemma NewRowsKeepIntegrity(store: Store, t: Tally)
    requires Integrity(store) && OldRowsStay(store, t) && forall p :: p in t.pairs ==> p < t.nextPair
    requires forall p :: IsNew(store, t, p) ==> t.pairs[p].link.primary in store.txs && t.pairs[p].link.duplicate in store.txs
    ensures Integrity(Batched(store, t))
  {
  }

  lemma BatchKeepsIntegrity(text: Text, store: Store, news: seq<Entry>, user: Id, scan: seq<Id>, plan: History<Comparison>)
    requires Integrity(store) && NewsRows(store, user, news) && Covers(plan, news, Existing(store, user, news, scan))
    ensures Integrity(BatchDetect(text, store, user, plan))
  {
    var batch := Batch(text, store.rules, user, Known(store, user));
    var existing, t := Existing(store, user, news, scan), Compared(batch, Begin(store), plan);
    BatchRecordsExactlyWanted(batch, store, plan, news, existing);
    hide *;
    forall p | IsNew(store, t, p)
      ensures t.pairs[p].link.primary in store.txs && t.pairs[p].link.duplicate in store.txs
    {
      NewRowIsHas(store, t, p);
      KeyedIfIntegral(store);
      WantedNamesRows(batch, store, user, news, scan, t.pairs[p].link);
    }
    NewRowsKeepIntegrity(store, t);
    BatchRunIs(text, store, user, plan);
  }

  lemma BatchRunIs(text: Text, store: Store, user: Id, plan: History<Comparison>)
    ensures BatchDetect(text, store, user, plan) ==
            Batched(store, Compared(Batch(text, store.rules, user, Known(store, user)), Begin(store), plan))
  {
  }

  lemma NewRowIsHas(store: Store, t: Tally, p: Id)
    requires IsNew(store, t, p)
    ensures p in t.pairs && HasNewRow(store, t, Ends(t.pairs[p].link))
  {
  }

  lemma KeyedIfIntegral(store: Store)
    requires Integrity(store)
    ensures store.Keyed()
  {
  }
}
