/**
 What the incremental detector records, said of the tables before and after: which pairs it resolves by itself,
 which it leaves to the user, and that it does nothing else.
 */
module Recording {
  import opened Common
  import opened Entities
  import opened Scoring
  import opened Evidence
  import opened Detection
  import opened DetectionRuns

  ghost predicate Stored(store: Store, c: Id, e: Entry) {
    c in store.txs && e.tx == store.txs[c] && store.EmailOf(e.tx) == Some(e.email)
  }

  /** The detector looks at the transaction at all. */
  ghost predicate Examined(store: Store, txId: Id, n: Entry) {
    Stored(store, txId, n) && n.tx.amount.Some? && n.tx.tag != Income && Sent(n.email)
  }

  ghost predicate PairedBefore(store: Store, a: Id, b: Id) {
    exists p :: p in store.pairs
                && ((store.pairs[p].link.primary == a && store.pairs[p].link.duplicate == b)
                    || (store.pairs[p].link.primary == b && store.pairs[p].link.duplicate == a))
  }

  predicate Apart(a: Option<int>, b: Option<int>, reach: int) {
    a.Some? && b.Some? && a.value <= b.value + reach && b.value <= a.value + reach
  }

  /** Another expense of the user with a close amount. */
  predicate Comparable(n: Entry, c: Entry, percent: real) {
    && c.tx.id != n.tx.id && c.tx.tag == Expense && c.email.userId == n.email.userId
    && n.tx.amount.Some? && c.tx.amount.Some? && CloseAmounts(n.tx.amount.value, c.tx.amount.value, percent)
  }

  /** The other's own date is near the best date of the new one, or else its arrival is near the new one's. */
  ghost predicate DatedNear(n: Entry, c: Entry, days: int) {
    exists d :: BestDate(n, d)
                && if c.tx.txnDate.Some? then Apart(Some(d), c.tx.txnDate, days)
                   else Apart(n.email.receivedAt, c.email.receivedAt, days * DAY)
  }

  /** From the same sender, within three days of each other. */
  predicate FromSameSender(n: Entry, c: Entry) {
    && Comparable(n, c, 0.5) && c.email.senderDomain == n.email.senderDomain
    && if n.email.receivedAt.Some? then Apart(n.email.receivedAt, c.email.receivedAt, 3 * DAY)
       else Apart(n.tx.txnDate, c.tx.txnDate, 3)
  }

  /** From another sender, within one day. */
  ghost predicate FromOtherSender(s: Scale, n: Entry, c: Entry) {
    && Comparable(n, c, 0.5) && DatedNear(n, c, 1)
    && Sent(c.email) && Sender(s.text, c.email) != Sender(s.text, n.email)
  }

  /** An investment order and its confirmation, within three days. */
  ghost predicate OrderMeetsConfirmation(s: Scale, n: Entry, c: Entry) {
    && (exists d :: BestDate(n, d)) && Comparable(n, c, 0.5)
    && c.email.senderDomain.Some? && c.email.senderDomain != n.email.senderDomain
    && Apart(n.email.receivedAt, c.email.receivedAt, 3 * DAY) && OneOrdersOneConfirms(s.text, n.email, c.email)
  }

  /** In the wider window of the shared scorer. */
  ghost predicate InWiderWindow(n: Entry, c: Entry) {
    Comparable(n, c, 3.0) && DatedNear(n, c, 3) && c.email.senderDomain.Some?
  }

  ghost predicate TrustedRule(s: Scale, n: Entry, c: Entry) {
    exists rule :: RuleOf(s, n, c, rule) && rule.autoResolve
  }

  /** The new one came first: by arrival, else by date, else by creation; it also wins ties. */
  predicate NewCameFirst(n: Entry, c: Entry) {
    if n.email.receivedAt.Some? && c.email.receivedAt.Some? then n.email.receivedAt.value <= c.email.receivedAt.value
    else if n.tx.txnDate.Some? && c.tx.txnDate.Some? then n.tx.txnDate.value <= c.tx.txnDate.value
    else if n.tx.createdAt.Some? && c.tx.createdAt.Some? then n.tx.createdAt.value <= c.tx.createdAt.value
    else true
  }

  /**
   The detector resolves the pair by itself: one sender; or two senders, evidence, and a trusted rule; or a common
   reference, where no earlier question has settled the pair.
   */
  ghost predicate ResolvesItself(s: Scale, n: Entry, c: Entry, source: Source, confidence: real) {
    if FromSameSender(n, c) then source == SameDomainExact && confidence == 1.0
    else if FromOtherSender(s, n, c) then
      Weighs(s, n, c, source, confidence) && (TrustedRule(s, n, c) || source == ReferenceIdMatch)
    else
      && !OrderMeetsConfirmation(s, n, c) && InWiderWindow(n, c)
      && Weighs(s, n, c, source, confidence) && source == ReferenceIdMatch
  }

  /** The detector leaves the pair to the user, with the new transaction or, for a confirmation, its order first. */
  ghost predicate AsksUser(s: Scale, n: Entry, c: Entry, newFirst: bool, source: Source, confidence: real) {
    && !FromSameSender(n, c)
    && if FromOtherSender(s, n, c) then
         newFirst && Weighs(s, n, c, source, confidence) && !TrustedRule(s, n, c) && source != ReferenceIdMatch
       else if OrderMeetsConfirmation(s, n, c) then
         source == InvestmentFlow && confidence == 0.65 && (newFirst <==> s.text.isOrder(n.email.subject))
       else
         && newFirst && InWiderWindow(n, c)
         && Weighs(s, n, c, source, confidence) && (source == MerchantAlias || source == AmountDate)
  }

  /** The row that the detector adds for the new transaction and another one. */
  ghost predicate Called(s: Scale, n: Entry, c: Entry, link: Link) {
    && (if link.status.AutoResolved? then ResolvesItself(s, n, c, link.source, link.confidence)
        else link.status.Pending? && AsksUser(s, n, c, link.primary == n.tx.id, link.source, link.confidence))
    && (if link.status.AutoResolved? then link.primary == if NewCameFirst(n, c) then n.tx.id else c.tx.id
        else link.primary == n.tx.id || link.primary == c.tx.id)
    && link.duplicate == if link.primary == n.tx.id then c.tx.id else n.tx.id
  }

  ghost predicate CalledIn(text: Text, store: Store, txId: Id, link: Link) {
    exists n, c, d :: Examined(store, txId, n) && Stored(store, d, c) && !PairedBefore(store, txId, d)
                      && Called(Scale(text, store.rules, n.email.userId), n, c, link)
  }

  /** The transaction is the later one of a pair that the detector resolves by itself. */
  ghost predicate Drops(text: Text, store: Store, txId: Id, t: Id) {
    exists link :: CalledIn(text, store, txId, link) && link.status.AutoResolved? && link.duplicate == t
  }

  /**
   Between the two tables the detector has added exactly the rows called for, unresolved by a user, one for two
   transactions, has relabelled exactly the later ones of those it resolved itself, and has touched nothing else.
   */
  ghost predicate DetectorRecorded(text: Text, store: Store, txId: Id, after: Store) {
    && after == store.(txs := after.txs, pairs := after.pairs, nextPair := after.nextPair)
    && (forall p :: p in store.pairs ==> p in after.pairs && after.pairs[p] == store.pairs[p])
    && (forall p :: p in after.pairs && p !in store.pairs ==>
          after.pairs[p].resolvedAt == None && CalledIn(text, store, txId, after.pairs[p].link))
    && (forall link :: CalledIn(text, store, txId, link) ==>
          exists p :: p in after.pairs && p !in store.pairs && after.pairs[p].link == link)
    && (forall p, q :: p in after.pairs && q in after.pairs && p !in store.pairs && q !in store.pairs && p != q ==>
          Ends(after.pairs[p].link) != Ends(after.pairs[q].link))
    && after.txs.Keys == store.txs.Keys
    && (forall t :: t in store.txs ==>
          after.txs[t] == store.txs[t].(tag := if Drops(text, store, txId, t) then Ignored else store.txs[t].tag))
  }

  // --- The passes, one by one ---

  function ScaleOf(call: Call): Scale {
    Scale(call.text, call.store.rules, call.email.userId)
  }

  function NewEntry(call: Call): Entry {
    Entry(call.tx, call.email)
  }

  lemma ComparableIs(call: Call, c: Entry, bulk: bool)
    ensures Candidate(call, c.tx, c.email, bulk) <==> Comparable(NewEntry(call), c, if bulk then 3.0 else 0.5)
  {
    if call.tx.amount.Some? && c.tx.amount.Some? {
      CloseAmountsIs(call.tx.amount.value, c.tx.amount.value, bulk);
      hide CloseAmounts, Tolerance;
    }
  }

  lemma DatedIs(call: Call, c: Entry, days: int)
    ensures Dated(call, c.tx, c.email, days) <==> DatedNear(NewEntry(call), c, days)
    ensures Dated(call, c.tx, c.email, days) ==> EffectiveDate(call.tx, call.email).Some?
    ensures EffectiveDate(call.tx, call.email).Some? <==> exists d :: BestDate(NewEntry(call), d)
  {
    var date := EffectiveDate(call.tx, call.email);
    forall d ensures date == Some(d) <==> BestDate(NewEntry(call), d) {
      BestDateIs(NewEntry(call), d);
    }
    hide EffectiveDate, BestDate;
    if date.Some? {
      assert BestDate(NewEntry(call), date.value);
    }
  }

  lemma FirstQueryIs(call: Call, c: Entry)
    ensures Selected(call, 1, c.tx, c.email) <==> FromSameSender(NewEntry(call), c)
  {
    ComparableIs(call, c, false);
    hide Candidate, Comparable;
  }

  /** The second pass leaves a row alone exactly when it is not from another sender. */
  lemma SecondQueryIs(call: Call, c: Entry)
    requires HasDomain(call.email)
    ensures FromOtherSender(ScaleOf(call), NewEntry(call), c) <==>
            && Selected(call, 2, c.tx, c.email)
            && HasDomain(c.email) && Domain(call.text, c.email) != Domain(call.text, call.email)
  {
    ComparableIs(call, c, false);
    DatedIs(call, c, 1);
    hide Candidate, Comparable, Dated, DatedNear, EffectiveDate, BestDate;
  }

  lemma ThirdQueryIs(call: Call, c: Entry)
    ensures OrderMeetsConfirmation(ScaleOf(call), NewEntry(call), c) <==>
            && Selected(call, 3, c.tx, c.email)
            && ((call.text.isOrder(call.email.subject) && call.text.isConfirm(c.email.subject))
                || (call.text.isConfirm(call.email.subject) && call.text.isOrder(c.email.subject)))
  {
    ComparableIs(call, c, false);
    DatedIs(call, c, 1);
    hide Candidate, Comparable, Dated, DatedNear, EffectiveDate, BestDate;
  }

  lemma FourthQueryIs(call: Call, c: Entry)
    ensures Selected(call, 4, c.tx, c.email) <==> InWiderWindow(NewEntry(call), c)
  {
    ComparableIs(call, c, true);
    DatedIs(call, c, 3);
    hide Candidate, Comparable, Dated, DatedNear, EffectiveDate, BestDate;
  }

  lemma TrustIs(call: Call, c: Entry)
    ensures TrustedRule(ScaleOf(call), NewEntry(call), c) <==>
            var rule := RuleFor(call.store.rules, call.email.userId, DomainPairOf(call.text, call.email, c.email));
            rule.Some? && rule.value.autoResolve
  {
    var s, n := ScaleOf(call), NewEntry(call);
    var domains := DomainPairOf(call.text, call.email, c.email);
    forall rule ensures RuleOf(s, n, c, rule) <==> RuleFor(call.store.rules, call.email.userId, domains) == Some(rule) {
      AppliesIs(call.store.rules, call.email.userId, domains, rule);
    }
    hide RuleOf, RuleFor;
    var rule := RuleFor(call.store.rules, call.email.userId, domains);
    if rule.Some? && rule.value.autoResolve {
      assert RuleOf(s, n, c, rule.value);
    }
  }

  // --- What the passes decide together ---

  /** The first pass keeps what it selects. */
  lemma FirstDecides(call: Call, c: Entry, link: Link)
    requires FromSameSender(NewEntry(call), c)
    ensures Decide(call, 1, c.tx, c.email) == Outcome.Record(link) <==> Called(ScaleOf(call), NewEntry(call), c, link)
  {
    hide FromOtherSender, OrderMeetsConfirmation, InWiderWindow, Weighs, TrustedRule, FromSameSender;
    PrimaryIs(call, c);
    hide PickPrimary, NewCameFirst;
    DistinctIds(call, c);
  }

  lemma DistinctIds(call: Call, c: Entry)
    ensures FromSameSender(NewEntry(call), c) ==> c.tx.id != call.tx.id
    ensures FromOtherSender(ScaleOf(call), NewEntry(call), c) ==> c.tx.id != call.tx.id
    ensures OrderMeetsConfirmation(ScaleOf(call), NewEntry(call), c) ==> c.tx.id != call.tx.id
    ensures InWiderWindow(NewEntry(call), c) ==> c.tx.id != call.tx.id
  {
  }

  lemma PrimaryIs(call: Call, c: Entry)
    ensures PickPrimary(call.tx, call.email, c.tx, c.email) == if NewCameFirst(NewEntry(call), c) then call.tx.id else c.tx.id
  {
  }

  lemma SecondDecides(call: Call, c: Entry, link: Link)
    requires HasDomain(call.email)
    requires !FromSameSender(NewEntry(call), c) && FromOtherSender(ScaleOf(call), NewEntry(call), c)
    ensures Decide(call, 2, c.tx, c.email) != Skip
    ensures Decide(call, 2, c.tx, c.email) == Outcome.Record(link) <==> Called(ScaleOf(call), NewEntry(call), c, link)
  {
    var s, n := ScaleOf(call), NewEntry(call);
    SecondQueryIs(call, c);
    PrimaryIs(call, c);
    DistinctIds(call, c);
    TrustIs(call, c);
    ScoreMeans(s, n, c, link.source, link.confidence);
    assert Detection.ScoreOf(call, c.tx, c.email) == ScoreOfEntries(s, n, c);
    hide FromOtherSender, OrderMeetsConfirmation, InWiderWindow, Weighs, TrustedRule, FromSameSender, PickPrimary,
         NewCameFirst, Selected, Convincing, RuleFor, ScoreOfEntries, Detection.ScoreOf, Domain, HasDomain;
  }

  lemma ThirdDecides(call: Call, c: Entry, link: Link)
    requires HasDomain(call.email)
    requires !FromSameSender(NewEntry(call), c) && !FromOtherSender(ScaleOf(call), NewEntry(call), c)
    requires OrderMeetsConfirmation(ScaleOf(call), NewEntry(call), c)
    ensures Decide(call, 3, c.tx, c.email) != Skip
    ensures Decide(call, 3, c.tx, c.email) == Outcome.Record(link) <==> Called(ScaleOf(call), NewEntry(call), c, link)
  {
    ThirdQueryIs(call, c);
    DistinctIds(call, c);
    hide FromOtherSender, OrderMeetsConfirmation, InWiderWindow, Weighs, TrustedRule, FromSameSender, PickPrimary,
         NewCameFirst, Selected;
  }

  lemma FourthDecides(call: Call, c: Entry, link: Link)
    requires HasDomain(call.email)
    requires !FromSameSender(NewEntry(call), c) && !FromOtherSender(ScaleOf(call), NewEntry(call), c)
    requires !OrderMeetsConfirmation(ScaleOf(call), NewEntry(call), c) && InWiderWindow(NewEntry(call), c)
    ensures Decide(call, 4, c.tx, c.email) == Outcome.Record(link) <==> Called(ScaleOf(call), NewEntry(call), c, link)
  {
    var s, n := ScaleOf(call), NewEntry(call);
    DistinctIds(call, c);
    CalledInWindow(s, n, c, link);
    ScoreMeans(s, n, c, link.source, link.confidence);
    assert Detection.ScoreOf(call, c.tx, c.email) == ScoreOfEntries(s, n, c);
    NoBodyDates(s, n, c);
    PrimaryIs(call, c);
    hide Called, FromOtherSender, OrderMeetsConfirmation, InWiderWindow, Weighs, TrustedRule, FromSameSender, PickPrimary,
         NewCameFirst, Convincing, ScoreOfEntries, Detection.ScoreOf;
  }

  /** In the wider window alone, a row is called for by what the two weigh. */
  lemma CalledInWindow(s: Scale, n: Entry, c: Entry, link: Link)
    requires !FromSameSender(n, c) && !FromOtherSender(s, n, c)
    requires !OrderMeetsConfirmation(s, n, c) && InWiderWindow(n, c)
    ensures Called(s, n, c, link) <==>
            && Weighs(s, n, c, link.source, link.confidence)
            && (if link.source == ReferenceIdMatch then
                  link.status == AutoResolved && link.primary == if NewCameFirst(n, c) then n.tx.id else c.tx.id
                else
                  && (link.source == MerchantAlias || link.source == AmountDate)
                  && link.status == Pending && link.primary == n.tx.id)
            && link.duplicate == if link.primary == n.tx.id then c.tx.id else n.tx.id
  {
    hide FromOtherSender, OrderMeetsConfirmation, InWiderWindow, Weighs, TrustedRule, FromSameSender, NewCameFirst;
  }

  lemma NoBodyDates(s: Scale, a: Entry, b: Entry)
    ensures var source := ScoreOfEntries(s, a, b).source; source != BodyDateAnchor && source != BodyDateMerchant
  {
    var score := ScoreOfEntries(s, a, b);
    ScoreMeans(s, a, b, score.source, score.confidence);
    hide ScoreOfEntries, Weighable, Speaks, Convincing;
  }

  /** Nothing is called for where no query selects the row. */
  lemma NothingCalled(s: Scale, n: Entry, c: Entry, link: Link)
    requires !FromSameSender(n, c) && !FromOtherSender(s, n, c) && !OrderMeetsConfirmation(s, n, c) && !InWiderWindow(n, c)
    ensures !Called(s, n, c, link)
  {
  }

  lemma PassReaches(call: Call, pass: Pass, d: Id, c: Entry)
    requires Stored(call.store, d, c)
    ensures Reaches(call, pass, d) <==> Selected(call, pass, c.tx, c.email)
    ensures DecideRow(call, pass, d) == Decide(call, pass, c.tx, c.email)
  {
    hide Selected, Decide;
  }

  /** The passes that leave a row alone. */
  lemma LeftAlone(call: Call, c: Entry)
    requires HasDomain(call.email)
    ensures Selected(call, 1, c.tx, c.email) && Decide(call, 1, c.tx, c.email) != Skip <==> FromSameSender(NewEntry(call), c)
    ensures Selected(call, 2, c.tx, c.email) && Decide(call, 2, c.tx, c.email) != Skip <==>
            FromOtherSender(ScaleOf(call), NewEntry(call), c)
    ensures Selected(call, 3, c.tx, c.email) && Decide(call, 3, c.tx, c.email) != Skip <==>
            OrderMeetsConfirmation(ScaleOf(call), NewEntry(call), c)
  {
    FirstQueryIs(call, c);
    SecondQueryIs(call, c);
    ThirdQueryIs(call, c);
    hide FromOtherSender, OrderMeetsConfirmation, FromSameSender, Selected, Domain, HasDomain, Detection.ScoreOf, RuleFor,
         PickPrimary;
  }

  /** The verdict on a row, in terms of the decisions of the passes whose query selects it. */
  lemma VerdictIs(call: Call, d: Id, c: Entry)
    requires Stored(call.store, d, c) && d != call.tx.id && !AlreadyPaired(call.store.pairs, call.tx.id, d)
    ensures Final(call, d) == OfPass(call, c, 1)
  {
    hide Selected, Decide, AlreadyPaired, Reaches, DecideRow;
    PassReaches(call, 1, d, c);
    PassReaches(call, 2, d, c);
    PassReaches(call, 3, d, c);
    PassReaches(call, 4, d, c);
    assert Verdict(call, 0, d) == Skip;
    assert Verdict(call, 1, d) == Taken(call, c, 1, Skip);
    assert Verdict(call, 2, d) == Taken(call, c, 2, Verdict(call, 1, d));
    assert Verdict(call, 3, d) == Taken(call, c, 3, Verdict(call, 2, d));
    assert Verdict(call, 4, d) == Taken(call, c, 4, Verdict(call, 3, d));
  }

  function Taken(call: Call, c: Entry, pass: Pass, earlier: Outcome): Outcome {
    if earlier != Skip then earlier
    else if Selected(call, pass, c.tx, c.email) then Decide(call, pass, c.tx, c.email)
    else Skip
  }

  /** The decision of the first pass from this one on that selects the row and does not skip it. */
  function OfPass(call: Call, c: Entry, pass: Pass): Outcome
    decreases 4 - pass
  {
    if Selected(call, pass, c.tx, c.email) && (pass == 4 || Decide(call, pass, c.tx, c.email) != Skip)
    then Decide(call, pass, c.tx, c.email)
    else if pass == 4 then Skip
    else OfPass(call, c, pass + 1)
  }

  lemma OfPassIsCalled(call: Call, c: Entry, link: Link)
    requires HasDomain(call.email)
    ensures OfPass(call, c, 1) == Outcome.Record(link) <==> Called(ScaleOf(call), NewEntry(call), c, link)
  {
    hide Selected, Decide, Called, FromSameSender, FromOtherSender, OrderMeetsConfirmation, InWiderWindow;
    LeftAlone(call, c);
    FourthQueryIs(call, c);
    var s, n := ScaleOf(call), NewEntry(call);
    assert OfPass(call, c, 4) ==
           if Selected(call, 4, c.tx, c.email) then Decide(call, 4, c.tx, c.email) else Skip;
    if FromSameSender(n, c) {
      FirstDecides(call, c, link);
    } else if FromOtherSender(s, n, c) {
      SecondDecides(call, c, link);
      assert OfPass(call, c, 2) == Decide(call, 2, c.tx, c.email);
    } else if OrderMeetsConfirmation(s, n, c) {
      ThirdDecides(call, c, link);
      assert OfPass(call, c, 3) == Decide(call, 3, c.tx, c.email);
      assert OfPass(call, c, 2) == OfPass(call, c, 3);
    } else {
      assert OfPass(call, c, 3) == OfPass(call, c, 4);
      assert OfPass(call, c, 2) == OfPass(call, c, 3);
      if InWiderWindow(n, c) {
        FourthDecides(call, c, link);
      } else {
        NothingCalled(s, n, c, link);
      }
    }
  }

  lemma PairedIs(store: Store, a: Id, b: Id)
    ensures AlreadyPaired(store.pairs, a, b) <==> PairedBefore(store, a, b)
  {
    forall p | p in store.pairs
      ensures Ends(store.pairs[p].link) == {a, b} <==>
              || (store.pairs[p].link.primary == a && store.pairs[p].link.duplicate == b)
              || (store.pairs[p].link.primary == b && store.pairs[p].link.duplicate == a)
    {
      SamePair(store.pairs[p].link.primary, store.pairs[p].link.duplicate, a, b);
    }
  }

  lemma SamePair(x: Id, y: Id, a: Id, b: Id)
    ensures {x, y} == {a, b} <==> (x == a && y == b) || (x == b && y == a)
  {
    if {x, y} == {a, b} {
      assert x in {a, b} && y in {a, b} && a in {x, y} && b in {x, y};
    }
  }

  /** Detection and reference meet: the verdict on a row records the link that is called for. */
  lemma FinalIs(call: Call, d: Id, link: Link)
    requires call.Valid()
    ensures Final(call, d) == Outcome.Record(link) <==>
            exists c :: Stored(call.store, d, c) && !PairedBefore(call.store, call.tx.id, d)
                        && Called(ScaleOf(call), NewEntry(call), c, link)
  {
    hide Called, Final, AlreadyPaired, PairedBefore, OfPass;
    PairedIs(call.store, call.tx.id, d);
    if Final(call, d) == Outcome.Record(link) {
      FinalNamesCandidate(call, d);
      FinalIsStored(call, d);
      var c := Entry(call.store.txs[d], call.store.EmailOf(call.store.txs[d]).value);
      VerdictIs(call, d, c);
      OfPassIsCalled(call, c, link);
    }
    if c :| Stored(call.store, d, c) && !PairedBefore(call.store, call.tx.id, d)
            && Called(ScaleOf(call), NewEntry(call), c, link)
    {
      CalledForAnother(ScaleOf(call), NewEntry(call), c, link);
      VerdictIs(call, d, c);
      OfPassIsCalled(call, c, link);
    }
  }

  lemma FinalIsStored(call: Call, d: Id)
    requires Final(call, d).Record?
    ensures d in call.store.txs && call.store.EmailOf(call.store.txs[d]).Some?
  {
    var pass := DecidingPass(call, 4, d);
    hide Selected, Verdict, DecideRow;
  }

  lemma CalledForAnother(s: Scale, n: Entry, c: Entry, link: Link)
    requires Called(s, n, c, link)
    ensures c.tx.id != n.tx.id
  {
    hide Weighs, DatedNear, CloseAmounts, BestDate, TrustedRule, OneOrdersOneConfirms, Sent, Sender;
  }

  /** A call for each examined transaction. */
  lemma CalledInIs(call: Call, link: Link)
    requires call.Valid() && call.store.EmailOf(call.tx) == Some(call.email) && call.tx.tag != Income
    ensures CalledIn(call.text, call.store, call.tx.id, link) <==> exists d :: Final(call, d) == Outcome.Record(link)
  {
    assert Examined(call.store, call.tx.id, NewEntry(call));
    assert forall n :: Examined(call.store, call.tx.id, n) ==> n == NewEntry(call);
    hide Called, Final, PairedBefore, Examined;
    forall d: Id
      ensures Final(call, d) == Outcome.Record(link) <==>
              exists c :: Stored(call.store, d, c) && !PairedBefore(call.store, call.tx.id, d)
                          && Called(ScaleOf(call), NewEntry(call), c, link)
    {
      FinalIs(call, d, link);
    }
    hide Stored;
  }

  /** The detector keeps its promise on every table and in whatever order its queries return rows. */
  lemma {:induction false} DetectRecords(text: Text, store: Store, txId: Id, scans: seq<seq<Id>>)
    requires store.Keyed() && Complete(scans, store.txs)
    ensures DetectorRecorded(text, store, txId, Detect(text, store, txId, scans))
  {
    hide RunPasses, Called, Final, PairedBefore, CalledIn;
    if txId in store.txs && DedupCandidate(store.txs[txId]) && store.EmailOf(store.txs[txId]).Some?
       && HasDomain(store.EmailOf(store.txs[txId]).value)
    {
      var call := Call(text, store.txs[txId], store.EmailOf(store.txs[txId]).value, store);
      DetectDoesWhatVerdictsSay(call, scans);
      CallRecords(call, Result(call, RunPasses(call, 4, scans)));
    } else {
      assert forall n :: !Examined(store, txId, n);
      forall link ensures !CalledIn(text, store, txId, link) {
        NothingExamined(text, store, txId, link);
      }
    }
  }

  lemma NothingExamined(text: Text, store: Store, txId: Id, link: Link)
    requires forall n :: !Examined(store, txId, n)
    ensures !CalledIn(text, store, txId, link)
  {
  }

  lemma CallRecords(call: Call, after: Store)
    requires call.Valid() && call.store.EmailOf(call.tx) == Some(call.email) && call.tx.tag != Income
    requires after == call.store.(txs := after.txs, pairs := after.pairs, nextPair := after.nextPair)
    requires OldRowsKept(call.store, after) && OnlyVerdicts(call, after) && EveryVerdict(call, after)
    requires OneRowEach(call.store, after) && RelabelsDuplicates(call, after)
    ensures DetectorRecorded(call.text, call.store, call.tx.id, after)
  {
    hide *;
    AllCalledInIs(call);
    RowsRecorded(call, after);
    LabelsRecorded(call, after);
    RecordedParts(call.text, call.store, call.tx.id, after);
  }

  ghost predicate RowsAreCalled(text: Text, store: Store, txId: Id, after: Store) {
    && (forall p :: NewRow(store, after, p) ==>
          after.pairs[p].resolvedAt == None && CalledIn(text, store, txId, after.pairs[p].link))
    && (forall link :: CalledIn(text, store, txId, link) ==>
          exists p :: NewRow(store, after, p) && after.pairs[p].link == link)
  }

  ghost predicate LabelsAreCalled(text: Text, store: Store, txId: Id, after: Store) {
    && after.txs.Keys == store.txs.Keys
    && (forall t :: t in store.txs ==>
          after.txs[t] == store.txs[t].(tag := if Drops(text, store, txId, t) then Ignored else store.txs[t].tag))
  }

  lemma RecordedParts(text: Text, store: Store, txId: Id, after: Store)
    requires after == store.(txs := after.txs, pairs := after.pairs, nextPair := after.nextPair)
    requires OldRowsKept(store, after) && OneRowEach(store, after)
    requires RowsAreCalled(text, store, txId, after) && LabelsAreCalled(text, store, txId, after)
    ensures DetectorRecorded(text, store, txId, after)
  {
    hide CalledIn, Drops, Ends;
    forall link | CalledIn(text, store, txId, link)
      ensures exists p :: p in after.pairs && p !in store.pairs && after.pairs[p].link == link
    {
      var p :| NewRow(store, after, p) && after.pairs[p].link == link;
    }
    assert forall p :: p in after.pairs && p !in store.pairs ==> NewRow(store, after, p);
  }

  ghost predicate VerdictsCall(call: Call) {
    forall link ::
      CalledIn(call.text, call.store, call.tx.id, link) <==> exists d :: Final(call, d) == Outcome.Record(link)
  }

  lemma AllCalledInIs(call: Call)
    requires call.Valid() && call.store.EmailOf(call.tx) == Some(call.email) && call.tx.tag != Income
    ensures VerdictsCall(call)
  {
    hide Final, CalledIn;
    forall link
      ensures CalledIn(call.text, call.store, call.tx.id, link) <==> exists d :: Final(call, d) == Outcome.Record(link)
    {
      CalledInIs(call, link);
    }
  }

  lemma RowsRecorded(call: Call, after: Store)
    requires VerdictsCall(call) && OnlyVerdicts(call, after) && EveryVerdict(call, after)
    ensures RowsAreCalled(call.text, call.store, call.tx.id, after)
  {
    hide Final, CalledIn, VerdictsCall, OnlyVerdicts, EveryVerdict;
    forall p | NewRow(call.store, after, p)
      ensures after.pairs[p].resolvedAt == None && CalledIn(call.text, call.store, call.tx.id, after.pairs[p].link)
    {
      NewRowIsCalled(call, after, p);
    }
    forall link | CalledIn(call.text, call.store, call.tx.id, link)
      ensures exists p :: NewRow(call.store, after, p) && after.pairs[p].link == link
    {
      var p := CalledHasRow(call, after, link);
    }
  }

  lemma NewRowIsCalled(call: Call, after: Store, p: Id)
    requires VerdictsCall(call) && OnlyVerdicts(call, after) && NewRow(call.store, after, p)
    ensures after.pairs[p].resolvedAt == None && CalledIn(call.text, call.store, call.tx.id, after.pairs[p].link)
  {
    hide Final, CalledIn;
    var d: Id :| Final(call, d).Record? && after.pairs[p] == Pair(Final(call, d).link, None);
    assert Final(call, d) == Outcome.Record(after.pairs[p].link);
  }

  lemma CalledHasRow(call: Call, after: Store, link: Link) returns (p: Id)
    requires VerdictsCall(call) && EveryVerdict(call, after) && CalledIn(call.text, call.store, call.tx.id, link)
    ensures NewRow(call.store, after, p) && after.pairs[p].link == link
  {
    hide Final, CalledIn;
    var d: Id :| Final(call, d) == Outcome.Record(link);
    p :| NewRow(call.store, after, p) && after.pairs[p].link == Final(call, d).link;
  }

  lemma LabelsRecorded(call: Call, after: Store)
    requires VerdictsCall(call) && RelabelsDuplicates(call, after)
    ensures LabelsAreCalled(call.text, call.store, call.tx.id, after)
  {
    hide Final, CalledIn, Drops;
    forall t | t in call.store.txs
      ensures Drops(call.text, call.store, call.tx.id, t) <==> exists d :: Ignores(Final(call, d), t)
    {
      DropsIs(call, t);
    }
  }

  lemma DropsIs(call: Call, t: Id)
    requires VerdictsCall(call)
    ensures Drops(call.text, call.store, call.tx.id, t) <==> exists d :: Ignores(Final(call, d), t)
  {
    hide Final, CalledIn;
    if d: Id :| Ignores(Final(call, d), t) {
      var link := Final(call, d).link;
      assert Final(call, d) == Outcome.Record(link);
    }
  }

  lemma ExaminedIs(store: Store, txId: Id, n: Entry)
    requires store.Keyed() && Examined(store, txId, n)
    ensures n.tx.id == txId && forall m :: Examined(store, txId, m) ==> m == n
  {
  }

  lemma CalledEnds(s: Scale, n: Entry, c: Entry, link: Link)
    requires Called(s, n, c, link)
    ensures Ends(link) == {n.tx.id, c.tx.id} && c.tx.id != n.tx.id
  {
    CalledForAnother(s, n, c, link);
    hide ResolvesItself, AsksUser, NewCameFirst;
  }

  /** The rows of a link determine it. */
  lemma CalledOnce(text: Text, store: Store, txId: Id, link: Link, n: Entry, d: Id, c: Entry)
    requires store.Keyed() && CalledIn(text, store, txId, link) && Examined(store, txId, n) && Stored(store, d, c)
    requires Ends(link) == {txId, d}
    ensures !PairedBefore(store, txId, d) && Called(Scale(text, store.rules, n.email.userId), n, c, link)
  {
    ExaminedIs(store, txId, n);
    hide Called, Examined, PairedBefore;
    var s := Scale(text, store.rules, n.email.userId);
    var m, b, e :| Examined(store, txId, m) && Stored(store, e, b) && !PairedBefore(store, txId, e)
                   && Called(Scale(text, store.rules, m.email.userId), m, b, link);
    CalledEnds(s, n, b, link);
    assert b.tx.id in {txId, d} && d in {n.tx.id, b.tx.id};
    assert e == d && b == c;
  }

  lemma ItselfIsCalled(s: Scale, n: Entry, c: Entry, link: Link)
    requires ResolvesItself(s, n, c, link.source, link.confidence) && link.status == AutoResolved
    requires link.primary == if NewCameFirst(n, c) then n.tx.id else c.tx.id
    requires link.duplicate == if link.primary == n.tx.id then c.tx.id else n.tx.id
    ensures Called(s, n, c, link)
  {
    hide ResolvesItself, AsksUser, NewCameFirst;
  }

  /** In particular: when a pair with another transaction is resolved without the user. */
  lemma {:induction false} AutoResolvedIff(text: Text, store: Store, txId: Id, after: Store, n: Entry, d: Id, c: Entry)
    requires store.Keyed() && DetectorRecorded(text, store, txId, after) && Examined(store, txId, n) && Stored(store, d, c)
    ensures (exists p :: p in after.pairs && p !in store.pairs && Ends(after.pairs[p].link) == {txId, d}
                         && after.pairs[p].link.status == AutoResolved)
            <==>
            && !PairedBefore(store, txId, d)
            && exists source, confidence ::
                 ResolvesItself(Scale(text, store.rules, n.email.userId), n, c, source, confidence)
  {
    var s := Scale(text, store.rules, n.email.userId);
    ExaminedIs(store, txId, n);
    hide ResolvesItself, AsksUser, Examined, PairedBefore, NewCameFirst;
    if p :| p in after.pairs && p !in store.pairs && Ends(after.pairs[p].link) == {txId, d}
            && after.pairs[p].link.status == AutoResolved
    {
      CalledOnce(text, store, txId, after.pairs[p].link, n, d, c);
    }
    if source, confidence :| !PairedBefore(store, txId, d) && ResolvesItself(s, n, c, source, confidence) {
      var primary := if NewCameFirst(n, c) then n.tx.id else c.tx.id;
      var link := Link(primary, if primary == n.tx.id then c.tx.id else n.tx.id, AutoResolved, confidence, source);
      ItselfIsCalled(s, n, c, link);
      CalledEnds(s, n, c, link);
      assert CalledIn(text, store, txId, link);
    }
  }
}
