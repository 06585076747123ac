/**
 What the incremental detector keeps from one call to the next: a pair table that obeys the symmetric unique
 index, and a kept counterpart for every transaction it relabels.
 */
module DetectionRuns {
  import opened Common
  import opened Entities
  import opened Scoring
  import opened Detection

  ghost function Changed(before: Store, after: Store): set<Id> {
    set t | t in before.txs && t in after.txs && after.txs[t].tag != before.txs[t].tag
  }

  function Arrival(store: Store, t: Id): Option<int> {
    if t in store.txs && store.EmailOf(store.txs[t]).Some? then store.EmailOf(store.txs[t]).value.receivedAt else None
  }

  function Owner(store: Store, t: Id): Option<Id> {
    if t in store.txs && store.EmailOf(store.txs[t]).Some? then Some(store.EmailOf(store.txs[t]).value.userId) else None
  }

  /** A new transaction and its email are new, and have an arrival time of their own. */
  ghost predicate Arrives(store: Store, tx: Transaction, email: Email) {
    && tx.id !in store.txs && email.id !in store.emails && tx.emailId == Some(email.id)
    && email.receivedAt.Some?
    && (forall t :: t in store.txs ==> store.txs[t].emailId != Some(email.id))
    && (forall t :: t in store.txs ==> Arrival(store, t) != email.receivedAt)
  }

  /** Every transaction with an email has an arrival time, and no two have the same. */
  ghost predicate DistinctArrivals(store: Store) {
    && (forall t :: t in store.txs && store.EmailOf(store.txs[t]).Some? ==> Arrival(store, t).Some?)
    && (forall t, u :: t in store.txs && u in store.txs && t != u && Arrival(store, t).Some? ==>
          Arrival(store, t) != Arrival(store, u))
  }

  /** What the symmetric unique index demands: at most one row for two transactions, whichever way round. */
  ghost predicate UniquePairs(pairs: map<Id, Pair>) {
    forall p, q :: p in pairs && q in pairs && p != q ==> Ends(pairs[p].link) != Ends(pairs[q].link)
  }

  /** Every pair joins two different transactions of the table that belong to one user. */
  ghost predicate PairsSound(store: Store) {
    forall p :: p in store.pairs ==>
      var link := store.pairs[p].link;
      && link.primary != link.duplicate
      && link.primary in store.txs && link.duplicate in store.txs
      && Owner(store, link.primary).Some? && Owner(store, link.primary) == Owner(store, link.duplicate)
  }

  predicate Earlier(store: Store, a: Id, b: Id) {
    Arrival(store, a).Some? && Arrival(store, b).Some? && Arrival(store, a).value < Arrival(store, b).value
  }

  /** Every auto-resolved pair keeps the transaction that arrived first. */
  ghost predicate AutoKeepsFirst(store: Store) {
    forall p :: p in store.pairs && store.pairs[p].link.status.AutoResolved? ==>
      Earlier(store, store.pairs[p].link.primary, store.pairs[p].link.duplicate)
  }

  ghost predicate Sound(store: Store) {
    && store.Keyed() && DistinctArrivals(store)
    && UniquePairs(store.pairs) && PairsSound(store) && AutoKeepsFirst(store)
  }

  /** Transaction `t` is the duplicate of an auto-resolved pair whose primary is `u`. */
  ghost predicate Leads(store: Store, t: Id, u: Id) {
    exists p :: p in store.pairs && store.pairs[p].link.status.AutoResolved?
                && store.pairs[p].link.duplicate == t && store.pairs[p].link.primary == u
  }

  ghost predicate Explained(store: Store, touched: set<Id>) {
    forall t :: t in touched ==> exists u :: Leads(store, t, u)
  }

  /** The pass whose decision the verdict is. */
  lemma {:induction false} DecidingPass(call: Call, passes: nat, c: Id) returns (pass: Pass)
    requires passes <= 4 && Verdict(call, passes, c).Record?
    ensures Reaches(call, pass, c) && Verdict(call, passes, c) == DecideRow(call, pass, c)
  {
    if passes > 0 && Verdict(call, passes - 1, c) == Skip {
      pass := passes;
    } else if passes > 0 {
      pass := DecidingPass(call, passes - 1, c);
    }
  }

  lemma DecisionKeepsFirst(call: Call, pass: Pass, t: Transaction, e: Email)
    requires Selected(call, pass, t, e) && Decide(call, pass, t, e).Record?
    ensures var link := Decide(call, pass, t, e).link;
            link.status.AutoResolved? && call.email.receivedAt.Some? && e.receivedAt.Some? ==>
              if call.email.receivedAt.value <= e.receivedAt.value
              then link.primary == call.tx.id && link.duplicate == t.id
              else link.primary == t.id && link.duplicate == call.tx.id
    ensures e.userId == call.email.userId
  {
  }

  /** What a verdict that names a link promises about it. */
  lemma VerdictSound(call: Call, c: Id)
    requires call.Valid() && Sound(call.store) && call.store.EmailOf(call.tx) == Some(call.email)
    requires Final(call, c).Record?
    ensures var link := Final(call, c).link;
            && Owner(call.store, c) == Owner(call.store, call.tx.id) == Some(call.email.userId)
            && (link.status.AutoResolved? ==> Earlier(call.store, link.primary, link.duplicate))
  {
    var pass := DecidingPass(call, 4, c);
    hide Verdict, Selected, Decide, PairsSound, UniquePairs, AutoKeepsFirst;
    DecisionKeepsFirst(call, pass, call.store.txs[c], call.store.EmailOf(call.store.txs[c]).value);
    FinalNamesCandidate(call, c);
    assert call.store.txs[c].id == c;
    assert Arrival(call.store, c) != Arrival(call.store, call.tx.id);
  }

  /** Relabelling changes no arrival and no owner. */
  lemma SameArrivals(before: Store, after: Store)
    requires after.emails == before.emails && after.txs.Keys == before.txs.Keys
    requires forall t :: t in after.txs ==> after.txs[t] == before.txs[t].(tag := after.txs[t].tag)
    ensures forall t :: Arrival(after, t) == Arrival(before, t) && Owner(after, t) == Owner(before, t)
    ensures DistinctArrivals(before) ==> DistinctArrivals(after)
  {
    forall t: Id ensures Arrival(after, t) == Arrival(before, t) && Owner(after, t) == Owner(before, t) {
    }
  }

  lemma ChangedOnlyLabels(call: Call, after: Store)
    requires RelabelsDuplicates(call, after)
    ensures forall t :: t in after.txs ==> after.txs[t] == call.store.txs[t].(tag := after.txs[t].tag)
    ensures forall t :: t in Changed(call.store, after) ==> exists c :: Ignores(Final(call, c), t)
  {
    hide Final;
    forall t | t in Changed(call.store, after) ensures exists c :: Ignores(Final(call, c), t) {
      assert after.txs[t].tag != call.store.txs[t].tag;
    }
  }

  ghost predicate Exact(call: Call, after: Store) {
    && after.emails == call.store.emails && after.rules == call.store.rules
    && OldRowsKept(call.store, after)
    && OnlyVerdicts(call, after) && EveryVerdict(call, after) && OneRowEach(call.store, after)
    && RelabelsDuplicates(call, after)
    && (forall p :: p in after.pairs ==> p < after.nextPair)
  }

  ghost predicate ValidCall(call: Call) {
    call.Valid() && Sound(call.store) && call.store.EmailOf(call.tx) == Some(call.email)
  }

  lemma NewRowFacts(call: Call, after: Store, p: Id) returns (c: Id)
    requires call.Valid() && Exact(call, after) && NewRow(call.store, after, p)
    ensures Final(call, c).Record? && after.pairs[p].link == Final(call, c).link
    ensures c != call.tx.id && c in call.store.txs && Ends(after.pairs[p].link) == {call.tx.id, c}
    ensures !AlreadyPaired(call.store.pairs, call.tx.id, c)
  {
    c :| Final(call, c).Record? && after.pairs[p] == Pair(Final(call, c).link, None);
    FinalNamesCandidate(call, c);
  }

  lemma DetectKeepsUnique(call: Call, after: Store)
    requires call.Valid() && UniquePairs(call.store.pairs) && Exact(call, after)
    ensures UniquePairs(after.pairs)
  {
    hide Final, RelabelsDuplicates, EveryVerdict;
    forall p, q | p in after.pairs && q in after.pairs && p != q
      ensures Ends(after.pairs[p].link) != Ends(after.pairs[q].link)
    {
      if NewRow(call.store, after, p) && !NewRow(call.store, after, q) {
        var c := NewRowFacts(call, after, p);
      } else if NewRow(call.store, after, q) && !NewRow(call.store, after, p) {
        var c := NewRowFacts(call, after, q);
      }
    }
  }

  ghost predicate RowSound(store: Store, link: Link) {
    && link.primary != link.duplicate
    && link.primary in store.txs && link.duplicate in store.txs
    && Owner(store, link.primary).Some? && Owner(store, link.primary) == Owner(store, link.duplicate)
    && (link.status.AutoResolved? ==> Earlier(store, link.primary, link.duplicate))
  }

  lemma NewRowSound(call: Call, after: Store, p: Id)
    requires ValidCall(call) && Exact(call, after) && NewRow(call.store, after, p)
    ensures RowSound(call.store, after.pairs[p].link)
  {
    hide Final, Arrival, Owner, UniquePairs, DistinctArrivals, RelabelsDuplicates, EveryVerdict;
    var c := NewRowFacts(call, after, p);
    VerdictSound(call, c);
    FinalNamesCandidate(call, c);
    var link := after.pairs[p].link;
    assert link.primary in {call.tx.id, c} && link.duplicate in {call.tx.id, c};
  }

  lemma RowSoundStill(before: Store, after: Store, link: Link)
    requires RowSound(before, link) && before.txs.Keys <= after.txs.Keys
    requires forall t :: t in before.txs ==> Arrival(after, t) == Arrival(before, t) && Owner(after, t) == Owner(before, t)
    ensures RowSound(after, link)
  {
    hide Arrival, Owner;
  }

  lemma DetectKeepsPairs(call: Call, after: Store)
    requires ValidCall(call) && Exact(call, after)
    requires forall t :: Arrival(after, t) == Arrival(call.store, t) && Owner(after, t) == Owner(call.store, t)
    ensures PairsSound(after) && AutoKeepsFirst(after)
  {
    assert after.txs.Keys == call.store.txs.Keys;
    hide Final, OnlyVerdicts, EveryVerdict, OneRowEach, RelabelsDuplicates, Arrival, Owner, UniquePairs, DistinctArrivals;
    forall p | p in after.pairs ensures RowSound(after, after.pairs[p].link) {
      if NewRow(call.store, after, p) {
        NewRowSound(call, after, p);
      } else {
        assert after.pairs[p] == call.store.pairs[p];
        assert RowSound(call.store, after.pairs[p].link);
      }
      RowSoundStill(call.store, after, after.pairs[p].link);
    }
  }

  lemma LeadsKept(before: Store, after: Store, t: Id, u: Id)
    requires OldRowsKept(before, after) && Leads(before, t, u)
    ensures Leads(after, t, u)
  {
    var p :| p in before.pairs && before.pairs[p].link.status.AutoResolved?
             && before.pairs[p].link.duplicate == t && before.pairs[p].link.primary == u;
    assert after.pairs[p] == before.pairs[p];
  }

  lemma IgnoredLeads(call: Call, after: Store, c: Id, t: Id)
    requires EveryVerdict(call, after) && Ignores(Final(call, c), t)
    ensures Leads(after, t, Final(call, c).link.primary)
  {
    var p :| NewRow(call.store, after, p) && after.pairs[p].link == Final(call, c).link;
  }

  lemma DetectExplains(call: Call, after: Store, touched: set<Id>)
    requires ValidCall(call) && Exact(call, after) && Explained(call.store, touched)
    ensures Explained(after, touched + Changed(call.store, after))
  {
    hide Final, Leads, Changed, ValidCall, Exact, RelabelsDuplicates, EveryVerdict, OldRowsKept;
    ExactParts(call, after);
    ChangedOnlyLabels(call, after);
    forall t | t in touched ensures exists u :: Leads(after, t, u) {
      StillExplained(call.store, after, touched, t);
    }
    forall t | t in Changed(call.store, after) ensures exists u :: Leads(after, t, u) {
      var c: Id :| Ignores(Final(call, c), t);
      IgnoredLeads(call, after, c, t);
    }
    ExplainedAll(after, touched + Changed(call.store, after));
  }

  lemma ExactParts(call: Call, after: Store)
    requires Exact(call, after)
    ensures OldRowsKept(call.store, after) && EveryVerdict(call, after) && RelabelsDuplicates(call, after)
  {
    hide OldRowsKept, EveryVerdict, RelabelsDuplicates, OnlyVerdicts, OneRowEach;
  }

  lemma StillExplained(before: Store, after: Store, touched: set<Id>, t: Id)
    requires OldRowsKept(before, after) && Explained(before, touched) && t in touched
    ensures exists u :: Leads(after, t, u)
  {
    hide Leads, OldRowsKept;
    var u :| Leads(before, t, u);
    LeadsKept(before, after, t, u);
  }

  lemma ExplainedAll(store: Store, touched: set<Id>)
    requires forall t :: t in touched ==> exists u :: Leads(store, t, u)
    ensures Explained(store, touched)
  {
  }

  lemma DetectKeepsSound(call: Call, after: Store, touched: set<Id>)
    requires ValidCall(call) && Exact(call, after) && Explained(call.store, touched)
    ensures Sound(after) && Explained(after, touched + Changed(call.store, after))
  {
    hide Final;
    ChangedOnlyLabels(call, after);
    SameArrivals(call.store, after);
    DetectKeepsUnique(call, after);
    DetectKeepsPairs(call, after);
    DetectExplains(call, after, touched);
  }

  function WithArrival(store: Store, tx: Transaction, email: Email): Store {
    store.(txs := store.txs[tx.id := tx], emails := store.emails[email.id := email])
  }

  lemma ArriveChangesNoOther(store: Store, tx: Transaction, email: Email)
    requires Arrives(store, tx, email)
    ensures var after := WithArrival(store, tx, email);
            && (forall t :: t != tx.id ==> Arrival(after, t) == Arrival(store, t) && Owner(after, t) == Owner(store, t))
            && Arrival(after, tx.id) == email.receivedAt
            && (DistinctArrivals(store) ==> DistinctArrivals(after))
  {
    var after := WithArrival(store, tx, email);
    forall t: Id | t != tx.id ensures Arrival(after, t) == Arrival(store, t) && Owner(after, t) == Owner(store, t) {
    }
  }

  lemma ArriveKeepsPairs(store: Store, tx: Transaction, email: Email)
    requires PairsSound(store) && AutoKeepsFirst(store) && Arrives(store, tx, email)
    ensures PairsSound(WithArrival(store, tx, email)) && AutoKeepsFirst(WithArrival(store, tx, email))
  {
    var after := WithArrival(store, tx, email);
    ArriveChangesNoOther(store, tx, email);
    hide Arrival, Owner;
    forall p | p in after.pairs ensures RowSound(after, after.pairs[p].link) {
      assert RowSound(store, store.pairs[p].link);
      RowSoundStill(store, after, after.pairs[p].link);
    }
  }

  lemma ArriveKeepsSound(store: Store, tx: Transaction, email: Email, touched: set<Id>)
    requires Sound(store) && Arrives(store, tx, email) && Explained(store, touched)
    ensures Sound(WithArrival(store, tx, email)) && Explained(WithArrival(store, tx, email), touched)
  {
    var after := WithArrival(store, tx, email);
    ArriveChangesNoOther(store, tx, email);
    ArriveKeepsPairs(store, tx, email);
    hide Arrival, Owner, DistinctArrivals, PairsSound, AutoKeepsFirst, Leads;
    forall t | t in touched ensures exists u :: Leads(after, t, u) {
      var u :| Leads(store, t, u);
      LeadsKept(store, after, t, u);
    }
  }

  lemma ScanKeepsSound(text: Text, store: Store, txId: Id, scans: seq<seq<Id>>, touched: set<Id>)
    requires Sound(store) && Complete(scans, store.txs) && Explained(store, touched)
    ensures var after := Detect(text, store, txId, scans);
            && Sound(after) && Explained(after, touched + Changed(store, after))
            && after.txs.Keys == store.txs.Keys
  {
    hide Final, RunPasses;
    var after := Detect(text, store, txId, scans);
    if after == store {
      assert touched + Changed(store, after) == touched;
    } else {
      var call := Call(text, store.txs[txId], store.EmailOf(store.txs[txId]).value, store);
      DetectDoesWhatVerdictsSay(call, scans);
      DetectKeepsSound(call, after, touched);
    }
  }

  /** Each transaction on the path was ignored in favour of the next. */
  ghost predicate Path(store: Store, path: seq<Id>) {
    forall i :: 0 <= i < |path| - 1 ==> Leads(store, path[i], path[i + 1])
  }

  ghost function ArrivedBefore(store: Store, t: Id): set<Id> {
    set u | u in store.txs && Earlier(store, u, t)
  }

  /**
   From every transaction the detector has relabelled, the auto-resolved pairs lead through ever
   earlier arrivals to one whose label the detector never changed: no payment is ignored away.
   */
  lemma {:induction false} LinksEndAtUntouched(store: Store, touched: set<Id>, t: Id) returns (path: seq<Id>)
    requires Sound(store) && Explained(store, touched) && t in store.txs
    ensures path != [] && path[0] == t && Path(store, path)
    ensures path[|path| - 1] in store.txs && path[|path| - 1] !in touched
    ensures forall i :: 0 <= i < |path| - 1 ==> Earlier(store, path[i + 1], path[i])
    decreases ArrivedBefore(store, t)
  {
    hide Sound, Leads, Earlier, ArrivedBefore, Path;
    if t !in touched {
      path := [t];
      PathIfSteps(store, path);
    } else {
      var u :| Leads(store, t, u);
      LeadsToEarlier(store, t, u);
      var rest := LinksEndAtUntouched(store, touched, u);
      path := [t] + rest;
      hide Explained;
      forall i | 0 <= i < |path| - 1
        ensures Leads(store, path[i], path[i + 1]) && Earlier(store, path[i + 1], path[i])
      {
        if i > 0 {
          PathStep(store, rest, i - 1);
        }
      }
      PathIfSteps(store, path);
    }
  }

  lemma LeadsToEarlier(store: Store, t: Id, u: Id)
    requires Sound(store) && t in store.txs && Leads(store, t, u)
    ensures u in store.txs && Earlier(store, u, t) && ArrivedBefore(store, u) < ArrivedBefore(store, t)
  {
    hide Arrival, Owner, UniquePairs, DistinctArrivals;
    assert Earlier(store, u, t);
    assert u in ArrivedBefore(store, t) && u !in ArrivedBefore(store, u);
  }

  lemma PathStep(store: Store, path: seq<Id>, i: nat)
    requires Path(store, path) && i < |path| - 1
    ensures Leads(store, path[i], path[i + 1])
  {
  }

  lemma PathIfSteps(store: Store, path: seq<Id>)
    requires forall i :: 0 <= i < |path| - 1 ==> Leads(store, path[i], path[i + 1])
    ensures Path(store, path)
  {
  }

  /** Without arrival times the choice of the primary is not transitive, so distinct arrivals are needed. */
  lemma PickPrimaryCycles(base: Transaction, mail: Email)
    ensures var a, ea := base.(id := 1, txnDate := Some(2)), mail.(receivedAt := Some(1));
            var b, eb := base.(id := 2, txnDate := Some(3)), mail.(receivedAt := None);
            var c, ec := base.(id := 3, txnDate := Some(4)), mail.(receivedAt := Some(0));
            && PickPrimary(a, ea, b, eb) == a.id
            && PickPrimary(b, eb, c, ec) == b.id
            && PickPrimary(c, ec, a, ea) == c.id
  {
  }

  ghost predicate Adds(before: Store, after: Store, link: Link) {
    exists p :: NewRow(before, after, p) && after.pairs[p].link == link
  }

  ghost predicate CalledFor(call: Call, link: Link) {
    exists c :: Final(call, c).Record? && Final(call, c).link == link
  }

  lemma AddsWhatIsCalledFor(call: Call, after: Store, link: Link)
    requires OnlyVerdicts(call, after) && EveryVerdict(call, after)
    ensures Adds(call.store, after, link) <==> CalledFor(call, link)
  {
    if CalledFor(call, link) {
      CalledForIsAdded(call, after, link);
    }
    if Adds(call.store, after, link) {
      AddedIsCalledFor(call, after, link);
    }
  }

  lemma CalledForIsAdded(call: Call, after: Store, link: Link)
    requires EveryVerdict(call, after) && CalledFor(call, link)
    ensures Adds(call.store, after, link)
  {
    hide Final;
    var c: Id :| Final(call, c).Record? && Final(call, c).link == link;
    var p :| NewRow(call.store, after, p) && after.pairs[p].link == Final(call, c).link;
  }

  lemma AddedIsCalledFor(call: Call, after: Store, link: Link)
    requires OnlyVerdicts(call, after) && Adds(call.store, after, link)
    ensures CalledFor(call, link)
  {
    hide Final;
    var p :| NewRow(call.store, after, p) && after.pairs[p].link == link;
    var c: Id :| Final(call, c).Record? && after.pairs[p] == Pair(Final(call, c).link, None);
  }

  /** The order in which the database returns rows decides neither the pairs nor the labels. */
  lemma ScanOrderIrrelevant(text: Text, store: Store, txId: Id, scans: seq<seq<Id>>, others: seq<seq<Id>>)
    requires store.Keyed() && Complete(scans, store.txs) && Complete(others, store.txs)
    ensures var a, b := Detect(text, store, txId, scans), Detect(text, store, txId, others);
            a.txs == b.txs && forall link :: Adds(store, a, link) <==> Adds(store, b, link)
  {
    hide Final, RunPasses, Adds, EveryVerdict, OnlyVerdicts, OneRowEach, OldRowsKept;
    var a, b := Detect(text, store, txId, scans), Detect(text, store, txId, others);
    if txId in store.txs && DedupCandidate(store.txs[txId]) && store.EmailOf(store.txs[txId]).Some?
       && HasDomain(store.EmailOf(store.txs[txId]).value)
    {
      var call := Call(text, store.txs[txId], store.EmailOf(store.txs[txId]).value, store);
      DetectDoesWhatVerdictsSay(call, scans);
      DetectDoesWhatVerdictsSay(call, others);
      forall link: Link ensures Adds(store, a, link) <==> Adds(store, b, link) {
        AddsWhatIsCalledFor(call, a, link);
        AddsWhatIsCalledFor(call, b, link);
      }
      assert forall t :: t in a.txs ==> a.txs[t] == b.txs[t];
    }
  }

  /** The cross-domain pass selects the candidate, finds another domain, and scores the pair below a half. */
  ghost predicate ScoredTooLow(call: Call, c: Id) {
    && Reaches(call, 2, c)
    && var e := call.store.EmailOf(call.store.txs[c]).value;
       && HasDomain(e) && Domain(call.text, e) != Domain(call.text, call.email)
       && ScoreOf(call, call.store.txs[c], e).confidence < 0.5
  }

  /**
   The cross-domain pass settles a candidate before it looks at the score. A candidate that is not paired yet
   is settled without a pair exactly when the first pass leaves it and that pass scores it too low; every other
   one gets its pair from some pass, or is left alone by all of them.
   */
  lemma {:induction false} SettledIffScoredTooLow(call: Call, c: Id)
    requires call.Valid() && c != call.tx.id && !AlreadyPaired(call.store.pairs, call.tx.id, c)
    ensures Final(call, c) == Settle <==> !Reaches(call, 1, c) && ScoredTooLow(call, c)
  {
    hide AlreadyPaired, Selected, ScoreOf;
    assert Verdict(call, 0, c) == Skip;
    assert Verdict(call, 1, c) == Settle || Verdict(call, 1, c) == Skip <==> !Reaches(call, 1, c);
    assert Verdict(call, 2, c) == Settle <==> !Reaches(call, 1, c) && ScoredTooLow(call, c);
    assert Verdict(call, 3, c) == Settle <==> Verdict(call, 2, c) == Settle;
    assert Verdict(call, 4, c) == Settle <==> Verdict(call, 3, c) == Settle;
  }

  /**
   What that costs the investment pass: of the order-and-confirmation pairs that both passes select, exactly
   those get recorded whose best dates are at most three days apart, although the investment pass asks only for
   arrivals within three days of each other.
   */
  lemma {:induction false} InvestmentRecordedIffDatesClose(call: Call, c: Id)
    requires call.Valid() && c != call.tx.id && !AlreadyPaired(call.store.pairs, call.tx.id, c)
    requires Reaches(call, 2, c) && Reaches(call, 3, c) && !Reaches(call, 1, c) && DecideRow(call, 3, c).Record?
    requires var e := call.store.EmailOf(call.store.txs[c]).value;
             HasDomain(e) && Domain(call.text, e) != Domain(call.text, call.email)
    ensures var t := call.store.txs[c];
            Final(call, c).Record? <==> DateGate(call.tx, call.email, t, call.store.EmailOf(t).value)
  {
    var t, e := call.store.txs[c], call.store.EmailOf(call.store.txs[c]).value;
    BothSignalsScore(call, t, e);
    SettledIffScoredTooLow(call, c);
    hide ScoreOf, Selected, AlreadyPaired;
    assert Verdict(call, 0, c) == Skip && Verdict(call, 1, c) == Skip;
    if !ScoredTooLow(call, c) {
      assert DecideRow(call, 2, c).Record?;
      assert Verdict(call, 2, c).Record?;
      assert Verdict(call, 3, c).Record?;
      assert Verdict(call, 4, c).Record?;
    }
  }

  /** An order and a confirmation within the narrow tolerance score at least a half if and only if their dates are close. */
  lemma BothSignalsScore(call: Call, t: Transaction, e: Email)
    requires HasDomain(call.email) && HasDomain(e) && Candidate(call, t, e, false)
    requires OrderAndConfirmation(call.text, call.email.subject, e.subject)
    ensures ScoreOf(call, t, e).confidence >= 0.5 <==> DateGate(call.tx, call.email, t, e)
  {
    MerchantMatchFacts(call.text, TextOr(call.tx.merchant), TextOr(t.merchant),
                       Domain(call.text, call.email), Domain(call.text, e));
    hide MerchantMatch, Domain;
  }

  /** Such a pair: an order and its confirmation on one day, the confirmation's text naming a date ten days later. */
  lemma InvestmentPairLost() returns (call: Call, c: Id)
    ensures call.Valid() && !AlreadyPaired(call.store.pairs, call.tx.id, c)
    ensures Reaches(call, 3, c) && DecideRow(call, 3, c).Record? && Final(call, c) == Settle
  {
    var text := Text(x => x, x => [], x => None, x => x == "order", x => x == "confirmation");
    var order := Email(10, 1, Some("broker"), Some(0), "order", [], []);
    var confirmation := Email(20, 1, Some("fund"), Some(0), "confirmation", [10], []);
    var tx := Transaction(1, Some(10), Expense, Some(100.0), None, Some(0), None);
    var other := Transaction(2, Some(20), Expense, Some(100.0), None, Some(0), None);
    var store := Store(map[1 := tx, 2 := other], map[10 := order, 20 := confirmation], map[], map[], map[], 0);
    call, c := Call(text, tx, order, store), 2;
    assert EffectiveDate(tx, order) == Some(0) && EffectiveDate(other, confirmation) == Some(10);
    assert store.EmailOf(other) == Some(confirmation);
    assert Candidate(call, other, confirmation, false);
    assert Selected(call, 2, other, confirmation) && Selected(call, 3, other, confirmation);
    assert !Selected(call, 1, other, confirmation);
    assert ScoreOf(call, other, confirmation) == NO_MATCH;
    SettledIffScoredTooLow(call, c);
  }
}
