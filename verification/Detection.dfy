/**
 Incremental duplicate detection: four passes over the candidates of one new transaction. The passes
 share a set of candidates that are settled; this module states what each candidate gets on its own
 and proves that the passes together do exactly that, in whatever order the rows arrive.
 */
module Detection {
  import opened Common
  import opened Entities
  import opened Scoring

  /** One call: the transaction, its email, and the tables as the call finds them. */
  datatype Call = Call(text: Text, tx: Transaction, email: Email, store: Store)
  {
    /** The call gets past the guards at the top of the detector. */
    ghost predicate Valid() {
      && store.Keyed()
      && tx.id in store.txs && store.txs[tx.id] == tx
      && tx.amount.Some? && HasDomain(email)
    }
  }

  type Pass = n: nat | 1 <= n <= 4 witness 1

  /** What a pass does with a candidate: nothing, settle it without a pair, or record a pair. */
  datatype Outcome = Skip | Settle | Record(link: Link)

  predicate Near(a: real, b: real, tolerance: real) {
    a - tolerance <= b <= a + tolerance
  }

  predicate Within(a: int, b: int, reach: int) {
    a - reach <= b <= a + reach
  }

  predicate Received(a: Email, b: Email, days: int) {
    a.receivedAt.Some? && b.receivedAt.Some? && Within(a.receivedAt.value, b.receivedAt.value, days * DAY)
  }

  /** The date filter of passes 2 and 4: by transaction date, or by arrival for rows without one. */
  predicate Dated(call: Call, t: Transaction, e: Email, days: int) {
    var effective := EffectiveDate(call.tx, call.email);
    effective.Some? &&
    if t.txnDate.Some? then Within(effective.value, t.txnDate.value, days) else Received(call.email, e, days)
  }

  /** The conditions the four queries share. */
  predicate Candidate(call: Call, t: Transaction, e: Email, bulk: bool)
  {
    && t.id != call.tx.id
    && t.tag == Expense
    && call.tx.amount.Some? && t.amount.Some?
    && Near(call.tx.amount.value, t.amount.value, Tolerance(call.tx.amount.value, bulk))
    && e.userId == call.email.userId
  }

  predicate Invests(text: Text, email: Email) {
    text.isOrder(email.subject) || text.isConfirm(email.subject)
  }

  /** The rows that the query of a pass returns. */
  predicate Selected(call: Call, pass: Pass, t: Transaction, e: Email)
  {
    var tx, email := call.tx, call.email;
    if pass == 1 then
      && Candidate(call, t, e, false)
      && e.senderDomain == email.senderDomain
      && (if email.receivedAt.Some? then Received(email, e, 3)
          else tx.txnDate.Some? && t.txnDate.Some? && Within(tx.txnDate.value, t.txnDate.value, 3))
    else if EffectiveDate(tx, email).None? then false
    else if pass == 2 then
      Candidate(call, t, e, false) && Dated(call, t, e, 1) && e.senderDomain.Some?
    else if pass == 3 then
      && Invests(call.text, email) && Candidate(call, t, e, false) && Received(email, e, 3)
      && e.senderDomain.Some? && e.senderDomain != email.senderDomain
    else
      Candidate(call, t, e, true) && Dated(call, t, e, 3) && e.senderDomain.Some?
  }

  /** Whichever arrived first; ties, and missing data all round, go to the first argument. */
  function PickPrimary(t1: Transaction, e1: Email, t2: Transaction, e2: Email): Id {
    if e1.receivedAt.Some? && e2.receivedAt.Some? then
      if e1.receivedAt.value <= e2.receivedAt.value then t1.id else t2.id
    else if t1.txnDate.Some? && t2.txnDate.Some? then
      if t1.txnDate.value <= t2.txnDate.value then t1.id else t2.id
    else if t1.createdAt.Some? && t2.createdAt.Some? then
      if t1.createdAt.value <= t2.createdAt.value then t1.id else t2.id
    else t1.id
  }

  /** The earlier one becomes the primary, and the later one is ignored from now on. */
  function AutoLink(call: Call, t: Transaction, e: Email, score: Score): Link {
    var primary := PickPrimary(call.tx, call.email, t, e);
    Link(primary, if primary == t.id then call.tx.id else t.id, AutoResolved, score.confidence, score.source)
  }

  function PendingLink(call: Call, t: Transaction, score: Score): Link {
    Link(call.tx.id, t.id, Pending, score.confidence, score.source)
  }

  predicate LateLayer(source: Source) {
    source.MerchantAlias? || source.AmountDate? || source.ReferenceIdMatch? || source.BodyDateAnchor? || source.BodyDateMerchant?
  }

  function ScoreOf(call: Call, t: Transaction, e: Email): Score {
    ScorePair(call.text, call.tx, Some(call.email), t, Some(e), call.store.rules, call.email.userId)
  }

  function DecideCrossDomain(call: Call, t: Transaction, e: Email): Outcome {
    if !HasDomain(e) || Domain(call.text, e) == Domain(call.text, call.email) then Skip
    else
      var score := ScoreOf(call, t, e);
      if score.confidence < 0.5 then Settle
      else
        var rule := RuleFor(call.store.rules, call.email.userId, DomainPairOf(call.text, call.email, e));
        if (rule.Some? && rule.value.autoResolve) || score.source == ReferenceIdMatch
        then Record(AutoLink(call, t, e, score))
        else Record(PendingLink(call, t, score))
  }

  function DecideInvestment(call: Call, t: Transaction, e: Email): Outcome {
    var isOrder, isConfirm := call.text.isOrder(call.email.subject), call.text.isConfirm(call.email.subject);
    if !((isOrder && call.text.isConfirm(e.subject)) || (isConfirm && call.text.isOrder(e.subject))) then Skip
    else if isOrder then Record(Link(call.tx.id, t.id, Pending, 0.65, InvestmentFlow))
    else Record(Link(t.id, call.tx.id, Pending, 0.65, InvestmentFlow))
  }

  function DecideShared(call: Call, t: Transaction, e: Email): Outcome {
    var score := ScoreOf(call, t, e);
    if score.confidence < 0.5 || !LateLayer(score.source) then Skip
    else if score.source == ReferenceIdMatch then Record(AutoLink(call, t, e, score))
    else Record(PendingLink(call, t, score))
  }

  /** What a pass does with a selected row that is not settled yet. */
  function Decide(call: Call, pass: Pass, t: Transaction, e: Email): Outcome {
    if pass == 1 then Record(AutoLink(call, t, e, Score(1.0, SameDomainExact)))
    else if pass == 2 then DecideCrossDomain(call, t, e)
    else if pass == 3 then DecideInvestment(call, t, e)
    else DecideShared(call, t, e)
  }

  /** The table already holds a pair of these two transactions. */
  ghost predicate AlreadyPaired(pairs: map<Id, Pair>, a: Id, b: Id) {
    exists p :: p in pairs && Ends(pairs[p].link) == {a, b}
  }

  ghost predicate Reaches(call: Call, pass: Pass, c: Id)
  {
    && c in call.store.txs
    && call.store.EmailOf(call.store.txs[c]).Some?
    && Selected(call, pass, call.store.txs[c], call.store.EmailOf(call.store.txs[c]).value)
  }

  function DecideRow(call: Call, pass: Pass, c: Id): Outcome {
    if c in call.store.txs && call.store.EmailOf(call.store.txs[c]).Some?
    then Decide(call, pass, call.store.txs[c], call.store.EmailOf(call.store.txs[c]).value)
    else Skip
  }

  /**
   What a candidate gets from the first `passes` passes, looked at on its own: the decision of the
   first pass whose query selects it and which does not skip it.
   */
  ghost function Verdict(call: Call, passes: nat, c: Id): Outcome
    requires passes <= 4
  {
    if passes == 0 then if c != call.tx.id && AlreadyPaired(call.store.pairs, call.tx.id, c) then Settle else Skip
    else
      var earlier := Verdict(call, passes - 1, c);
      if earlier != Skip then earlier
      else if Reaches(call, passes, c) then DecideRow(call, passes, c)
      else Skip
  }

  /**
   The state the passes work on. `made` and `owner` relate candidates and the pair rows recorded for
   them, and `ignored` names, for each transaction relabelled, the candidate whose pair did it.
   */
  datatype Progress = Progress(
    txs: map<Id, Transaction>, pairs: map<Id, Pair>, nextPair: Id, settled: set<Id>,
    made: map<Id, Id>, owner: map<Id, Id>, ignored: map<Id, Id>)

  function Relabelled(txs: map<Id, Transaction>, link: Link): map<Id, Transaction> {
    if link.status.AutoResolved? && link.duplicate in txs
    then txs[link.duplicate := txs[link.duplicate].(tag := Ignored)]
    else txs
  }

  function Recorded(p: Progress, c: Id, link: Link): Progress {
    Progress(Relabelled(p.txs, link), p.pairs[p.nextPair := Pair(link, None)], p.nextPair + 1, p.settled + {c},
             p.made[c := p.nextPair], p.owner[p.nextPair := c],
             if link.status.AutoResolved? && link.duplicate in p.txs then p.ignored[link.duplicate := c] else p.ignored)
  }

  /** One row of one pass. */
  function Step(call: Call, pass: Pass, p: Progress, c: Id): Progress {
    if c in p.settled then p
    else match DecideRow(call, pass, c)
         case Skip => p
         case Settle => p.(settled := p.settled + {c})
         case Record(link) => Recorded(p, c, link)
  }

  function RunRows(call: Call, pass: Pass, p: Progress, rows: seq<Id>): Progress {
    if rows == [] then p else Step(call, pass, RunRows(call, pass, p, rows[..|rows| - 1]), rows[|rows| - 1])
  }

  /** A pass takes the rows one after another. */
  lemma RowByRow(call: Call, pass: Pass, p: Progress, rows: seq<Id>, i: nat)
    requires i <= |rows|
    ensures RunRows(call, pass, p, rows[..0]) == p
    ensures i < |rows| ==>
              RunRows(call, pass, p, rows[..i + 1]) == Step(call, pass, RunRows(call, pass, p, rows[..i]), rows[i])
  {
    hide Step;
    assert i < |rows| ==> rows[..i + 1][..i] == rows[..i];
  }

  /** A row as the query of a pass sees it, under the label it has by then. */
  predicate Hit(call: Call, pass: Pass, txs: map<Id, Transaction>, c: Id) {
    && c in call.store.txs && c in txs
    && call.store.EmailOf(call.store.txs[c]).Some?
    && Selected(call, pass, call.store.txs[c].(tag := txs[c].tag), call.store.EmailOf(call.store.txs[c]).value)
  }

  /** The rows a query returns, in the order in which the database happens to scan the table. */
  function Query(call: Call, pass: Pass, txs: map<Id, Transaction>, scan: seq<Id>): (rows: seq<Id>)
    ensures forall c :: c in rows <==> c in scan && Hit(call, pass, txs, c)
  {
    if scan == [] then []
    else
      var earlier, c := Query(call, pass, txs, scan[..|scan| - 1]), scan[|scan| - 1];
      assert forall d :: d in scan <==> d in scan[..|scan| - 1] || d == c;
      if Hit(call, pass, txs, c) then earlier + [c] else earlier
  }

  /** The transactions already paired with one. */
  function PairedWith(pairs: map<Id, Pair>, t: Id): set<Id> {
    set p | p in pairs && t in Ends(pairs[p].link) ::
      if pairs[p].link.primary == t then pairs[p].link.duplicate else pairs[p].link.primary
  }

  function Start(call: Call): Progress {
    Progress(call.store.txs, call.store.pairs, call.store.nextPair, PairedWith(call.store.pairs, call.tx.id),
             map[], map[], map[])
  }

  /** The first `passes` passes; `scans` gives the scan order each query meets. */
  function RunPasses(call: Call, passes: nat, scans: seq<seq<Id>>): Progress
    requires passes <= 4 == |scans|
  {
    if passes == 0 then Start(call)
    else
      var p := RunPasses(call, passes - 1, scans);
      RunRows(call, passes, p, Query(call, passes, p.txs, scans[passes - 1]))
  }

  function Result(call: Call, p: Progress): Store {
    call.store.(txs := p.txs, pairs := p.pairs, nextPair := p.nextPair)
  }

  /** Each query scans the whole table. */
  ghost predicate Complete(scans: seq<seq<Id>>, txs: map<Id, Transaction>) {
    |scans| == 4 && forall k, t :: 0 <= k < 4 && t in txs ==> t in scans[k]
  }

  /** The verdict in the middle of a pass, once the rows in `done` have been through it. */
  ghost function Interim(call: Call, pass: Pass, done: set<Id>, c: Id): Outcome
  {
    var earlier := Verdict(call, pass - 1, c);
    if earlier != Skip then earlier
    else if c in done && Reaches(call, pass, c) then DecideRow(call, pass, c)
    else Skip
  }

  /** The verdict says that the pair relabels transaction `t`. */
  predicate Ignores(v: Outcome, t: Id) {
    v.Record? && v.link.status.AutoResolved? && v.link.duplicate == t
  }

  /** The settled candidates, and those with a pair row, are what the verdicts `v` call for. */
  ghost predicate SettledMatch(call: Call, p: Progress, v: Id -> Outcome) {
    && (forall c :: c != call.tx.id ==> (c in p.settled <==> v(c) != Skip))
    && (forall c :: c in p.made <==> v(c).Record?)
    && (forall c :: c in p.made ==> p.made[c] in p.owner && p.owner[p.made[c]] == c)
    && (forall id :: id in p.owner ==> p.owner[id] in p.made && p.made[p.owner[id]] == id)
  }

  /** The pair table holds the old rows and, for each recorded candidate, the row its verdict names. */
  ghost predicate RowsMatchVerdicts(call: Call, p: Progress, v: Id -> Outcome) {
    && p.owner.Keys == p.pairs.Keys - call.store.pairs.Keys
    && (forall id :: id in p.owner ==> v(p.owner[id]).Record? && p.pairs[id] == Pair(v(p.owner[id]).link, None))
    && (forall id :: id in call.store.pairs ==> id in p.pairs && p.pairs[id] == call.store.pairs[id])
    && (forall id :: id in p.pairs ==> id < p.nextPair)
  }

  /** The labels are what the verdicts `v` call for. */
  ghost predicate LabelsMatch(call: Call, p: Progress, v: Id -> Outcome) {
    && p.txs.Keys == call.store.txs.Keys
    && (forall t :: t in p.ignored ==> t in p.txs && Ignores(v(p.ignored[t]), t))
    && (forall c, t :: t in p.txs && Ignores(v(c), t) ==> t in p.ignored)
    && (forall t :: t in p.txs ==>
          p.txs[t] == call.store.txs[t].(tag := if t in p.ignored then Ignored else call.store.txs[t].tag))
  }

  ghost predicate Matches(call: Call, p: Progress, v: Id -> Outcome) {
    SettledMatch(call, p, v) && RowsMatchVerdicts(call, p, v) && LabelsMatch(call, p, v)
  }

  ghost function VerdictOf(call: Call, passes: nat): Id -> Outcome
    requires passes <= 4
  {
    (c: Id) => Verdict(call, passes, c)
  }

  ghost function InterimOf(call: Call, pass: Pass, done: set<Id>): Id -> Outcome {
    (c: Id) => Interim(call, pass, done, c)
  }

  lemma DecisionShape(call: Call, pass: Pass, c: Id)
    requires call.Valid() && Reaches(call, pass, c) && DecideRow(call, pass, c).Record?
    ensures var link := DecideRow(call, pass, c).link;
            && c != call.tx.id && Ends(link) == {call.tx.id, c} && link.primary != link.duplicate
            && (link.status == Pending || link.status == AutoResolved)
  {
  }

  lemma MatchesSame(call: Call, p: Progress, v: Id -> Outcome, w: Id -> Outcome)
    requires Matches(call, p, v) && forall c :: v(c) == w(c)
    ensures Matches(call, p, w)
  {
  }

  lemma RecordedSettledMatch(call: Call, p: Progress, v: Id -> Outcome, w: Id -> Outcome, c: Id, link: Link)
    requires SettledMatch(call, p, v) && v(c) == Skip && c != call.tx.id && p.nextPair !in p.owner
    requires forall d :: w(d) == if d == c then Record(link) else v(d)
    ensures SettledMatch(call, Recorded(p, c, link), w)
  {
    hide Relabelled;
    assert c !in p.made;
  }

  lemma RecordedRowsMatch(call: Call, p: Progress, v: Id -> Outcome, w: Id -> Outcome, c: Id, link: Link)
    requires RowsMatchVerdicts(call, p, v) && v(c) == Skip
    requires forall d :: w(d) == if d == c then Record(link) else v(d)
    ensures RowsMatchVerdicts(call, Recorded(p, c, link), w)
  {
    hide Relabelled;
    var q := Recorded(p, c, link);
    assert p.nextPair !in p.pairs && p.nextPair !in call.store.pairs;
    assert q.owner.Keys == q.pairs.Keys - call.store.pairs.Keys;
  }

  lemma RecordedLabelsMatch(call: Call, p: Progress, v: Id -> Outcome, w: Id -> Outcome, c: Id, link: Link)
    requires LabelsMatch(call, p, v) && v(c) == Skip
    requires forall d :: w(d) == if d == c then Record(link) else v(d)
    ensures LabelsMatch(call, Recorded(p, c, link), w)
  {
    var q := Recorded(p, c, link);
    forall t | t in q.ignored ensures t in q.txs && Ignores(w(q.ignored[t]), t) {
      assert t in p.ignored || q.ignored[t] == c;
    }
    forall d, t | t in q.txs && Ignores(w(d), t) ensures t in q.ignored {
      if d != c {
        assert Ignores(v(d), t);
      }
    }
  }

  lemma SettleKeepsSettled(call: Call, p: Progress, v: Id -> Outcome, w: Id -> Outcome, c: Id)
    requires SettledMatch(call, p, v) && v(c) == Skip && c != call.tx.id
    requires forall d :: w(d) == if d == c then Settle else v(d)
    ensures SettledMatch(call, p.(settled := p.settled + {c}), w)
  {
  }

  lemma SettleKeepsRows(call: Call, p: Progress, v: Id -> Outcome, w: Id -> Outcome, c: Id)
    requires RowsMatchVerdicts(call, p, v) && v(c) == Skip
    requires forall d :: w(d) == if d == c then Settle else v(d)
    ensures RowsMatchVerdicts(call, p.(settled := p.settled + {c}), w)
  {
  }

  lemma SettleKeepsLabels(call: Call, p: Progress, v: Id -> Outcome, w: Id -> Outcome, c: Id)
    requires LabelsMatch(call, p, v) && v(c) == Skip
    requires forall d :: w(d) == if d == c then Settle else v(d)
    ensures LabelsMatch(call, p.(settled := p.settled + {c}), w)
  {
    forall d, t | t in p.txs && Ignores(w(d), t) ensures t in p.ignored {
      assert Ignores(v(d), t);
    }
  }

  lemma ReachedRow(call: Call, p: Progress, v: Id -> Outcome, pass: Pass, c: Id)
    requires SettledMatch(call, p, v) && RowsMatchVerdicts(call, p, v) && Reaches(call, pass, c)
    requires call.Valid()
    ensures c != call.tx.id && (c in p.settled <==> v(c) != Skip) && p.nextPair !in p.owner
  {
  }

  /** Processing one more row keeps the progress in step with the verdicts. */
  lemma StepMatches(call: Call, p: Progress, v: Id -> Outcome, w: Id -> Outcome, pass: Pass, c: Id)
    requires call.Valid() && Matches(call, p, v) && Reaches(call, pass, c)
    requires forall d :: w(d) == if d == c && v(d) == Skip then DecideRow(call, pass, d) else v(d)
    ensures Matches(call, Step(call, pass, p, c), w)
  {
    hide DecideRow, Reaches, SettledMatch, RowsMatchVerdicts, LabelsMatch, Recorded;
    ReachedRow(call, p, v, pass, c);
    if v(c) != Skip || DecideRow(call, pass, c) == Skip {
      MatchesSame(call, p, v, w);
    } else if DecideRow(call, pass, c).Record? {
      var link := DecideRow(call, pass, c).link;
      RecordedSettledMatch(call, p, v, w, c, link);
      RecordedRowsMatch(call, p, v, w, c, link);
      RecordedLabelsMatch(call, p, v, w, c, link);
    } else {
      SettleKeepsSettled(call, p, v, w, c);
      SettleKeepsRows(call, p, v, w, c);
      SettleKeepsLabels(call, p, v, w, c);
    }
  }

  function SetOf(rows: seq<Id>): set<Id> {
    set c | c in rows
  }

  lemma InterimStep(call: Call, pass: Pass, earlier: set<Id>, c: Id)
    requires Reaches(call, pass, c)
    ensures forall d ::
              Interim(call, pass, earlier + {c}, d) ==
              if d == c && Interim(call, pass, earlier, d) == Skip then DecideRow(call, pass, d)
              else Interim(call, pass, earlier, d)
  {
    hide DecideRow;
  }

  lemma {:induction false} RowsMatch(call: Call, pass: Pass, p: Progress, rows: seq<Id>)
    requires call.Valid() && Matches(call, p, VerdictOf(call, pass - 1))
    requires forall c :: c in rows ==> Reaches(call, pass, c)
    ensures Matches(call, RunRows(call, pass, p, rows), InterimOf(call, pass, SetOf(rows)))
  {
    var w := InterimOf(call, pass, SetOf(rows));
    if rows == [] {
      MatchesSame(call, p, VerdictOf(call, pass - 1), w);
    } else {
      var earlier, c := rows[..|rows| - 1], rows[|rows| - 1];
      assert c in rows && SetOf(rows) == SetOf(earlier) + {c} by {
        assert rows == earlier + [c];
      }
      hide Step, Matches, Interim, Reaches, DecideRow, SetOf;
      RowsMatch(call, pass, p, earlier);
      InterimStep(call, pass, SetOf(earlier), c);
      StepMatches(call, RunRows(call, pass, p, earlier), InterimOf(call, pass, SetOf(earlier)), w, pass, c);
    }
  }

  /** A row that is no longer an expense in a later query was relabelled by its own pair, so it is settled. */
  lemma QueryMissesOnlySettled(call: Call, pass: Pass, p: Progress, scan: seq<Id>, c: Id)
    requires call.Valid() && Matches(call, p, VerdictOf(call, pass - 1))
    requires forall t :: t in p.txs ==> t in scan
    ensures c in Query(call, pass, p.txs, scan) ==> Reaches(call, pass, c)
    ensures Reaches(call, pass, c) && c !in Query(call, pass, p.txs, scan) ==> Verdict(call, pass - 1, c) != Skip
  {
    hide Selected, Verdict, SettledMatch, RowsMatchVerdicts;
    if c in p.txs && call.store.EmailOf(call.store.txs[c]).Some? {
      var t, e := call.store.txs[c], call.store.EmailOf(call.store.txs[c]).value;
      assert p.txs[c] == t.(tag := if c in p.ignored then Ignored else t.tag);
      if Selected(call, pass, t.(tag := p.txs[c].tag), e) {
        SelectedIsExpense(call, pass, t.(tag := p.txs[c].tag), e);
        assert t.(tag := p.txs[c].tag) == t;
      }
      if c in p.ignored && Selected(call, pass, t, e) {
        SelectedIsExpense(call, pass, t, e);
        RecordsNameTheirCandidate(call, pass - 1, p.ignored[c]);
        assert c in {call.tx.id, p.ignored[c]};
      }
    }
  }

  lemma SelectedIsExpense(call: Call, pass: Pass, t: Transaction, e: Email)
    requires Selected(call, pass, t, e)
    ensures t.tag == Expense && t.id != call.tx.id
  {
  }

  lemma {:induction false} RecordsNameTheirCandidate(call: Call, passes: nat, c: Id)
    requires call.Valid() && passes <= 4 && Verdict(call, passes, c).Record?
    ensures var link := Verdict(call, passes, c).link;
            && c != call.tx.id && c in call.store.txs && Ends(link) == {call.tx.id, c} && link.primary != link.duplicate
            && (link.status == Pending || link.status == AutoResolved)
            && !AlreadyPaired(call.store.pairs, call.tx.id, c)
  {
    if passes > 0 {
      if Verdict(call, passes - 1, c) != Skip {
        RecordsNameTheirCandidate(call, passes - 1, c);
      } else {
        DecisionShape(call, passes, c);
        UnsettledFromStart(call, passes - 1, c);
      }
    }
  }

  lemma {:induction false} UnsettledFromStart(call: Call, passes: nat, c: Id)
    requires passes <= 4 && Verdict(call, passes, c) == Skip && c != call.tx.id
    ensures !AlreadyPaired(call.store.pairs, call.tx.id, c)
  {
    if passes > 0 {
      UnsettledFromStart(call, passes - 1, c);
    }
  }

  lemma PairedWithEnds(pairs: map<Id, Pair>, t: Id, c: Id)
    requires c != t
    ensures c in PairedWith(pairs, t) <==> AlreadyPaired(pairs, t, c)
  {
    if AlreadyPaired(pairs, t, c) {
      var p :| p in pairs && Ends(pairs[p].link) == {t, c};
      assert t in Ends(pairs[p].link) && c in Ends(pairs[p].link);
      assert c == if pairs[p].link.primary == t then pairs[p].link.duplicate else pairs[p].link.primary;
    }
  }

  lemma StartMatches(call: Call)
    requires call.Valid()
    ensures Matches(call, Start(call), VerdictOf(call, 0))
  {
    forall c: Id | c != call.tx.id ensures c in Start(call).settled <==> Verdict(call, 0, c) != Skip {
      PairedWithEnds(call.store.pairs, call.tx.id, c);
    }
  }

  lemma InterimBecomesVerdict(call: Call, pass: Pass, rows: seq<Id>)
    requires forall c :: Reaches(call, pass, c) && c !in rows ==> Verdict(call, pass - 1, c) != Skip
    ensures forall c :: InterimOf(call, pass, SetOf(rows))(c) == VerdictOf(call, pass)(c)
  {
    forall c: Id ensures InterimOf(call, pass, SetOf(rows))(c) == VerdictOf(call, pass)(c) {
      hide Reaches, DecideRow;
      assert Verdict(call, pass, c) == Verdict(call, pass, c);
    }
  }

  /** After each pass the shared state is what the verdicts of the passes so far call for. */
  lemma {:induction false} PassesMatch(call: Call, passes: nat, scans: seq<seq<Id>>)
    requires call.Valid() && passes <= 4 && Complete(scans, call.store.txs)
    ensures Matches(call, RunPasses(call, passes, scans), VerdictOf(call, passes))
  {
    if passes == 0 {
      StartMatches(call);
    } else {
      PassesMatch(call, passes - 1, scans);
      var p := RunPasses(call, passes - 1, scans);
      var rows := Query(call, passes, p.txs, scans[passes - 1]);
      forall c: Id
        ensures c in rows ==> Reaches(call, passes, c)
        ensures Reaches(call, passes, c) && c !in rows ==> Verdict(call, passes - 1, c) != Skip
      {
        QueryMissesOnlySettled(call, passes, p, scans[passes - 1], c);
      }
      RowsMatch(call, passes, p, rows);
      InterimBecomesVerdict(call, passes, rows);
      hide Matches, Reaches, Verdict, Interim, Query, RunRows;
      MatchesSame(call, RunRows(call, passes, p, rows), InterimOf(call, passes, SetOf(rows)), VerdictOf(call, passes));
    }
  }

  predicate DedupCandidate(tx: Transaction) {
    tx.amount.Some? && tx.tag != Income
  }

  /** One run of the incremental detector on a transaction of the table. */
  function Detect(text: Text, store: Store, txId: Id, scans: seq<seq<Id>>): Store
    requires |scans| == 4
  {
    if txId !in store.txs || !DedupCandidate(store.txs[txId]) then store
    else
      var email := store.EmailOf(store.txs[txId]);
      if email.None? || !HasDomain(email.value) then store
      else
        var call := Call(text, store.txs[txId], email.value, store);
        Result(call, RunPasses(call, 4, scans))
  }

  /** The verdict of the whole call. */
  ghost function Final(call: Call, c: Id): Outcome {
    Verdict(call, 4, c)
  }

  lemma FinalNamesCandidate(call: Call, c: Id)
    requires call.Valid() && Final(call, c).Record?
    ensures var link := Final(call, c).link;
            && c != call.tx.id && c in call.store.txs && Ends(link) == {call.tx.id, c} && link.primary != link.duplicate
            && (link.status == Pending || link.status == AutoResolved)
            && !AlreadyPaired(call.store.pairs, call.tx.id, c)
  {
    RecordsNameTheirCandidate(call, 4, c);
  }

  /** The rows one store has beyond another. */
  ghost predicate NewRow(before: Store, after: Store, p: Id) {
    p in after.pairs && p !in before.pairs
  }

  ghost predicate OldRowsKept(before: Store, after: Store) {
    forall p :: p in before.pairs ==> p in after.pairs && after.pairs[p] == before.pairs[p]
  }

  /** Every new row is called for by the verdict on some candidate. */
  ghost predicate OnlyVerdicts(call: Call, after: Store) {
    forall p :: NewRow(call.store, after, p) ==>
      exists c :: Final(call, c).Record? && after.pairs[p] == Pair(Final(call, c).link, None)
  }

  /** Every verdict that names a link has a new row. */
  ghost predicate EveryVerdict(call: Call, after: Store) {
    forall c :: Final(call, c).Record? ==>
      exists p :: NewRow(call.store, after, p) && after.pairs[p].link == Final(call, c).link
  }

  /** No two new rows are about the same two transactions. */
  ghost predicate OneRowEach(before: Store, after: Store) {
    forall p, q :: NewRow(before, after, p) && NewRow(before, after, q) && p != q ==>
      Ends(after.pairs[p].link) != Ends(after.pairs[q].link)
  }

  /** A transaction is relabelled if some verdict makes it the duplicate of an auto-resolved row, and only then. */
  ghost predicate RelabelsDuplicates(call: Call, after: Store) {
    && after.txs.Keys == call.store.txs.Keys
    && forall t :: t in after.txs ==>
         after.txs[t] == call.store.txs[t].(tag :=
           if exists c :: Ignores(Final(call, c), t) then Ignored else call.store.txs[t].tag)
  }

  /**
   The detector does exactly what the verdicts on the single candidates say: it adds one pending or
   auto-resolved row for each candidate whose verdict names one, and no other row; it touches no row
   that was there; and it relabels precisely the duplicates of the auto-resolved rows it adds.
   */
  lemma DetectDoesWhatVerdictsSay(call: Call, scans: seq<seq<Id>>)
    requires call.Valid() && Complete(scans, call.store.txs)
    ensures var after := Result(call, RunPasses(call, 4, scans));
            && OldRowsKept(call.store, after)
            && OnlyVerdicts(call, after) && EveryVerdict(call, after) && OneRowEach(call.store, after)
            && RelabelsDuplicates(call, after)
            && (forall p :: p in after.pairs ==> p < after.nextPair)
  {
    PassesMatch(call, 4, scans);
    hide RunPasses, Verdict;
    var p := RunPasses(call, 4, scans);
    MatchingRows(call, p);
    MatchingVerdicts(call, p);
    MatchingLabels(call, p);
    OneRowPerCandidate(call, p);
  }

  lemma MatchingRows(call: Call, p: Progress)
    requires Matches(call, p, VerdictOf(call, 4))
    ensures OldRowsKept(call.store, Result(call, p)) && OnlyVerdicts(call, Result(call, p))
  {
    assert forall c: Id :: VerdictOf(call, 4)(c) == Final(call, c);
    hide Verdict, Final, LabelsMatch, SettledMatch;
    forall id | NewRow(call.store, Result(call, p), id)
      ensures exists c :: Final(call, c).Record? && p.pairs[id] == Pair(Final(call, c).link, None)
    {
      assert id in p.owner && VerdictOf(call, 4)(p.owner[id]).Record?;
    }
  }

  lemma MatchingVerdicts(call: Call, p: Progress)
    requires Matches(call, p, VerdictOf(call, 4))
    ensures EveryVerdict(call, Result(call, p))
  {
    assert forall c: Id :: VerdictOf(call, 4)(c) == Final(call, c);
    hide Verdict, Final, LabelsMatch;
    forall c: Id | Final(call, c).Record?
      ensures exists id :: NewRow(call.store, Result(call, p), id) && p.pairs[id].link == Final(call, c).link
    {
      assert VerdictOf(call, 4)(c).Record? && p.made[c] in p.owner;
      assert NewRow(call.store, Result(call, p), p.made[c]);
    }
  }

  lemma OneRowPerCandidate(call: Call, p: Progress)
    requires call.Valid() && Matches(call, p, VerdictOf(call, 4))
    ensures OneRowEach(call.store, Result(call, p))
  {
    hide Verdict, LabelsMatch;
    forall a, b | NewRow(call.store, Result(call, p), a) && NewRow(call.store, Result(call, p), b) && a != b
      ensures Ends(p.pairs[a].link) != Ends(p.pairs[b].link)
    {
      assert VerdictOf(call, 4)(p.owner[a]).Record? && VerdictOf(call, 4)(p.owner[b]).Record?;
      FinalNamesCandidate(call, p.owner[a]);
      FinalNamesCandidate(call, p.owner[b]);
      OtherEnd(call.tx.id, p.owner[a], p.owner[b]);
    }
  }

  lemma MatchingLabels(call: Call, p: Progress)
    requires Matches(call, p, VerdictOf(call, 4))
    ensures RelabelsDuplicates(call, Result(call, p))
  {
    assert forall c: Id :: VerdictOf(call, 4)(c) == Final(call, c);
    hide Verdict, Final, SettledMatch, RowsMatchVerdicts;
    forall t | t in p.txs
      ensures t in p.ignored <==> exists c :: Ignores(Final(call, c), t)
    {
      if t in p.ignored {
        assert Ignores(VerdictOf(call, 4)(p.ignored[t]), t);
      }
      if exists c :: Ignores(Final(call, c), t) {
        var c: Id :| Ignores(Final(call, c), t);
        assert Ignores(VerdictOf(call, 4)(c), t);
      }
    }
  }

  lemma OtherEnd(t: Id, a: Id, b: Id)
    requires a != b && a != t && b != t
    ensures {t, a} != {t, b}
  {
    assert a in {t, a} && a !in {t, b};
  }
}
