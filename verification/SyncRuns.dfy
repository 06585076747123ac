/**
 Whole runs of the two detectors: transactions arrive with their emails, a sync runs the batch detector on what it
 has brought, and the incremental detector is run on any transaction of the table, any number of times and in any
 order.
 */
module SyncRuns {
  import opened Common
  import opened Entities
  import opened Scoring
  import opened Detection
  import opened DetectionRuns
  import opened BatchDetection

  datatype Event =
    | Arrive(tx: Transaction, email: Email)
    | Scan(txId: Id, scans: seq<seq<Id>>)
    | Sync(news: seq<Entry>, user: Id, scan: seq<Id>, plan: History<Comparison>)

  datatype Run = Run(text: Text, start: Store, events: History<Event>)
  {
    function Past(): Run
      requires events.Then?
    {
      this.(events := events.past)
    }

    ghost function After(): Store
      decreases events
    {
      if events.Empty? then start else Next(text, Past().After(), events.last)
    }

    ghost predicate Legal()
      decreases events
    {
      events.Then? ==> Past().Legal() && Allowed(Past().After(), events.last)
    }

    /** The transactions whose label some detection of the run has changed. */
    ghost function Touched(): set<Id>
      decreases events
    {
      if events.Empty? then {}
      else Past().Touched() + if events.last.Arrive? then {} else Changed(Past().After(), After())
    }
  }

  ghost function Next(text: Text, store: Store, e: Event): Store {
    match e
    case Arrive(tx, email) => WithArrival(store, tx, email)
    case Scan(txId, scans) => if |scans| == 4 then Detect(text, store, txId, scans) else store
    case Sync(_, user, _, plan) => BatchDetect(text, store, user, plan)
  }

  /** Arrivals are new, scans cover the table, and a sync compares stored rows of its user as the code does. */
  ghost predicate Allowed(store: Store, e: Event) {
    match e
    case Arrive(tx, email) => Arrives(store, tx, email)
    case Scan(_, scans) => Complete(scans, store.txs)
    case Sync(news, user, scan, plan) =>
      NewsRows(store, user, news) && Covers(plan, news, Existing(store, user, news, scan))
  }

  /** A batch run changes no label and removes no row, so what was explained still is. */
  lemma SyncKeepsSound(
      text: Text, store: Store, news: seq<Entry>, user: Id, scan: seq<Id>, plan: History<Comparison>, touched: set<Id>)
    requires Sound(store) && Allowed(store, Sync(news, user, scan, plan)) && Explained(store, touched)
    ensures var after := BatchDetect(text, store, user, plan);
            Sound(after) && Explained(after, touched) && after.txs == store.txs
  {
    var after := BatchDetect(text, store, user, plan);
    BatchKeepsSound(text, store, user, news, scan, plan);
    BatchKeepsRows(text, store, news, user, scan, plan);
    hide Sound, Leads, Compared;
    forall t | t in touched ensures exists u :: Leads(after, t, u) {
      var u :| Leads(store, t, u);
      LeadsKept(store, after, t, u);
    }
  }

  lemma BatchKeepsRows(
      text: Text, store: Store, news: seq<Entry>, user: Id, scan: seq<Id>, plan: History<Comparison>)
    requires store.Keyed() && Allowed(store, Sync(news, user, scan, plan))
    ensures OldRowsKept(store, BatchDetect(text, store, user, plan))
  {
    var batch := Batch(text, store.rules, user, Known(store, user));
    BatchRecordsExactlyWanted(batch, store, plan, news, Existing(store, user, news, scan));
    hide Compared, Wanted, Total, CountOf, RowsWith, Covers, Existing;
  }

  /**
   Over every run, the pair table obeys the symmetric unique index, every pair joins two transactions
   of one user, every auto-resolved pair keeps the transaction that arrived first, and every label
   the detectors changed is explained by such a pair.
   */
  lemma {:induction false} RunsStaySound(r: Run)
    requires r.Legal() && Sound(r.start)
    ensures Sound(r.After()) && Explained(r.After(), r.Touched())
    ensures r.Touched() <= r.After().txs.Keys
    decreases r.events
  {
    if r.events.Then? {
      var past := r.Past();
      RunsStaySound(past);
      var store := past.After();
      hide Sound, Explained, Detect, BatchDetect, Arrives, Complete;
      match r.events.last
      case Arrive(tx, email) => ArriveKeepsSound(store, tx, email, past.Touched());
      case Scan(txId, scans) => ScanKeepsSound(r.text, store, txId, scans, past.Touched());
      case Sync(news, user, scan, plan) =>
        SyncKeepsSound(r.text, store, news, user, scan, plan, past.Touched());
        assert Changed(store, r.After()) == {};
        assert r.Touched() == past.Touched();
    }
  }

  /** What the detectors ignored always has a kept counterpart, through ever earlier arrivals. */
  lemma IgnoredHasKept(r: Run, t: Id) returns (path: seq<Id>)
    requires r.Legal() && Sound(r.start) && t in r.Touched()
    ensures |path| >= 2 && path[0] == t && Path(r.After(), path)
    ensures path[|path| - 1] in r.After().txs && path[|path| - 1] !in r.Touched()
  {
    hide *;
    RunsStaySound(r);
    path := LinksEndAtUntouched(r.After(), r.Touched(), t);
  }
}
