/** The duplicate engine as the code runs it: tables changed in place, one row at a time. */
module Service {
  import opened Common
  import opened Entities
  import opened Scoring
  import opened Detection
  import opened DetectionRuns
  import opened BatchDetection
  import opened Learning
  import opened Resolution
  import opened Evidence
  import opened Recording
  import opened BatchRecording
  import opened Decisions

  class DedupService {
    const text: Text
    var txs: map<Id, Transaction>
    var emails: map<Id, Email>
    var rules: Rules
    var pairs: map<Id, Pair>
    var corrections: map<Id, Id>
    var nextPair: Id

    constructor (text: Text, store: Store)
      ensures this.text == text && State() == store
    {
      this.text := text;
      txs, emails, rules, pairs, corrections, nextPair :=
        store.txs, store.emails, store.rules, store.pairs, store.corrections, store.nextPair;
    }

    function State(): Store
      reads this
    {
      Store(txs, emails, rules, pairs, corrections, nextPair)
    }

    /** The tables are in the state of a call's progress. */
    ghost predicate At(call: Call, p: Progress)
      reads this
    {
      text == call.text && State() == Result(call, p)
    }

    /** Adds a pair row and, if it is resolved automatically, relabels the duplicate. */
    method AddPair(link: Link, ghost call: Call, ghost p: Progress, ghost candidate: Id)
      requires At(call, p)
      modifies this`txs, this`pairs, this`nextPair
      ensures txs == Relabelled(old(txs), link)
      ensures pairs == old(pairs)[old(nextPair) := Pair(link, None)] && nextPair == old(nextPair) + 1
      ensures At(call, Recorded(p, candidate, link))
    {
      pairs := pairs[nextPair := Pair(link, None)];
      nextPair := nextPair + 1;
      if link.status.AutoResolved? && link.duplicate in txs {
        txs := txs[link.duplicate := txs[link.duplicate].(tag := Ignored)];
      }
    }

    /** One row of the first pass. */
    method SameDomainRow(call: Call, c: Id, settled0: set<Id>, ghost p: Progress) returns (settled: set<Id>)
      requires At(call, p) && settled0 == p.settled
      requires c in call.store.txs && call.store.EmailOf(call.store.txs[c]).Some?
      modifies this`txs, this`pairs, this`nextPair
      ensures var q := Detection.Step(call, 1, p, c); At(call, q) && settled == q.settled
    {
      hide ScorePair, Domain, DomainPairOf, RuleFor, PickPrimary, LateLayer;
      settled := settled0;
      var t, e := call.store.txs[c], call.store.EmailOf(call.store.txs[c]).value;
      if c !in settled {
        settled := settled + {c};
        var primary := PickPrimary(call.tx, call.email, t, e);
        AddPair(Link(primary, if primary == t.id then call.tx.id else t.id, AutoResolved, 1.0, SameDomainExact), call, p, c);
      }
    }

    /** Same sender domain: every candidate not yet paired is resolved automatically. */
    method SameDomainPass(call: Call, scan: seq<Id>, settled0: set<Id>, ghost p: Progress) returns (settled: set<Id>)
      requires At(call, p) && settled0 == p.settled
      modifies this`txs, this`pairs, this`nextPair
      ensures var q := RunRows(call, 1, p, Query(call, 1, p.txs, scan)); At(call, q) && settled == q.settled
    {
      settled := settled0;
      var rows := Query(call, 1, txs, scan);
      assert forall c :: c in rows ==> c in call.store.txs && call.store.EmailOf(call.store.txs[c]).Some?;
      hide Hit, RunRows, Query, Detection.Step;
      RowByRow(call, 1, p, rows, 0);
      var i := 0;
      while i < |rows|
        invariant 0 <= i <= |rows|
        invariant var q := RunRows(call, 1, p, rows[..i]); At(call, q) && settled == q.settled
      {
        RowByRow(call, 1, p, rows, i);
        assert rows[i] in rows;
        settled := SameDomainRow(call, rows[i], settled, RunRows(call, 1, p, rows[..i]));
        i := i + 1;
      }
      assert rows[..i] == rows;
    }

    /** One row of the second pass: it counts as settled before its score is known. */
    method CrossDomainRow(call: Call, c: Id, settled0: set<Id>, ghost p: Progress) returns (settled: set<Id>)
      requires At(call, p) && settled0 == p.settled && HasDomain(call.email)
      requires c in call.store.txs && call.store.EmailOf(call.store.txs[c]).Some?
      modifies this`txs, this`pairs, this`nextPair
      ensures var q := Detection.Step(call, 2, p, c); At(call, q) && settled == q.settled
    {
      hide ScorePair, Domain, DomainPairOf, RuleFor, PickPrimary, LateLayer;
      settled := settled0;
      var t, e := call.store.txs[c], call.store.EmailOf(call.store.txs[c]).value;
      if HasDomain(e) && Domain(text, e) != Domain(text, call.email) && c !in settled {
        settled := settled + {c};
        var score := ScorePair(text, call.tx, Some(call.email), t, Some(e), rules, call.email.userId);
        if score.confidence >= 0.5 {
          var rule := RuleFor(rules, call.email.userId, DomainPairOf(text, call.email, e));
          if (rule.Some? && rule.value.autoResolve) || score.source == ReferenceIdMatch {
            var primary := PickPrimary(call.tx, call.email, t, e);
            var duplicate := if primary == t.id then call.tx.id else t.id;
            AddPair(Link(primary, duplicate, AutoResolved, score.confidence, score.source), call, p, c);
          } else {
            AddPair(Link(call.tx.id, t.id, Pending, score.confidence, score.source), call, p, c);
          }
        }
      }
    }

    /** Different sender domains. */
    method CrossDomainPass(call: Call, scan: seq<Id>, settled0: set<Id>, ghost p: Progress) returns (settled: set<Id>)
      requires At(call, p) && settled0 == p.settled && HasDomain(call.email)
      modifies this`txs, this`pairs, this`nextPair
      ensures var q := RunRows(call, 2, p, Query(call, 2, p.txs, scan)); At(call, q) && settled == q.settled
    {
      settled := settled0;
      var rows := Query(call, 2, txs, scan);
      assert forall c :: c in rows ==> c in call.store.txs && call.store.EmailOf(call.store.txs[c]).Some?;
      hide Hit, RunRows, Query, Detection.Step;
      RowByRow(call, 2, p, rows, 0);
      var i := 0;
      while i < |rows|
        invariant 0 <= i <= |rows|
        invariant var q := RunRows(call, 2, p, rows[..i]); At(call, q) && settled == q.settled
      {
        RowByRow(call, 2, p, rows, i);
        assert rows[i] in rows;
        settled := CrossDomainRow(call, rows[i], settled, RunRows(call, 2, p, rows[..i]));
        i := i + 1;
      }
      assert rows[..i] == rows;
    }

    /** One row of the third pass. */
    method InvestmentRow(call: Call, c: Id, settled0: set<Id>, ghost p: Progress) returns (settled: set<Id>)
      requires At(call, p) && settled0 == p.settled
      requires c in call.store.txs && call.store.EmailOf(call.store.txs[c]).Some?
      modifies this`txs, this`pairs, this`nextPair
      ensures var q := Detection.Step(call, 3, p, c); At(call, q) && settled == q.settled
    {
      hide ScorePair, Domain, DomainPairOf, RuleFor, PickPrimary, LateLayer;
      settled := settled0;
      var t, e := call.store.txs[c], call.store.EmailOf(call.store.txs[c]).value;
      var isOrder, isConfirm := text.isOrder(call.email.subject), text.isConfirm(call.email.subject);
      if (isOrder && text.isConfirm(e.subject)) || (isConfirm && text.isOrder(e.subject)) {
        if c !in settled {
          settled := settled + {c};
          if isOrder {
            AddPair(Link(call.tx.id, t.id, Pending, 0.65, InvestmentFlow), call, p, c);
          } else {
            AddPair(Link(t.id, call.tx.id, Pending, 0.65, InvestmentFlow), call, p, c);
          }
        }
      }
    }

    /** An investment order and its confirmation, from different domains. */
    method InvestmentPass(call: Call, scan: seq<Id>, settled0: set<Id>, ghost p: Progress) returns (settled: set<Id>)
      requires At(call, p) && settled0 == p.settled
      modifies this`txs, this`pairs, this`nextPair
      ensures var q := RunRows(call, 3, p, Query(call, 3, p.txs, scan)); At(call, q) && settled == q.settled
    {
      settled := settled0;
      if (!text.isOrder(call.email.subject) && !text.isConfirm(call.email.subject)) || call.email.receivedAt.None? {
        NoHitsNoRows(call, 3, txs, scan);
        return;
      }
      var rows := Query(call, 3, txs, scan);
      assert forall c :: c in rows ==> c in call.store.txs && call.store.EmailOf(call.store.txs[c]).Some?;
      hide Hit, RunRows, Query, Detection.Step;
      RowByRow(call, 3, p, rows, 0);
      var i := 0;
      while i < |rows|
        invariant 0 <= i <= |rows|
        invariant var q := RunRows(call, 3, p, rows[..i]); At(call, q) && settled == q.settled
      {
        RowByRow(call, 3, p, rows, i);
        assert rows[i] in rows;
        settled := InvestmentRow(call, rows[i], settled, RunRows(call, 3, p, rows[..i]));
        i := i + 1;
      }
      assert rows[..i] == rows;
    }

    /** One row of the fourth pass. */
    method SharedScorerRow(call: Call, c: Id, settled0: set<Id>, ghost p: Progress) returns (settled: set<Id>)
      requires At(call, p) && settled0 == p.settled
      requires c in call.store.txs && call.store.EmailOf(call.store.txs[c]).Some?
      modifies this`txs, this`pairs, this`nextPair
      ensures var q := Detection.Step(call, 4, p, c); At(call, q) && settled == q.settled
    {
      hide ScorePair, Domain, DomainPairOf, RuleFor, PickPrimary, LateLayer;
      settled := settled0;
      var t, e := call.store.txs[c], call.store.EmailOf(call.store.txs[c]).value;
      if c !in settled {
        var score := ScorePair(text, call.tx, Some(call.email), t, Some(e), rules, call.email.userId);
        if score.confidence >= 0.5 && LateLayer(score.source) {
          settled := settled + {c};
          if score.source == ReferenceIdMatch {
            var primary := PickPrimary(call.tx, call.email, t, e);
            var duplicate := if primary == t.id then call.tx.id else t.id;
            AddPair(Link(primary, duplicate, AutoResolved, score.confidence, score.source), call, p, c);
          } else {
            AddPair(Link(call.tx.id, t.id, Pending, score.confidence, score.source), call, p, c);
          }
        }
      }
    }

    /** The shared scorer over the wider window, for the layers the earlier passes do not handle. */
    method SharedScorerPass(call: Call, scan: seq<Id>, settled0: set<Id>, ghost p: Progress) returns (settled: set<Id>)
      requires At(call, p) && settled0 == p.settled
      modifies this`txs, this`pairs, this`nextPair
      ensures var q := RunRows(call, 4, p, Query(call, 4, p.txs, scan)); At(call, q) && settled == q.settled
    {
      settled := settled0;
      var rows := Query(call, 4, txs, scan);
      assert forall c :: c in rows ==> c in call.store.txs && call.store.EmailOf(call.store.txs[c]).Some?;
      hide Hit, RunRows, Query, Detection.Step;
      RowByRow(call, 4, p, rows, 0);
      var i := 0;
      while i < |rows|
        invariant 0 <= i <= |rows|
        invariant var q := RunRows(call, 4, p, rows[..i]); At(call, q) && settled == q.settled
      {
        RowByRow(call, 4, p, rows, i);
        assert rows[i] in rows;
        settled := SharedScorerRow(call, rows[i], settled, RunRows(call, 4, p, rows[..i]));
        i := i + 1;
      }
      assert rows[..i] == rows;
    }

    /** Runs after a transaction row is written; `scans` is the order in which each query meets the table. */
    method DetectAndRecordDuplicates(txId: Id, scans: seq<seq<Id>>)
      requires |scans| == 4
      modifies this
      ensures State() == Detect(text, old(State()), txId, scans)
      ensures old(State()).Keyed() && Complete(scans, old(txs)) ==> DetectorRecorded(text, old(State()), txId, State())
    {
      if State().Keyed() && Complete(scans, txs) {
        DetectRecords(text, State(), txId, scans);
      }
      hide DetectorRecorded;
      if txId !in txs || !DedupCandidate(txs[txId]) {
        return;
      }
      var tx := txs[txId];
      var email := State().EmailOf(tx);
      if email.None? || !HasDomain(email.value) {
        return;
      }
      var call := Call(text, tx, email.value, State());
      var settled := PairedWith(pairs, tx.id);
      ghost var p0 := RunPasses(call, 0, scans);
      assert State() == Result(call, p0);
      settled := SameDomainPass(call, scans[0], settled, p0);
      ghost var p1 := RunPasses(call, 1, scans);
      if EffectiveDate(tx, email.value).None? {
        NoDateNoRows(call, scans);
        return;
      }
      settled := CrossDomainPass(call, scans[1], settled, p1);
      ghost var p2 := RunPasses(call, 2, scans);
      settled := InvestmentPass(call, scans[2], settled, p2);
      ghost var p3 := RunPasses(call, 3, scans);
      settled := SharedScorerPass(call, scans[3], settled, p3);
    }

    /** Who is already paired with whom. */
    method Adjacency(rows: set<Id>) returns (paired: map<Id, set<Id>>)
      requires rows <= pairs.Keys
      ensures forall x, y :: (x in paired && y in paired[x]) <==> {x, y} in (set p | p in rows :: Ends(pairs[p].link))
    {
      paired := map[];
      var left := rows;
      while left != {}
        invariant left <= rows
        invariant Adjacent(paired, set p | p in rows - left :: Ends(pairs[p].link))
        decreases left
      {
        var p :| p in left;
        var a, b := pairs[p].link.primary, pairs[p].link.duplicate;
        ghost var before := set q | q in rows - left :: Ends(pairs[q].link);
        left := left - {p};
        assert (set q | q in rows - left :: Ends(pairs[q].link)) == before + {{a, b}} by {
          assert rows - left == (rows - (left + {p})) + {p};
        }
        OneMorePair(paired, before, a, b);
        hide Adjacent;
        paired := paired[a := (if a in paired then paired[a] else {}) + {b}];
        paired := paired[b := (if b in paired then paired[b] else {}) + {a}];
      }
    }

    /** The local state of a batch run is the tally of its comparisons. */
    ghost predicate Tracks(batch: Batch, begin: Tally, plan: History<Comparison>, stats: Stats)
      reads this
    {
      var t := Compared(batch, begin, plan);
      && pairs == t.pairs && nextPair == t.nextPair && stats.seen == t.keys && stats.counts == t.counts
      && stats.alreadyPaired == t.alreadyPaired && stats.existingPairs == 0
      && begin.nextPair <= nextPair && stats.newIds == Range(begin.nextPair, nextPair)
    }

    /**
     The batch detector. `plan` is the history of the comparisons it makes; what that history records,
     in whatever order, is characterised in BatchDetection.
     */
    method BatchDetectDuplicates(news: seq<Entry>, user: Id, scan: seq<Id>)
      returns (stats: Stats, ghost plan: History<Comparison>)
      modifies this`pairs, this`nextPair
      ensures Covers(plan, news, Existing(old(State()), user, news, scan))
      ensures BatchOutcome(text, old(State()), user, plan, stats, State())
      ensures old(State()).Keyed() ==>
                && BatchRecorded(text, old(State()), user, news, scan, State())
                && CountedBySource(old(State()), State(), stats.counts)
      ensures stats.alreadyPaired == Repeats(old(State()), user, plan)
    {
      var store := State();
      stats, plan := Stats({}, map[], 0, 0, []), Empty;
      var existing := Existing(store, user, news, scan);
      var batch := Batch(text, rules, user, Known(store, user));
      var paired := PairedMap(user);
      ghost var begin := Begin(store);
      assert Tracks(batch, begin, plan, stats);
      hide Existing, Known, Compared, Owner, Tracks;
      stats, plan := AgainstWindowRows(batch, news, existing, paired, stats, begin);
      stats, plan := IntraBatch(batch, news, existing, paired, stats, begin, plan);
      TracksOutcome(batch, store, user, plan, stats);
      OutcomeMeans(text, store, user, news, scan, plan, stats, State());
    }

    /** What a finished run reports. */
    lemma TracksOutcome(batch: Batch, before: Store, user: Id, plan: History<Comparison>, stats: Stats)
      requires batch == Batch(text, before.rules, user, Known(before, user))
      requires Tracks(batch, Begin(before), plan, stats)
      requires State() == before.(pairs := pairs, nextPair := nextPair)
      ensures BatchOutcome(text, before, user, plan, stats, State())
    {
      hide Compared, Known;
    }

    /** The user's stored pairs, from both ends. */
    method PairedMap(user: Id) returns (paired: map<Id, set<Id>>)
      ensures forall x, y :: (x in paired && y in paired[x]) <==> {x, y} in Known(State(), user)
    {
      var mine := set p | p in pairs && Owner(State(), pairs[p].link.primary) == Some(user);
      assert Known(State(), user) == set p | p in mine :: Ends(pairs[p].link);
      hide Known, Owner;
      paired := Adjacency(mine);
    }

    /** The first phase: every eligible new transaction against the rows of the window. */
    method AgainstWindowRows(batch: Batch, news: seq<Entry>, existing: seq<Entry>, paired: map<Id, set<Id>>, stats0: Stats,
                             ghost begin: Tally)
      returns (stats: Stats, ghost plan: History<Comparison>)
      requires Tracks(batch, begin, Empty, stats0)
      requires forall x, y :: (x in paired && y in paired[x]) <==> {x, y} in batch.known
      modifies this`pairs, this`nextPair
      ensures Tracks(batch, begin, plan, stats)
      ensures forall c :: c in Members(plan) <==> AgainstWindow(news, existing, c)
    {
      stats, plan := stats0, Empty;
      NothingNew(existing);
      assert Members(plan) == {};
      hide Tracks, AgainstWindow, Eligible;
      var i := 0;
      while i < |news|
        modifies this`pairs, this`nextPair
        invariant 0 <= i <= |news|
        invariant Tracks(batch, begin, plan, stats)
        invariant forall c :: c in Members(plan) <==> AgainstWindow(news[..i], existing, c)
      {
        var a := news[i];
        assert news[..i + 1] == news[..i] + [a];
        OneMoreNew(news[..i], a, existing);
        if Eligible(a) {
          stats, plan := AgainstExisting(batch, a, existing, paired, stats, begin, plan);
        }
        i := i + 1;
      }
      assert news[..i] == news;
    }

    /** One new transaction against every other row of the window. */
    method AgainstExisting(batch: Batch, a: Entry, existing: seq<Entry>, paired: map<Id, set<Id>>, stats0: Stats,
                           ghost begin: Tally, ghost plan0: History<Comparison>)
      returns (stats: Stats, ghost plan: History<Comparison>)
      requires Tracks(batch, begin, plan0, stats0)
      requires forall x, y :: (x in paired && y in paired[x]) <==> {x, y} in batch.known
      modifies this`pairs, this`nextPair
      ensures Tracks(batch, begin, plan, stats)
      ensures forall c :: c in Members(plan) <==>
                c in Members(plan0) || (c.a == a && c.b in existing && c.b.tx.id != a.tx.id)
    {
      hide Tracks;
      stats, plan := stats0, plan0;
      var already := if a.tx.id in paired then paired[a.tx.id] else {};
      var k := 0;
      while k < |existing|
        modifies this`pairs, this`nextPair
        invariant 0 <= k <= |existing|
        invariant Tracks(batch, begin, plan, stats)
        invariant forall c :: c in Members(plan) <==>
                    c in Members(plan0) || (c.a == a && c.b in existing[..k] && c.b.tx.id != a.tx.id)
      {
        var b := existing[k];
        assert existing[..k + 1] == existing[..k] + [b];
        if b.tx.id != a.tx.id {
          stats := CompareEntries(batch, a, b, already, stats, begin, plan);
          plan := Then(plan, Comparison(a, b));
        }
        k := k + 1;
      }
      assert existing[..k] == existing;
    }

    /** The body that both comparison loops share. */
    method CompareEntries(batch: Batch, a: Entry, b: Entry, already: set<Id>, stats0: Stats,
                          ghost begin: Tally, ghost plan: History<Comparison>)
      returns (stats: Stats)
      requires Tracks(batch, begin, plan, stats0)
      requires b.tx.id in already <==> {a.tx.id, b.tx.id} in batch.known
      modifies this`pairs, this`nextPair
      ensures Tracks(batch, begin, Then(plan, Comparison(a, b)), stats)
    {
      hide ScorePair;
      stats := stats0;
      var key := {a.tx.id, b.tx.id};
      assert key == Comparison(a, b).Key();
      if key in stats.seen {
        return;
      }
      if b.tx.id in already {
        stats := stats.(alreadyPaired := stats.alreadyPaired + 1);
        return;
      }
      var score := ScorePair(batch.text, a.tx, Some(a.email), b.tx, Some(b.email), batch.rules, batch.user);
      if score.confidence < 0.5 {
        return;
      }
      if key in batch.known {
        stats := stats.(existingPairs := stats.existingPairs + 1);
        return;
      }
      pairs := pairs[nextPair := Pair(Link(a.tx.id, b.tx.id, Pending, score.confidence, score.source), None)];
      stats := stats.(seen := stats.seen + {key},
                      counts := stats.counts[score.source := CountOf(stats.counts, score.source) + 1],
                      newIds := stats.newIds + [nextPair]);
      nextPair := nextPair + 1;
    }

    /** The second phase: new transactions filed by amount and date, and each group compared within itself. */
    method IntraBatch(batch: Batch, news: seq<Entry>, ghost existing: seq<Entry>, paired: map<Id, set<Id>>, stats0: Stats,
                      ghost begin: Tally, ghost plan0: History<Comparison>)
      returns (stats: Stats, ghost plan: History<Comparison>)
      requires Tracks(batch, begin, plan0, stats0)
      requires forall x, y :: (x in paired && y in paired[x]) <==> {x, y} in batch.known
      requires forall c :: c in Members(plan0) <==> AgainstWindow(news, existing, c)
      modifies this`pairs, this`nextPair
      ensures Tracks(batch, begin, plan, stats)
      ensures Covers(plan, news, existing)
    {
      hide Tracks, Before, GroupOf;
      stats, plan := stats0, plan0;
      var keys, groups := Groups(news);
      var g := 0;
      while g < |keys|
        modifies this`pairs, this`nextPair
        invariant 0 <= g <= |keys|
        invariant Tracks(batch, begin, plan, stats)
        invariant forall c :: c in Members(plan) <==>
                    c in Members(plan0) || exists h :: 0 <= h < g && Before(GroupOf(news, keys[h]), c.a, c.b)
      {
        assert keys[g] in keys;
        stats, plan := WithinGroup(batch, groups[keys[g]], paired, stats, begin, plan);
        g := g + 1;
      }
      forall c ensures c in Members(plan) <==> Planned(news, existing, c) {
        GroupsFindPairs(news, keys, c);
      }
    }

    method WithinGroup(batch: Batch, group: seq<Entry>, paired: map<Id, set<Id>>, stats0: Stats,
                       ghost begin: Tally, ghost plan0: History<Comparison>)
      returns (stats: Stats, ghost plan: History<Comparison>)
      requires Tracks(batch, begin, plan0, stats0)
      requires forall x, y :: (x in paired && y in paired[x]) <==> {x, y} in batch.known
      modifies this`pairs, this`nextPair
      ensures Tracks(batch, begin, plan, stats)
      ensures forall c :: c in Members(plan) <==> c in Members(plan0) || Before(group, c.a, c.b)
    {
      hide Tracks;
      stats, plan := stats0, plan0;
      var i := 0;
      while i < |group|
        modifies this`pairs, this`nextPair
        invariant 0 <= i <= |group|
        invariant Tracks(batch, begin, plan, stats)
        invariant forall c :: c in Members(plan) <==>
                    c in Members(plan0) || exists x, y :: 0 <= x < i && x < y < |group| && group[x] == c.a && group[y] == c.b
      {
        var a := group[i];
        var already := if a.tx.id in paired then paired[a.tx.id] else {};
        ghost var outer := plan;
        var j := i + 1;
        while j < |group|
          modifies this`pairs, this`nextPair
          invariant i < j <= |group|
          invariant Tracks(batch, begin, plan, stats)
          invariant forall c :: c in Members(plan) <==>
                      c in Members(outer) || exists y :: i < y < j && c.a == a && group[y] == c.b
        {
          stats := CompareEntries(batch, a, group[j], already, stats, begin, plan);
          plan := Then(plan, Comparison(a, group[j]));
          j := j + 1;
        }
        i := i + 1;
      }
    }

    /** The group keys in order of first appearance, and the members of each group. */
    method Groups(news: seq<Entry>) returns (keys: seq<(real, int)>, groups: map<(real, int), seq<Entry>>)
      ensures forall key :: key in keys <==> exists e :: e in news && GroupKey(e) == Some(key)
      ensures forall key :: key in keys ==> key in groups && groups[key] == GroupOf(news, key)
    {
      keys, groups := [], map[];
      var i := 0;
      while i < |news|
        invariant 0 <= i <= |news|
        invariant forall key :: key in groups <==> key in keys
        invariant forall key :: key in keys <==> GroupOf(news[..i], key) != []
        invariant forall key :: key in keys ==> groups[key] == GroupOf(news[..i], key)
      {
        var e := news[i];
        assert news[..i + 1] == news[..i] + [e] && news[..i + 1][..i] == news[..i];
        if Grouped(e) {
          var key := (e.tx.amount.value, e.tx.txnDate.value);
          if key in groups {
            groups := groups[key := groups[key] + [e]];
          } else {
            keys := keys + [key];
            groups := groups[key := [e]];
          }
        }
        i := i + 1;
      }
      assert news[..i] == news;
      forall key ensures GroupOf(news, key) != [] <==> exists e :: e in news && GroupKey(e) == Some(key) {
        GroupMembers(news, key);
      }
    }

    /** The user's decision on a pending pair; the result is the status code of the response. */
    method ResolvePair(pairId: Id, action: Action, kept: Id, user: Id, now: int) returns (code: nat)
      modifies this
      ensures var outcome := Resolve(text, old(State()), pairId, action, kept, user, now);
              code == Code(outcome) && State() == Accepted(old(State()), outcome)
      ensures Answered(text, old(State()), pairId, action, kept, user, now, code, State())
    {
      ResolveMeans(text, State(), pairId, action, kept, user, now);
      hide Answered;
      if action.Other? {
        return 422;
      }
      if !Loads(State(), pairId, user) {
        return 404;
      }
      var link := pairs[pairId].link;
      if kept != link.primary && kept != link.duplicate {
        return 422;
      }
      if link.status != Pending {
        return 409;
      }
      // The transaction to discard is chosen before the primary is overwritten.
      var keepingPrimary := kept == link.primary;
      var discard := if keepingPrimary then link.duplicate else link.primary;
      var primaryEmail, duplicateEmail := EmailOfTx(State(), link.primary), EmailOfTx(State(), link.duplicate);
      var keptEmail := if keepingPrimary then primaryEmail else duplicateEmail;
      var discardEmail := if keepingPrimary then duplicateEmail else primaryEmail;
      AppliedIsSettled(text, State(), pairId, kept, action.Confirm?, user, discard, now);
      hide Applied, Settled, Loads;
      pairs := pairs[pairId := pairs[pairId].(link := link.(primary := kept))];
      ResolveDuplicate(pairId, action.Confirm?, user, keptEmail, discardEmail, discard, now);
      return 200;
    }

    /** Applies the decision: the pair's status, the learning loop, and on confirmation the deletions. */
    method ResolveDuplicate(pairId: Id, confirm: bool, user: Id, keptEmail0: Option<Email>, discardEmail0: Option<Email>,
                            discard: Id, now: int)
      requires pairId in pairs
      requires keptEmail0 == EmailOfTx(State(), pairs[pairId].link.primary) && discardEmail0 == EmailOfTx(State(), discard)
      modifies this
      ensures State() == Applied(text, old(State()), pairId, confirm, user, discard, now)
    {
      var pair := pairs[pairId];
      pairs := pairs[pairId := Pair(pair.link.(status := if confirm then Confirmed else Dismissed), Some(now))];
      var keptEmail, discardEmail := keptEmail0, discardEmail0;
      if keptEmail.None? {
        keptEmail := EmailOfTx(State(), pair.link.primary);
      }
      if discardEmail.None? {
        discardEmail := EmailOfTx(State(), discard);
      }
      if keptEmail.Some? && discardEmail.Some? {
        var d1, d2 := Domain(text, keptEmail.value), Domain(text, discardEmail.value);
        if d1 != "" && d2 != "" && d1 != d2 {
          UpdateRule(user, {d1, d2}, confirm);
        }
      }
      if confirm {
        DeleteTransaction(discard);
      }
    }

    /** The rule that learns from a resolution: the user's, else everybody's, else a new one. */
    method UpdateRule(user: Id, domains: DomainPair, confirmed: bool)
      modifies this`rules
      ensures rules == Learn(old(rules), Lesson(user, domains, confirmed))
      ensures LearntOne(old(rules), rules, user, domains, confirmed)
    {
      LearnMovesOneRule(rules, Lesson(user, domains, confirmed));
      hide LearntOne;
      var key := RuleKey(Some(user), domains);
      if key !in rules && RuleKey(None, domains) in rules {
        key := RuleKey(None, domains);
      }
      if key !in rules {
        rules := rules[key := NEW_RULE];
      }
      var rule := rules[key];
      if confirmed {
        rule := rule.(confirmed := rule.confirmed + 1);
      } else {
        rule := rule.(dismissed := rule.dismissed + 1);
      }
      var total := rule.confirmed + rule.dismissed;
      rule := rule.(confidence := rule.confirmed as real / total as real);
      rule := rule.(autoResolve := rule.confidence > AUTO_RESOLVE_THRESHOLD && rule.confirmed >= AUTO_RESOLVE_MIN_CONFIRMED);
      rules := rules[key := rule];
    }

    /** Deletes the pairs that name a transaction, its corrections, and then the transaction. */
    method DeleteTransaction(t: Id)
      modifies this`txs, this`pairs, this`corrections
      ensures State() == Without(old(State()), t)
    {
      var referencing := set p | p in pairs && t in Ends(pairs[p].link);
      while referencing != {}
        modifies this`pairs
        invariant forall p :: p in pairs ==> p in old(pairs) && pairs[p] == old(pairs)[p]
        invariant referencing == set p | p in pairs && t in Ends(pairs[p].link)
        invariant forall p :: p in old(pairs) && t !in Ends(old(pairs)[p].link) ==> p in pairs
        decreases referencing
      {
        var p :| p in referencing;
        pairs := pairs - {p};
        referencing := referencing - {p};
      }
      var about := set c | c in corrections && corrections[c] == t;
      while about != {}
        modifies this`corrections
        invariant forall c :: c in corrections ==> c in old(corrections) && corrections[c] == old(corrections)[c]
        invariant about == set c | c in corrections && corrections[c] == t
        invariant forall c :: c in old(corrections) && old(corrections)[c] != t ==> c in corrections
        decreases about
      {
        var c :| c in about;
        corrections := corrections - {c};
        about := about - {c};
      }
      assert forall p :: p in pairs ==> p !in referencing;
      assert forall c :: c in corrections ==> c !in about;
      assert pairs == Without(old(State()), t).pairs;
      assert corrections == Without(old(State()), t).corrections;
      txs := txs - {t};
    }

    method ReopenPair(pairId: Id, user: Id) returns (code: nat)
      modifies this`pairs
      ensures var outcome := Reopen(old(State()), pairId, user);
              code == Code(outcome) && State() == Accepted(old(State()), outcome)
      ensures Reopened(old(State()), pairId, user, code, State())
    {
      ReopenMeans(State(), pairId, user);
      hide Reopened;
      if !Loads(State(), pairId, user) {
        return 404;
      }
      var pair := pairs[pairId];
      if pair.link.status == Pending {
        return 409;
      }
      pairs := pairs[pairId := Pair(pair.link.(status := Pending), None)];
      return 200;
    }
  }

  /** The tables after a decision on a pair whose primary is already the transaction to keep. */
  function Applied(text: Text, store: Store, pairId: Id, confirm: bool, user: Id, discard: Id, now: int): Store
    requires pairId in store.pairs
  {
    var pair := store.pairs[pairId];
    var marked := store.(pairs := store.pairs[pairId := Stamped(pair, pair.link.primary, confirm, now)],
                         rules := Taught(store.rules, LessonOf(text, store, pair.link.primary, discard, user, confirm)));
    if confirm then Without(marked, discard) else marked
  }

  /** Overwriting the primary first and then applying the decision settles the pair. */
  lemma AppliedIsSettled(text: Text, store: Store, pairId: Id, kept: Id, confirm: bool, user: Id, discard: Id, now: int)
    requires pairId in store.pairs && kept in Ends(store.pairs[pairId].link)
    requires discard == Discarded(store.pairs[pairId].link, kept)
    ensures var pair := store.pairs[pairId];
            var renamed := store.(pairs := store.pairs[pairId := pair.(link := pair.link.(primary := kept))]);
            Applied(text, renamed, pairId, confirm, user, discard, now)
              == Settled(text, store, pairId, kept, confirm, user, now)
  {
  }

  lemma OneMoreNew(news: seq<Entry>, a: Entry, existing: seq<Entry>)
    ensures forall c :: AgainstWindow(news + [a], existing, c) <==>
              AgainstWindow(news, existing, c) || (c.a == a && Eligible(a) && c.b in existing && c.b.tx.id != a.tx.id)
  {
  }

  lemma NothingNew(existing: seq<Entry>)
    ensures forall c :: !AgainstWindow([], existing, c)
  {
  }

  /** The tables and the report are what the comparisons of the plan make of the tables before. */
  ghost predicate BatchOutcome(text: Text, before: Store, user: Id, plan: History<Comparison>, stats: Stats, after: Store) {
    var t := Compared(Batch(text, before.rules, user, Known(before, user)), Begin(before), plan);
    && after == Batched(before, t)
    && stats.counts == t.counts && stats.alreadyPaired == t.alreadyPaired && stats.existingPairs == 0
    && stats.newIds == Range(before.nextPair, after.nextPair)
  }

  /** The outcome, said of the tables before and after. */
  lemma OutcomeMeans(
      text: Text, before: Store, user: Id, news: seq<Entry>, scan: seq<Id>, plan: History<Comparison>, stats: Stats,
      after: Store)
    requires BatchOutcome(text, before, user, plan, stats, after) && Covers(plan, news, Existing(before, user, news, scan))
    ensures before.Keyed() ==>
              BatchRecorded(text, before, user, news, scan, after) && CountedBySource(before, after, stats.counts)
    ensures stats.alreadyPaired == Repeats(before, user, plan)
  {
    CountsCarryOver(text, before, user, plan);
    assert before.Keyed() ==> forall p :: p in before.pairs ==> p < before.nextPair;
    assert stats.alreadyPaired
        == Compared(Batch(text, before.rules, user, Known(before, user)), Begin(before), plan).alreadyPaired;
    assert after == BatchDetect(text, before, user, plan);
    assert stats.counts == Compared(Batch(text, before.rules, user, Known(before, user)), Begin(before), plan).counts;
    hide *;
    RepeatsAreCounted(text, before, user, plan);
    if before.Keyed() {
      BatchRecords(text, before, user, news, scan, plan);
      BatchCounts(text, before, user, news, scan, plan);
    }
  }

  /** What a batch run reports, and the pair keys it has seen. */
  datatype Stats = Stats(
    seen: set<set<Id>>, counts: map<Source, nat>, alreadyPaired: nat, existingPairs: int, newIds: seq<Id>)

  /** The row ids from one fresh id up to another. */
  function Range(from: Id, to: Id): seq<Id> {
    if to <= from then [] else Range(from, to - 1) + [to - 1]
  }

  lemma {:induction false} GroupMembers(news: seq<Entry>, key: (real, int))
    ensures GroupOf(news, key) != [] <==> exists e :: e in news && GroupKey(e) == Some(key)
  {
    if news != [] {
      var earlier, last := news[..|news| - 1], news[|news| - 1];
      assert news == earlier + [last];
      GroupMembers(earlier, key);
    }
  }

  /** Two entries stand in one order in some group exactly when they do in the batch and share their key. */
  lemma GroupsFindPairs(news: seq<Entry>, keys: seq<(real, int)>, c: Comparison)
    requires forall key :: key in keys <==> exists e :: e in news && GroupKey(e) == Some(key)
    ensures (exists h :: 0 <= h < |keys| && Before(GroupOf(news, keys[h]), c.a, c.b)) <==> WithinBatch(news, c)
  {
    if WithinBatch(news, c) {
      var key := GroupKey(c.a).value;
      assert c.a in news;
      assert key in keys;
      var h :| 0 <= h < |keys| && keys[h] == key;
      GroupKeepsOrder(news, keys[h], c.a, c.b);
    }
    if h :| 0 <= h < |keys| && Before(GroupOf(news, keys[h]), c.a, c.b) {
      GroupKeepsOrder(news, keys[h], c.a, c.b);
    }
  }

  /** The map leads from each transaction to the others that share a pair with it. */
  ghost predicate Adjacent(paired: map<Id, set<Id>>, keys: set<set<Id>>) {
    forall x, y :: (x in paired && y in paired[x]) <==> {x, y} in keys
  }

  lemma OneMorePair(paired: map<Id, set<Id>>, keys: set<set<Id>>, a: Id, b: Id)
    requires Adjacent(paired, keys)
    ensures var first := paired[a := (if a in paired then paired[a] else {}) + {b}];
            Adjacent(first[b := (if b in first then first[b] else {}) + {a}], keys + {{a, b}})
  {
    var first := paired[a := (if a in paired then paired[a] else {}) + {b}];
    var both := first[b := (if b in first then first[b] else {}) + {a}];
    forall x: Id, y: Id ensures (x in both && y in both[x]) <==> {x, y} in keys + {{a, b}} {
      SameEnds(x, y, a, b);
      assert {x, y} in keys <==> x in paired && y in paired[x];
    }
  }

  lemma SameEnds(x: Id, y: Id, a: Id, b: Id)
    ensures {x, y} == {a, b} <==> (x == a && y == b) || (x == b && y == a)
  {
    if {x, y} == {a, b} {
      assert x in {a, b} && y in {a, b} && a in {x, y} && b in {x, y};
    }
  }

  /** Without an effective date the queries after the first return nothing. */
  lemma NoDateNoRows(call: Call, scans: seq<seq<Id>>)
    requires |scans| == 4 && EffectiveDate(call.tx, call.email).None?
    ensures RunPasses(call, 4, scans) == RunPasses(call, 1, scans)
  {
    QueryEmpty(call, 2, RunPasses(call, 1, scans).txs, scans[1]);
    QueryEmpty(call, 3, RunPasses(call, 2, scans).txs, scans[2]);
    QueryEmpty(call, 4, RunPasses(call, 3, scans).txs, scans[3]);
  }

  lemma QueryEmpty(call: Call, pass: Pass, txs: map<Id, Transaction>, scan: seq<Id>)
    requires pass > 1 && EffectiveDate(call.tx, call.email).None?
    ensures Query(call, pass, txs, scan) == []
  {
    NoHitsNoRows(call, pass, txs, scan);
  }

  lemma {:induction false} NoHitsNoRows(call: Call, pass: Pass, txs: map<Id, Transaction>, scan: seq<Id>)
    requires forall c :: !Hit(call, pass, txs, c)
    ensures Query(call, pass, txs, scan) == []
  {
    if scan != [] {
      NoHitsNoRows(call, pass, txs, scan[..|scan| - 1]);
    }
  }
}
