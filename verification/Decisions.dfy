/** What the user's decisions on pairs do, said of the tables before and after. */
module Decisions {
  import opened Common
  import opened Entities
  import opened Evidence
  import opened Learning
  import opened Recording
  import opened Resolution

  /** The pair and both its transactions are there, and the primary's email is the user's. */
  ghost predicate CanDecide(store: Store, pairId: Id, user: Id) {
    && pairId in store.pairs && store.pairs[pairId].link.duplicate in store.txs
    && exists e :: Stored(store, store.pairs[pairId].link.primary, e) && e.email.userId == user
  }

  predicate OfPair(link: Link, t: Id) {
    t == link.primary || t == link.duplicate
  }

  /** The two senders, where both are known and differ. */
  ghost predicate Senders(text: Text, store: Store, a: Id, b: Id, domains: DomainPair) {
    exists x, y :: Stored(store, a, x) && Stored(store, b, y)
                   && Sender(text, x.email) != "" && Sender(text, y.email) != ""
                   && Sender(text, x.email) != Sender(text, y.email)
                   && domains == {Sender(text, x.email), Sender(text, y.email)}
  }

  /** One rule learns the decision where the senders of the two transactions are known and differ. */
  ghost predicate RuleLearns(text: Text, before: Store, kept: Id, gone: Id, user: Id, confirm: bool, rules: Rules) {
    && (forall domains :: Senders(text, before, kept, gone, domains) ==>
          LearntOne(before.rules, rules, user, domains, confirm))
    && ((forall domains :: !Senders(text, before, kept, gone, domains)) ==> rules == before.rules)
  }

  /** The pair stays unless it names what is deleted, and then carries the decision; the others are as they were. */
  ghost predicate PairDecided(
      before: map<Id, Pair>, pairId: Id, confirm: bool, kept: Id, gone: Id, now: int, after: map<Id, Pair>)
    requires pairId in before
  {
    var link := before[pairId].link;
    && (forall p :: p != pairId ==> (p in after <==> p in before && !(confirm && OfPair(before[p].link, gone))))
    && (forall p :: p != pairId && p in after ==> after[p] == before[p])
    && (pairId in after <==> !confirm || (gone != kept && gone != link.duplicate))
    && (pairId in after ==>
          after[pairId] == Pair(Link(kept, link.duplicate, if confirm then Confirmed else Dismissed,
                                     link.confidence, link.source), Some(now)))
  }

  /**
   A decision on a pending pair. Confirming deletes the transaction that is not kept with all pairs and corrections
   that name it; dismissing deletes nothing. A pair that stays carries the decision, its time and the kept transaction
   as its primary, and is otherwise as before.
   */
  ghost predicate Decided(
      text: Text, before: Store, pairId: Id, confirm: bool, kept: Id, user: Id, now: int, after: Store)
    requires pairId in before.pairs
  {
    var link := before.pairs[pairId].link;
    var gone := if kept == link.primary then link.duplicate else link.primary;
    && after.emails == before.emails && after.nextPair == before.nextPair
    && after.txs == (if confirm then before.txs - {gone} else before.txs)
    && (forall c :: c in after.corrections <==> c in before.corrections && !(confirm && before.corrections[c] == gone))
    && (forall c :: c in after.corrections ==> after.corrections[c] == before.corrections[c])
    && PairDecided(before.pairs, pairId, confirm, kept, gone, now, after.pairs)
    && RuleLearns(text, before, kept, gone, user, confirm, after.rules)
  }

  /** The answer to a request, and the tables after it; a refused request changes nothing. */
  ghost predicate Answered(
      text: Text, before: Store, pairId: Id, action: Action, kept: Id, user: Id, now: int, code: nat, after: Store)
  {
    if action.Other? then code == 422 && after == before
    else if !CanDecide(before, pairId, user) then code == 404 && after == before
    else if !OfPair(before.pairs[pairId].link, kept) then code == 422 && after == before
    else if before.pairs[pairId].link.status != Pending then code == 409 && after == before
    else code == 200 && Decided(text, before, pairId, action.Confirm?, kept, user, now, after)
  }

  function Code(outcome: Outcome): nat {
    match outcome
    case Done(_) => 200
    case NotFound => 404
    case Conflict => 409
    case Invalid => 422
  }

  lemma LoadsIs(store: Store, pairId: Id, user: Id)
    ensures Loads(store, pairId, user) <==> CanDecide(store, pairId, user)
  {
    if Loads(store, pairId, user) {
      var t := store.txs[store.pairs[pairId].link.primary];
      assert Stored(store, store.pairs[pairId].link.primary, Entry(t, store.EmailOf(t).value));
    }
  }

  lemma LessonIs(text: Text, store: Store, kept: Id, gone: Id, user: Id, confirmed: bool)
    ensures LessonOf(text, store, kept, gone, user, confirmed).Some? ==>
              var lesson := LessonOf(text, store, kept, gone, user, confirmed).value;
              && lesson.user == user && lesson.confirmed == confirmed
              && (forall domains :: Senders(text, store, kept, gone, domains) <==> domains == lesson.domains)
    ensures LessonOf(text, store, kept, gone, user, confirmed).None? ==>
              forall domains :: !Senders(text, store, kept, gone, domains)
  {
    var e, f := EmailOfTx(store, kept), EmailOfTx(store, gone);
    if e.Some? && f.Some? {
      var x, y := Entry(store.txs[kept], e.value), Entry(store.txs[gone], f.value);
      assert forall z :: Stored(store, kept, z) <==> z == x;
      assert forall z :: Stored(store, gone, z) <==> z == y;
    }
  }

  lemma TaughtIs(text: Text, store: Store, kept: Id, gone: Id, user: Id, confirmed: bool)
    ensures RuleLearns(text, store, kept, gone, user, confirmed,
                       Taught(store.rules, LessonOf(text, store, kept, gone, user, confirmed)))
  {
    LessonIs(text, store, kept, gone, user, confirmed);
    var lesson := LessonOf(text, store, kept, gone, user, confirmed);
    hide LessonOf, Senders, LearntOne, Learn;
    if lesson.Some? {
      LearnMovesOneRule(store.rules, lesson.value);
      assert Senders(text, store, kept, gone, lesson.value.domains);
    }
  }

  /** The requests do what is said above. */
  lemma {:induction false} ResolveMeans(
      text: Text, store: Store, pairId: Id, action: Action, kept: Id, user: Id, now: int)
    ensures var outcome := Resolve(text, store, pairId, action, kept, user, now);
            Answered(text, store, pairId, action, kept, user, now, Code(outcome), Accepted(store, outcome))
  {
    LoadsIs(store, pairId, user);
    assert CanDecide(store, pairId, user) ==> pairId in store.pairs;
    hide Loads, CanDecide, Settled, Decided;
    if pairId in store.pairs && OfPair(store.pairs[pairId].link, kept) {
      SettledMeans(text, store, pairId, action.Confirm?, kept, user, now);
    }
  }

  lemma SettledMeans(text: Text, store: Store, pairId: Id, confirm: bool, kept: Id, user: Id, now: int)
    requires pairId in store.pairs && OfPair(store.pairs[pairId].link, kept)
    ensures Decided(text, store, pairId, confirm, kept, user, now, Settled(text, store, pairId, kept, confirm, user, now))
  {
    var gone := Discarded(store.pairs[pairId].link, kept);
    TaughtIs(text, store, kept, gone, user, confirm);
    PairsMean(store, pairId, confirm, kept, gone, now);
    hide LessonOf, Taught, RuleLearns, PairDecided, Stamped;
  }

  lemma PairsMean(store: Store, pairId: Id, confirm: bool, kept: Id, gone: Id, now: int)
    requires pairId in store.pairs && OfPair(store.pairs[pairId].link, kept)
    requires gone == Discarded(store.pairs[pairId].link, kept)
    ensures var marked := store.pairs[pairId := Stamped(store.pairs[pairId], kept, confirm, now)];
            var left := if confirm then map p | p in marked && gone !in Ends(marked[p].link) :: marked[p] else marked;
            PairDecided(store.pairs, pairId, confirm, kept, gone, now, left)
  {
  }

  /** Reopening takes back the decision and its time, and nothing else; a pending pair cannot be reopened. */
  ghost predicate Reopened(before: Store, pairId: Id, user: Id, code: nat, after: Store) {
    if !CanDecide(before, pairId, user) then code == 404 && after == before
    else
      var link := before.pairs[pairId].link;
      if link.status == Pending then code == 409 && after == before
      else
        && code == 200
        && after == before.(pairs := before.pairs[pairId :=
             Pair(Link(link.primary, link.duplicate, Pending, link.confidence, link.source), None)])
  }

  lemma {:induction false} ReopenMeans(store: Store, pairId: Id, user: Id)
    ensures var outcome := Reopen(store, pairId, user);
            Reopened(store, pairId, user, Code(outcome), Accepted(store, outcome))
  {
    LoadsIs(store, pairId, user);
    assert CanDecide(store, pairId, user) ==> pairId in store.pairs;
    hide Loads, CanDecide;
  }
}
