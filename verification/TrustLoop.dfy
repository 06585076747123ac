/** The learning loop closed: what the user's decisions teach is what the detector goes by. */
module TrustLoop {
  import opened Common
  import opened Entities
  import opened Scoring
  import opened Evidence
  import opened Detection
  import opened Recording
  import opened Learning
  import opened Resolution

  /** How often the user has confirmed, or dismissed, pairs of these two domains. */
  function Count(lessons: seq<Lesson>, user: Id, domains: DomainPair, confirmed: bool): nat {
    multiset(lessons)[Lesson(user, domains, confirmed)]
  }

  /** Three confirmations, and more than seventeen for every three dismissals. */
  predicate EarnsTrust(lessons: seq<Lesson>, user: Id, domains: DomainPair) {
    && Count(lessons, user, domains, true) >= 3
    && 3 * Count(lessons, user, domains, true) > 17 * Count(lessons, user, domains, false)
  }

  predicate NoRuleYet(rules: Rules, user: Id, domains: DomainPair) {
    RuleKey(Some(user), domains) !in rules && RuleKey(None, domains) !in rules
  }

  /** Where there was no rule, the rule that applies is trusted if and only if the user's decisions earn it. */
  lemma {:induction false} TrustIsEarned(rules: Rules, lessons: seq<Lesson>, user: Id, domains: DomainPair)
    requires NoRuleYet(rules, user, domains)
    ensures (exists rule :: Applies(LearnAll(rules, lessons), user, domains, rule) && rule.autoResolve)
            <==> EarnsTrust(lessons, user, domains)
  {
    var own, shared := RuleKey(Some(user), domains), RuleKey(None, domains);
    CountersAreExact(rules, lessons, own);
    CountersAreExact(rules, lessons, shared);
    NothingShared(rules, lessons, domains, true);
    NothingShared(rules, lessons, domains, false);
    RoutedToOwn(rules, lessons, user, domains, true);
    RoutedToOwn(rules, lessons, user, domains, false);
    hide LearnAll, Routed;
    var after := LearnAll(rules, lessons);
    assert shared !in after;
    if own in after {
      assert Applies(after, user, domains, after[own]);
    }
  }

  /**
   After any run of requests, a new transaction and another one of a different sender, with evidence other than a
   common reference, are resolved without the user if and only if the user's own decisions on pairs of the two
   domains have earned it: three confirmations without a dismissal do.
   */
  lemma {:induction false} DecisionsAreFollowed(
      text: Text, start: Store, h: History<Event>, txId: Id, scans: seq<seq<Id>>, n: Entry, d: Id, c: Entry,
      source: Source, confidence: real)
    requires var store := After(text, start, h);
             && store.Keyed() && Complete(scans, store.txs) && Examined(store, txId, n) && Stored(store, d, c)
             && !PairedBefore(store, txId, d)
             && !FromSameSender(n, c) && FromOtherSender(ScaleFor(text, store, n), n, c)
             && Weighs(ScaleFor(text, store, n), n, c, source, confidence) && source != ReferenceIdMatch
    requires NoRuleYet(start.rules, n.email.userId, {Sender(text, n.email), Sender(text, c.email)})
    ensures var store := After(text, start, h);
            var after := Detect(text, store, txId, scans);
            (exists p :: p in after.pairs && p !in store.pairs && Ends(after.pairs[p].link) == {txId, d}
                         && after.pairs[p].link.status == AutoResolved)
            <==> EarnsTrust(LessonsOf(text, start, h), n.email.userId, {Sender(text, n.email), Sender(text, c.email)})
  {
    var store := After(text, start, h);
    assert |scans| == 4;
    hide *;
    DetectRecords(text, store, txId, scans);
    AutoResolvedIff(text, store, txId, Detect(text, store, txId, scans), n, d, c);
    RunsTeachTheirLessons(text, start, h);
    TrustIsEarned(start.rules, LessonsOf(text, start, h), n.email.userId, {Sender(text, n.email), Sender(text, c.email)});
    ItselfIfTrusted(ScaleFor(text, store, n), n, c, source, confidence);
    ScaleHasRules(text, store, n);
  }

  function ScaleFor(text: Text, store: Store, n: Entry): Scale {
    Scale(text, store.rules, n.email.userId)
  }

  lemma ScaleHasRules(text: Text, store: Store, n: Entry)
    ensures ScaleFor(text, store, n) == Scale(text, store.rules, n.email.userId)
  {
  }

  /** Between two senders with such evidence the rule decides. */
  lemma ItselfIfTrusted(s: Scale, n: Entry, c: Entry, source: Source, confidence: real)
    requires !FromSameSender(n, c) && FromOtherSender(s, n, c)
    requires Weighs(s, n, c, source, confidence) && source != ReferenceIdMatch
    ensures (exists other, worth :: ResolvesItself(s, n, c, other, worth)) <==>
            exists rule :: Applies(s.rules, s.user, {Sender(s.text, n.email), Sender(s.text, c.email)}, rule) && rule.autoResolve
  {
    hide Applies, FromSameSender, FromOtherSender, Sender;
    if other, worth :| ResolvesItself(s, n, c, other, worth) {
      ScoreMeans(s, n, c, source, confidence);
      ScoreMeans(s, n, c, other, worth);
      hide Weighs;
      assert TrustedRule(s, n, c);
      var rule :| RuleOf(s, n, c, rule) && rule.autoResolve;
    }
    if rule :| Applies(s.rules, s.user, {Sender(s.text, n.email), Sender(s.text, c.email)}, rule) && rule.autoResolve {
      assert RuleOf(s, n, c, rule);
      hide Weighs;
      assert ResolvesItself(s, n, c, source, confidence);
    }
  }
}
