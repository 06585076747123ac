/** The layered pair scorer: how likely two transactions record the same payment. */
module Scoring {
  import opened Common
  import opened Entities

  datatype Score = Score(confidence: real, source: Source)

  const NO_MATCH := Score(0.0, Unknown)

  function Abs(x: real): real {
    if x < 0.0 then -x else x
  }

  function Distance(a: int, b: int): nat {
    if a < b then b - a else a - b
  }

  function Tolerance(amount: real, bulk: bool): real {
    var share := Abs(amount) * if bulk then 0.03 else 0.005;
    if share >= 5.0 then share else 5.0
  }

  function Earliest(days: seq<int>): (d: int)
    requires days != []
    ensures d in days && forall e :: e in days ==> d <= e
  {
    if |days| == 1 then days[0]
    else
      var d := Earliest(days[1..]);
      assert forall e :: e in days <==> e == days[0] || e in days[1..];
      if days[0] <= d then days[0] else d
  }

  /** The best available date: found in the body, else on the transaction, else the day of arrival. */
  function EffectiveDate(tx: Transaction, email: Email): Option<int> {
    if email.bodyDates != [] then Some(Earliest(email.bodyDates))
    else if tx.txnDate.Some? then tx.txnDate
    else if email.receivedAt.Some? then Some(email.receivedAt.value / DAY)
    else None
  }

  function WordSet(words: seq<string>): set<string> {
    set w | w in words
  }

  /** Similarity of two merchants, from 0 to 1, falling back on known alias domains. */
  function MerchantMatch(text: Text, m1: string, m2: string, d1: string, d2: string): real {
    var n1, n2 := text.words(m1), text.words(m2);
    if n1 == [] || n2 == [] then
      var c1, c2 := text.canonical(d1), text.canonical(d2);
      if c1.Some? && c2.Some? && c1 == c2 then 0.7 else 0.0
    else if n1 == n2 then 1.0
    else
      var w1, w2 := WordSet(n1), WordSet(n2);
      |w1 * w2| as real / NonZero(Larger(|w1|, |w2|)) as real
  }

  function NonZero(n: int): int {
    if n == 0 then 1 else n
  }

  function TextOr(s: Option<string>): string {
    if s.Some? then s.value else ""
  }

  predicate AmountGate(a: real, b: real) {
    Abs(a - b) <= Tolerance(a, true)
  }

  predicate DateGate(txA: Transaction, emailA: Email, txB: Transaction, emailB: Email) {
    var a, b := EffectiveDate(txA, emailA), EffectiveDate(txB, emailB);
    a.Some? && b.Some? && Distance(a.value, b.value) <= 3
  }

  predicate OrderAndConfirmation(text: Text, a: string, b: string) {
    (text.isOrder(a) && text.isConfirm(b)) || (text.isConfirm(a) && text.isOrder(b))
  }

  predicate SharedReference(a: Email, b: Email) {
    exists r :: r in a.referenceIds && r in b.referenceIds
  }

  predicate BodyDatesClose(a: Email, b: Email) {
    exists d, e :: d in a.bodyDates && e in b.bodyDates && Distance(d, e) <= 2
  }

  /** The sender domain in lower case. */
  function Domain(text: Text, email: Email): string {
    text.lower(TextOr(email.senderDomain))
  }

  predicate StrongRule(rule: Option<Rule>) {
    rule.Some? && rule.value.confidence >= 0.5
  }

  /** The layers in the order in which the code tries them. */
  function ComputeScore(text: Text, txA: Transaction, emailA: Email, txB: Transaction, emailB: Email,
                        rule: Option<Rule>): Score
    requires txA.amount.Some? && txB.amount.Some?
  {
    if !AmountGate(txA.amount.value, txB.amount.value) then NO_MATCH
    else if !DateGate(txA, emailA, txB, emailB) then NO_MATCH
    else
      var gap := Distance(EffectiveDate(txA, emailA).value, EffectiveDate(txB, emailB).value);
      var domainA, domainB := Domain(text, emailA), Domain(text, emailB);
      var merchants := MerchantMatch(text, TextOr(txA.merchant), TextOr(txB.merchant), domainA, domainB);
      if domainA == domainB then Score(1.0, SameDomainExact)
      else if merchants >= 0.7 then Score(0.75 + merchants * 0.2, MerchantAlias)
      else if StrongRule(rule) then Score(rule.value.confidence, DomainPairRule)
      else if OrderAndConfirmation(text, emailA.subject, emailB.subject) && gap <= 3 then Score(0.65, InvestmentFlow)
      else if gap <= 1 then Score(0.5, AmountDate)
      else if SharedReference(emailA, emailB) then
        if domainA == domainB then Score(1.0, ReferenceIdMatch) else Score(0.95, ReferenceIdMatch)
      else if BodyDatesClose(emailA, emailB) && domainA == domainB then Score(0.85, BodyDateAnchor)
      else if BodyDatesClose(emailA, emailB) && merchants >= 0.7 then Score(0.80, BodyDateAnchor)
      else if BodyDatesClose(emailA, emailB) && gap <= 3 && merchants >= 0.7 then Score(0.70, BodyDateMerchant)
      else NO_MATCH
  }

  function DomainPairOf(text: Text, a: Email, b: Email): DomainPair {
    {Domain(text, a), Domain(text, b)}
  }

  /** The rule that applies to a user: their own before the one for everybody. */
  function RuleFor(rules: Rules, user: Id, domains: DomainPair): Option<Rule> {
    if RuleKey(Some(user), domains) in rules then Some(rules[RuleKey(Some(user), domains)])
    else if RuleKey(None, domains) in rules then Some(rules[RuleKey(None, domains)])
    else None
  }

  predicate HasDomain(email: Email) {
    email.senderDomain.Some? && email.senderDomain.value != ""
  }

  /** The scorer with its guards against missing data and its rule lookup. */
  function ScorePair(text: Text, txA: Transaction, emailA: Option<Email>, txB: Transaction, emailB: Option<Email>,
                     rules: Rules, user: Id): Score {
    if txA.amount.None? || txB.amount.None? || emailA.None? || emailB.None? then NO_MATCH
    else if !HasDomain(emailA.value) || !HasDomain(emailB.value) then NO_MATCH
    else if EffectiveDate(txA, emailA.value).None? || EffectiveDate(txB, emailB.value).None? then NO_MATCH
    else ComputeScore(text, txA, emailA.value, txB, emailB.value,
                      RuleFor(rules, user, DomainPairOf(text, emailA.value, emailB.value)))
  }

  lemma SharedWords(w1: set<string>, w2: set<string>)
    ensures w1 * w2 == w2 * w1 && |w1 * w2| <= |w1|
  {
    Subset(w1 * w2, w1);
    assert w1 * w2 == w2 * w1;
  }

  lemma {:induction false} Subset(a: set<string>, b: set<string>)
    requires a <= b
    ensures |a| <= |b|
  {
    if x :| x in a {
      Subset(a - {x}, b - {x});
    }
  }

  lemma MerchantMatchFacts(text: Text, m1: string, m2: string, d1: string, d2: string)
    ensures 0.0 <= MerchantMatch(text, m1, m2, d1, d2) <= 1.0
    ensures MerchantMatch(text, m1, m2, d1, d2) == MerchantMatch(text, m2, m1, d2, d1)
  {
    var w1, w2 := WordSet(text.words(m1)), WordSet(text.words(m2));
    SharedWords(w1, w2);
    Proportion(|w1 * w2|, NonZero(Larger(|w1|, |w2|)));
  }

  lemma Proportion(part: nat, whole: nat)
    requires part <= whole && whole > 0
    ensures 0.0 <= part as real / whole as real <= 1.0
  {
  }

  /** A score is zero exactly when no layer fired, and otherwise at least a half and at most one. */
  lemma ScoreRange(text: Text, txA: Transaction, emailA: Email, txB: Transaction, emailB: Email, rule: Option<Rule>)
    requires txA.amount.Some? && txB.amount.Some?
    requires rule.Some? ==> rule.value.confidence <= 1.0
    ensures var s := ComputeScore(text, txA, emailA, txB, emailB, rule);
            s == NO_MATCH || (s.source != Unknown && 0.5 <= s.confidence <= 1.0)
  {
    MerchantMatchFacts(text, TextOr(txA.merchant), TextOr(txB.merchant), Domain(text, emailA), Domain(text, emailB));
  }

  /** The two body-date layers stand behind tests that have already decided the pair. */
  lemma BodyDateLayersUnreachable(text: Text, txA: Transaction, emailA: Email, txB: Transaction, emailB: Email,
                                  rule: Option<Rule>)
    requires txA.amount.Some? && txB.amount.Some?
    ensures var source := ComputeScore(text, txA, emailA, txB, emailB, rule).source;
            source != BodyDateAnchor && source != BodyDateMerchant
  {
  }

  /**
   The reference layer, documented as the strongest evidence after the sender domain, only decides
   pairs from different domains whose dates are two or three days apart and which no weaker test
   has claimed; its score is then 0.95.
   */
  lemma ReferenceLayer(text: Text, txA: Transaction, emailA: Email, txB: Transaction, emailB: Email, rule: Option<Rule>)
    requires txA.amount.Some? && txB.amount.Some?
    ensures var s := ComputeScore(text, txA, emailA, txB, emailB, rule);
            && (s.source == ReferenceIdMatch ==> s.confidence == 0.95)
            && (s.source == ReferenceIdMatch <==>
                  && AmountGate(txA.amount.value, txB.amount.value)
                  && DateGate(txA, emailA, txB, emailB)
                  && Domain(text, emailA) != Domain(text, emailB)
                  && 2 <= Distance(EffectiveDate(txA, emailA).value, EffectiveDate(txB, emailB).value)
                  && SharedReference(emailA, emailB)
                  && !StrongRule(rule)
                  && !OrderAndConfirmation(text, emailA.subject, emailB.subject)
                  && MerchantMatch(text, TextOr(txA.merchant), TextOr(txB.merchant),
                                   Domain(text, emailA), Domain(text, emailB)) < 0.7)
  {
  }

  /** A shared reference is no evidence on the same or the next day: there the pair scores as without it. */
  lemma ReferenceIgnoredWhenClose(text: Text, txA: Transaction, emailA: Email, txB: Transaction, emailB: Email,
                                  rule: Option<Rule>, refsA: seq<string>, refsB: seq<string>)
    requires txA.amount.Some? && txB.amount.Some?
    requires DateGate(txA, emailA, txB, emailB)
    requires Distance(EffectiveDate(txA, emailA).value, EffectiveDate(txB, emailB).value) <= 1
    ensures ComputeScore(text, txA, emailA, txB, emailB, rule) ==
            ComputeScore(text, txA, emailA.(referenceIds := refsA), txB, emailB.(referenceIds := refsB), rule)
  {
  }

  /** The dates are close, and some test of a reachable layer holds. */
  predicate Fires(text: Text, txA: Transaction, emailA: Email, txB: Transaction, emailB: Email, rule: Option<Rule>) {
    && DateGate(txA, emailA, txB, emailB)
    && (|| Domain(text, emailA) == Domain(text, emailB)
        || MerchantMatch(text, TextOr(txA.merchant), TextOr(txB.merchant),
                         Domain(text, emailA), Domain(text, emailB)) >= 0.7
        || StrongRule(rule)
        || OrderAndConfirmation(text, emailA.subject, emailB.subject)
        || Distance(EffectiveDate(txA, emailA).value, EffectiveDate(txB, emailB).value) <= 1
        || SharedReference(emailA, emailB))
  }

  lemma FiresEitherWay(text: Text, txA: Transaction, emailA: Email, txB: Transaction, emailB: Email, rule: Option<Rule>)
    ensures Fires(text, txA, emailA, txB, emailB, rule) <==> Fires(text, txB, emailB, txA, emailA, rule)
  {
    MerchantMatchFacts(text, TextOr(txA.merchant), TextOr(txB.merchant), Domain(text, emailA), Domain(text, emailB));
    assert SharedReference(emailA, emailB) == SharedReference(emailB, emailA);
  }

  /** The pairs that get a score: the second amount lies within the first one's tolerance, and a test holds. */
  lemma ScoredIff(text: Text, txA: Transaction, emailA: Email, txB: Transaction, emailB: Email, rule: Option<Rule>)
    requires txA.amount.Some? && txB.amount.Some?
    ensures ComputeScore(text, txA, emailA, txB, emailB, rule) != NO_MATCH <==>
            AmountGate(txA.amount.value, txB.amount.value) && Fires(text, txA, emailA, txB, emailB, rule)
  {
    hide MerchantMatch;
  }

  /** With both amounts or neither within tolerance, the order of the two transactions makes no difference. */
  lemma SameGatesSameScore(text: Text, txA: Transaction, emailA: Email, txB: Transaction, emailB: Email,
                           rule: Option<Rule>)
    requires txA.amount.Some? && txB.amount.Some?
    requires AmountGate(txA.amount.value, txB.amount.value) == AmountGate(txB.amount.value, txA.amount.value)
    ensures ComputeScore(text, txA, emailA, txB, emailB, rule) == ComputeScore(text, txB, emailB, txA, emailA, rule)
  {
    MerchantMatchFacts(text, TextOr(txA.merchant), TextOr(txB.merchant), Domain(text, emailA), Domain(text, emailB));
    assert SharedReference(emailA, emailB) == SharedReference(emailB, emailA);
    if BodyDatesClose(emailA, emailB) {
      BodyDatesSymmetric(emailA, emailB);
    }
    if BodyDatesClose(emailB, emailA) {
      BodyDatesSymmetric(emailB, emailA);
    }
  }

  /**
   The scorer treats its two transactions alike except for the tolerance, which it takes from the first:
   swapping them changes the score if and only if exactly one of the two amounts accepts the other and
   some test of a reachable layer holds.
   */
  lemma ScoreSymmetry(text: Text, txA: Transaction, emailA: Email, txB: Transaction, emailB: Email, rule: Option<Rule>)
    requires txA.amount.Some? && txB.amount.Some?
    ensures ComputeScore(text, txA, emailA, txB, emailB, rule) != ComputeScore(text, txB, emailB, txA, emailA, rule) <==>
            && AmountGate(txA.amount.value, txB.amount.value) != AmountGate(txB.amount.value, txA.amount.value)
            && Fires(text, txA, emailA, txB, emailB, rule)
  {
    hide ComputeScore, Fires, AmountGate;
    FiresEitherWay(text, txA, emailA, txB, emailB, rule);
    ScoredIff(text, txA, emailA, txB, emailB, rule);
    ScoredIff(text, txB, emailB, txA, emailA, rule);
    if AmountGate(txA.amount.value, txB.amount.value) == AmountGate(txB.amount.value, txA.amount.value) {
      SameGatesSameScore(text, txA, emailA, txB, emailB, rule);
    }
  }

  lemma BodyDatesSymmetric(a: Email, b: Email)
    requires BodyDatesClose(a, b)
    ensures BodyDatesClose(b, a)
  {
  }

  /** Amounts at the edge of the tolerance are accepted in one order only. */
  lemma EdgeAmountsAsymmetric()
    ensures AmountGate(1030.5, 1000.0) && !AmountGate(1000.0, 1030.5)
  {
  }
}
