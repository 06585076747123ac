/**
 What the scorer's answers mean, said of the rows themselves: which transactions can be weighed against each other,
 what counts as evidence that they record one payment, which piece of evidence decides, and what it is worth.
 */
module Evidence {
  import opened Common
  import opened Entities
  import opened Scoring

  predicate Sent(email: Email) {
    email.senderDomain.Some? && |email.senderDomain.value| > 0
  }

  /** The sender's domain in lower case. */
  function Sender(text: Text, email: Email): string {
    text.lower(if email.senderDomain.Some? then email.senderDomain.value else "")
  }

  /** The earliest date in the body; without any, the transaction's; without that, the day on which the mail came. */
  ghost predicate BestDate(e: Entry, d: int) {
    if |e.email.bodyDates| > 0 then d in e.email.bodyDates && forall other :: other in e.email.bodyDates ==> d <= other
    else if e.tx.txnDate.Some? then d == e.tx.txnDate.value
    else e.email.receivedAt.Some? && d * DAY <= e.email.receivedAt.value < (d + 1) * DAY
  }

  ghost predicate DatesWithin(a: Entry, b: Entry, days: nat) {
    exists d, e :: BestDate(a, d) && BestDate(b, e) && d <= e + days && e <= d + days
  }

  /** The second amount is off the first by at most five, or by at most this share of the first. */
  predicate CloseAmounts(a: real, b: real, percent: real) {
    || (a - 5.0 <= b && b <= a + 5.0)
    || (if a >= 0.0 then (100.0 - percent) * a <= 100.0 * b && 100.0 * b <= (100.0 + percent) * a
        else (100.0 + percent) * a <= 100.0 * b && 100.0 * b <= (100.0 - percent) * a)
  }

  /** The two can be compared at all. */
  ghost predicate Weighable(a: Entry, b: Entry) {
    && a.tx.amount.Some? && b.tx.amount.Some? && CloseAmounts(a.tx.amount.value, b.tx.amount.value, 3.0)
    && Sent(a.email) && Sent(b.email) && DatesWithin(a, b, 3)
  }

  function Words(text: Text, merchant: Option<string>): seq<string> {
    text.words(if merchant.Some? then merchant.value else "")
  }

  function Distinct(words: seq<string>): set<string> {
    set k | 0 <= k < |words| :: words[k]
  }

  function InBoth(a: seq<string>, b: seq<string>): set<string> {
    set k | 0 <= k < |a| && a[k] in b :: a[k]
  }

  ghost predicate SameCanonical(text: Text, a: Entry, b: Entry) {
    exists merchant ::
      text.canonical(Sender(text, a.email)) == Some(merchant) && text.canonical(Sender(text, b.email)) == Some(merchant)
  }

  /**
   The similarity of the merchants: one for the same words, else the share of common words in the larger set; where
   a merchant has no words, 0.7 for senders known as the same merchant.
   */
  ghost predicate Similarity(text: Text, a: Entry, b: Entry, s: real) {
    var x, y := Words(text, a.tx.merchant), Words(text, b.tx.merchant);
    if |x| == 0 || |y| == 0 then s == if SameCanonical(text, a, b) then 0.7 else 0.0
    else if x == y then s == 1.0
    else IsShare(s, |InBoth(x, y)|, Larger(|Distinct(x)|, |Distinct(y)|))
  }

  predicate IsShare(s: real, part: nat, whole: int) {
    s * whole as real == part as real
  }

  /** The merchants are alike: the same words, seven in ten of either's words in common, or the same known merchant. */
  ghost predicate AlikeMerchants(text: Text, a: Entry, b: Entry) {
    var x, y := Words(text, a.tx.merchant), Words(text, b.tx.merchant);
    if |x| == 0 || |y| == 0 then SameCanonical(text, a, b)
    else
      || x == y
      || (10 * |InBoth(x, y)| >= 7 * |Distinct(x)| && 10 * |InBoth(x, y)| >= 7 * |Distinct(y)|)
  }

  /** The rule that applies to a user's pair of domains: the user's own, or everybody's where they have none. */
  ghost predicate Applies(rules: Rules, user: Id, domains: DomainPair, rule: Rule) {
    || (RuleKey(Some(user), domains) in rules && rules[RuleKey(Some(user), domains)] == rule)
    || (RuleKey(Some(user), domains) !in rules
        && RuleKey(None, domains) in rules && rules[RuleKey(None, domains)] == rule)
  }

  /** Everything the weighing of two transactions depends on, apart from themselves. */
  datatype Scale = Scale(text: Text, rules: Rules, user: Id)

  ghost predicate RuleOf(s: Scale, a: Entry, b: Entry, rule: Rule) {
    Applies(s.rules, s.user, {Sender(s.text, a.email), Sender(s.text, b.email)}, rule)
  }

  ghost predicate CommonReference(a: Email, b: Email) {
    exists i, j :: 0 <= i < |a.referenceIds| && 0 <= j < |b.referenceIds| && a.referenceIds[i] == b.referenceIds[j]
  }

  ghost predicate OneOrdersOneConfirms(text: Text, a: Email, b: Email) {
    || (text.isOrder(a.subject) && text.isConfirm(b.subject))
    || (text.isOrder(b.subject) && text.isConfirm(a.subject))
  }

  /** What speaks for one payment, by the layer that says so. */
  ghost predicate Speaks(s: Scale, a: Entry, b: Entry, source: Source) {
    match source
    case SameDomainExact => Sender(s.text, a.email) == Sender(s.text, b.email)
    case MerchantAlias => AlikeMerchants(s.text, a, b)
    case DomainPairRule => exists rule :: RuleOf(s, a, b, rule) && rule.confidence >= 0.5
    case InvestmentFlow => OneOrdersOneConfirms(s.text, a.email, b.email)
    case AmountDate => DatesWithin(a, b, 1)
    case ReferenceIdMatch => CommonReference(a.email, b.email)
    case _ => false
  }

  /** The layers that can speak, in the order in which they are asked. */
  const LAYERS := [SameDomainExact, MerchantAlias, DomainPairRule, InvestmentFlow, AmountDate, ReferenceIdMatch]

  /** What the layer's word is worth. */
  ghost predicate ValuedAt(s: Scale, a: Entry, b: Entry, source: Source, confidence: real) {
    match source
    case SameDomainExact => confidence == 1.0
    case MerchantAlias => exists m :: Similarity(s.text, a, b, m) && confidence == 0.75 + m * 0.2
    case DomainPairRule => exists rule :: RuleOf(s, a, b, rule) && confidence == rule.confidence
    case InvestmentFlow => confidence == 0.65
    case AmountDate => confidence == 0.5
    case ReferenceIdMatch => confidence == 0.95
    case _ => false
  }

  /** The two can be weighed, and the first layer that speaks is this one, with this confidence. */
  ghost predicate Weighs(s: Scale, a: Entry, b: Entry, source: Source, confidence: real) {
    && Weighable(a, b) && ValuedAt(s, a, b, source, confidence)
    && exists k :: 0 <= k < |LAYERS| && LAYERS[k] == source && Speaks(s, a, b, LAYERS[k])
                   && forall j :: 0 <= j < k ==> !Speaks(s, a, b, LAYERS[j])
  }

  /** Some layer speaks. */
  ghost predicate Convincing(s: Scale, a: Entry, b: Entry) {
    Weighable(a, b) && exists k :: 0 <= k < |LAYERS| && Speaks(s, a, b, LAYERS[k])
  }

  function ScoreOfEntries(s: Scale, a: Entry, b: Entry): Score {
    ScorePair(s.text, a.tx, Some(a.email), b.tx, Some(b.email), s.rules, s.user)
  }

  lemma BestDateIs(e: Entry, d: int)
    ensures EffectiveDate(e.tx, e.email) == Some(d) <==> BestDate(e, d)
  {
    if |e.email.bodyDates| == 0 && e.tx.txnDate.None? && e.email.receivedAt.Some? {
      DayOf(e.email.receivedAt.value, d);
    }
  }

  lemma DayOf(at: int, d: int)
    ensures at / DAY == d <==> d * DAY <= at < (d + 1) * DAY
  {
    assert at == at / DAY * DAY + at % DAY;
  }

  lemma DatesWithinIs(a: Entry, b: Entry, days: nat)
    ensures DatesWithin(a, b, days) <==>
            var x, y := EffectiveDate(a.tx, a.email), EffectiveDate(b.tx, b.email);
            x.Some? && y.Some? && Distance(x.value, y.value) <= days
  {
    var x, y := EffectiveDate(a.tx, a.email), EffectiveDate(b.tx, b.email);
    forall d ensures (x == Some(d) <==> BestDate(a, d)) && (y == Some(d) <==> BestDate(b, d)) {
      BestDateIs(a, d);
      BestDateIs(b, d);
    }
    hide EffectiveDate, BestDate;
    if x.Some? && y.Some? {
      assert BestDate(a, x.value) && BestDate(b, y.value);
    }
  }

  lemma CloseAmountsIs(a: real, b: real, bulk: bool)
    ensures CloseAmounts(a, b, if bulk then 3.0 else 0.5) <==> Abs(a - b) <= Tolerance(a, bulk)
  {
  }

  lemma WordSets(x: seq<string>, y: seq<string>)
    ensures Distinct(x) == WordSet(x) && InBoth(x, y) == WordSet(x) * WordSet(y)
    ensures |x| > 0 ==> |Distinct(x)| > 0
  {
    if |x| > 0 {
      assert x[0] in Distinct(x);
    }
    assert forall w :: w in WordSet(x) <==> w in Distinct(x);
    assert forall w :: w in InBoth(x, y) <==> w in WordSet(x) * WordSet(y);
  }

  lemma ShareIs(part: nat, whole: nat, s: real)
    requires whole > 0
    ensures IsShare(s, part, whole) <==> s == part as real / whole as real
    ensures part as real / whole as real >= 0.7 <==> 10 * part >= 7 * whole
  {
    var q := part as real / whole as real;
    Quotient(part as real, whole as real, q, s);
    Quotient(part as real, whole as real, q, 0.7);
    SevenTenths(part, whole);
  }

  lemma Quotient(p: real, w: real, q: real, s: real)
    requires w > 0.0 && q == p / w
    ensures s * w == p <==> s == q
    ensures q >= s <==> p >= s * w
  {
    assert q * w == p;
    Monotone(q, s, w);
    Monotone(s, q, w);
  }

  lemma SevenTenths(part: nat, whole: nat)
    ensures part as real >= 0.7 * whole as real <==> 10 * part >= 7 * whole
  {
  }

  lemma Monotone(x: real, y: real, w: real)
    requires w > 0.0
    ensures x >= y <==> x * w >= y * w
  {
    var d := x - y;
    assert x * w - y * w == d * w;
  }

  /** The similarity is the one above, and reaches seven tenths exactly for merchants that are alike. */
  lemma {:induction false} MerchantMatchIs(text: Text, a: Entry, b: Entry, s: real)
    ensures var m := MerchantMatch(text, TextOr(a.tx.merchant), TextOr(b.tx.merchant), Domain(text, a.email),
                                   Domain(text, b.email));
            && (Similarity(text, a, b, s) <==> s == m)
            && (AlikeMerchants(text, a, b) <==> m >= 0.7)
  {
    var x, y := Words(text, a.tx.merchant), Words(text, b.tx.merchant);
    MatchOfWords(text, a, b, x, y);
    if |x| == 0 || |y| == 0 || x == y {
      hide MerchantMatch;
      SameCanonicalIs(text, a, b);
    } else {
      hide MerchantMatch, SameCanonical, IsShare, WordSet, InBoth, Distinct, NonZero, Larger;
      SharedShare(x, y, s);
    }
  }

  lemma SharedShare(x: seq<string>, y: seq<string>, s: real)
    requires |x| > 0 && |y| > 0
    ensures var part, u, v := |InBoth(x, y)|, |Distinct(x)|, |Distinct(y)|;
            var m := |WordSet(x) * WordSet(y)| as real / NonZero(Larger(|WordSet(x)|, |WordSet(y)|)) as real;
            && (IsShare(s, part, Larger(u, v)) <==> s == m)
            && (10 * part >= 7 * u && 10 * part >= 7 * v <==> m >= 0.7)
  {
    WordSets(x, y);
    WordSets(y, x);
    var part, u, v := |InBoth(x, y)|, |Distinct(x)|, |Distinct(y)|;
    hide *;
    ShareIs(part, Larger(u, v), s);
    LargerIsNotZero(u, v);
  }

  lemma LargerIsNotZero(u: nat, v: nat)
    requires u > 0
    ensures NonZero(Larger(u, v)) == Larger(u, v)
  {
  }

  lemma MatchOfWords(text: Text, a: Entry, b: Entry, x: seq<string>, y: seq<string>)
    requires x == Words(text, a.tx.merchant) && y == Words(text, b.tx.merchant)
    ensures var m := MerchantMatch(text, TextOr(a.tx.merchant), TextOr(b.tx.merchant), Domain(text, a.email),
                                   Domain(text, b.email));
            var c, d := text.canonical(Domain(text, a.email)), text.canonical(Domain(text, b.email));
            m == if |x| == 0 || |y| == 0 then if c.Some? && d.Some? && c == d then 0.7 else 0.0
                 else if x == y then 1.0
                 else |WordSet(x) * WordSet(y)| as real / NonZero(Larger(|WordSet(x)|, |WordSet(y)|)) as real
  {
  }

  lemma SameCanonicalIs(text: Text, a: Entry, b: Entry)
    ensures SameCanonical(text, a, b) <==>
            var c, d := text.canonical(Domain(text, a.email)), text.canonical(Domain(text, b.email));
            c.Some? && d.Some? && c == d
  {
  }

  lemma AppliesIs(rules: Rules, user: Id, domains: DomainPair, rule: Rule)
    ensures Applies(rules, user, domains, rule) <==> RuleFor(rules, user, domains) == Some(rule)
  {
  }

  /** The tests of the layers, as the code makes them. */
  lemma SpeaksIs(s: Scale, a: Entry, b: Entry)
    requires Weighable(a, b)
    ensures EffectiveDate(a.tx, a.email).Some? && EffectiveDate(b.tx, b.email).Some?
    ensures Speaks(s, a, b, SameDomainExact) <==> Domain(s.text, a.email) == Domain(s.text, b.email)
    ensures Speaks(s, a, b, MerchantAlias) <==> MatchOf(s, a, b) >= 0.7
    ensures Speaks(s, a, b, DomainPairRule) <==> StrongRule(RuleFor(s.rules, s.user, DomainPairOf(s.text, a.email, b.email)))
    ensures Speaks(s, a, b, InvestmentFlow) <==> OrderAndConfirmation(s.text, a.email.subject, b.email.subject)
    ensures Speaks(s, a, b, AmountDate) <==>
            Distance(EffectiveDate(a.tx, a.email).value, EffectiveDate(b.tx, b.email).value) <= 1
    ensures Speaks(s, a, b, ReferenceIdMatch) <==> SharedReference(a.email, b.email)
  {
    hide EffectiveDate, BestDate, MerchantMatch, AlikeMerchants, Similarity;
    DatesWithinIs(a, b, 3);
    DatesWithinIs(a, b, 1);
    MerchantMatchIs(s.text, a, b, 0.0);
    RuleSpeaks(s, a, b);
    ReferenceSpeaks(a.email, b.email);
  }

  function MatchOf(s: Scale, a: Entry, b: Entry): real {
    MerchantMatch(s.text, TextOr(a.tx.merchant), TextOr(b.tx.merchant), Domain(s.text, a.email), Domain(s.text, b.email))
  }

  lemma RuleSpeaks(s: Scale, a: Entry, b: Entry)
    ensures Speaks(s, a, b, DomainPairRule) <==> StrongRule(RuleFor(s.rules, s.user, DomainPairOf(s.text, a.email, b.email)))
  {
    var domains := DomainPairOf(s.text, a.email, b.email);
    forall rule ensures RuleOf(s, a, b, rule) <==> RuleFor(s.rules, s.user, domains) == Some(rule) {
      AppliesIs(s.rules, s.user, domains, rule);
    }
  }

  lemma ReferenceSpeaks(a: Email, b: Email)
    ensures CommonReference(a, b) <==> SharedReference(a, b)
  {
    if r :| r in a.referenceIds && r in b.referenceIds {
      var i :| 0 <= i < |a.referenceIds| && a.referenceIds[i] == r;
      var j :| 0 <= j < |b.referenceIds| && b.referenceIds[j] == r;
      assert a.referenceIds[i] == b.referenceIds[j];
    }
    if i, j :| 0 <= i < |a.referenceIds| && 0 <= j < |b.referenceIds| && a.referenceIds[i] == b.referenceIds[j] {
      assert a.referenceIds[i] in b.referenceIds;
    }
  }

  lemma ValuedIs(s: Scale, a: Entry, b: Entry, confidence: real)
    requires Weighable(a, b)
    ensures ValuedAt(s, a, b, MerchantAlias, confidence) <==> confidence == 0.75 + MatchOf(s, a, b) * 0.2
    ensures var rule := RuleFor(s.rules, s.user, DomainPairOf(s.text, a.email, b.email));
            ValuedAt(s, a, b, DomainPairRule, confidence) <==> rule.Some? && confidence == rule.value.confidence
  {
    hide MerchantMatch, AlikeMerchants, Similarity;
    forall m ensures Similarity(s.text, a, b, m) <==> m == MatchOf(s, a, b) {
      MerchantMatchIs(s.text, a, b, m);
    }
    assert Similarity(s.text, a, b, MatchOf(s, a, b));
    var domains := DomainPairOf(s.text, a.email, b.email);
    forall rule ensures RuleOf(s, a, b, rule) <==> RuleFor(s.rules, s.user, domains) == Some(rule) {
      AppliesIs(s.rules, s.user, domains, rule);
    }
  }

  lemma WeighableIs(a: Entry, b: Entry)
    ensures Weighable(a, b) <==>
            && a.tx.amount.Some? && b.tx.amount.Some? && HasDomain(a.email) && HasDomain(b.email)
            && AmountGate(a.tx.amount.value, b.tx.amount.value) && DateGate(a.tx, a.email, b.tx, b.email)
  {
    hide EffectiveDate, BestDate;
    DatesWithinIs(a, b, 3);
    if a.tx.amount.Some? && b.tx.amount.Some? {
      CloseAmountsIs(a.tx.amount.value, b.tx.amount.value, true);
    }
  }

  /** The first layer that speaks, spelled out. */
  lemma FirstToSpeak(s: Scale, a: Entry, b: Entry, source: Source)
    ensures (exists k :: 0 <= k < |LAYERS| && LAYERS[k] == source && Speaks(s, a, b, LAYERS[k])
                         && forall j :: 0 <= j < k ==> !Speaks(s, a, b, LAYERS[j]))
            <==> source == FirstLayer(s, a, b) != Unknown
  {
    hide Speaks;
    assert LAYERS[0] == SameDomainExact && LAYERS[1] == MerchantAlias && LAYERS[2] == DomainPairRule;
    assert LAYERS[3] == InvestmentFlow && LAYERS[4] == AmountDate && LAYERS[5] == ReferenceIdMatch;
    assert |LAYERS| == 6;
  }

  ghost function FirstLayer(s: Scale, a: Entry, b: Entry): Source {
    if Speaks(s, a, b, SameDomainExact) then SameDomainExact
    else if Speaks(s, a, b, MerchantAlias) then MerchantAlias
    else if Speaks(s, a, b, DomainPairRule) then DomainPairRule
    else if Speaks(s, a, b, InvestmentFlow) then InvestmentFlow
    else if Speaks(s, a, b, AmountDate) then AmountDate
    else if Speaks(s, a, b, ReferenceIdMatch) then ReferenceIdMatch
    else Unknown
  }

  lemma ComputedByLayers(s: Scale, a: Entry, b: Entry)
    requires Weighable(a, b)
    ensures ScoreOfEntries(s, a, b).source == FirstLayer(s, a, b)
    ensures var score := ScoreOfEntries(s, a, b);
            if score.source == Unknown then score == NO_MATCH
            else ValuedAt(s, a, b, score.source, score.confidence)
  {
    WeighableIs(a, b);
    SpeaksIs(s, a, b);
    ValuedIs(s, a, b, ScoreOfEntries(s, a, b).confidence);
    hide Speaks, MerchantMatch, AmountGate, EffectiveDate, RuleFor, Domain, SharedReference, OrderAndConfirmation, Weighable;
  }

  /** Each layer has one value. */
  lemma OneValue(s: Scale, a: Entry, b: Entry, source: Source, c: real, d: real)
    requires Weighable(a, b) && ValuedAt(s, a, b, source, c) && ValuedAt(s, a, b, source, d)
    ensures c == d
  {
    ValuedIs(s, a, b, c);
    ValuedIs(s, a, b, d);
    hide Similarity, MerchantMatch, RuleFor, RuleOf, Weighable;
  }

  /** The scorer names a layer and a confidence if and only if the two transactions weigh that much. */
  lemma {:induction false} ScoreMeans(s: Scale, a: Entry, b: Entry, source: Source, confidence: real)
    ensures source != Unknown && ScoreOfEntries(s, a, b) == Score(confidence, source) <==>
            Weighs(s, a, b, source, confidence)
    ensures ScoreOfEntries(s, a, b) == NO_MATCH <==> !Convincing(s, a, b)
    ensures ScoreOfEntries(s, a, b).confidence >= 0.5 <==> Convincing(s, a, b)
    ensures ScoreOfEntries(s, a, b).source != Unknown <==> Convincing(s, a, b)
  {
    NoMatchUnlessWeighable(s, a, b);
    ConvincingIs(s, a, b);
    FirstToSpeak(s, a, b, source);
    if Weighable(a, b) {
      ComputedByLayers(s, a, b);
      AtLeastHalf(s, a, b);
      var score := ScoreOfEntries(s, a, b);
      hide ScorePair, Weighable, ValuedAt, Speaks, ScoreOfEntries;
      if source != Unknown && source == score.source && ValuedAt(s, a, b, source, confidence) {
        OneValue(s, a, b, source, confidence, score.confidence);
      }
    }
  }

  lemma NoMatchUnlessWeighable(s: Scale, a: Entry, b: Entry)
    ensures !Weighable(a, b) ==> ScoreOfEntries(s, a, b) == NO_MATCH
  {
    WeighableIs(a, b);
    hide Weighable, RuleFor, Domain, MerchantMatch, EffectiveDate, AmountGate, DateGate;
  }

  lemma ConvincingIs(s: Scale, a: Entry, b: Entry)
    ensures Convincing(s, a, b) <==> Weighable(a, b) && FirstLayer(s, a, b) != Unknown
  {
    hide Weighable, Speaks;
    assert LAYERS[0] == SameDomainExact && LAYERS[1] == MerchantAlias && LAYERS[2] == DomainPairRule;
    assert LAYERS[3] == InvestmentFlow && LAYERS[4] == AmountDate && LAYERS[5] == ReferenceIdMatch;
    assert |LAYERS| == 6;
  }

  lemma AtLeastHalf(s: Scale, a: Entry, b: Entry)
    requires Weighable(a, b)
    ensures var score := ScoreOfEntries(s, a, b);
            if score.source == Unknown then score.confidence == 0.0 else score.confidence >= 0.5
  {
    ComputedByLayers(s, a, b);
    SpeaksIs(s, a, b);
    ValuedIs(s, a, b, ScoreOfEntries(s, a, b).confidence);
    MerchantMatchFacts(s.text, TextOr(a.tx.merchant), TextOr(b.tx.merchant), Domain(s.text, a.email), Domain(s.text, b.email));
    hide Speaks, MerchantMatch, RuleFor, ScorePair, Weighable, ScoreOfEntries;
  }
}
