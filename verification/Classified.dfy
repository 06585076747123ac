/** What each email's result says, in terms of the email, its place among the others, and the answers about it. */
module Classified {
  import opened Common
  import opened Classification
  import AmountText

  predicate Given(text: Option<string>) {
    text.Some? && |text.value| > 0
  }

  // --- The parts of a result ---

  predicate TagFits(text: string, tag: Tag) {
    && (tag == Expense <==> text == "expense") && (tag == Income <==> text == "income")
    && (tag == SelfTransfer <==> text == "self_transfer")
  }

  predicate KindFits(tag: Tag, category: Option<string>, kind: Option<Kind>) {
    && (kind == Some(CcPayment) <==> tag == Ignore && category == Some("CC Payment"))
    && (kind == Some(Investment) <==> category == Some("Investment"))
    && (kind == Some(IncomeKind) <==> tag == Income && category != Some("Investment"))
    && (kind == Some(Purchase) <==> tag == Expense && category != Some("Investment"))
  }

  /** An amount in another currency is converted; where that fails it stays, and its currency is forgotten. */
  predicate MoneyFits(
      w: World, amount: Option<real>, currency: Option<string>, inHome: Option<real>, source: Option<string>)
  {
    if amount.None? || !Given(currency) || currency.value == w.home then inHome == amount && source == currency
    else
      || (w.convert(amount.value, currency.value).None? && inHome == amount && source.None?)
      || (w.convert(amount.value, currency.value).Some? && inHome == w.convert(amount.value, currency.value)
          && source == currency)
  }

  predicate CurrencyFits(w: World, said: Option<string>, currency: Option<string>) {
    if Given(said) && !w.supported(said.value) then currency.None? else currency == said
  }

  /** Amounts of the LLM are positive and at most ten million, and above one million a matter for review. */
  predicate CheckedFits(amount: Option<real>, confidence: real, kept: Option<real>, status: Status) {
    && kept == (if amount.Some? && 0.0 < amount.value <= 10000000.0 then amount else None)
    && (status == Auto <==> confidence >= 0.75 && (amount.Some? ==> 0.0 < amount.value <= 1000000.0))
  }

  predicate DateFits(w: World, text: Option<string>, date: Option<int>) {
    if Given(text) then date == w.parseDate(text.value) else date.None?
  }

  predicate MerchantFits(w: World, text: Option<string>, merchant: Option<string>) {
    if Given(text) then merchant == w.canonical(text.value) else merchant.None?
  }

  // --- The kinds of results ---

  /** The rules are sure that the email is to be ignored. */
  predicate SurelyIgnored(w: World, item: Item) {
    w.rule(item).tag == Some(Ignore) && w.rule(item).confidence >= 0.82
  }

  predicate IgnoredFits(w: World, item: Item, r: Result) {
    && r.tag == Ignore && r.amount.None? && r.merchant.None? && r.category.None? && r.date.None?
    && r.confidence == w.rule(item).confidence && r.status == Auto && r.origin == Rule
    && r.kind == (if w.rule(item).category == Some("CC Payment") then Some(CcPayment) else None)
    && r.payment == w.payment(item.body) && r.currency == "INR" && r.source.None?
  }

  /** The merchant of the rule, fully trusted, or the one found in the text. */
  predicate RuleMerchantFits(w: World, item: Item, merchant: Option<string>, trust: real, usual: Option<string>) {
    if Given(w.rule(item).merchant) then
      merchant == w.rule(item).merchant && trust == 1.0 && usual == w.usualCategory(w.rule(item).merchant.value)
    else
      merchant == w.found(item).merchant && trust == w.found(item).confidence && usual == w.found(item).category
  }

  /** What the two rules branches share: tag, merchant, category before it is resolved, confidence and status. */
  ghost predicate RulesFit(w: World, item: Item, raw: Option<string>, r: Result) {
    && r.tag == (if w.rule(item).tag.Some? then w.rule(item).tag.value else Ignore)
    && r.origin == Rule && r.payment == w.payment(item.body)
    && (r.status == Auto <==> r.confidence >= 0.75)
    && exists trust, usual ::
         && RuleMerchantFits(w, item, r.merchant, trust, usual)
         && raw == (if Given(w.rule(item).category) then w.rule(item).category else usual)
         && r.confidence == if w.rule(item).tag.Some? && trust > w.rule(item).confidence then trust
                            else if w.rule(item).tag.None? && w.rule(item).confidence < 0.0 then 0.0
                            else w.rule(item).confidence
  }

  /** By the rules alone: the amount as read in the body, and no date. */
  ghost predicate ByRules(w: World, item: Item, r: Result) {
    && RulesFit(w, item, r.category, r) && KindFits(r.tag, r.category, r.kind)
    && r.amount == AmountText.Amount(w.bodyText(item)) && r.date.None?
    && r.currency == "INR" && r.source.None?
  }

  /** By the rules in the single call: amount and date as extracted, the amount in the user's currency. */
  ghost predicate BySingleRules(w: World, item: Item, r: Result) {
    && (exists raw :: RulesFit(w, item, raw, r) && r.category == w.resolve(raw))
    && KindFits(r.tag, r.category, r.kind)
    && MoneyFits(w, AmountText.Amount(w.extract(item).text), w.extract(item).currency, r.amount, r.source)
    && DateFits(w, w.extract(item).date, r.date) && r.currency == w.home
  }

  /** What both LLM branches share. */
  ghost predicate VerdictFits(w: World, item: Item, v: Verdict, r: Result) {
    && TagFits(v.tag, r.tag) && r.origin == Llm && r.confidence == v.confidence
    && MerchantFits(w, v.merchant, r.merchant) && KindFits(r.tag, r.category, r.kind)
    && r.payment == w.payment(item.body) && r.currency == w.home
  }

  /** By an entry of a batch reply. */
  ghost predicate ByEntry(w: World, item: Item, v: Verdict, r: Result) {
    && VerdictFits(w, item, v, r) && r.category == v.category && DateFits(w, v.date, r.date)
    && exists currency, inHome ::
         && CurrencyFits(w, v.currency, currency) && MoneyFits(w, v.amount, currency, inHome, r.source)
         && CheckedFits(inHome, v.confidence, r.amount, r.status)
  }

  /** By the LLM in the single call: an amount in the text counts before the LLM's, and so does its currency. */
  ghost predicate BySingleLlm(w: World, item: Item, v: Verdict, r: Result) {
    var seen := AmountText.Amount(w.extract(item).text);
    && VerdictFits(w, item, v, r) && r.category == w.resolve(v.category)
    && (exists said :: DateFits(w, v.date, said)
                       && if said.Some? then r.date == said else DateFits(w, w.extract(item).date, r.date))
    && exists currency, inHome ::
         && CurrencyFits(w, v.currency, currency)
         && (if seen.None? then MoneyFits(w, v.amount, currency, inHome, r.source)
             else
               var from := if Given(w.extract(item).currency) then w.extract(item).currency
                           else if Given(currency) then currency else Some("INR");
               MoneyFits(w, seen, from, inHome, r.source))
         && CheckedFits(inHome, v.confidence, r.amount, r.status)
  }

  // --- The functions fit ---

  lemma IgnoredIs(w: World, item: Item)
    requires SurelyIgnored(w, item)
    ensures IgnoredFits(w, item, PrefilterResult(w, item))
  {
  }

  lemma RulesIs(w: World, item: Item)
    ensures ByRules(w, item, RulesFallback(w, item))
  {
    var m := RuleMerchant(w, item);
    var r := RulesFallback(w, item);
    assert RuleMerchantFits(w, item, r.merchant, m.confidence, m.category);
  }

  lemma SingleRulesIs(w: World, item: Item)
    ensures BySingleRules(w, item, SingleByRules(w, item))
  {
    var m := RuleMerchant(w, item);
    var r := SingleByRules(w, item);
    assert RuleMerchantFits(w, item, r.merchant, m.confidence, m.category);
    assert RulesFit(w, item, Or(w.rule(item).category, m.category), r);
  }

  lemma EntryIs(w: World, item: Item, v: Verdict)
    ensures ByEntry(w, item, v, Build(w, item, v))
  {
    var currency := Supported(w, v.currency);
    var inHome := Converted(w, v.amount, currency).0;
    var r := Build(w, item, v);
    assert CurrencyFits(w, v.currency, currency) && MoneyFits(w, v.amount, currency, inHome, r.source);
    assert CheckedFits(inHome, v.confidence, r.amount, r.status);
  }

  lemma SingleLlmIs(w: World, item: Item, v: Verdict)
    ensures BySingleLlm(w, item, v, SingleByLlm(w, item, v))
  {
    var r := SingleByLlm(w, item, v);
    SingleVerdict(w, item, v);
    SingleDate(w, item, v);
    SingleMoney(w, item, v);
    hide SingleByLlm, VerdictFits, DateFits, CurrencyFits, MoneyFits, CheckedFits, Given;
    assert r.category == w.resolve(v.category) by {
      SingleCategory(w, item, v);
    }
  }

  lemma SingleVerdict(w: World, item: Item, v: Verdict)
    ensures VerdictFits(w, item, v, SingleByLlm(w, item, v))
  {
    hide Converted, Supported, StatusFor;
  }

  lemma SingleCategory(w: World, item: Item, v: Verdict)
    ensures SingleByLlm(w, item, v).category == w.resolve(v.category)
  {
    hide Converted, Supported, StatusFor;
  }

  lemma SingleDate(w: World, item: Item, v: Verdict)
    ensures var date := SingleByLlm(w, item, v).date;
            exists said ::
              DateFits(w, v.date, said) && if said.Some? then date == said else DateFits(w, w.extract(item).date, date)
  {
    hide Converted, Supported, StatusFor;
    assert DateFits(w, v.date, DateOf(w, v.date));
  }

  lemma SingleMoney(w: World, item: Item, v: Verdict)
    ensures var r, seen := SingleByLlm(w, item, v), AmountText.Amount(w.extract(item).text);
            exists currency, inHome ::
              && CurrencyFits(w, v.currency, currency)
              && (if seen.None? then MoneyFits(w, v.amount, currency, inHome, r.source)
                  else
                    var from := if Given(w.extract(item).currency) then w.extract(item).currency
                                else if Given(currency) then currency else Some("INR");
                    MoneyFits(w, seen, from, inHome, r.source))
              && CheckedFits(inHome, v.confidence, r.amount, r.status)
  {
    var found, currency := w.extract(item), Supported(w, v.currency);
    var raw := if found.Amount().Some? then found.Amount() else v.amount;
    var from := if found.Amount().Some? then Or(Or(found.currency, currency), Some("INR")) else currency;
    var (inHome, source) := Converted(w, raw, from);
    var r := SingleByLlm(w, item, v);
    MoneyIs(w, raw, from);
    CheckedIs(inHome, v.confidence);
    assert CurrencyFits(w, v.currency, currency);
    hide MoneyFits, CheckedFits, Converted, ValidateLlmAmount, StatusFor, CurrencyFits, Supported;
    assert r.source == source && (r.amount, r.status) == ValidateLlmAmount(inHome, StatusFor(v.confidence));
  }

  lemma MoneyIs(w: World, amount: Option<real>, currency: Option<string>)
    ensures MoneyFits(w, amount, currency, Converted(w, amount, currency).0, Converted(w, amount, currency).1)
  {
  }

  lemma CheckedIs(amount: Option<real>, confidence: real)
    ensures var checked := ValidateLlmAmount(amount, StatusFor(confidence));
            CheckedFits(amount, confidence, checked.0, checked.1)
  {
  }

  // --- The place among the others ---

  /** The email waits for the LLM. */
  predicate Waits(w: World, o: Options, item: Item) {
    o.useLlm && !(o.rules && !o.llmPriority && SurelyIgnored(w, item))
  }

  /** The emails before `n` that wait. */
  function Waiting(w: World, o: Options, items: seq<Item>, n: nat): set<nat>
    requires n <= |items|
  {
    set j: nat | j < n && Waits(w, o, items[j])
  }

  function Place(w: World, o: Options, items: seq<Item>, i: nat): nat
    requires i <= |items|
  {
    |Waiting(w, o, items, i)|
  }

  /** The emails of the batch that starts at a place: the waiting ones with the next places, in order. */
  ghost predicate Asks(w: World, o: Options, items: seq<Item>, start: nat, asked: seq<Item>) {
    var total := Place(w, o, items, |items|);
    && |asked| == (if total >= start + o.size then o.size else total - start)
    && forall j :: 0 <= j < |items| && Waits(w, o, items[j]) && start <= Place(w, o, items, j) < start + o.size ==>
         Place(w, o, items, j) - start < |asked| && asked[Place(w, o, items, j) - start] == items[j]
  }

  /** The entry at the email's own place in the reply to its own batch, if all entries up to it can be read. */
  ghost predicate RepliedWith(w: World, o: Options, items: seq<Item>, i: nat, v: Verdict)
    requires o.size > 0 && i < |items|
  {
    exists batch: nat, offset: nat, asked ::
      && offset < o.size && Place(w, o, items, i) == batch * o.size + offset
      && Asks(w, o, items, batch * o.size, asked)
      && w.batch(batch, asked).Answers? && offset < |w.batch(batch, asked).answers|
      && (forall t :: 0 <= t <= offset ==> w.batch(batch, asked).answers[t].Parsed?)
      && v == w.batch(batch, asked).answers[offset].verdict
  }

  lemma WaitsIs(w: World, o: Options, item: Item)
    ensures Waits(w, o, item) <==> Needs(w, o, item)
  {
  }

  lemma {:induction false} QueueIsWaiting(w: World, o: Options, items: seq<Item>, n: nat)
    requires n <= |items|
    ensures |Queue(w, o, items, n)| == Place(w, o, items, n)
  {
    hide Needs, Waits, Waiting;
    if n > 0 {
      QueueIsWaiting(w, o, items, n - 1);
      WaitsIs(w, o, items[n - 1]);
      OneMoreWaits(w, o, items, n);
    } else {
      NoneWaits(w, o, items);
    }
  }

  lemma OneMoreWaits(w: World, o: Options, items: seq<Item>, n: nat)
    requires 0 < n <= |items|
    ensures |Waiting(w, o, items, n)| == |Waiting(w, o, items, n - 1)| + if Waits(w, o, items[n - 1]) then 1 else 0
  {
    hide Waits;
    var before, last := Waiting(w, o, items, n - 1), n - 1;
    assert last !in before;
    forall j: nat ensures j in Waiting(w, o, items, n) <==> j in before || (j == last && Waits(w, o, items[last])) {
    }
    if Waits(w, o, items[last]) {
      assert Waiting(w, o, items, n) == before + {last};
    } else {
      assert Waiting(w, o, items, n) == before;
    }
  }

  lemma NoneWaits(w: World, o: Options, items: seq<Item>)
    ensures Waiting(w, o, items, 0) == {}
  {
  }

  /** Each waiting email stands in the queue at its place, and nothing else does. */
  lemma {:induction false} PlacesInQueue(w: World, o: Options, items: seq<Item>, j: nat, t: nat)
    ensures j < |items| && Waits(w, o, items[j]) ==>
              Place(w, o, items, j) < Place(w, o, items, |items|) == |Queue(w, o, items, |items|)|
              && Queue(w, o, items, |items|)[Place(w, o, items, j)] == j
    ensures var queue := Queue(w, o, items, |items|);
            t < |queue| ==> queue[t] < |items| && Waits(w, o, items[queue[t]]) && Place(w, o, items, queue[t]) == t
  {
    var queue := Queue(w, o, items, |items|);
    QueueIsWaiting(w, o, items, |items|);
    if j < |items| && Waits(w, o, items[j]) {
      QueueIsWaiting(w, o, items, j);
      PlaceInQueue(w, o, items, j, |items|);
    }
    if t < |queue| {
      QueuePlace(w, o, items, |items|, t);
      QueueIsWaiting(w, o, items, queue[t]);
    }
    hide Place;
  }

  /** The emails that are asked about are those of the batch, and no other sequence is. */
  lemma {:induction false} AskedIs(w: World, o: Options, items: seq<Item>, start: nat, asked: seq<Item>)
    requires o.size > 0 && start <= |Queue(w, o, items, |items|)|
    ensures Asks(w, o, items, start, asked) <==> asked == Asked(w, o, items, start)
  {
    hide *;
    AskedAsks(w, o, items, start);
    if Asks(w, o, items, start, asked) {
      OnlyAsked(w, o, items, start, asked);
    }
  }

  lemma {:induction false} AskedAsks(w: World, o: Options, items: seq<Item>, start: nat)
    requires o.size > 0 && start <= |Queue(w, o, items, |items|)|
    ensures Asks(w, o, items, start, Asked(w, o, items, start))
  {
    AskedLength(w, o, items, start);
    hide Asked, Queue, Waits, Place, Waiting, Needs;
    forall j | 0 <= j < |items| && Waits(w, o, items[j]) && start <= Place(w, o, items, j) < start + o.size
      ensures Place(w, o, items, j) - start < |Asked(w, o, items, start)|
      ensures Asked(w, o, items, start)[Place(w, o, items, j) - start] == items[j]
    {
      PlacesInQueue(w, o, items, j, 0);
    }
  }

  lemma {:induction false} OnlyAsked(w: World, o: Options, items: seq<Item>, start: nat, asked: seq<Item>)
    requires o.size > 0 && start <= |Queue(w, o, items, |items|)| && Asks(w, o, items, start, asked)
    ensures asked == Asked(w, o, items, start)
  {
    hide *;
    var emails := Asked(w, o, items, start);
    OnlyAskedAt(w, o, items, start, asked, 0);
    forall t | 0 <= t < |asked| ensures asked[t] == emails[t] {
      OnlyAskedAt(w, o, items, start, asked, t);
    }
  }

  lemma OnlyAskedAt(w: World, o: Options, items: seq<Item>, start: nat, asked: seq<Item>, t: nat)
    requires o.size > 0 && start <= |Queue(w, o, items, |items|)| && Asks(w, o, items, start, asked)
    ensures |asked| == |Asked(w, o, items, start)| && (t < |asked| ==> asked[t] == Asked(w, o, items, start)[t])
  {
    hide *;
    AskedLength(w, o, items, start);
    AsksLength(w, o, items, start, asked);
    if t < |asked| {
      var j := Queue(w, o, items, |items|)[start + t];
      PlacesInQueue(w, o, items, 0, start + t);
      AskedAt(w, o, items, start, asked, j);
    }
  }

  lemma AsksLength(w: World, o: Options, items: seq<Item>, start: nat, asked: seq<Item>)
    requires Asks(w, o, items, start, asked)
    ensures |asked| == if Place(w, o, items, |items|) >= start + o.size then o.size else Place(w, o, items, |items|) - start
  {
    hide Place, Waits;
  }

  lemma AskedAt(w: World, o: Options, items: seq<Item>, start: nat, asked: seq<Item>, j: nat)
    requires Asks(w, o, items, start, asked) && j < |items| && Waits(w, o, items[j])
    requires start <= Place(w, o, items, j) < start + o.size
    ensures Place(w, o, items, j) - start < |asked| && asked[Place(w, o, items, j) - start] == items[j]
  {
    hide Place, Waits;
  }

  lemma AskedLength(w: World, o: Options, items: seq<Item>, start: nat)
    requires o.size > 0 && start <= |Queue(w, o, items, |items|)|
    ensures var queue, total, asked := Queue(w, o, items, |items|), Place(w, o, items, |items|), Asked(w, o, items, start);
            && |queue| == total
            && |asked| == (if total >= start + o.size then o.size else total - start)
            && forall t :: 0 <= t < |asked| ==> start + t < |queue| && queue[start + t] < |items|
                                                && asked[t] == items[queue[start + t]]
  {
    QueueIsWaiting(w, o, items, |items|);
    hide Queue, Place, Needs;
  }

  /** The batch calls give an email exactly the verdict at its own place. */
  lemma {:induction false} AnsweredMeans(w: World, o: Options, items: seq<Item>, i: nat, v: Verdict)
    requires o.size > 0 && i < |items| && Waits(w, o, items[i])
    ensures Classification.Answered(w, o, items, i) == Some(v) <==> RepliedWith(w, o, items, i, v)
  {
    hide *;
    if Classification.Answered(w, o, items, i) == Some(v) {
      AnsweredIsReplied(w, o, items, i, v);
    }
    if RepliedWith(w, o, items, i, v) {
      RepliedIsAnswered(w, o, items, i, v);
    }
  }

  /** Where an email's answer comes from. */
  lemma AnswerAt(w: World, o: Options, items: seq<Item>, i: nat, batch: nat, offset: nat)
    requires o.size > 0 && i < |items| && Waits(w, o, items[i])
    requires offset < o.size && Place(w, o, items, i) == batch * o.size + offset
    ensures batch * o.size <= |Queue(w, o, items, |items|)|
    ensures Classification.Answered(w, o, items, i)
         == Entry(w.batch(batch, Asked(w, o, items, batch * o.size)), offset)
  {
    QueueIsWaiting(w, o, items, i);
    PlacesInQueue(w, o, items, i, 0);
    QuotientOf(Place(w, o, items, i), o.size, batch);
    hide Queue, Place, Waits, Asked, Entry;
  }

  lemma AnsweredIsReplied(w: World, o: Options, items: seq<Item>, i: nat, v: Verdict)
    requires o.size > 0 && i < |items| && Waits(w, o, items[i]) && Classification.Answered(w, o, items, i) == Some(v)
    ensures RepliedWith(w, o, items, i, v)
  {
    hide *;
    var place := Place(w, o, items, i);
    var batch, offset := place / o.size, place % o.size;
    var asked := Asked(w, o, items, batch * o.size);
    assert place == batch * o.size + offset;
    AnswerAt(w, o, items, i, batch, offset);
    AskedAsks(w, o, items, batch * o.size);
    EntryHolds(w.batch(batch, asked), offset, v);
    RepliedBy(w, o, items, i, v, batch, offset, asked);
  }

  lemma EntryHolds(reply: Reply, offset: nat, v: Verdict)
    requires Entry(reply, offset) == Some(v)
    ensures reply.Answers? && offset < |reply.answers| && forall t :: 0 <= t <= offset ==> reply.answers[t].Parsed?
    ensures v == reply.answers[offset].verdict
  {
  }

  lemma RepliedBy(
      w: World, o: Options, items: seq<Item>, i: nat, v: Verdict, batch: nat, offset: nat, asked: seq<Item>)
    requires o.size > 0 && i < |items|
    requires offset < o.size && Place(w, o, items, i) == batch * o.size + offset
    requires Asks(w, o, items, batch * o.size, asked)
    requires w.batch(batch, asked).Answers? && offset < |w.batch(batch, asked).answers|
    requires forall t :: 0 <= t <= offset ==> w.batch(batch, asked).answers[t].Parsed?
    requires v == w.batch(batch, asked).answers[offset].verdict
    ensures RepliedWith(w, o, items, i, v)
  {
    hide Place, Asks;
  }

  lemma RepliedIsAnswered(w: World, o: Options, items: seq<Item>, i: nat, v: Verdict)
    requires o.size > 0 && i < |items| && Waits(w, o, items[i]) && RepliedWith(w, o, items, i, v)
    ensures Classification.Answered(w, o, items, i) == Some(v)
  {
    hide Place, Waits, Asked, Classification.Answered, Asks;
    var batch: nat, offset: nat, asked :|
      && offset < o.size && Place(w, o, items, i) == batch * o.size + offset
      && Asks(w, o, items, batch * o.size, asked)
      && w.batch(batch, asked).Answers? && offset < |w.batch(batch, asked).answers|
      && (forall t :: 0 <= t <= offset ==> w.batch(batch, asked).answers[t].Parsed?)
      && v == w.batch(batch, asked).answers[offset].verdict;
    hide RepliedWith, Entry;
    AnswerAt(w, o, items, i, batch, offset);
    OnlyAsked(w, o, items, batch * o.size, asked);
    EntryReads(w.batch(batch, asked), offset);
  }

  lemma EntryReads(reply: Reply, offset: nat)
    requires reply.Answers? && offset < |reply.answers| && forall t :: 0 <= t <= offset ==> reply.answers[t].Parsed?
    ensures Entry(reply, offset) == Some(reply.answers[offset].verdict)
  {
  }

  // --- The result of an email ---

  /** What the checks find wrong: an unknown label, or an unknown category, or no merchant for an expense. */
  function Faults(w: World, v: Verdict): set<int> {
    if v.tag !in ["expense", "income", "ignore", "self_transfer"] then {1}
    else
      (if (v.tag == "expense" || v.tag == "income") && Given(v.category) && !w.recognised(v.tag, v.category.value)
       then {2} else {})
      + (if v.tag == "expense" && !Given(v.merchant) then {3} else {})
  }

  /** The verdict that counts: where there are faults, a corrected one with fewer. */
  predicate Counts(w: World, i: nat, v: Verdict, counted: Verdict) {
    if Faults(w, v) == {} || w.retry(i, v).None? || |Faults(w, w.retry(i, v).value)| >= |Faults(w, v)| then counted == v
    else counted == w.retry(i, v).value
  }

  /** The single call, or the rules where it raises. */
  ghost predicate ByItself(w: World, o: Options, i: nat, item: Item, r: Result) {
    if w.raises(i) then ByRules(w, item, r)
    else if o.rules && SurelyIgnored(w, item) then IgnoredFits(w, item, r)
    else if (o.user && !w.singleBudget(i)) || !w.singleClient(i) || w.single(i, item).None? then BySingleRules(w, item, r)
    else BySingleLlm(w, item, w.single(i, item).value, r)
  }

  /** The result that the email is to get, by the first of the three phases that has one for it. */
  ghost predicate Deserved(w: World, o: Options, items: seq<Item>, i: nat, r: Result)
    requires o.size > 0 && i < |items|
  {
    if o.useLlm && o.rules && !o.llmPriority && SurelyIgnored(w, items[i]) then IgnoredFits(w, items[i], r)
    else if !o.useLlm || (o.user && !w.budget) || !w.client then ByRules(w, items[i], r)
    else
      && (forall v :: RepliedWith(w, o, items, i, v) ==>
            exists counted :: Counts(w, i, v, counted) && ByEntry(w, items[i], counted, r))
      && ((forall v :: !RepliedWith(w, o, items, i, v)) ==> ByItself(w, o, i, items[i], r))
  }

  lemma FaultsAre(w: World, v: Verdict)
    ensures |Faults(w, v)| == Complaints(w, v)
  {
  }

  lemma CountsIs(w: World, i: nat, v: Verdict)
    ensures Counts(w, i, v, Reconsidered(w, i, v))
  {
    FaultsAre(w, v);
    if w.retry(i, v).Some? {
      FaultsAre(w, w.retry(i, v).value);
    }
    hide Faults, Complaints;
  }

  lemma ByItselfIs(w: World, o: Options, i: nat, item: Item)
    requires o.useLlm
    ensures ByItself(w, o, i, item, Alone(w, o, i, item))
  {
    RulesIs(w, item);
    SingleRulesIs(w, item);
    if SurelyIgnored(w, item) {
      IgnoredIs(w, item);
    }
    if w.single(i, item).Some? {
      SingleLlmIs(w, item, w.single(i, item).value);
    }
    hide ByRules, BySingleRules, BySingleLlm, IgnoredFits, RulesFallback, SingleByRules, SingleByLlm, PrefilterResult;
  }

  /** Every email gets the result that it deserves. */
  lemma {:induction false} SlotMeans(w: World, o: Options, items: seq<Item>, i: nat)
    requires o.size > 0 && i < |items|
    ensures Deserved(w, o, items, i, Slot(w, o, items, i))
  {
    var item := items[i];
    if SurelyIgnored(w, item) {
      IgnoredIs(w, item);
    }
    RulesIs(w, item);
    hide ByRules, IgnoredFits, ByEntry, ByItself, RepliedWith, Counts, RulesFallback, PrefilterResult, Build, Reconsidered,
         Alone, Classification.Answered;
    if o.useLlm && Waits(w, o, item) {
      ByItselfIs(w, o, i, item);
      forall v ensures Classification.Answered(w, o, items, i) == Some(v) <==> RepliedWith(w, o, items, i, v) {
        AnsweredMeans(w, o, items, i, v);
      }
      var answer := Classification.Answered(w, o, items, i);
      if answer.Some? {
        CountsIs(w, i, answer.value);
        EntryIs(w, item, Reconsidered(w, i, answer.value));
        assert RepliedWith(w, o, items, i, answer.value);
      }
    }
  }
}
