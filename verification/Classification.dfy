/**
 Classification of emails in batches. Three phases fill a list of results by index: rules first, then one LLM
 call per batch of the emails left, then one call per email for what is still missing.
 */
module Classification {
  import opened Common
  import AmountText

  const AUTO_CONFIRM_THRESHOLD := 0.75
  const PREFILTER_CONFIDENCE := 0.82
  const AMOUNT_CEILING := 10000000.0
  const AMOUNT_REVIEW_THRESHOLD := 1000000.0
  const DEFAULT_CURRENCY := "INR"

  datatype Tag = Expense | Income | Ignore | SelfTransfer
  datatype Status = Auto | NeedsReview
  datatype Method = Rule | Llm
  datatype Kind = CcPayment | Investment | IncomeKind | Purchase

  datatype Item = Item(email: Option<string>, sender: string, domain: string, subject: string, body: string)

  /** A classification, without its list of warnings. */
  datatype Result = Result(
    tag: Tag, amount: Option<real>, merchant: Option<string>, category: Option<string>, date: Option<int>,
    confidence: real, status: Status, origin: Method, kind: Option<Kind>, payment: Option<string>,
    currency: string, source: Option<string>)

  datatype RuleMatch = RuleMatch(tag: Option<Tag>, confidence: real, category: Option<string>, merchant: Option<string>)

  /** The merchant found in the text of an email, with the trust in it and its usual category. */
  datatype Found = Found(merchant: Option<string>, confidence: real, category: Option<string>)

  /** What the LLM says of one email: its label, category, merchant and date are unchecked text. */
  datatype Verdict = Verdict(
    tag: string, category: Option<string>, merchant: Option<string>, amount: Option<real>, currency: Option<string>,
    date: Option<string>, confidence: real)

  /** One entry of a batch reply; a malformed one raises as soon as it is handled. */
  datatype Answer = Malformed | Parsed(verdict: Verdict)

  /** A batch call raises, or replies with any number of entries. */
  datatype Reply = Failed | Answers(answers: seq<Answer>)

  /** The text of an amount, its currency and the date that the regular expressions find. */
  datatype Extract = Extract(text: Option<AmountText.LooseText>, currency: Option<string>, date: Option<string>)
  {
    function Amount(): Option<real> {
      AmountText.Amount(text)
    }
  }

  datatype Options = Options(rules: bool, useLlm: bool, llmPriority: bool, size: nat, user: bool)

  /** All that the code asks of others: rule tables, text extraction, currency rates, budget and the LLM. */
  datatype World = World(
    rule: Item -> RuleMatch,
    usualCategory: string -> Option<string>,
    found: Item -> Found,
    canonical: string -> Option<string>,
    parseDate: string -> Option<int>,
    payment: string -> Option<string>,
    bodyText: Item -> Option<AmountText.StrictText>,
    extract: Item -> Extract,
    resolve: Option<string> -> Option<string>,
    recognised: (string, string) -> bool,
    supported: string -> bool,
    home: string,
    convert: (real, string) -> Option<real>,
    budget: bool,
    client: bool,
    batch: (nat, seq<Item>) -> Reply,
    retry: (nat, Verdict) -> Option<Verdict>,
    singleBudget: nat -> bool,
    singleClient: nat -> bool,
    single: (nat, Item) -> Option<Verdict>,
    raises: nat -> bool)

  // --- One email ---

  function StatusFor(confidence: real): Status {
    if confidence >= AUTO_CONFIRM_THRESHOLD then Auto else NeedsReview
  }

  function KindOf(tag: Tag, category: Option<string>): Option<Kind> {
    if tag.Ignore? && category == Some("CC Payment") then Some(CcPayment)
    else if category == Some("Investment") then Some(Investment)
    else if tag.Income? then Some(IncomeKind)
    else if tag.Expense? then Some(Purchase)
    else None
  }

  function ValidateLlmAmount(amount: Option<real>, status: Status): (checked: (Option<real>, Status))
    ensures checked.0.Some? ==> checked.0 == amount && 0.0 < amount.value <= AMOUNT_CEILING
    ensures checked.0.None? && amount.Some? ==> amount.value <= 0.0 || amount.value > AMOUNT_CEILING
    ensures checked.1 == if amount.None? || 0.0 < amount.value <= AMOUNT_REVIEW_THRESHOLD then status else NeedsReview
  {
    if amount.None? then (amount, status)
    else if amount.value <= 0.0 then (None, NeedsReview)
    else if amount.value > AMOUNT_CEILING then (None, NeedsReview)
    else if amount.value > AMOUNT_REVIEW_THRESHOLD then (amount, NeedsReview)
    else (amount, status)
  }

  function TagOf(text: string): Tag {
    if text == "expense" then Expense
    else if text == "income" then Income
    else if text == "self_transfer" then SelfTransfer
    else Ignore
  }

  predicate KnownTag(text: string) {
    text in {"expense", "income", "ignore", "self_transfer"}
  }

  /** How many complaints the checks have about a verdict. */
  function Complaints(w: World, v: Verdict): nat {
    if !KnownTag(v.tag) then 1
    else
      (if v.tag in {"expense", "income"} && v.category.Some? && v.category.value != ""
          && !w.recognised(v.tag, v.category.value) then 1 else 0)
      + (if v.tag == "expense" && !Given(v.merchant) then 1 else 0)
  }

  /** A rejected verdict is sent back once; the new one counts only if it draws fewer complaints. */
  function Reconsidered(w: World, i: nat, v: Verdict): Verdict {
    if Complaints(w, v) == 0 then v
    else
      var again := w.retry(i, v);
      if again.Some? && Complaints(w, again.value) < Complaints(w, v) then again.value else v
  }

  /** The amount in the user's currency, and the currency it came from; a failed conversion keeps the amount. */
  function Converted(w: World, amount: Option<real>, currency: Option<string>): (Option<real>, Option<string>) {
    if amount.Some? && currency.Some? && currency.value != "" && currency.value != w.home then
      var c := w.convert(amount.value, currency.value);
      if c.Some? then (c, currency) else (amount, None)
    else (amount, currency)
  }

  function Supported(w: World, currency: Option<string>): Option<string> {
    if currency.Some? && currency.value != "" && !w.supported(currency.value) then None else currency
  }

  predicate Given(text: Option<string>) {
    text.Some? && text.value != ""
  }

  function MerchantOf(w: World, v: Verdict): Option<string> {
    if Given(v.merchant) then w.canonical(v.merchant.value) else None
  }

  function DateOf(w: World, text: Option<string>): Option<int> {
    if Given(text) then w.parseDate(text.value) else None
  }

  /** The result for an entry of a batch reply. */
  function Build(w: World, item: Item, v: Verdict): Result {
    var tag := TagOf(v.tag);
    var (amount, source) := Converted(w, v.amount, Supported(w, v.currency));
    var (checked, status) := ValidateLlmAmount(amount, StatusFor(v.confidence));
    Result(tag, checked, MerchantOf(w, v), v.category, DateOf(w, v.date), v.confidence, status, Llm,
           KindOf(tag, v.category), w.payment(item.body), w.home, source)
  }

  predicate Prefiltered(m: RuleMatch) {
    m.tag == Some(Ignore) && m.confidence >= PREFILTER_CONFIDENCE
  }

  function PrefilterResult(w: World, item: Item): Result {
    var m := w.rule(item);
    Result(Ignore, None, None, None, None, m.confidence, StatusFor(m.confidence), Rule,
           if m.category == Some("CC Payment") then Some(CcPayment) else None,
           w.payment(item.body), DEFAULT_CURRENCY, None)
  }

  function Or(a: Option<string>, b: Option<string>): Option<string> {
    if Given(a) then a else b
  }

  /** The merchant as the rules branch sees it: the rule's own, which is trusted, or the one in the text. */
  function RuleMerchant(w: World, item: Item): Found {
    var m := w.rule(item).merchant;
    if Given(m) then Found(m, 1.0, w.usualCategory(m.value)) else w.found(item)
  }

  function RuleConfidence(w: World, item: Item): real {
    var m := w.rule(item);
    var other := if m.tag.None? then 0.0 else RuleMerchant(w, item).confidence;
    if m.confidence >= other then m.confidence else other
  }

  function RuleTag(w: World, item: Item): Tag {
    if w.rule(item).tag.Some? then w.rule(item).tag.value else Ignore
  }

  /** The amount that the rules read in the body. */
  function BodyAmount(w: World, item: Item): Option<real> {
    AmountText.Amount(w.bodyText(item))
  }

  function RulesFallback(w: World, item: Item): Result {
    var category := Or(w.rule(item).category, RuleMerchant(w, item).category);
    var confidence := RuleConfidence(w, item);
    Result(RuleTag(w, item), BodyAmount(w, item), RuleMerchant(w, item).merchant, category, None, confidence,
           StatusFor(confidence), Rule, KindOf(RuleTag(w, item), category), w.payment(item.body), DEFAULT_CURRENCY, None)
  }

  /** The rules branch of the single call, which reads amount and date elsewhere and resolves the category. */
  function SingleByRules(w: World, item: Item): Result {
    var (amount, source) := Converted(w, w.extract(item).Amount(), w.extract(item).currency);
    var category := w.resolve(Or(w.rule(item).category, RuleMerchant(w, item).category));
    var confidence := RuleConfidence(w, item);
    Result(RuleTag(w, item), amount, RuleMerchant(w, item).merchant, category, DateOf(w, w.extract(item).date), confidence,
           StatusFor(confidence), Rule, KindOf(RuleTag(w, item), category), w.payment(item.body), w.home, source)
  }

  /** The LLM branch of the single call: an amount found by the regular expressions overrides the LLM's. */
  function SingleByLlm(w: World, item: Item, v: Verdict): Result {
    var tag := TagOf(v.tag);
    var category := w.resolve(v.category);
    var currency := Supported(w, v.currency);
    var found := w.extract(item);
    var raw := if found.Amount().Some? then found.Amount() else v.amount;
    var from := if found.Amount().Some? then Or(Or(found.currency, currency), Some(DEFAULT_CURRENCY)) else currency;
    var (amount, source) := Converted(w, raw, from);
    var (checked, status) := ValidateLlmAmount(amount, StatusFor(v.confidence));
    var date := if DateOf(w, v.date).Some? then DateOf(w, v.date) else DateOf(w, found.date);
    Result(tag, checked, MerchantOf(w, v), category, date, v.confidence, status, Llm,
           KindOf(tag, category), w.payment(item.body), w.home, source)
  }

  /**
   The single call. The correction retry leaves no trace here: label, amount, category and confidence have
   been read off the first verdict before it.
   */
  function ClassifyEmail(w: World, o: Options, i: nat, item: Item): Option<Result> {
    if w.raises(i) then None
    else if o.rules && !o.llmPriority && Prefiltered(w.rule(item)) then Some(PrefilterResult(w, item))
    else if !o.useLlm || (o.user && !w.singleBudget(i)) || !w.singleClient(i) then Some(SingleByRules(w, item))
    else
      var v := w.single(i, item);
      Some(if v.Some? then SingleByLlm(w, item, v.value) else SingleByRules(w, item))
  }

  // --- The batch ---

  predicate ByRulesFirst(w: World, o: Options, item: Item) {
    o.rules && !o.llmPriority && o.useLlm && Prefiltered(w.rule(item))
  }

  /** The email is left to the LLM by phase 1. */
  predicate Needs(w: World, o: Options, item: Item) {
    o.useLlm && !ByRulesFirst(w, o, item)
  }

  /** The indices below `n` that need the LLM, in order. */
  function Queue(w: World, o: Options, items: seq<Item>, n: nat): (queue: seq<nat>)
    requires n <= |items|
    ensures |queue| <= n
    ensures forall k :: 0 <= k < |queue| ==> queue[k] < n && Needs(w, o, items[queue[k]])
  {
    if n == 0 then []
    else Queue(w, o, items, n - 1) + if Needs(w, o, items[n - 1]) then [n - 1] else []
  }

  function Least(a: nat, b: nat): nat {
    if a <= b then a else b
  }

  function Select(items: seq<Item>, indices: seq<nat>): (chosen: seq<Item>)
    requires forall k :: 0 <= k < |indices| ==> indices[k] < |items|
    ensures |chosen| == |indices| && forall k :: 0 <= k < |chosen| ==> chosen[k] == items[indices[k]]
  {
    seq(|indices|, k requires 0 <= k < |indices| => items[indices[k]])
  }

  /** The emails of the batch that starts at `start` in the queue. */
  function Asked(w: World, o: Options, items: seq<Item>, start: nat): seq<Item> {
    var queue := Queue(w, o, items, |items|);
    if start <= |queue| then Select(items, queue[start..Least(start + o.size, |queue|)]) else []
  }

  /** The entry at `offset`, if the reply has it and nothing up to it is malformed. */
  function Entry(reply: Reply, offset: nat): Option<Verdict> {
    if reply.Answers? && offset < |reply.answers| && forall j :: 0 <= j <= offset ==> reply.answers[j].Parsed?
    then Some(reply.answers[offset].verdict)
    else None
  }

  /** The batch call can be made. */
  predicate LlmReady(w: World, o: Options) {
    (!o.user || w.budget) && w.client
  }

  function BatchNumber(place: nat, size: nat): nat
    requires size > 0
  {
    place / size
  }

  function Offset(place: nat, size: nat): (offset: nat)
    requires size > 0
    ensures offset < size && offset <= place
  {
    place % size
  }

  /** The reply to the batch that email `i` belongs to. */
  function ReplyFor(w: World, o: Options, items: seq<Item>, i: nat): Reply
    requires o.size > 0 && i < |items|
  {
    var place := |Queue(w, o, items, i)|;
    w.batch(BatchNumber(place, o.size), Asked(w, o, items, place - Offset(place, o.size)))
  }

  /** The verdict that the batch calls give on email `i`: the one at its own place in its own batch. */
  function Answered(w: World, o: Options, items: seq<Item>, i: nat): Option<Verdict>
    requires o.size > 0 && i < |items|
  {
    Entry(ReplyFor(w, o, items, i), Offset(|Queue(w, o, items, i)|, o.size))
  }

  /** Phase 3 for one email: the single call, whose context is not told of the LLM priority, or else the rules. */
  function Alone(w: World, o: Options, i: nat, item: Item): Result {
    var single := ClassifyEmail(w, o.(llmPriority := false), i, item);
    if single.Some? then single.value else RulesFallback(w, item)
  }

  /** The result that email `i` is to get, read off its own data and its own answers. */
  function Slot(w: World, o: Options, items: seq<Item>, i: nat): Result
    requires o.size > 0 && i < |items|
  {
    var item := items[i];
    if ByRulesFirst(w, o, item) then PrefilterResult(w, item)
    else if !o.useLlm || !LlmReady(w, o) then RulesFallback(w, item)
    else
      var answer := Answered(w, o, items, i);
      if answer.Some? then Build(w, items[i], Reconsidered(w, i, answer.value)) else Alone(w, o, i, item)
  }

  /** The queue lists the waiting emails in order, email `i` at the place given by the queue before it. */
  lemma {:induction false} PlaceInQueue(w: World, o: Options, items: seq<Item>, i: nat, n: nat)
    requires i < n <= |items|
    ensures Queue(w, o, items, i) <= Queue(w, o, items, n)
    ensures Needs(w, o, items[i]) ==>
              && |Queue(w, o, items, i)| < |Queue(w, o, items, n)|
              && Queue(w, o, items, n)[|Queue(w, o, items, i)|] == i
    decreases n
  {
    if i < n - 1 {
      PlaceInQueue(w, o, items, i, n - 1);
    }
  }

  /** The email at a place of the queue has that place. */
  lemma {:induction false} QueuePlace(w: World, o: Options, items: seq<Item>, n: nat, place: nat)
    requires n <= |items| && place < |Queue(w, o, items, n)|
    ensures |Queue(w, o, items, Queue(w, o, items, n)[place])| == place
    decreases n
  {
    if place < |Queue(w, o, items, n - 1)| {
      QueuePlace(w, o, items, n - 1, place);
    }
  }

  lemma MultipleApart(d: int, size: nat)
    ensures d >= 1 ==> d * size >= size
    ensures d <= -1 ==> d * size <= 0 - size
  {
    if d >= 1 {
      assert d * size == (d - 1) * size + size;
    } else if d <= -1 {
      assert d * size == (d + 1) * size - size;
    }
  }

  lemma QuotientOf(place: nat, size: nat, batch: nat)
    requires size > 0 && batch * size <= place < batch * size + size
    ensures place / size == batch && place % size == place - batch * size
  {
    var d := place / size - batch;
    assert place == (batch + d) * size + place % size;
    assert (batch + d) * size == batch * size + d * size;
    MultipleApart(d, size);
  }

  /** What the phases have written by the time the batches up to `start` are done. */
  ghost predicate FilledUpTo(
      w: World, o: Options, items: seq<Item>, results: seq<Option<Result>>, start: nat)
    requires o.size > 0
  {
    |results| == |items| && forall i :: 0 <= i < |items| ==> results[i] == Written(w, o, items, i, start)
  }

  function Written(w: World, o: Options, items: seq<Item>, i: nat, start: nat): Option<Result>
    requires o.size > 0 && i < |items|
  {
    if !Needs(w, o, items[i]) then Some(Slot(w, o, items, i))
    else if |Queue(w, o, items, i)| >= start then None
    else
      var answer := Answered(w, o, items, i);
      if answer.Some? then Some(Build(w, items[i], Reconsidered(w, i, answer.value))) else None
  }

  lemma WrittenFirst(w: World, o: Options, items: seq<Item>, i: nat)
    requires o.size > 0 && i < |items|
    ensures Written(w, o, items, i, 0)
         == if ByRulesFirst(w, o, items[i]) then Some(PrefilterResult(w, items[i]))
            else if !o.useLlm then Some(RulesFallback(w, items[i]))
            else None
  {
    hide Answered, RulesFallback;
  }

  /** Phase 1. */
  method CheckRules(w: World, o: Options, items: seq<Item>) returns (results: array<Option<Result>>, need: seq<nat>)
    requires o.size > 0
    ensures fresh(results)
    ensures FilledUpTo(w, o, items, results[..], 0)
    ensures need == Queue(w, o, items, |items|)
  {
    hide Written, RulesFallback, PrefilterResult, Prefiltered;
    results := new Option<Result>[|items|](_ => None);
    need := [];
    for i := 0 to |items|
      invariant need == Queue(w, o, items, i)
      invariant forall j :: 0 <= j < i ==> results[j] == Written(w, o, items, j, 0)
      invariant forall j :: i <= j < |items| ==> results[j] == None
    {
      var item := items[i];
      WrittenFirst(w, o, items, i);
      if o.rules && !o.llmPriority && o.useLlm && Prefiltered(w.rule(item)) {
        results[i] := Some(PrefilterResult(w, item));
      } else if !o.useLlm {
        results[i] := Some(RulesFallback(w, item));
      } else {
        need := need + [i];
      }
    }
  }

  /** The batch at `start` is the one that answers the emails with these places. */
  lemma {:induction false} BatchOf(w: World, o: Options, items: seq<Item>, start: nat, batch: nat, i: nat)
    requires o.size > 0 && i < |items| && start == batch * o.size && start <= |Queue(w, o, items, |items|)|
    requires start <= |Queue(w, o, items, i)| < start + o.size
    ensures Answered(w, o, items, i) == Entry(w.batch(batch, Asked(w, o, items, start)), |Queue(w, o, items, i)| - start)
  {
    QuotientOf(|Queue(w, o, items, i)|, o.size, batch);
  }

  /** What is written while the batch at `start` is handled: its first `offset` entries have been taken. */
  function Midway(
      w: World, o: Options, items: seq<Item>, i: nat, start: nat, reply: Reply, offset: nat): Option<Result>
    requires o.size > 0 && i < |items| && (reply.Answers? || offset == 0)
    requires reply.Answers? ==> offset <= |reply.answers| && forall t :: 0 <= t < offset ==> reply.answers[t].Parsed?
  {
    var place := |Queue(w, o, items, i)|;
    if Needs(w, o, items[i]) && start <= place < start + offset
    then Some(Build(w, items[i], Reconsidered(w, i, reply.answers[place - start].verdict)))
    else Written(w, o, items, i, start)
  }

  /** The reply ends at `offset`: the call failed, or there is no further entry, email, or readable entry. */
  predicate EndsAt(reply: Reply, offset: nat, emails: nat) {
    reply.Failed? || offset >= |reply.answers| || offset >= emails || reply.answers[offset].Malformed?
  }

  /** The entries before the end of a reply are read, and no others. */
  lemma EntryAt(reply: Reply, offset: nat, emails: nat, k: nat)
    requires reply.Answers? || offset == 0
    requires reply.Answers? ==> offset <= |reply.answers| && forall t :: 0 <= t < offset ==> reply.answers[t].Parsed?
    requires EndsAt(reply, offset, emails) && k < emails
    ensures Entry(reply, k) == if k < offset then Some(reply.answers[k].verdict) else None
  {
  }

  lemma {:induction false} BatchDone(
      w: World, o: Options, items: seq<Item>, i: nat, start: nat, batch: nat, reply: Reply, offset: nat)
    requires o.size > 0 && i < |items| && (reply.Answers? || offset == 0)
    requires reply.Answers? ==> offset <= |reply.answers| && forall t :: 0 <= t < offset ==> reply.answers[t].Parsed?
    requires start == batch * o.size && start < |Queue(w, o, items, |items|)|
    requires reply == w.batch(batch, Asked(w, o, items, start))
    requires var emails := Least(start + o.size, |Queue(w, o, items, |items|)|) - start;
             offset <= emails && EndsAt(reply, offset, emails)
    ensures Midway(w, o, items, i, start, reply, offset)
         == Written(w, o, items, i, Least(start + o.size, |Queue(w, o, items, |items|)|))
  {
    var place, end := |Queue(w, o, items, i)|, Least(start + o.size, |Queue(w, o, items, |items|)|);
    if start <= place < end {
      BatchOf(w, o, items, start, batch, i);
    }
    hide *;
    AllTaken(w, o, items, i, start, end, reply, offset);
  }

  lemma AllTaken(w: World, o: Options, items: seq<Item>, i: nat, start: nat, end: nat, reply: Reply, offset: nat)
    requires o.size > 0 && i < |items| && (reply.Answers? || offset == 0)
    requires reply.Answers? ==> offset <= |reply.answers| && forall t :: 0 <= t < offset ==> reply.answers[t].Parsed?
    requires start + offset <= end && EndsAt(reply, offset, end - start)
    requires var place := |Queue(w, o, items, i)|;
             start <= place < end ==> Answered(w, o, items, i) == Entry(reply, place - start)
    ensures Midway(w, o, items, i, start, reply, offset) == Written(w, o, items, i, end)
  {
    hide Queue, Needs, Answered, Entry, EndsAt, Build, Reconsidered, Slot;
    var place := |Queue(w, o, items, i)|;
    if Needs(w, o, items[i]) && start <= place < end {
      EntryAt(reply, offset, end - start, place - start);
      if place < start + offset {
        assert Answered(w, o, items, i) == Some(reply.answers[place - start].verdict);
      }
    }
  }

  /** Phase 2 for one batch: an entry that raises, or has no email to go to, ends the batch. */
  method HandleBatch(
      w: World, o: Options, items: seq<Item>, results: array<Option<Result>>, need: seq<nat>, start: nat, batch: nat)
    requires o.size > 0 && results.Length == |items| && start == batch * o.size
    requires need == Queue(w, o, items, |items|) && start < |need|
    requires FilledUpTo(w, o, items, results[..], start)
    modifies results
    ensures FilledUpTo(w, o, items, results[..], Least(start + o.size, |need|))
  {
    hide Written, Build, Reconsidered, Answered, Queue;
    var end := Least(start + o.size, |need|);
    var reply := w.batch(batch, Select(items, need[start..end]));
    var stopped := reply.Failed?;
    var offset := 0;
    forall i | 0 <= i < |items| ensures Midway(w, o, items, i, start, reply, 0) == Written(w, o, items, i, start) {
    }
    while !stopped && offset < |reply.answers|
      invariant reply.Failed? ==> stopped && offset == 0
      invariant start + offset <= end
      invariant reply.Answers? ==>
                  offset <= |reply.answers| && forall t :: 0 <= t < offset ==> reply.answers[t].Parsed?
      invariant stopped ==> EndsAt(reply, offset, end - start)
      invariant forall i :: 0 <= i < |items| ==> results[i] == Midway(w, o, items, i, start, reply, offset)
      decreases !stopped, if reply.Answers? then |reply.answers| - offset else 0
    {
      if start + offset >= end || reply.answers[offset].Malformed? {
        stopped := true;
      } else {
        var i := need[start + offset];
        TakesOne(w, o, items, start, reply, offset);
        results[i] := Some(Build(w, items[i], Reconsidered(w, i, reply.answers[offset].verdict)));
        offset := offset + 1;
      }
    }
    forall i | 0 <= i < |items| ensures results[i] == Written(w, o, items, i, end) {
      BatchDone(w, o, items, i, start, batch, reply, offset);
    }
  }

  lemma {:induction false} TakesOne(w: World, o: Options, items: seq<Item>, start: nat, reply: Reply, offset: nat)
    requires o.size > 0 && reply.Answers? && offset < |reply.answers|
    requires forall t :: 0 <= t <= offset ==> reply.answers[t].Parsed?
    requires start + offset < |Queue(w, o, items, |items|)|
    ensures var i := Queue(w, o, items, |items|)[start + offset];
            && Midway(w, o, items, i, start, reply, offset + 1)
                 == Some(Build(w, items[i], Reconsidered(w, i, reply.answers[offset].verdict)))
            && forall j :: 0 <= j < |items| && j != i ==>
                 Midway(w, o, items, j, start, reply, offset + 1) == Midway(w, o, items, j, start, reply, offset)
  {
    QueuePlace(w, o, items, |items|, start + offset);
    var i := Queue(w, o, items, |items|)[start + offset];
    forall j | 0 <= j < |items| && j != i
      ensures Midway(w, o, items, j, start, reply, offset + 1) == Midway(w, o, items, j, start, reply, offset)
    {
      PlaceInQueue(w, o, items, j, |items|);
    }
  }

  /** Each email has its result, or waits for the single call that is to give it. */
  ghost predicate OnlyAloneLeft(w: World, o: Options, items: seq<Item>, results: seq<Option<Result>>)
    requires o.size > 0
  {
    && |results| == |items|
    && forall i :: 0 <= i < |items| ==>
         results[i] == Some(Slot(w, o, items, i))
         || (results[i] == None && Slot(w, o, items, i) == Alone(w, o, i, items[i]))
  }

  /** Phase 2 without budget or client. */
  method FallBack(w: World, o: Options, items: seq<Item>, results: array<Option<Result>>, need: seq<nat>)
    requires o.size > 0 && !LlmReady(w, o)
    requires need == Queue(w, o, items, |items|) && FilledUpTo(w, o, items, results[..], 0)
    modifies results
    ensures OnlyAloneLeft(w, o, items, results[..])
  {
    for k := 0 to |need|
      invariant forall i :: 0 <= i < |items| ==>
                  results[i] == if Needs(w, o, items[i]) && |Queue(w, o, items, i)| >= k then None
                                else Some(Slot(w, o, items, i))
    {
      var i := need[k];
      QueuePlace(w, o, items, |items|, k);
      forall j | 0 <= j < |items| && j != i && Needs(w, o, items[j]) ensures |Queue(w, o, items, j)| != k {
        PlaceInQueue(w, o, items, j, |items|);
      }
      results[i] := Some(RulesFallback(w, items[i]));
    }
    forall i | 0 <= i < |items| ensures results[i] == Some(Slot(w, o, items, i)) {
      PlaceInQueue(w, o, items, i, |items|);
    }
  }

  /** Phase 3. */
  method ClassifyRest(w: World, o: Options, items: seq<Item>, results: array<Option<Result>>) returns (out: seq<Result>)
    requires o.size > 0 && OnlyAloneLeft(w, o, items, results[..])
    modifies results
    ensures |out| == |items| && forall i :: 0 <= i < |items| ==> out[i] == Slot(w, o, items, i)
  {
    hide Slot, ClassifyEmail;
    out := [];
    for i := 0 to |items|
      invariant OnlyAloneLeft(w, o, items, results[..])
      invariant |out| == i && forall j :: 0 <= j < i ==> out[j] == Slot(w, o, items, j)
    {
      if results[i].None? {
        var single := ClassifyEmail(w, o.(llmPriority := false), i, items[i]);
        results[i] := Some(if single.Some? then single.value else RulesFallback(w, items[i]));
      }
      out := out + [results[i].value];
    }
  }

  lemma {:induction false} AllBatchesDone(w: World, o: Options, items: seq<Item>, results: seq<Option<Result>>, start: nat)
    requires o.size > 0 && FilledUpTo(w, o, items, results, start)
    requires start == |Queue(w, o, items, |items|)|
    requires start == 0 || (o.useLlm && LlmReady(w, o))
    ensures OnlyAloneLeft(w, o, items, results)
  {
    forall i | 0 <= i < |items|
      ensures results[i] == Some(Slot(w, o, items, i))
              || (results[i] == None && Slot(w, o, items, i) == Alone(w, o, i, items[i]))
    {
      PlaceInQueue(w, o, items, i, |items|);
      hide Build, Reconsidered, Answered, Alone, Queue;
    }
  }

  method BatchClassifyEmails(w: World, o: Options, items: seq<Item>) returns (out: seq<Result>)
    requires o.size > 0
    ensures |out| == |items| && forall i :: 0 <= i < |items| ==> out[i] == Slot(w, o, items, i)
  {
    var results, need := CheckRules(w, o, items);
    assert need != [] ==> Needs(w, o, items[need[0]]);
    hide Queue, Slot, FilledUpTo, OnlyAloneLeft;
    if need != [] && o.useLlm {
      if o.user && !w.budget {
        FallBack(w, o, items, results, need);
      } else if !w.client {
        FallBack(w, o, items, results, need);
      } else {
        var start, batch := 0, 0;
        while start < |need|
          invariant start == batch * o.size
          invariant FilledUpTo(w, o, items, results[..], Least(start, |need|))
        {
          HandleBatch(w, o, items, results, need, start, batch);
          assert (batch + 1) * o.size == batch * o.size + o.size;
          start, batch := start + o.size, batch + 1;
        }
      }
    }
    if need == [] || LlmReady(w, o) {
      AllBatchesDone(w, o, items, results[..], |need|);
    }
    out := ClassifyRest(w, o, items, results);
  }

  // --- What holds of every slot ---

  /** The promises about one result. */
  predicate Sane(r: Result) {
    && (r.status.Auto? ==> r.confidence >= AUTO_CONFIRM_THRESHOLD)
    && (r.origin.Rule? && r.confidence >= AUTO_CONFIRM_THRESHOLD ==> r.status.Auto?)
    && (r.origin.Llm? && r.amount.Some? ==>
          && 0.0 < r.amount.value <= AMOUNT_CEILING
          && (r.amount.value > AMOUNT_REVIEW_THRESHOLD ==> r.status.NeedsReview?))
    && (r.origin.Llm? && r.status.NeedsReview? && r.confidence >= AUTO_CONFIRM_THRESHOLD ==>
          r.amount.None? || r.amount.value > AMOUNT_REVIEW_THRESHOLD)
  }

  /** Whatever the LLM replies, every slot is sane. */
  lemma {:induction false} SlotsAreSane(w: World, o: Options, items: seq<Item>, i: nat)
    requires o.size > 0 && i < |items|
    ensures Sane(Slot(w, o, items, i))
  {
    hide Answered, Reconsidered, RuleConfidence, Converted, Complaints;
    AloneIsSane(w, o, i, items[i]);
    hide Alone;
    var answer := Answered(w, o, items, i);
    if answer.Some? {
      assert Sane(Build(w, items[i], Reconsidered(w, i, answer.value)));
    }
  }

  lemma AloneIsSane(w: World, o: Options, i: nat, item: Item)
    ensures Sane(Alone(w, o, i, item))
  {
    hide RuleConfidence, Converted;
  }

  /** The LLM answers email by email, as `answer` says, however the emails are grouped. */
  ghost predicate Complete(w: World, answer: Item -> Verdict) {
    forall k, batch :: w.batch(k, batch) == Answers(seq(|batch|, j requires 0 <= j < |batch| => Parsed(answer(batch[j]))))
  }

  /** Grouping does not show: with complete replies each email gets the result of its own answer, for any batch size. */
  lemma {:induction false} BatchingIsTransparent(
      w: World, o: Options, items: seq<Item>, i: nat, answer: Item -> Verdict)
    requires o.size > 0 && i < |items| && o.useLlm && LlmReady(w, o) && Complete(w, answer)
    ensures Slot(w, o, items, i)
         == if ByRulesFirst(w, o, items[i]) then PrefilterResult(w, items[i])
            else Build(w, items[i], Reconsidered(w, i, answer(items[i])))
  {
    if Needs(w, o, items[i]) {
      CompleteReplyAnswers(w, o, items, i, answer);
    }
    hide Answered, Build, Reconsidered;
  }

  lemma {:induction false} CompleteReplyAnswers(
      w: World, o: Options, items: seq<Item>, i: nat, answer: Item -> Verdict)
    requires o.size > 0 && i < |items| && Needs(w, o, items[i]) && Complete(w, answer)
    ensures Answered(w, o, items, i) == Some(answer(items[i]))
  {
    AskedHasEmail(w, o, items, i);
    hide Queue, Needs, Asked, Offset, BatchNumber;
    var place := |Queue(w, o, items, i)|;
    var offset := Offset(place, o.size);
    var asked := Asked(w, o, items, place - offset);
    var reply := ReplyFor(w, o, items, i);
    assert reply == Answers(seq(|asked|, j requires 0 <= j < |asked| => Parsed(answer(asked[j]))));
    assert forall j :: 0 <= j <= offset ==> reply.answers[j].Parsed?;
  }

  /** An email is asked about in its own batch, at its own offset. */
  lemma {:induction false} AskedHasEmail(w: World, o: Options, items: seq<Item>, i: nat)
    requires o.size > 0 && i < |items| && Needs(w, o, items[i])
    ensures var offset := Offset(|Queue(w, o, items, i)|, o.size);
            var asked := Asked(w, o, items, |Queue(w, o, items, i)| - offset);
            offset < |asked| <= o.size && asked[offset] == items[i]
  {
    PlaceInQueue(w, o, items, i, |items|);
    hide Queue, Needs, Offset;
    SliceHas(Queue(w, o, items, |items|), |Queue(w, o, items, i)|, Offset(|Queue(w, o, items, i)|, o.size), o.size);
  }

  lemma SliceHas(queue: seq<nat>, place: nat, offset: nat, size: nat)
    requires place < |queue| && offset <= place && offset < size
    ensures var start := place - offset;
            var part := queue[start..Least(start + size, |queue|)];
            offset < |part| <= size && part[offset] == queue[place]
  {
  }

  /** The two replies agree on the first `n` entries. */
  predicate SameUpTo(a: Reply, b: Reply, n: nat) {
    && a.Failed? == b.Failed?
    && (a.Answers? ==> forall j :: 0 <= j < n ==>
          (j < |a.answers| <==> j < |b.answers|) && (j < |a.answers| ==> a.answers[j] == b.answers[j]))
  }

  /** Entries beyond the emails asked about are dropped: they change no result. */
  lemma {:induction false} ExcessEntriesIgnored(w: World, v: World, o: Options, items: seq<Item>, i: nat)
    requires o.size > 0 && i < |items| && v == w.(batch := v.batch)
    requires forall k, batch :: SameUpTo(w.batch(k, batch), v.batch(k, batch), |batch|)
    ensures Slot(w, o, items, i) == Slot(v, o, items, i)
  {
    if Needs(w, o, items[i]) {
      ExcessEntriesUnread(w, v, o, items, i);
    }
    hide *;
    SlotFromAnswer(w, v, o, items, i);
  }

  lemma SlotFromAnswer(w: World, v: World, o: Options, items: seq<Item>, i: nat)
    requires o.size > 0 && i < |items| && v == w.(batch := v.batch)
    requires Needs(w, o, items[i]) ==> Answered(w, o, items, i) == Answered(v, o, items, i)
    ensures Slot(w, o, items, i) == Slot(v, o, items, i)
  {
    hide Answered;
    AloneIgnoresReplies(w, v, o, i, items[i]);
    if Needs(w, o, items[i]) && Answered(w, o, items, i).Some? {
      BuildIgnoresReplies(w, v, i, items[i], Answered(w, o, items, i).value);
    }
    hide Alone, Build, Reconsidered;
  }

  lemma AloneIgnoresReplies(w: World, v: World, o: Options, i: nat, item: Item)
    requires v == w.(batch := v.batch)
    ensures Alone(w, o, i, item) == Alone(v, o, i, item)
  {
    RulesIgnoreReplies(w, v, item);
    var answer := w.single(i, item);
    if answer.Some? {
      SingleIgnoresReplies(w, v, item, answer.value);
    }
    hide RulesFallback, SingleByRules, SingleByLlm, PrefilterResult;
  }

  lemma RulesIgnoreReplies(w: World, v: World, item: Item)
    requires v == w.(batch := v.batch)
    ensures RulesFallback(w, item) == RulesFallback(v, item) && PrefilterResult(w, item) == PrefilterResult(v, item)
    ensures SingleByRules(w, item) == SingleByRules(v, item)
  {
  }

  lemma SingleIgnoresReplies(w: World, v: World, item: Item, verdict: Verdict)
    requires v == w.(batch := v.batch)
    ensures SingleByLlm(w, item, verdict) == SingleByLlm(v, item, verdict)
  {
  }

  lemma BuildIgnoresReplies(w: World, v: World, i: nat, item: Item, verdict: Verdict)
    requires v == w.(batch := v.batch)
    ensures Build(w, item, Reconsidered(w, i, verdict)) == Build(v, item, Reconsidered(v, i, verdict))
  {
  }

  lemma {:induction false} ExcessEntriesUnread(w: World, v: World, o: Options, items: seq<Item>, i: nat)
    requires o.size > 0 && i < |items| && v == w.(batch := v.batch) && Needs(w, o, items[i])
    requires forall k, batch :: SameUpTo(w.batch(k, batch), v.batch(k, batch), |batch|)
    ensures Answered(w, o, items, i) == Answered(v, o, items, i)
  {
    var n := RepliesAgree(w, v, o, items, i);
    QueueIgnoresReplies(w, v, o, items, i);
    hide Queue, Needs, Offset, Entry, SameUpTo, ReplyFor;
    EntrySame(ReplyFor(w, o, items, i), ReplyFor(v, o, items, i), n, Offset(|Queue(w, o, items, i)|, o.size));
  }

  lemma {:induction false} RepliesAgree(w: World, v: World, o: Options, items: seq<Item>, i: nat) returns (n: nat)
    requires o.size > 0 && i < |items| && v == w.(batch := v.batch) && Needs(w, o, items[i])
    requires forall k, batch :: SameUpTo(w.batch(k, batch), v.batch(k, batch), |batch|)
    ensures Offset(|Queue(w, o, items, i)|, o.size) < n
    ensures SameUpTo(ReplyFor(w, o, items, i), ReplyFor(v, o, items, i), n)
  {
    hide *;
    AskedHasEmail(w, o, items, i);
    var place := |Queue(w, o, items, i)|;
    var batch, asked := BatchNumber(place, o.size), Asked(w, o, items, place - Offset(place, o.size));
    n := |asked|;
    assert SameUpTo(w.batch(batch, asked), v.batch(batch, asked), n);
    AskedIgnoresReplies(w, v, o, items, i);
  }

  /** Other replies to the same questions. */
  lemma AskedIgnoresReplies(w: World, v: World, o: Options, items: seq<Item>, i: nat)
    requires o.size > 0 && i < |items| && v == w.(batch := v.batch)
    ensures var place := |Queue(w, o, items, i)|;
            var batch, asked := BatchNumber(place, o.size), Asked(w, o, items, place - Offset(place, o.size));
            ReplyFor(w, o, items, i) == w.batch(batch, asked) && ReplyFor(v, o, items, i) == v.batch(batch, asked)
  {
    hide *;
    QueueIgnoresReplies(w, v, o, items, i);
    QueueIgnoresReplies(w, v, o, items, |items|);
    ReplyIs(w, o, items, i);
    ReplyIs(v, o, items, i);
    var place := |Queue(w, o, items, i)|;
    SameQueueSameAsked(w, v, o, items, place - Offset(place, o.size));
  }

  lemma ReplyIs(w: World, o: Options, items: seq<Item>, i: nat)
    requires o.size > 0 && i < |items|
    ensures var place := |Queue(w, o, items, i)|;
            0 <= place - Offset(place, o.size)
            && ReplyFor(w, o, items, i) == w.batch(BatchNumber(place, o.size), Asked(w, o, items, place - Offset(place, o.size)))
  {
    hide Queue, Asked;
  }

  lemma SameQueueSameAsked(w: World, v: World, o: Options, items: seq<Item>, start: nat)
    requires Queue(w, o, items, |items|) == Queue(v, o, items, |items|)
    ensures Asked(w, o, items, start) == Asked(v, o, items, start)
  {
    hide Queue;
  }

  lemma EntrySame(a: Reply, b: Reply, n: nat, offset: nat)
    requires SameUpTo(a, b, n) && offset < n
    ensures Entry(a, offset) == Entry(b, offset)
  {
  }

  lemma {:induction false} QueueIgnoresReplies(w: World, v: World, o: Options, items: seq<Item>, n: nat)
    requires n <= |items| && v == w.(batch := v.batch)
    ensures Queue(w, o, items, n) == Queue(v, o, items, n)
  {
    if n > 0 {
      QueueIgnoresReplies(w, v, o, items, n - 1);
    }
  }

  /**
   LLM priority promises to skip the rules' pre-filter. It does exactly for the emails that a batch reply
   answers; phase 3 does not pass the option on, and pre-filters.
   */
  lemma {:induction false} PriorityOnlyInBatches(w: World, o: Options, items: seq<Item>, i: nat)
    requires o.size > 0 && i < |items| && o.llmPriority && o.rules && o.useLlm && LlmReady(w, o)
    requires Prefiltered(w.rule(items[i])) && !w.raises(i)
    ensures Slot(w, o, items, i).origin.Llm? <==> Answered(w, o, items, i).Some?
    ensures Answered(w, o, items, i).None? ==> Slot(w, o, items, i) == PrefilterResult(w, items[i])
  {
    hide Answered;
  }

  // --- Amounts that nothing checks ---

  /** The amount is absent, or within the limits that hold for an LLM's amounts. */
  predicate Capped(amount: Option<real>) {
    amount.Some? ==> 0.0 < amount.value <= AMOUNT_CEILING
  }

  /** The email gets its result from the rules after all: nobody may or can be asked, or the single call raises. */
  predicate FallsBack(w: World, o: Options, items: seq<Item>, i: nat)
    requires o.size > 0 && i < |items|
  {
    && !ByRulesFirst(w, o, items[i])
    && (!o.useLlm || !LlmReady(w, o) || (Answered(w, o, items, i).None? && w.raises(i)))
  }

  /** The email is left to the single call, which takes its rules branch. */
  predicate AloneByRules(w: World, o: Options, items: seq<Item>, i: nat)
    requires o.size > 0 && i < |items|
  {
    && o.useLlm && LlmReady(w, o) && Answered(w, o, items, i).None? && !w.raises(i)
    && !(o.rules && Prefiltered(w.rule(items[i])))
    && ((o.user && !w.singleBudget(i)) || !w.singleClient(i) || w.single(i, items[i]).None?)
  }

  /**
   Amounts that the rules find are not checked, in either rules branch. A slot carries an amount beyond the
   limits if and only if it falls back and the email's text shows such an amount, or takes the rules branch of
   the single call and the converted amount is such.
   */
  lemma {:induction false} CapsBrokenIff(w: World, o: Options, items: seq<Item>, i: nat)
    requires o.size > 0 && i < |items|
    ensures !Capped(Slot(w, o, items, i).amount) <==>
            || (FallsBack(w, o, items, i) && !Capped(BodyAmount(w, items[i])))
            || (AloneByRules(w, o, items, i)
                && !Capped(Converted(w, w.extract(items[i]).Amount(), w.extract(items[i]).currency).0))
  {
    hide Answered, Reconsidered, Converted, Complaints, Supported, RuleConfidence, KindOf;
    AloneCapsBrokenIff(w, o.(llmPriority := false), i, items[i]);
    var answer := Answered(w, o, items, i);
    if answer.Some? {
      BuildIsCapped(w, items[i], Reconsidered(w, i, answer.value));
    }
    hide Build, ClassifyEmail;
  }

  lemma BuildIsCapped(w: World, item: Item, v: Verdict)
    ensures Capped(Build(w, item, v).amount)
  {
    hide Converted, Supported;
  }

  lemma AloneCapsBrokenIff(w: World, o: Options, i: nat, item: Item)
    requires !o.llmPriority
    ensures !Capped(Alone(w, o, i, item).amount) <==>
            if w.raises(i) then !Capped(BodyAmount(w, item))
            else
              && !(o.rules && Prefiltered(w.rule(item)))
              && (!o.useLlm || (o.user && !w.singleBudget(i)) || !w.singleClient(i) || w.single(i, item).None?)
              && !Capped(Converted(w, w.extract(item).Amount(), w.extract(item).currency).0)
  {
    hide Converted, Supported, RuleConfidence, KindOf;
  }

  /** An amount read in the body is never negative and never finer than a cent. */
  lemma {:induction false} FallbackAmounts(w: World, o: Options, items: seq<Item>, i: nat)
    requires o.size > 0 && i < |items| && FallsBack(w, o, items, i)
    ensures var amount := Slot(w, o, items, i).amount;
            amount == BodyAmount(w, items[i])
            && (amount.Some? ==> exists cents: nat :: amount.value == AmountText.InCents(cents))
  {
    hide Answered;
    if BodyAmount(w, items[i]).Some? {
      assert AmountText.InCents(AmountText.Cents(w.bodyText(items[i]).value).value) == BodyAmount(w, items[i]).value;
    }
  }

  /** All such amounts can end up in an automatic result, zero and those above the ceiling among them. */
  lemma {:induction false} AnyAmountAutomatic(cents: nat, w: World, item: Item) returns (v: World, o: Options)
    ensures v == w.(rule := v.rule, bodyText := v.bodyText) && v.bodyText(item) == Some(AmountText.Written(cents))
    ensures o.size > 0 && FallsBack(v, o, [item], 0) && Slot(v, o, [item], 0).status.Auto?
    ensures Slot(v, o, [item], 0).amount == Some(AmountText.InCents(cents))
  {
    AmountText.WrittenIsRead(cents);
    v := w.(rule := (it: Item) => RuleMatch(Some(Expense), 1.0, None, None),
            bodyText := (it: Item) => Some(AmountText.Written(cents)));
    o := Options(true, false, false, 1, false);
    hide RuleMerchant, AmountText.Written, AmountText.Cents;
  }
}
