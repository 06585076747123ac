/**
 The daily LLM budget: every call first compares the user's spend of the day with the budget, and afterwards
 adds what it cost to the tracker row of its user, day, provider and model.
 */
module Budget {
  import opened Common

  const ESTIMATE_FALLBACK := 0.0001
  const DAILY_LLM_BUDGET := 10.0

  datatype Key = Key(user: string, day: int, provider: string, model: string)

  /** What one recorded LLM request used. */
  datatype Charge = Charge(provider: string, model: string, tokensIn: nat, tokensOut: nat)

  datatype Row = Row(key: Key, calls: nat, tokensIn: nat, tokensOut: nat, cost: real)

  /** Price per million tokens, in and out. */
  datatype Price = Price(input: real, output: real)

  /** Prices by provider and model; "*" stands for any model of the provider. */
  type Pricing = map<(string, string), Price>

  /** The user's settings row: an explicit budget in cents, if any, and a tier. */
  datatype Settings = Settings(cents: Option<int>, tier: string)

  /** The estimated cost never falls below the fallback, also where tokens are free. */
  function ComputeCost(prices: Pricing, c: Charge): (cost: real)
    ensures cost >= ESTIMATE_FALLBACK
  {
    var price :=
      if (c.provider, c.model) in prices then Some(prices[(c.provider, c.model)])
      else if (c.provider, "*") in prices then Some(prices[(c.provider, "*")])
      else None;
    if price.None? then ESTIMATE_FALLBACK
    else
      var tokens := c.tokensIn as real * price.value.input + c.tokensOut as real * price.value.output;
      var cost := tokens / 1000000.0;
      if cost >= ESTIMATE_FALLBACK then cost else ESTIMATE_FALLBACK
  }

  /** The budget in cents; None is unlimited. */
  function UserBudgetCents(settings: Option<Settings>): Option<int> {
    if settings.None? then Some(1)
    else if settings.value.tier == "unlimited" then None
    else if settings.value.cents.Some? then settings.value.cents
    else if settings.value.tier == "pro" then Some(10)
    else Some(1)
  }

  /** The budget that counts, in dollars. */
  function EffectiveBudget(settings: Option<Settings>): Option<real> {
    var cents := UserBudgetCents(settings);
    if cents.None? then None
    else
      var own := cents.value as real / 100.0;
      Some(if own <= DAILY_LLM_BUDGET then own else DAILY_LLM_BUDGET)
  }

  function Counted(row: Row, user: string, day: int): real {
    if row.key.user == user && row.key.day == day then row.cost else 0.0
  }

  /** The sum over the user's rows of the day. */
  function Spend(rows: seq<Row>, user: string, day: int): real {
    if rows == [] then 0.0 else Counted(rows[0], user, day) + Spend(rows[1..], user, day)
  }

  predicate MayCall(rows: seq<Row>, user: string, day: int, settings: Option<Settings>) {
    var budget := EffectiveBudget(settings);
    budget.None? || Spend(rows, user, day) < budget.value
  }

  /** Each user, day, provider and model has one row. */
  ghost predicate OneRowPerKey(rows: seq<Row>) {
    forall i, j :: 0 <= i < j < |rows| ==> rows[i].key != rows[j].key
  }

  function KeyOf(user: string, day: int, c: Charge): Key {
    Key(user, day, c.provider, c.model)
  }

  function Added(row: Row, c: Charge, cost: real): Row {
    row.(calls := row.calls + 1, tokensIn := row.tokensIn + c.tokensIn, tokensOut := row.tokensOut + c.tokensOut,
         cost := row.cost + cost)
  }

  /** The first row with the key, or the end of the table. */
  function Find(rows: seq<Row>, key: Key): (p: nat)
    ensures p <= |rows| && (p < |rows| ==> rows[p].key == key)
    ensures forall i :: 0 <= i < p ==> rows[i].key != key
  {
    if rows == [] || rows[0].key == key then 0 else 1 + Find(rows[1..], key)
  }

  /** The table after a charge: the row with its key grows, or a new row is appended. */
  function Recorded(rows: seq<Row>, user: string, day: int, c: Charge, cost: real): seq<Row> {
    var p := Find(rows, KeyOf(user, day, c));
    if p < |rows| then rows[p := Added(rows[p], c, cost)]
    else rows + [Row(KeyOf(user, day, c), 1, c.tokensIn, c.tokensOut, cost)]
  }

  /** The row of the key has grown by one call and its use, or is new and holds just that; the others are as before. */
  ghost predicate Grown(before: seq<Row>, after: seq<Row>, key: Key, c: Charge, cost: real) {
    if exists p :: 0 <= p < |before| && before[p].key == key then
      && |after| == |before|
      && forall p :: 0 <= p < |before| ==>
           after[p] == if before[p].key != key then before[p]
                       else Row(key, before[p].calls + 1, before[p].tokensIn + c.tokensIn,
                                before[p].tokensOut + c.tokensOut, before[p].cost + cost)
    else after == before + [Row(key, 1, c.tokensIn, c.tokensOut, cost)]
  }

  lemma RecordedGrows(rows: seq<Row>, user: string, day: int, c: Charge, cost: real)
    requires OneRowPerKey(rows)
    ensures Grown(rows, Recorded(rows, user, day, c, cost), Key(user, day, c.provider, c.model), c, cost)
  {
    var p := Find(rows, KeyOf(user, day, c));
    if p < |rows| {
      assert rows[p].key == Key(user, day, c.provider, c.model);
    }
  }

  class LlmSpendTracker {
    var rows: seq<Row>

    /** Without a user there is no budget. */
    method CheckLlmBudget(user: Option<string>, day: int, settings: Option<Settings>) returns (allowed: bool)
      ensures allowed <==> user.None? || user.value == "" || MayCall(rows, user.value, day, settings)
      ensures allowed <==> user.None? || user.value == "" || Below(settings, Spend(rows, user.value, day))
    {
      if user.None? || user.value == "" {
        return true;
      }
      MayCallMeans(rows, user.value, day, settings);
      hide Below;
      var total := 0.0;
      for i := 0 to |rows|
        invariant total + Spend(rows[i..], user.value, day) == Spend(rows, user.value, day)
      {
        if rows[i].key.user == user.value && rows[i].key.day == day {
          total := total + rows[i].cost;
        }
      }
      var cents := UserBudgetCents(settings);
      if cents.None? {
        return true;
      }
      var own := cents.value as real / 100.0;
      allowed := total < if own <= DAILY_LLM_BUDGET then own else DAILY_LLM_BUDGET;
    }

    method RecordLlmSpend(user: Option<string>, day: int, c: Charge, cost: real)
      requires OneRowPerKey(rows)
      modifies this
      ensures rows == if user.None? || user.value == "" then old(rows) else Recorded(old(rows), user.value, day, c, cost)
      ensures OneRowPerKey(rows)
      ensures user.None? || user.value == "" ==> rows == old(rows)
      ensures user.Some? && user.value != "" ==>
                Grown(old(rows), rows, Key(user.value, day, c.provider, c.model), c, cost)
    {
      if user.Some? {
        RecordedGrows(rows, user.value, day, c, cost);
      }
      hide Grown;
      if user.None? || user.value == "" {
        return;
      }
      var i := 0;
      while i < |rows| && rows[i].key != KeyOf(user.value, day, c)
        invariant i <= |rows|
        invariant forall j :: 0 <= j < i ==> rows[j].key != KeyOf(user.value, day, c)
      {
        i := i + 1;
      }
      assert i == Find(rows, KeyOf(user.value, day, c));
      if i < |rows| {
        rows := rows[i := Added(rows[i], c, cost)];
      } else {
        rows := rows + [Row(KeyOf(user.value, day, c), 1, c.tokensIn, c.tokensOut, cost)];
      }
    }
  }

  lemma {:induction false} SpendAfterUpdate(rows: seq<Row>, p: nat, row: Row, user: string, day: int)
    requires p < |rows|
    ensures Spend(rows[p := row], user, day)
         == Spend(rows, user, day) - Counted(rows[p], user, day) + Counted(row, user, day)
  {
    if p == 0 {
      assert rows[p := row][1..] == rows[1..];
    } else {
      assert rows[p := row][1..] == rows[1..][p - 1 := row];
      SpendAfterUpdate(rows[1..], p - 1, row, user, day);
    }
  }

  lemma {:induction false} SpendAfterAppend(rows: seq<Row>, row: Row, user: string, day: int)
    ensures Spend(rows + [row], user, day) == Spend(rows, user, day) + Counted(row, user, day)
  {
    if rows == [] {
      assert rows + [row] == [row];
    } else {
      assert (rows + [row])[1..] == rows[1..] + [row];
      SpendAfterAppend(rows[1..], row, user, day);
    }
  }

  /** A charge adds its cost to the spend of its user and day, and to no other. */
  lemma {:induction false} RecordedAdds(rows: seq<Row>, user: string, day: int, c: Charge, cost: real, u: string, d: int)
    ensures Spend(Recorded(rows, user, day, c, cost), u, d)
         == Spend(rows, u, d) + if user == u && day == d then cost else 0.0
  {
    var p := Find(rows, KeyOf(user, day, c));
    if p < |rows| {
      SpendAfterUpdate(rows, p, Added(rows[p], c, cost), u, d);
    } else {
      SpendAfterAppend(rows, Row(KeyOf(user, day, c), 1, c.tokensIn, c.tokensOut, cost), u, d);
    }
  }

  // --- Runs of calls, one after another ---

  /**
   A call: the check, and then, if it passes, the charges of the requests that succeed. Classifying one email
   charges at most twice, for the request and for an accepted correction; a batch charges for each request.
   */
  datatype Call = Call(user: Option<string>, day: int, charges: seq<Charge>)

  /** What stays the same during a run. */
  datatype Setup = Setup(prices: Pricing, settings: string -> Option<Settings>)

  datatype Entry = Entry(key: Key, charge: Charge, cost: real)

  /** The tracker table, and everything recorded in it so far. */
  datatype Ledger = Ledger(rows: seq<Row>, log: History<Entry>)

  function Charged(s: Setup, ledger: Ledger, user: string, day: int, charges: seq<Charge>): Ledger
    decreases |charges|
  {
    if charges == [] then ledger
    else
      var c := charges[0];
      var cost := ComputeCost(s.prices, c);
      var next := Ledger(
        Recorded(ledger.rows, user, day, c, cost), Then(ledger.log, Entry(KeyOf(user, day, c), c, cost)));
      Charged(s, next, user, day, charges[1..])
  }

  function Step(s: Setup, ledger: Ledger, call: Call): Ledger {
    if call.user.None? || call.user.value == "" then ledger
    else if !MayCall(ledger.rows, call.user.value, call.day, s.settings(call.user.value)) then ledger
    else Charged(s, ledger, call.user.value, call.day, call.charges)
  }

  function After(s: Setup, run: History<Call>): Ledger {
    if run.Empty? then Ledger([], Empty) else Step(s, After(s, run.past), run.last)
  }

  // --- The tracker rows are the sums of what was recorded ---

  function Calls(log: History<Entry>, key: Key): nat {
    if log.Empty? then 0 else Calls(log.past, key) + if log.last.key == key then 1 else 0
  }

  function TokensIn(log: History<Entry>, key: Key): nat {
    if log.Empty? then 0 else TokensIn(log.past, key) + if log.last.key == key then log.last.charge.tokensIn else 0
  }

  function TokensOut(log: History<Entry>, key: Key): nat {
    if log.Empty? then 0 else TokensOut(log.past, key) + if log.last.key == key then log.last.charge.tokensOut else 0
  }

  function Cost(log: History<Entry>, key: Key): real {
    if log.Empty? then 0.0 else Cost(log.past, key) + if log.last.key == key then log.last.cost else 0.0
  }

  /** The key's row, which exists if and only if something was recorded for it, holds the sums. */
  ghost predicate RowIsSum(ledger: Ledger, key: Key) {
    var p := Find(ledger.rows, key);
    && (p < |ledger.rows| <==> Calls(ledger.log, key) > 0)
    && (p < |ledger.rows| ==>
          ledger.rows[p] == Row(key, Calls(ledger.log, key), TokensIn(ledger.log, key), TokensOut(ledger.log, key),
                                Cost(ledger.log, key)))
  }

  lemma FindAfterRecord(rows: seq<Row>, user: string, day: int, c: Charge, cost: real, key: Key)
    ensures var after := Recorded(rows, user, day, c, cost);
            var p := Find(rows, key);
            if key == KeyOf(user, day, c) then Find(after, key) == p && p < |after|
            else if p < |rows| then Find(after, key) == p && after[p] == rows[p]
            else Find(after, key) == |after|
  {
    var after := Recorded(rows, user, day, c, cost);
    var p := Find(rows, key);
    var q := Find(after, key);
    assert forall i :: 0 <= i < |rows| ==> after[i].key == rows[i].key;
    if p < |rows| || key == KeyOf(user, day, c) {
      assert after[p].key == key;
      assert q == p;
    } else {
      assert forall i :: 0 <= i < |after| ==> after[i].key != key;
    }
  }

  lemma {:induction false} ChargedKeepsSums(
      s: Setup, ledger: Ledger, user: string, day: int, charges: seq<Charge>, key: Key)
    requires RowIsSum(ledger, key) && (Calls(ledger.log, key) == 0 ==> Unused(ledger.log, key))
    ensures var after := Charged(s, ledger, user, day, charges);
            RowIsSum(after, key) && (Calls(after.log, key) == 0 ==> Unused(after.log, key))
    decreases |charges|
  {
    if charges != [] {
      var c := charges[0];
      var cost := ComputeCost(s.prices, c);
      FindAfterRecord(ledger.rows, user, day, c, cost, key);
      var next := Ledger(
        Recorded(ledger.rows, user, day, c, cost), Then(ledger.log, Entry(KeyOf(user, day, c), c, cost)));
      ChargedKeepsSums(s, next, user, day, charges[1..], key);
    }
  }

  ghost predicate Unused(log: History<Entry>, key: Key) {
    TokensIn(log, key) == 0 && TokensOut(log, key) == 0 && Cost(log, key) == 0.0
  }

  /** Over every run, each tracker row equals the sums of the charges recorded under its key. */
  lemma {:induction false} RowsAreSums(s: Setup, run: History<Call>, key: Key)
    ensures RowIsSum(After(s, run), key)
    ensures Calls(After(s, run).log, key) == 0 ==> Unused(After(s, run).log, key)
  {
    if run.Then? {
      RowsAreSums(s, run.past, key);
      if run.last.user.Some? {
        ChargedKeepsSums(s, After(s, run.past), run.last.user.value, run.last.day, run.last.charges, key);
      }
    }
  }

  // --- What a call costs, and when it may be made ---

  /** The model's own price, or else the one for any model of the provider. */
  ghost predicate PricedAt(prices: Pricing, c: Charge, price: Price) {
    || ((c.provider, c.model) in prices && prices[(c.provider, c.model)] == price)
    || ((c.provider, c.model) !in prices && (c.provider, "*") in prices && prices[(c.provider, "*")] == price)
  }

  /** A ten-thousandth of a dollar at least, and otherwise the price per million tokens. */
  lemma {:induction false} CostMeans(prices: Pricing, c: Charge, price: Price)
    ensures (forall p :: !PricedAt(prices, c, p)) ==> ComputeCost(prices, c) == 0.0001
    ensures PricedAt(prices, c, price) ==>
              var worth := c.tokensIn as real * price.input + c.tokensOut as real * price.output;
              ComputeCost(prices, c) * 1000000.0 == if worth >= 100.0 then worth else 100.0
  {
    if (c.provider, c.model) in prices {
      assert PricedAt(prices, c, prices[(c.provider, c.model)]);
    } else if (c.provider, "*") in prices {
      assert PricedAt(prices, c, prices[(c.provider, "*")]);
    }
  }

  /** What was recorded for the user on the day, in the order of the log. */
  function Spent(log: History<Entry>, user: string, day: int): real {
    if log.Empty? then 0.0
    else Spent(log.past, user, day) + if log.last.key.user == user && log.last.key.day == day then log.last.cost else 0.0
  }

  lemma {:induction false} ChargedSpends(
      s: Setup, ledger: Ledger, user: string, day: int, charges: seq<Charge>, u: string, d: int)
    requires Spend(ledger.rows, u, d) == Spent(ledger.log, u, d)
    ensures var after := Charged(s, ledger, user, day, charges); Spend(after.rows, u, d) == Spent(after.log, u, d)
    decreases |charges|
  {
    if charges != [] {
      var c := charges[0];
      var cost := ComputeCost(s.prices, c);
      RecordedAdds(ledger.rows, user, day, c, cost, u, d);
      var next := Ledger(
        Recorded(ledger.rows, user, day, c, cost), Then(ledger.log, Entry(KeyOf(user, day, c), c, cost)));
      ChargedSpends(s, next, user, day, charges[1..], u, d);
    }
  }

  lemma {:induction false} SpendIsSpent(s: Setup, run: History<Call>, u: string, d: int)
    ensures Spend(After(s, run).rows, u, d) == Spent(After(s, run).log, u, d)
  {
    if run.Then? {
      SpendIsSpent(s, run.past, u, d);
      if run.last.user.Some? {
        ChargedSpends(s, After(s, run.past), run.last.user.value, run.last.day, run.last.charges, u, d);
      }
    }
  }

  /**
   The budget in cents: what the user has set, else ten for the tier "pro" and one for all others and for users
   without settings; ten dollars at most. The tier "unlimited" has no budget.
   */
  ghost predicate CentsADay(settings: Option<Settings>, cents: int) {
    && (settings.Some? ==> settings.value.tier != "unlimited")
    && var own := if settings.Some? && settings.value.cents.Some? then settings.value.cents.value
                  else if settings.Some? && settings.value.tier == "pro" then 10 else 1;
       cents == if own < 1000 then own else 1000
  }

  /** The sum is below the budget, or there is none. */
  ghost predicate Below(settings: Option<Settings>, spent: real) {
    forall cents :: CentsADay(settings, cents) ==> 100.0 * spent < cents as real
  }

  lemma MayCallMeans(rows: seq<Row>, user: string, day: int, settings: Option<Settings>)
    ensures MayCall(rows, user, day, settings) <==> Below(settings, Spend(rows, user, day))
  {
    var own := if settings.Some? && settings.value.cents.Some? then settings.value.cents.value
               else if settings.Some? && settings.value.tier == "pro" then 10 else 1;
    var cents := if own < 1000 then own else 1000;
    if settings.None? || settings.value.tier != "unlimited" {
      assert CentsADay(settings, cents);
    }
  }

  /** Over every run, a user may call if and only if what was recorded for them on the day is below their budget. */
  lemma {:induction false} AllowedIff(s: Setup, run: History<Call>, u: string, d: int)
    ensures MayCall(After(s, run).rows, u, d, s.settings(u)) <==> Below(s.settings(u), Spent(After(s, run).log, u, d))
  {
    MayCallMeans(After(s, run).rows, u, d, s.settings(u));
    SpendIsSpent(s, run, u, d);
    hide After, Spend, Spent, MayCall;
  }

  // --- How far the spend can get ---

  function CostOf(s: Setup, charges: seq<Charge>): (cost: real)
    ensures cost >= |charges| as real * ESTIMATE_FALLBACK
  {
    if charges == [] then 0.0 else ComputeCost(s.prices, charges[0]) + CostOf(s, charges[1..])
  }

  lemma {:induction false} ChargedSpend(
      s: Setup, ledger: Ledger, user: string, day: int, charges: seq<Charge>, u: string, d: int)
    ensures Spend(Charged(s, ledger, user, day, charges).rows, u, d)
         == Spend(ledger.rows, u, d) + if user == u && day == d then CostOf(s, charges) else 0.0
    decreases |charges|
  {
    if charges != [] {
      var c := charges[0];
      var cost := ComputeCost(s.prices, c);
      RecordedAdds(ledger.rows, user, day, c, cost, u, d);
      var next := Ledger(
        Recorded(ledger.rows, user, day, c, cost), Then(ledger.log, Entry(KeyOf(user, day, c), c, cost)));
      ChargedSpend(s, next, user, day, charges[1..], u, d);
    }
  }

  function SpendAfter(s: Setup, run: History<Call>, u: string, d: int): real {
    Spend(After(s, run).rows, u, d)
  }

  /** The last call of the run is one of the user's on that day, and passes the check. */
  predicate Admitted(s: Setup, run: History<Call>, u: string, d: int) {
    && run.Then? && run.last.user == Some(u) && u != "" && run.last.day == d
    && MayCall(After(s, run.past).rows, u, d, s.settings(u))
  }

  lemma SpendStep(s: Setup, run: History<Call>, u: string, d: int)
    requires run.Then?
    ensures SpendAfter(s, run, u, d)
         == SpendAfter(s, run.past, u, d) + if Admitted(s, run, u, d) then CostOf(s, run.last.charges) else 0.0
  {
    if run.last.user.Some? {
      ChargedSpend(s, After(s, run.past), run.last.user.value, run.last.day, run.last.charges, u, d);
    }
  }

  /** The cost of the user's last call that charged anything on that day. */
  function LastCost(s: Setup, run: History<Call>, u: string, d: int): real {
    if run.Empty? then 0.0
    else if Admitted(s, run, u, d) && run.last.charges != [] then CostOf(s, run.last.charges)
    else LastCost(s, run.past, u, d)
  }

  /** How many charges the user's calls of that day recorded. */
  function Records(s: Setup, run: History<Call>, u: string, d: int): nat {
    if run.Empty? then 0
    else Records(s, run.past, u, d) + if Admitted(s, run, u, d) then |run.last.charges| else 0
  }

  /** The check only lets a call start below the budget, so the spend ends less than one call above it. */
  lemma {:induction false} SpendBelowBudgetPlusOneCall(s: Setup, run: History<Call>, u: string, d: int)
    requires EffectiveBudget(s.settings(u)).Some?
    ensures var budget := EffectiveBudget(s.settings(u)).value;
            if Records(s, run, u, d) == 0 then SpendAfter(s, run, u, d) == 0.0
            else SpendAfter(s, run, u, d) < budget + LastCost(s, run, u, d)
  {
    if run.Then? {
      SpendBelowBudgetPlusOneCall(s, run.past, u, d);
      SpendStep(s, run, u, d);
      hide After, Spend;
    }
  }

  ghost predicate AtMostTwoCharges(run: History<Call>) {
    run.Then? ==> AtMostTwoCharges(run.past) && |run.last.charges| <= 2
  }

  function Ceiling(x: real): (n: int)
    ensures x <= n as real < x + 1.0
  {
    -((-x).Floor)
  }

  lemma {:induction false} RecordsCost(s: Setup, run: History<Call>, u: string, d: int)
    ensures SpendAfter(s, run, u, d) >= Records(s, run, u, d) as real * ESTIMATE_FALLBACK
  {
    if run.Then? {
      RecordsCost(s, run.past, u, d);
      SpendStep(s, run, u, d);
      hide After, Spend;
    }
  }

  /** Classifying email by email, a user with budget B gets at most B / 0.0001 (rounded up) records, plus one. */
  lemma {:induction false} RecordsBounded(s: Setup, run: History<Call>, u: string, d: int)
    requires EffectiveBudget(s.settings(u)).Some? && AtMostTwoCharges(run)
    ensures var budget := EffectiveBudget(s.settings(u)).value;
            if budget <= 0.0 then Records(s, run, u, d) == 0
            else Records(s, run, u, d) <= Ceiling(budget / ESTIMATE_FALLBACK) + 1
  {
    if run.Then? {
      RecordsBounded(s, run.past, u, d);
      RecordsCost(s, run.past, u, d);
      hide After, Spend;
      if Admitted(s, run, u, d) {
        var budget := EffectiveBudget(s.settings(u)).value;
        var before := Records(s, run.past, u, d);
        assert SpendAfter(s, run.past, u, d) < budget;
        assert (before as real) < budget / ESTIMATE_FALLBACK;
      }
    }
  }

  /** The part of a run that concerns one user and day. */
  function Only(run: History<Call>, u: string, d: int): History<Call> {
    if run.Empty? then Empty
    else Maybe(Only(run.past, u, d), run.last.user == Some(u) && run.last.day == d, run.last)
  }

  /**
   The budget is kept per user and day, also its global part: what others do on the day, or the user on other
   days, changes neither the spend nor the decisions.
   */
  lemma {:induction false} BudgetsAreIndependent(s: Setup, run: History<Call>, u: string, d: int)
    ensures SpendAfter(s, run, u, d) == SpendAfter(s, Only(run, u, d), u, d)
    ensures Records(s, run, u, d) == Records(s, Only(run, u, d), u, d)
    ensures run.Then? && run.last.user == Some(u) && run.last.day == d ==>
              Admitted(s, run, u, d) == Admitted(s, Only(run, u, d), u, d)
  {
    if run.Then? {
      BudgetsAreIndependent(s, run.past, u, d);
      SpendStep(s, run, u, d);
      if run.last.user == Some(u) && run.last.day == d {
        SpendStep(s, Only(run, u, d), u, d);
      }
      hide After, Spend;
    }
  }

  // --- The bound on the records is attained ---

  const CHEAP := Charge("provider", "model", 0, 0)

  function Cheap(n: nat): History<Call> {
    if n == 0 then Empty else Then(Cheap(n - 1), Call(Some("u"), 0, [CHEAP]))
  }

  lemma {:induction false} CheapCalls(s: Setup, n: nat, budget: real)
    requires s.prices == map[] && EffectiveBudget(s.settings("u")) == Some(budget)
    requires n == 0 || (n - 1) as real * ESTIMATE_FALLBACK < budget
    ensures SpendAfter(s, Cheap(n), "u", 0) == n as real * ESTIMATE_FALLBACK
    ensures Records(s, Cheap(n), "u", 0) == n && AtMostTwoCharges(Cheap(n))
  {
    if n > 0 {
      CheapCalls(s, n - 1, budget);
      SpendStep(s, Cheap(n), "u", 0);
      assert CostOf(s, [CHEAP]) == ESTIMATE_FALLBACK;
    }
  }

  /** For every budget in whole cents there are runs that reach the bound. */
  lemma {:induction false} RecordsBoundAttained(cents: int) returns (s: Setup, run: History<Call>)
    requires 1 <= cents <= 1000
    ensures EffectiveBudget(s.settings("u")) == Some(cents as real / 100.0) && AtMostTwoCharges(run)
    ensures Records(s, run, "u", 0) == Ceiling(cents as real / 100.0 / ESTIMATE_FALLBACK) + 1
  {
    s := Setup(map[], (user: string) => Some(Settings(Some(cents), "pro")));
    var n := 100 * cents;
    var budget := cents as real / 100.0;
    assert n as real * ESTIMATE_FALLBACK == budget;
    CheapCalls(s, n - 1, budget);
    run := Then(Cheap(n - 1), Call(Some("u"), 0, [CHEAP, CHEAP]));
    assert Admitted(s, run, "u", 0);
    assert budget / ESTIMATE_FALLBACK == n as real;
  }
}
