/**
 The per-model limiter in front of the Groq API. Callers and a reset thread share one lock; a trace
 is any interleaving of their lock sections. The reset thread reads the clock before it takes the
 lock, so a reset carries the time it read and the later time at which it took effect.
 */
module GroqLimiter {
  import opened Common

  datatype ModelLimits = ModelLimits(rpm: nat, tpm: nat, rpd: nat, tpd: nat)
  type LimitTable = map<string, ModelLimits>

  /** Seconds that the reset thread sleeps between two resets. */
  const RESET_PAUSE := 30.0

  const UNLISTED := ModelLimits(30, 6000, 0, 0)

  function LimitsOf(table: LimitTable, model: string): ModelLimits {
    if model in table then table[model] else UNLISTED
  }

  datatype Bucket = Bucket(limits: ModelLimits, rpmUsed: nat, tpmUsed: nat, rpdUsed: nat, tpdUsed: nat)
  type Buckets = map<string, Bucket>

  datatype Limiter = Limiter(buckets: Buckets, minuteStart: real, dayStart: real)

  function BucketOf(table: LimitTable, buckets: Buckets, model: string): Bucket {
    if model in buckets then buckets[model] else Bucket(LimitsOf(table, model), 0, 0, 0, 0)
  }

  /** The test made under the lock. A daily limit of zero means that there is none. */
  predicate HasRoom(b: Bucket, tokens: nat) {
    && b.limits.rpm - b.rpmUsed > 0
    && b.limits.tpm - b.tpmUsed >= tokens
    && (b.limits.rpd == 0 || b.rpdUsed < b.limits.rpd)
    && (b.limits.tpd == 0 || b.tpdUsed < b.limits.tpd)
  }

  function Charged(b: Bucket, tokens: nat): Bucket {
    Bucket(b.limits, b.rpmUsed + 1, b.tpmUsed + tokens,
           if b.limits.rpd > 0 then b.rpdUsed + 1 else b.rpdUsed,
           if b.limits.tpd > 0 then b.tpdUsed + tokens else b.tpdUsed)
  }

  function MinuteCleared(b: Bucket): Bucket {
    b.(rpmUsed := 0, tpmUsed := 0)
  }

  function DayCleared(b: Bucket): Bucket {
    b.(rpdUsed := 0, tpdUsed := 0)
  }

  /** One lock section, or one unlocked look at a bucket after a timeout. */
  datatype Step =
    | Attempt(model: string, tokens: nat, at: real)
    | Look(model: string, at: real)
    | Reset(read: real, at: real)

  function Refreshed(b: Bucket, minute: bool, day: bool): Bucket {
    var c := if minute then MinuteCleared(b) else b;
    if day then DayCleared(c) else c
  }

  function AfterReset(l: Limiter, now: real): Limiter {
    var minute := now - l.minuteStart >= 60.0;
    var day := now - l.dayStart >= 86400.0;
    Limiter(map model | model in l.buckets :: Refreshed(l.buckets[model], minute, day),
            if minute then now else l.minuteStart,
            if day then now else l.dayStart)
  }

  predicate Granted(table: LimitTable, l: Limiter, s: Step) {
    s.Attempt? && HasRoom(BucketOf(table, l.buckets, s.model), s.tokens)
  }

  function Next(table: LimitTable, l: Limiter, s: Step): Limiter {
    match s
    case Attempt(model, tokens, _) =>
      var b := BucketOf(table, l.buckets, model);
      l.(buckets := l.buckets[model := if HasRoom(b, tokens) then Charged(b, tokens) else b])
    case Look(model, _) => l.(buckets := l.buckets[model := BucketOf(table, l.buckets, model)])
    case Reset(read, _) => AfterReset(l, read)
  }

  class GroqRateLimiter {
    const table: LimitTable
    var buckets: Buckets
    var minuteStart: real
    var dayStart: real

    constructor (table: LimitTable, minuteStart: real, dayStart: real)
      ensures this.table == table && State() == Limiter(map[], minuteStart, dayStart)
    {
      this.table, buckets := table, map[];
      this.minuteStart, this.dayStart := minuteStart, dayStart;
    }

    function State(): Limiter
      reads this
    {
      Limiter(buckets, minuteStart, dayStart)
    }

    method GetBucket(model: string) returns (b: Bucket)
      modifies this`buckets
      ensures b == old(BucketOf(table, buckets, model)) && buckets == old(buckets)[model := b]
    {
      if model !in buckets {
        buckets := buckets[model := Bucket(LimitsOf(table, model), 0, 0, 0, 0)];
      }
      b := buckets[model];
    }

    /** The lock section of one round of `acquire`. */
    method TryAcquire(model: string, tokens: nat, ghost at: real) returns (granted: bool)
      modifies this`buckets
      ensures granted == old(Granted(table, State(), Attempt(model, tokens, at)))
      ensures State() == old(Next(table, State(), Attempt(model, tokens, at)))
    {
      var b := GetBucket(model);
      var limits := b.limits;
      var rpmAvailable := limits.rpm - b.rpmUsed;
      var tpmAvailable := limits.tpm - b.tpmUsed;
      var rpdOk := limits.rpd == 0 || b.rpdUsed < limits.rpd;
      var tpdOk := limits.tpd == 0 || b.tpdUsed < limits.tpd;
      if rpmAvailable > 0 && tpmAvailable >= tokens && rpdOk && tpdOk {
        b := b.(rpmUsed := b.rpmUsed + 1, tpmUsed := b.tpmUsed + tokens);
        if limits.rpd > 0 {
          b := b.(rpdUsed := b.rpdUsed + 1);
        }
        if limits.tpd > 0 {
          b := b.(tpdUsed := b.tpdUsed + tokens);
        }
        buckets := buckets[model := b];
        return true;
      }
      return false;
    }

    /** The reset thread's lock section, with the clock reading taken before the lock. */
    method MaybeResetBuckets(now: real, ghost at: real)
      modifies this
      ensures State() == old(Next(table, State(), Reset(now, at)))
    {
      if now - minuteStart >= 60.0 {
        var models := buckets.Keys;
        while models != {}
          invariant models <= buckets.Keys == old(buckets).Keys
          invariant forall model :: model in buckets ==>
                      buckets[model] == if model in models then old(buckets)[model] else MinuteCleared(old(buckets)[model])
          modifies this`buckets
          decreases models
        {
          var model :| model in models;
          buckets := buckets[model := buckets[model].(rpmUsed := 0, tpmUsed := 0)];
          models := models - {model};
        }
        minuteStart := now;
      }
      ghost var refilled := buckets;
      if now - dayStart >= 86400.0 {
        var models := buckets.Keys;
        while models != {}
          invariant models <= buckets.Keys == refilled.Keys
          invariant forall model :: model in buckets ==>
                      buckets[model] == if model in models then refilled[model] else DayCleared(refilled[model])
          modifies this`buckets
          decreases models
        {
          var model :| model in models;
          buckets := buckets[model := buckets[model].(rpdUsed := 0, tpdUsed := 0)];
          models := models - {model};
        }
        dayStart := now;
      }
      ghost var want := AfterReset(old(State()), now).buckets;
      assert buckets.Keys == want.Keys;
      assert forall model :: model in want ==> buckets[model] == want[model];
    }
  }

  /** A limiter's life: its table, the two clock readings of its constructor, and the steps since. */
  datatype Run = Run(table: LimitTable, minuteStart: real, dayStart: real, steps: History<Step>)
  {
    function Past(): Run
      requires steps.Then?
    {
      this.(steps := steps.past)
    }

    function State(): Limiter
      decreases steps
    {
      if steps.Empty? then Limiter(map[], minuteStart, dayStart) else Next(table, Past().State(), steps.last)
    }

    /** The latest time seen so far. */
    function Now(): real {
      if steps.Empty? then if minuteStart >= dayStart then minuteStart else dayStart else steps.last.at
    }

    /** Time does not run backwards, and a reset takes effect no earlier than the reading it uses. */
    ghost predicate InOrder()
      decreases steps
    {
      steps.Then? ==>
        && Past().InOrder()
        && Past().Now() <= steps.last.at
        && (steps.last.Reset? ==> steps.last.read <= steps.last.at)
    }

    function GrantTimes(model: string): History<real>
      decreases steps
    {
      if steps.Empty? then Empty
      else Maybe(Past().GrantTimes(model), Granted(table, Past().State(), steps.last) && steps.last.model == model, steps.last.at)
    }

    /** The resets that cleared the minute counters, by the time they took effect. */
    function MinuteResets(): History<real>
      decreases steps
    {
      if steps.Empty? then Empty
      else Maybe(Past().MinuteResets(),
                 steps.last.Reset? && steps.last.read - Past().State().minuteStart >= 60.0, steps.last.at)
    }

    /** The resets that cleared the day counters, by the time they took effect. */
    function DayResets(): History<real>
      decreases steps
    {
      if steps.Empty? then Empty
      else Maybe(Past().DayResets(),
                 steps.last.Reset? && steps.last.read - Past().State().dayStart >= 86400.0, steps.last.at)
    }

    /** No reset waits longer than `delay` for the lock. */
    ghost predicate Prompt(delay: real)
      decreases steps
    {
      steps.Then? ==> Past().Prompt(delay) && (steps.last.Reset? ==> steps.last.at - steps.last.read <= delay)
    }

    /** When the latest reset, effective or not, held the lock. */
    function LatestReset(): real
      decreases steps
    {
      if steps.Empty? then minuteStart
      else if steps.last.Reset? then steps.last.at
      else Past().LatestReset()
    }

    /** The clock reading of the latest reset that cleared the minute; such a reset reads a minute more than the last. */
    function MinuteReading(): real
      decreases steps
    {
      if steps.Empty? then minuteStart
      else if steps.last.Reset? && steps.last.read >= Past().MinuteReading() + 60.0 then steps.last.read
      else Past().MinuteReading()
    }

    function DayReading(): real
      decreases steps
    {
      if steps.Empty? then dayStart
      else if steps.last.Reset? && steps.last.read >= Past().DayReading() + 86400.0 then steps.last.read
      else Past().DayReading()
    }

    /** The tokens of the model's grants since the latest reset that cleared the minute. */
    function ThisMinute(model: string): History<nat>
      decreases steps
    {
      if steps.Empty? || (steps.last.Reset? && steps.last.read >= Past().MinuteReading() + 60.0) then Empty
      else
        Maybe(Past().ThisMinute(model), Granted(table, Past().State(), steps.last) && steps.last.model == model,
              if steps.last.Attempt? then steps.last.tokens else 0)
    }

    /** And since the latest one that cleared the day. */
    function Today(model: string): History<nat>
      decreases steps
    {
      if steps.Empty? || (steps.last.Reset? && steps.last.read >= Past().DayReading() + 86400.0) then Empty
      else
        Maybe(Past().Today(model), Granted(table, Past().State(), steps.last) && steps.last.model == model,
              if steps.last.Attempt? then steps.last.tokens else 0)
    }

    /** All resets, effective or not. */
    function Resets(): History<real>
      decreases steps
    {
      if steps.Empty? then Empty else Maybe(Past().Resets(), steps.last.Reset?, steps.last.at)
    }

    /** Resets come from one thread: each reads the clock after the one before has let go of the lock. */
    ghost predicate OneResetThread()
      decreases steps
    {
      steps.Then? ==> Past().OneResetThread() && (steps.last.Reset? ==> Past().LatestReset() <= steps.last.read)
    }

    /** The one reset thread sleeps before each reading. */
    ghost predicate Sleeping()
      decreases steps
    {
      steps.Then? ==>
        Past().Sleeping() && (steps.last.Reset? ==> Past().LatestReset() + RESET_PAUSE <= steps.last.read)
    }
  }

  /** The promise each bucket keeps. */
  ghost predicate WithinLimits(b: Bucket) {
    && b.rpmUsed <= b.limits.rpm
    && b.tpmUsed <= b.limits.tpm
    && (if b.limits.rpd > 0 then b.rpdUsed <= b.limits.rpd else b.rpdUsed == 0)
    && (if b.limits.tpd > 0 then b.tpdUsed < b.limits.tpd + b.limits.tpm else b.tpdUsed == 0)
  }

  /**
   Under every interleaving, each model's minute counters and daily requests stay within its
   limits, and its daily tokens overshoot by less than one minute's allowance.
   */
  lemma {:induction false} AlwaysWithinLimits(r: Run, model: string)
    ensures var b := BucketOf(r.table, r.State().buckets, model);
            WithinLimits(b) && b.limits == LimitsOf(r.table, model)
    decreases r.steps
  {
    if r.steps.Then? {
      AlwaysWithinLimits(r.Past(), model);
    }
  }

  function Sum(tokens: History<nat>): nat {
    if tokens.Empty? then 0 else Sum(tokens.past) + tokens.last
  }

  /** The counters of a model are what the grants since the resets add up to. */
  lemma {:induction false} CountersAreGrants(r: Run, model: string)
    ensures r.State().minuteStart == r.MinuteReading() && r.State().dayStart == r.DayReading()
    ensures var b := BucketOf(r.table, r.State().buckets, model);
            && b.limits == LimitsOf(r.table, model)
            && b.rpmUsed == r.ThisMinute(model).Length() && b.tpmUsed == Sum(r.ThisMinute(model))
            && b.rpdUsed == (if b.limits.rpd > 0 then r.Today(model).Length() else 0)
            && b.tpdUsed == (if b.limits.tpd > 0 then Sum(r.Today(model)) else 0)
    decreases r.steps
  {
    if r.steps.Then? {
      CountersAreGrants(r.Past(), model);
      StepCounts(r.table, r.Past().State(), r.steps.last, model);
      hide Next, BucketOf, LimitsOf, Granted;
    }
  }

  lemma StepCounts(table: LimitTable, l: Limiter, s: Step, model: string)
    ensures var b, c, after := BucketOf(table, l.buckets, model), BucketOf(table, Next(table, l, s).buckets, model),
                               Next(table, l, s);
            var minute, day := s.Reset? && s.read >= l.minuteStart + 60.0, s.Reset? && s.read >= l.dayStart + 86400.0;
            var granted := Granted(table, l, s) && s.model == model;
            && (granted ==> s.Attempt?) && c.limits == b.limits
            && after.minuteStart == (if minute then s.read else l.minuteStart)
            && after.dayStart == (if day then s.read else l.dayStart)
            && c.rpmUsed == (if minute then 0 else b.rpmUsed + if granted then 1 else 0)
            && c.tpmUsed == (if minute then 0 else b.tpmUsed + if granted then s.tokens else 0)
            && c.rpdUsed == (if day then 0 else b.rpdUsed + if granted && b.limits.rpd > 0 then 1 else 0)
            && c.tpdUsed == (if day then 0 else b.tpdUsed + if granted && b.limits.tpd > 0 then s.tokens else 0)
  {
  }

  /**
   Over every run, a request is granted if and only if fewer than rpm were granted to the model since the latest
   reset that cleared the minute, its estimate fits into what their tokens leave of tpm, and fewer requests than rpd
   and fewer tokens than tpd were granted since the latest one that cleared the day, where there are such limits.
   */
  lemma {:induction false} GrantedIff(r: Run, model: string, tokens: nat, at: real)
    ensures var limits := if model in r.table then r.table[model] else ModelLimits(30, 6000, 0, 0);
            Granted(r.table, r.State(), Attempt(model, tokens, at)) <==>
            && r.ThisMinute(model).Length() < limits.rpm
            && Sum(r.ThisMinute(model)) + tokens <= limits.tpm
            && (limits.rpd == 0 || r.Today(model).Length() < limits.rpd)
            && (limits.tpd == 0 || Sum(r.Today(model)) < limits.tpd)
  {
    CountersAreGrants(r, model);
  }

  lemma {:induction false} GrantsNoLater(r: Run, model: string)
    requires r.InOrder()
    ensures NoLater(r.GrantTimes(model), r.Now())
    ensures NoLater(r.MinuteResets(), r.Now()) && NoLater(r.DayResets(), r.Now())
    decreases r.steps
  {
    if r.steps.Then? {
      GrantsNoLater(r.Past(), model);
      NoLaterStill(r.Past().GrantTimes(model), r.Past().Now(), r.Now());
      NoLaterStill(r.Past().MinuteResets(), r.Past().Now(), r.Now());
      NoLaterStill(r.Past().DayResets(), r.Past().Now(), r.Now());
    }
  }

  /** What one step does to a model's counters, told apart by the events they are bounded by. */
  lemma CounterStep(table: LimitTable, l: Limiter, s: Step, model: string)
    ensures var b, c := BucketOf(table, l.buckets, model), BucketOf(table, Next(table, l, s).buckets, model);
            if Granted(table, l, s) && s.model == model then
              && b.rpmUsed < b.limits.rpm && c.rpmUsed == b.rpmUsed + 1
              && (b.limits.rpd > 0 ==> b.rpdUsed < b.limits.rpd && c.rpdUsed == b.rpdUsed + 1)
            else
              && (!(s.Reset? && s.read - l.minuteStart >= 60.0) ==> c.rpmUsed == b.rpmUsed)
              && (!(s.Reset? && s.read - l.dayStart >= 86400.0) ==> c.rpdUsed == b.rpdUsed)
  {
  }

  lemma Distribute(m: nat, k: nat)
    ensures m * (k + 1) == m * k + m
  {
  }

  /** So many grants for so many resets of a limit, and for what the counter holds. */
  predicate Within(grants: nat, limit: nat, resets: nat, used: nat) {
    grants <= limit * resets + used
  }

  lemma StillWithin(
      grants: nat, limit: nat, resets: nat, used: nat, newGrants: nat, newResets: nat, newUsed: nat)
    requires Within(grants, limit, resets, used) && used <= limit
    requires || newGrants == 0 || (newResets == resets + 1 && newGrants == grants)
             || (newResets == resets && newGrants + used <= grants + newUsed)
    ensures Within(newGrants, limit, newResets, newUsed)
  {
    Distribute(limit, resets);
  }

  /**
   However the steps interleave, the grants to a model in an interval number at most its
   per-minute limit for each minute reset that takes effect in the interval, and once more.
   */
  lemma {:induction false} GrantsBoundedByResets(r: Run, model: string, lo: real, hi: real)
    requires r.InOrder()
    ensures var limits, span := LimitsOf(r.table, model), RightOpen(lo, hi);
            Within(CountIn(r.GrantTimes(model), span), limits.rpm, CountIn(r.MinuteResets(), span),
                   if r.Now() < hi then BucketOf(r.table, r.State().buckets, model).rpmUsed else limits.rpm)
    decreases r.steps
  {
    AlwaysWithinLimits(r, model);
    if r.steps.Then? {
      var past, span, limits := r.Past(), RightOpen(lo, hi), LimitsOf(r.table, model);
      hide BucketOf, LimitsOf, Granted, Within;
      AlwaysWithinLimits(past, model);
      GrantsBoundedByResets(past, model, lo, hi);
      CounterStep(r.table, past.State(), r.steps.last, model);
      hide Next;
      GrantsNoLater(past, model);
      if r.Now() < lo {
        NoLaterStill(past.GrantTimes(model), past.Now(), r.Now());
        CountNone(past.GrantTimes(model), r.Now(), span);
      }
      var before := if past.Now() < hi then BucketOf(r.table, past.State().buckets, model).rpmUsed else limits.rpm;
      var after := if r.Now() < hi then BucketOf(r.table, r.State().buckets, model).rpmUsed else limits.rpm;
      StillWithin(CountIn(past.GrantTimes(model), span), limits.rpm, CountIn(past.MinuteResets(), span), before,
                  CountIn(r.GrantTimes(model), span), CountIn(r.MinuteResets(), span), after);
    }
  }

  /** The same for a model with a daily request limit and the day resets. */
  lemma {:induction false} GrantsBoundedByDayResets(r: Run, model: string, lo: real, hi: real)
    requires r.InOrder() && LimitsOf(r.table, model).rpd > 0
    ensures var limits, span := LimitsOf(r.table, model), RightOpen(lo, hi);
            Within(CountIn(r.GrantTimes(model), span), limits.rpd, CountIn(r.DayResets(), span),
                   if r.Now() < hi then BucketOf(r.table, r.State().buckets, model).rpdUsed else limits.rpd)
    decreases r.steps
  {
    AlwaysWithinLimits(r, model);
    if r.steps.Then? {
      var past, span, limits := r.Past(), RightOpen(lo, hi), LimitsOf(r.table, model);
      hide BucketOf, LimitsOf, Granted, Within;
      AlwaysWithinLimits(past, model);
      GrantsBoundedByDayResets(past, model, lo, hi);
      CounterStep(r.table, past.State(), r.steps.last, model);
      hide Next;
      GrantsNoLater(past, model);
      if r.Now() < lo {
        NoLaterStill(past.GrantTimes(model), past.Now(), r.Now());
        CountNone(past.GrantTimes(model), r.Now(), span);
      }
      var before := if past.Now() < hi then BucketOf(r.table, past.State().buckets, model).rpdUsed else limits.rpd;
      var after := if r.Now() < hi then BucketOf(r.table, r.State().buckets, model).rpdUsed else limits.rpd;
      StillWithin(CountIn(past.GrantTimes(model), span), limits.rpd, CountIn(past.DayResets(), span), before,
                  CountIn(r.GrantTimes(model), span), CountIn(r.DayResets(), span), after);
    }
  }

  /** Both bounds, with the current counters rounded up to the limits. */
  lemma GrantsWithinReset(r: Run, model: string, lo: real, hi: real)
    requires r.InOrder()
    ensures var limits, span := LimitsOf(r.table, model), RightOpen(lo, hi);
            && CountIn(r.GrantTimes(model), span) <= limits.rpm * (1 + CountIn(r.MinuteResets(), span))
            && (limits.rpd > 0 ==>
                  CountIn(r.GrantTimes(model), span) <= limits.rpd * (1 + CountIn(r.DayResets(), span)))
  {
    var limits, span := LimitsOf(r.table, model), RightOpen(lo, hi);
    AlwaysWithinLimits(r, model);
    GrantsBoundedByResets(r, model, lo, hi);
    Distribute(limits.rpm, CountIn(r.MinuteResets(), span));
    if limits.rpd > 0 {
      GrantsBoundedByDayResets(r, model, lo, hi);
      Distribute(limits.rpd, CountIn(r.DayResets(), span));
    }
  }

  /** Where the minute clock stands: at the reading of the last reset that took effect. */
  lemma {:induction false} MinuteClock(r: Run, delay: real)
    requires r.InOrder() && r.Prompt(delay)
    ensures var resets, start := r.MinuteResets(), r.State().minuteStart;
            && (resets.Empty? ==> start == r.minuteStart)
            && (resets.Then? ==> start <= resets.last <= start + delay && NoLater(resets, resets.last))
    decreases r.steps
  {
    if r.steps.Then? {
      MinuteClock(r.Past(), delay);
      GrantsNoLater(r.Past(), "");
      if r.MinuteResets() != r.Past().MinuteResets() {
        NoLaterStill(r.Past().MinuteResets(), r.Past().Now(), r.Now());
      }
    }
  }

  /** Resets that wait at most `delay` for the lock take effect at least a minute less `delay` apart. */
  lemma {:induction false} PromptResetsSpread(r: Run, delay: real, lo: real)
    requires r.InOrder() && r.Prompt(delay)
    ensures CountIn(r.MinuteResets(), RightOpen(lo, lo + 60.0 - delay)) <= 1
    decreases r.steps
  {
    if r.steps.Then? {
      var past, span := r.Past(), RightOpen(lo, lo + 60.0 - delay);
      PromptResetsSpread(past, delay, lo);
      MinuteClock(past, delay);
      if r.MinuteResets() != past.MinuteResets() && span.Contains(r.Now()) && past.MinuteResets().Then? {
        CountNone(past.MinuteResets(), past.MinuteResets().last, span);
      }
    }
  }

  /**
   With resets that wait at most `delay` for the lock, from however many threads, no half-open
   interval of a minute less `delay` holds more than twice the per-minute limit.
   */
  lemma TwicePerPromptMinute(r: Run, model: string, delay: real, lo: real)
    requires r.InOrder() && r.Prompt(delay)
    ensures CountIn(r.GrantTimes(model), RightOpen(lo, lo + 60.0 - delay)) <= 2 * LimitsOf(r.table, model).rpm
  {
    var limits, span := LimitsOf(r.table, model), RightOpen(lo, lo + 60.0 - delay);
    GrantsWithinReset(r, model, lo, lo + 60.0 - delay);
    PromptResetsSpread(r, delay, lo);
    Scale(limits.rpm, 1 + CountIn(r.MinuteResets(), span), 2);
  }

  /** With a single reset thread, the reset before the last one is at least a minute older than the next. */
  lemma {:induction false} ThreadClock(r: Run)
    requires r.InOrder() && r.OneResetThread()
    ensures var resets := r.MinuteResets();
            && (resets.Then? ==> NoLater(resets, resets.last) && resets.last <= r.LatestReset())
            && (resets.Then? && resets.past.Then? ==> resets.past.last <= r.State().minuteStart)
            && (resets.Then? && resets.past.Then? ==> NoLater(resets.past, resets.past.last))
    decreases r.steps
  {
    if r.steps.Then? {
      ThreadClock(r.Past());
      GrantsNoLater(r.Past(), "");
      if r.MinuteResets() != r.Past().MinuteResets() {
        NoLaterStill(r.Past().MinuteResets(), r.Past().Now(), r.Now());
      }
    }
  }

  lemma {:induction false} ThreadResetsSpread(r: Run, lo: real)
    requires r.InOrder() && r.OneResetThread()
    ensures CountIn(r.MinuteResets(), RightOpen(lo, lo + 60.0)) <= 2
    decreases r.steps
  {
    if r.steps.Then? {
      var past, span := r.Past(), RightOpen(lo, lo + 60.0);
      ThreadResetsSpread(past, lo);
      ThreadClock(past);
      var earlier := past.MinuteResets();
      if r.MinuteResets() != earlier && span.Contains(r.Now()) && earlier.Then? && earlier.past.Then? {
        CountNone(earlier.past, earlier.past.last, span);
      }
    }
  }

  /** However long its one reset thread waits for the lock, no half-open minute holds more than three times the limit. */
  lemma ThricePerMinute(r: Run, model: string, lo: real)
    requires r.InOrder() && r.OneResetThread()
    ensures CountIn(r.GrantTimes(model), RightOpen(lo, lo + 60.0)) <= 3 * LimitsOf(r.table, model).rpm
  {
    var rpm, n := LimitsOf(r.table, model).rpm, CountIn(r.MinuteResets(), RightOpen(lo, lo + 60.0));
    GrantsWithinReset(r, model, lo, lo + 60.0);
    ThreadResetsSpread(r, lo);
    Scale(rpm, 1 + n, 3);
  }

  /** The clock of either counter has advanced by at least one period for each reset that took effect. */
  lemma {:induction false} ResetsTakeTime(r: Run)
    requires r.InOrder()
    ensures r.minuteStart + 60.0 * r.MinuteResets().Length() as real <= r.State().minuteStart <= r.Now()
    ensures r.dayStart + 86400.0 * r.DayResets().Length() as real <= r.State().dayStart <= r.Now()
    decreases r.steps
  {
    if r.steps.Then? {
      ResetsTakeTime(r.Past());
    }
  }

  lemma {:induction false} AllCounted(ts: History<real>, now: real, lo: real)
    requires NoLater(ts, now) && NotBefore(ts, lo)
    ensures CountIn(ts, RightOpen(lo, now + 1.0)) == ts.Length()
  {
    if ts.Then? {
      AllCounted(ts.past, now, lo);
    }
  }

  lemma {:induction false} NoMoreThanAll(ts: History<real>, span: Interval)
    ensures CountIn(ts, span) <= ts.Length()
  {
    if ts.Then? {
      NoMoreThanAll(ts.past, span);
    }
  }

  ghost predicate NotBefore(ts: History<real>, lo: real) {
    ts.Then? ==> NotBefore(ts.past, lo) && lo <= ts.last
  }

  lemma {:induction false} GrantsNotBefore(r: Run, model: string)
    requires r.InOrder()
    ensures NotBefore(r.GrantTimes(model), r.minuteStart) && r.minuteStart <= r.Now()
    decreases r.steps
  {
    if r.steps.Then? {
      GrantsNotBefore(r.Past(), model);
    }
  }

  /** Whole periods between two clock readings. */
  function Elapsed(start: real, now: real, period: real): int
    requires period > 0.0
  {
    ((now - start) / period).Floor
  }

  lemma PeriodsElapsed(start: real, now: real, period: real, n: nat)
    requires period > 0.0 && start + period * n as real <= now
    ensures n <= Elapsed(start, now, period)
  {
    assert n as real <= (now - start) / period;
  }

  lemma Scale(m: nat, a: int, b: int)
    requires a <= b
    ensures m * a <= m * b
  {
  }

  lemma GrantsPerResets(r: Run, model: string)
    requires r.InOrder()
    ensures var limits, grants := LimitsOf(r.table, model), r.GrantTimes(model).Length();
            && grants <= limits.rpm * (1 + r.MinuteResets().Length())
            && (limits.rpd > 0 ==> grants <= limits.rpd * (1 + r.DayResets().Length()))
  {
    hide *;
    var limits, lo, hi := LimitsOf(r.table, model), r.minuteStart, r.Now() + 1.0;
    GrantsNoLater(r, model);
    GrantsNotBefore(r, model);
    AllCounted(r.GrantTimes(model), r.Now(), lo);
    GrantsWithinReset(r, model, lo, hi);
    var minutes, days := CountIn(r.MinuteResets(), RightOpen(lo, hi)), CountIn(r.DayResets(), RightOpen(lo, hi));
    NoMoreThanAll(r.MinuteResets(), RightOpen(lo, hi));
    NoMoreThanAll(r.DayResets(), RightOpen(lo, hi));
    Scale(limits.rpm, 1 + minutes, 1 + r.MinuteResets().Length());
    Scale(limits.rpd, 1 + days, 1 + r.DayResets().Length());
  }

  /**
   Since the start, a model is granted at most its per-minute limit once and once more per whole
   minute elapsed, and likewise its daily limit per day. Delayed resets do not weaken this.
   */
  lemma GrantsSinceStart(r: Run, model: string)
    requires r.InOrder()
    ensures var limits, grants := LimitsOf(r.table, model), r.GrantTimes(model).Length();
            && grants <= limits.rpm * (1 + Elapsed(r.minuteStart, r.Now(), 60.0))
            && (limits.rpd > 0 ==> grants <= limits.rpd * (1 + Elapsed(r.dayStart, r.Now(), 86400.0)))
  {
    hide *;
    var limits := LimitsOf(r.table, model);
    GrantsPerResets(r, model);
    ResetsTakeTime(r);
    PeriodsElapsed(r.minuteStart, r.Now(), 60.0, r.MinuteResets().Length());
    PeriodsElapsed(r.dayStart, r.Now(), 86400.0, r.DayResets().Length());
    Scale(limits.rpm, 1 + r.MinuteResets().Length(), 1 + Elapsed(r.minuteStart, r.Now(), 60.0));
    Scale(limits.rpd, 1 + r.DayResets().Length(), 1 + Elapsed(r.dayStart, r.Now(), 86400.0));
  }

  /** The history followed by `n` requests without tokens. */
  function Burst(r: Run, model: string, at: real, n: nat): Run {
    if n == 0 then r
    else var b := Burst(r, model, at, n - 1); b.(steps := Then(b.steps, Attempt(model, 0, at)))
  }

  /** A run that keeps the rules, with given clocks, latest reset, delay and model counters. */
  ghost predicate Stands(r: Run, model: string, b: Bucket, minuteStart: real, dayStart: real, latest: real, delay: real) {
    && r.InOrder() && r.Sleeping() && r.Prompt(delay)
    && r.LatestReset() == latest
    && r.State().minuteStart == minuteStart
    && r.State().dayStart == dayStart
    && BucketOf(r.table, r.State().buckets, model) == b
  }

  lemma OneMoreGranted(r: Run, model: string, at: real, b: Bucket, start: real, day: real, latest: real, delay: real,
                       span: Interval)
    requires Stands(r, model, b, start, day, latest, delay) && r.Now() <= at && HasRoom(b, 0) && span.Contains(at)
    ensures var q := r.(steps := Then(r.steps, Attempt(model, 0, at)));
            && Stands(q, model, Charged(b, 0), start, day, latest, delay) && q.Now() == at
            && CountIn(q.GrantTimes(model), span) == CountIn(r.GrantTimes(model), span) + 1
  {
    var q := r.(steps := Then(r.steps, Attempt(model, 0, at)));
    assert q.Past() == r;
  }

  function Used(b: Bucket, n: nat): Bucket {
    b.(rpmUsed := b.rpmUsed + n, rpdUsed := if b.limits.rpd > 0 then b.rpdUsed + n else b.rpdUsed)
  }

  predicate RoomFor(b: Bucket, n: nat) {
    && b.rpmUsed + n <= b.limits.rpm && (b.limits.rpd == 0 || b.rpdUsed + n <= b.limits.rpd)
    && b.tpmUsed <= b.limits.tpm && (b.limits.tpd == 0 || b.tpdUsed < b.limits.tpd)
  }

  lemma {:induction false} BurstGranted(r: Run, model: string, at: real, n: nat, b: Bucket, start: real, day: real,
                                        latest: real, delay: real, span: Interval)
    requires Stands(r, model, b, start, day, latest, delay) && r.Now() <= at && RoomFor(b, n) && span.Contains(at)
    ensures var q := Burst(r, model, at, n);
            && q == r.(steps := q.steps)
            && Stands(q, model, Used(b, n), start, day, latest, delay) && q.Now() <= at
            && CountIn(q.GrantTimes(model), span) == CountIn(r.GrantTimes(model), span) + n
  {
    if n > 0 {
      hide Stands, CountIn;
      BurstGranted(r, model, at, n - 1, b, start, day, latest, delay, span);
      OneMoreGranted(Burst(r, model, at, n - 1), model, at, Used(b, n - 1), start, day, latest, delay, span);
      assert Charged(Used(b, n - 1), 0) == Used(b, n);
    }
  }

  function WithReset(r: Run, read: real, at: real): Run {
    r.(steps := Then(r.steps, Reset(read, at)))
  }

  /** A reset that clears the minute, and the day too if a day has passed. */
  lemma OneMoreReset(r: Run, model: string, read: real, at: real, b: Bucket, start: real, day: real, latest: real,
                     delay: real, span: Interval)
    requires Stands(r, model, b, start, day, latest, delay)
    requires r.Now() <= at && latest + RESET_PAUSE <= read <= at <= read + delay && read - start >= 60.0
    ensures var q, whole := WithReset(r, read, at), read - day >= 86400.0;
            && Stands(q, model, Refreshed(b, true, whole), read, if whole then read else day, at, delay) && q.Now() == at
            && CountIn(q.GrantTimes(model), span) == CountIn(r.GrantTimes(model), span)
  {
    var q := WithReset(r, read, at);
    assert q.Past() == r;
  }

  /** Nothing but a reset each minute. */
  function Quiet(table: LimitTable, minutes: nat): Run {
    if minutes == 0 then Run(table, 0.0, 0.0, Empty)
    else WithReset(Quiet(table, minutes - 1), 60.0 * minutes as real, 60.0 * minutes as real)
  }

  lemma {:induction false} QuietStands(table: LimitTable, model: string, minutes: nat, delay: real, span: Interval)
    requires minutes < 1440 && delay >= 0.0
    ensures var r, now := Quiet(table, minutes), 60.0 * minutes as real;
            && Stands(r, model, Bucket(LimitsOf(table, model), 0, 0, 0, 0), now, 0.0, now, delay)
            && r.table == table && r.Now() == now && CountIn(r.GrantTimes(model), span) == 0
  {
    if minutes > 0 {
      var earlier, now := Quiet(table, minutes - 1), 60.0 * minutes as real;
      QuietStands(table, model, minutes - 1, delay, span);
      hide Stands, CountIn, LimitsOf;
      OneMoreReset(earlier, model, now, now, Bucket(LimitsOf(table, model), 0, 0, 0, 0), now - 60.0, 0.0, now - 60.0,
                   delay, span);
    }
  }

  const DAY_END := 86400.0

  /** What one minute of a fresh day allows. */
  function Allowance(limits: ModelLimits): nat {
    if 0 < limits.rpd < limits.rpm then limits.rpd else limits.rpm
  }

  /** After a quiet day: a full allowance just before the reset at its end, which waited for the lock, and one just after. */
  function TwoBursts(table: LimitTable, model: string, wait: real): Run {
    var n := Allowance(LimitsOf(table, model));
    var first := Burst(Quiet(table, 1439), model, DAY_END + wait, n);
    Burst(WithReset(first, DAY_END, DAY_END + wait), model, DAY_END + wait, n)
  }

  /** When the reset thread reads the clock next: after its pause, and a minute after its last reading. */
  function NextReading(wait: real): real {
    if wait <= RESET_PAUSE then DAY_END + 60.0 else DAY_END + wait + RESET_PAUSE
  }

  /** What the daily limit leaves for a third burst. */
  function Extra(limits: ModelLimits): nat {
    if limits.rpd == 0 || limits.rpd >= 2 * limits.rpm then limits.rpm
    else if limits.rpd > limits.rpm then limits.rpd - limits.rpm
    else 0
  }

  /** And a third burst after the next reset. */
  function ThreeBursts(table: LimitTable, model: string, wait: real): Run {
    Burst(WithReset(TwoBursts(table, model, wait), NextReading(wait), NextReading(wait)), model, NextReading(wait),
          Extra(LimitsOf(table, model)))
  }

  lemma TwoBurstsGranted(table: LimitTable, model: string, wait: real, span: Interval)
    requires 0.0 < wait <= 60.0 && span == RightOpen(DAY_END + wait, DAY_END + wait + 60.0)
    ensures var r, limits := TwoBursts(table, model, wait), LimitsOf(table, model);
            && r.table == table && r.Now() <= DAY_END + wait
            && Stands(r, model, Used(Bucket(limits, 0, 0, 0, 0), Allowance(limits)), DAY_END, DAY_END, DAY_END + wait, wait)
            && CountIn(r.GrantTimes(model), span) == 2 * Allowance(limits)
  {
    hide Stands, CountIn, Burst, LimitsOf, Quiet;
    var limits, start := LimitsOf(table, model), Quiet(table, 1439);
    var empty, at, n := Bucket(limits, 0, 0, 0, 0), DAY_END + wait, Allowance(limits);
    QuietStands(table, model, 1439, wait, span);
    BurstGranted(start, model, at, n, empty, 86340.0, 0.0, 86340.0, wait, span);
    var first := Burst(start, model, at, n);
    OneMoreReset(first, model, DAY_END, at, Used(empty, n), 86340.0, 0.0, 86340.0, wait, span);
    BurstGranted(WithReset(first, DAY_END, at), model, at, n, empty, DAY_END, DAY_END, at, wait, span);
  }

  /** The most that a minute can hold: three allowances of the minute, as far as the daily limit leaves them. */
  function Peak(limits: ModelLimits): nat {
    if limits.rpd == 0 || limits.rpd >= 2 * limits.rpm then 3 * limits.rpm
    else if limits.rpd >= limits.rpm then limits.rpm + limits.rpd
    else 2 * limits.rpd
  }

  /** With any positive wait the one reset thread, with its pauses kept, lets that many through in one minute. */
  lemma PeakAttained(table: LimitTable, model: string, wait: real)
    requires 0.0 < wait <= 60.0
    ensures var r, limits := ThreeBursts(table, model, wait), LimitsOf(table, model);
            && r.table == table && r.InOrder() && r.OneResetThread() && r.Sleeping() && r.Prompt(wait)
            && CountIn(r.GrantTimes(model), RightOpen(DAY_END + wait, DAY_END + wait + 60.0)) == Peak(limits)
  {
    hide Stands, CountIn, Burst, LimitsOf, TwoBursts;
    var limits, span := LimitsOf(table, model), RightOpen(DAY_END + wait, DAY_END + wait + 60.0);
    TwoBurstsGranted(table, model, wait, span);
    var second, read := TwoBursts(table, model, wait), NextReading(wait);
    var used := Used(Bucket(limits, 0, 0, 0, 0), Allowance(limits));
    OneMoreReset(second, model, read, read, used, DAY_END, DAY_END, DAY_END + wait, wait, span);
    var b := MinuteCleared(used);
    BurstGranted(WithReset(second, read, read), model, read, Extra(limits), b, read, DAY_END, read, wait, span);
    StandsKeepsRules(ThreeBursts(table, model, wait), model, Used(b, Extra(limits)), read, DAY_END, read, wait);
  }

  lemma StandsKeepsRules(r: Run, model: string, b: Bucket, start: real, day: real, latest: real, delay: real)
    requires Stands(r, model, b, start, day, latest, delay)
    ensures r.InOrder() && r.OneResetThread() && r.Sleeping() && r.Prompt(delay)
  {
    SleepingIsOneThread(r);
  }

  lemma {:induction false} SleepingIsOneThread(r: Run)
    requires r.Sleeping()
    ensures r.OneResetThread()
    decreases r.steps
  {
    if r.steps.Then? {
      SleepingIsOneThread(r.Past());
    }
  }

  ghost predicate MinuteWithin(r: Run, model: string, lo: real, bound: nat) {
    CountIn(r.GrantTimes(model), RightOpen(lo, lo + 60.0)) <= bound
  }

  /** Resets that wait at most `delay` for the lock keep every minute of every run to twice the limit. */
  ghost predicate TwicePerMinute(table: LimitTable, model: string, delay: real) {
    forall r: Run, lo: real :: r.table == table && r.InOrder() && r.Prompt(delay) ==>
      MinuteWithin(r, model, lo, 2 * LimitsOf(table, model).rpm)
  }

  lemma {:induction false} PromptForLonger(r: Run, delay: real, longer: real)
    requires r.Prompt(delay) && delay <= longer
    ensures r.Prompt(longer)
    decreases r.steps
  {
    if r.steps.Then? {
      PromptForLonger(r.Past(), delay, longer);
    }
  }

  /** Where the day clock stands: at the reading of the last reset that cleared the day. */
  lemma {:induction false} DayClock(r: Run, delay: real)
    requires r.InOrder() && r.Prompt(delay)
    ensures var resets, start := r.DayResets(), r.State().dayStart;
            resets.Then? ==> start <= resets.last <= start + delay && NoLater(resets, resets.last)
    decreases r.steps
  {
    if r.steps.Then? {
      DayClock(r.Past(), delay);
      GrantsNoLater(r.Past(), "");
      if r.DayResets() != r.Past().DayResets() {
        NoLaterStill(r.Past().DayResets(), r.Past().Now(), r.Now());
      }
    }
  }

  /** Unless a reset waits for almost a day, the day is cleared at most once in any minute. */
  lemma {:induction false} DayResetsSpread(r: Run, delay: real, lo: real)
    requires r.InOrder() && r.Prompt(delay) && delay <= 86340.0
    ensures CountIn(r.DayResets(), RightOpen(lo, lo + 60.0)) <= 1
    decreases r.steps
  {
    if r.steps.Then? {
      var past, span := r.Past(), RightOpen(lo, lo + 60.0);
      DayResetsSpread(past, delay, lo);
      DayClock(past, delay);
      if r.DayResets() != past.DayResets() && span.Contains(r.Now()) && past.DayResets().Then? {
        CountNone(past.DayResets(), past.DayResets().last, span);
      }
    }
  }

  /** A daily limit not above the minute's keeps every minute to twice the limit by itself. */
  lemma {:induction false} DailyLimitSuffices(r: Run, model: string, delay: real, lo: real)
    requires r.InOrder() && r.Prompt(delay) && delay <= 86340.0
    requires var limits := LimitsOf(r.table, model); 0 < limits.rpd <= limits.rpm
    ensures MinuteWithin(r, model, lo, 2 * LimitsOf(r.table, model).rpm)
  {
    var limits, n := LimitsOf(r.table, model), CountIn(r.DayResets(), RightOpen(lo, lo + 60.0));
    GrantsWithinReset(r, model, lo, lo + 60.0);
    DayResetsSpread(r, delay, lo);
    Scale(limits.rpd, 1 + n, 2);
  }

  /** The pauses of the thread leave room for two resets in a half-open minute. */
  lemma {:induction false} PausesSpread(r: Run, lo: real)
    requires r.InOrder() && r.Sleeping()
    ensures CountIn(r.Resets(), RightOpen(lo, lo + 60.0)) <= 2
    decreases r.steps
  {
    if r.steps.Then? {
      var past, span := r.Past(), RightOpen(lo, lo + 60.0);
      PausesSpread(past, lo);
      PauseClock(past);
      var earlier := past.Resets();
      if r.steps.last.Reset? && span.Contains(r.Now()) && earlier.Then? && earlier.past.Then? {
        CountNone(earlier.past, earlier.past.last, span);
      }
    }
  }

  lemma {:induction false} PauseClock(r: Run)
    requires r.InOrder() && r.Sleeping()
    ensures var resets := r.Resets();
            && NoLater(resets, r.Now())
            && (resets.Then? ==> resets.last == r.LatestReset() && NoLater(resets, resets.last))
            && (resets.Then? && resets.past.Then? ==>
                  resets.past.last + RESET_PAUSE <= resets.last && NoLater(resets.past, resets.past.last))
    decreases r.steps
  {
    if r.steps.Then? {
      PauseClock(r.Past());
      NoLaterStill(r.Past().Resets(), r.Past().Now(), r.Now());
    }
  }

  /**
   What the grants of a half-open minute owe to the counters so far: of its at most two resets one clears the day,
   so the daily limit bounds either the grants before it or those after it, and the minute's limit the others.
   */
  ghost predicate Owed(limits: ModelLimits, b: Bucket, grants: nat, resets: nat, days: nat) {
    && (resets == 0 ==> grants <= b.rpmUsed)
    && (if days == 0 then grants <= b.rpdUsed
        else grants <= limits.rpm + b.rpdUsed || (resets >= 2 && grants <= limits.rpd + b.rpmUsed))
  }

  lemma {:induction false} GrantsOwed(r: Run, model: string, delay: real, lo: real)
    requires r.InOrder() && r.Sleeping() && r.Prompt(delay) && delay <= 86340.0 && LimitsOf(r.table, model).rpd > 0
    ensures var limits, span := LimitsOf(r.table, model), RightOpen(lo, lo + 60.0);
            var grants := CountIn(r.GrantTimes(model), span);
            && grants <= limits.rpm + limits.rpd
            && (r.Now() < lo + 60.0 ==>
                  Owed(limits, BucketOf(r.table, r.State().buckets, model), grants, CountIn(r.Resets(), span),
                       CountIn(r.DayResets(), span)))
    decreases r.steps
  {
    AlwaysWithinLimits(r, model);
    if r.steps.Then? {
      var past, span := r.Past(), RightOpen(lo, lo + 60.0);
      AlwaysWithinLimits(past, model);
      GrantsOwed(past, model, delay, lo);
      CounterStep(r.table, past.State(), r.steps.last, model);
      DayResetsSpread(r, delay, lo);
      PausesSpread(r, lo);
      GrantsNoLater(r, model);
      hide Next, BucketOf, LimitsOf, Granted;
      if r.Now() < lo {
        PauseClock(r);
        CountNone(r.GrantTimes(model), r.Now(), span);
        CountNone(r.Resets(), r.Now(), span);
        CountNone(r.DayResets(), r.Now(), span);
      }
    }
  }

  /** With the one reset thread and its pauses no half-open minute of any run holds more than the peak. */
  lemma {:induction false} PeakBound(r: Run, model: string, delay: real, lo: real)
    requires r.InOrder() && r.Sleeping() && r.Prompt(delay) && delay <= 86340.0
    ensures MinuteWithin(r, model, lo, Peak(LimitsOf(r.table, model)))
  {
    var limits := LimitsOf(r.table, model);
    SleepingIsOneThread(r);
    ThricePerMinute(r, model, lo);
    if limits.rpd > 0 {
      GrantsOwed(r, model, delay, lo);
      GrantsWithinReset(r, model, lo, lo + 60.0);
      DayResetsSpread(r, delay, lo);
      Scale(limits.rpd, 1 + CountIn(r.DayResets(), RightOpen(lo, lo + 60.0)), 2);
    }
  }

  /** A run that obeys the one reset thread's pauses, with waits of at most `delay`. */
  ghost predicate Proper(r: Run, table: LimitTable, delay: real) {
    r.table == table && r.InOrder() && r.Sleeping() && r.Prompt(delay)
  }

  ghost predicate MinuteHolds(r: Run, model: string, lo: real, n: nat) {
    CountIn(r.GrantTimes(model), RightOpen(lo, lo + 60.0)) == n
  }

  /** If resets may wait for the lock at all, the peak is the least bound that every minute of every run keeps. */
  lemma {:induction false} PeakExact(table: LimitTable, model: string, delay: real)
    requires 0.0 < delay <= 86340.0
    ensures var peak := Peak(LimitsOf(table, model));
            && (forall r: Run, lo: real :: Proper(r, table, delay) ==> MinuteWithin(r, model, lo, peak))
            && exists r: Run, lo: real :: Proper(r, table, delay) && MinuteHolds(r, model, lo, peak)
  {
    var limits, wait := LimitsOf(table, model), if delay <= 60.0 then delay else 60.0;
    var peak := Peak(limits);
    forall r: Run, lo: real | Proper(r, table, delay) ensures MinuteWithin(r, model, lo, peak) {
      PeakBound(r, model, delay, lo);
    }
    PeakAttained(table, model, wait);
    var most := ThreeBursts(table, model, wait);
    PromptForLonger(most, wait, delay);
    hide ThreeBursts, CountIn, Peak;
    assert Proper(most, table, delay) && MinuteHolds(most, model, DAY_END + wait, peak);
  }

  /**
   "At most twice the per-minute limit in any minute" holds exactly when no reset ever waits for the lock, or the
   daily limit is not above the minute's: the clock reading taken before the lock makes any wait observable.
   */
  lemma {:induction false} WaitingDecides(table: LimitTable, model: string, delay: real)
    requires 0.0 <= delay <= 86340.0 && LimitsOf(table, model).rpm > 0
    ensures TwicePerMinute(table, model, delay) <==>
            delay == 0.0 || 0 < LimitsOf(table, model).rpd <= LimitsOf(table, model).rpm
  {
    var limits := LimitsOf(table, model);
    if delay == 0.0 {
      forall r: Run, lo: real | r.table == table && r.InOrder() && r.Prompt(delay)
        ensures MinuteWithin(r, model, lo, 2 * limits.rpm)
      {
        TwicePerPromptMinute(r, model, delay, lo);
      }
    } else if 0 < limits.rpd <= limits.rpm {
      forall r: Run, lo: real | r.table == table && r.InOrder() && r.Prompt(delay)
        ensures MinuteWithin(r, model, lo, 2 * limits.rpm)
      {
        DailyLimitSuffices(r, model, delay, lo);
      }
    } else {
      WaitShows(table, model, delay);
    }
  }

  /** Without such a daily limit every positive wait shows, however long. */
  lemma {:induction false} WaitShows(table: LimitTable, model: string, delay: real)
    requires delay > 0.0 && LimitsOf(table, model).rpm > 0
    requires var limits := LimitsOf(table, model); limits.rpd == 0 || limits.rpd > limits.rpm
    ensures !TwicePerMinute(table, model, delay)
  {
    var wait := if delay <= 60.0 then delay else 60.0;
    PeakAttained(table, model, wait);
    var r := ThreeBursts(table, model, wait);
    PromptForLonger(r, wait, delay);
    hide ThreeBursts, CountIn;
    assert !MinuteWithin(r, model, DAY_END + wait, 2 * LimitsOf(table, model).rpm);
  }
}
