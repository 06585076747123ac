/**
 The Redis-backed request limiter: a sliding-window log kept in one sorted set per key. The
 connection may fail to open and a pipeline may fail after or before the server ran it; the
 limiter then lets the request through and counts a miss.
 */
module RedisLimiter {
  import opened Common

  /** A sorted set on the server: the scores of its members, and when the key expires. */
  datatype SortedSet = SortedSet(scores: History<real>, expiresAt: real)
  type Store = map<string, SortedSet>

  /** What an attempt to open the connection meets, should one be made. */
  datatype Connection = NoUrl | ClientFails | PingFails | Connected

  /** How a pipeline ends: answered, or lost with the server having run it or not. */
  datatype Reply = Answered | Lost(applied: bool)

  datatype Attempt = Attempt(key: string, maxRequests: int, window: real, now: real,
                             connection: Connection, reply: Reply)

  datatype Limiter = Limiter(client: bool, available: bool, hits: nat, misses: nat, violations: nat, store: Store)

  const FRESH := Limiter(false, false, 0, 0, 0, map[])

  /** The scores left by ZREMRANGEBYSCORE from 0 to the cutoff. */
  function Trimmed(scores: History<real>, cutoff: real): History<real> {
    if scores.Empty? then Empty
    else Maybe(Trimmed(scores.past, cutoff), !(0.0 <= scores.last <= cutoff), scores.last)
  }

  /** The members a pipeline finds; `expiry` says whether the server forgets keys past their time. */
  function Visible(store: Store, key: string, now: real, expiry: bool): History<real> {
    if key !in store || (expiry && now >= store[key].expiresAt) then Empty else store[key].scores
  }

  /** The members counted by ZCARD, after trimming and before the new member is added. */
  function Remaining(store: Store, a: Attempt, expiry: bool): History<real> {
    Trimmed(Visible(store, a.key, a.now, expiry), a.now - a.window)
  }

  function AfterPipeline(store: Store, a: Attempt, expiry: bool): Store {
    store[a.key := SortedSet(Then(Remaining(store, a, expiry), a.now), a.now + a.window + 1.0)]
  }

  /** The client and availability flags after the connection step. */
  function AfterConnect(client: bool, available: bool, c: Connection): (bool, bool) {
    if available || client then (client, available)
    else match c
         case NoUrl | ClientFails => (false, false)
         case PingFails => (true, false)
         case Connected => (true, true)
  }

  predicate Reaches(l: Limiter, a: Attempt) {
    AfterConnect(l.client, l.available, a.connection).1
  }

  /** The server ran the pipeline, so the attempt is in the log. */
  predicate Logged(l: Limiter, a: Attempt) {
    Reaches(l, a) && a.reply != Lost(false)
  }

  /** The limiter consulted the log and granted the request. */
  predicate Hit(l: Limiter, a: Attempt, expiry: bool) {
    Reaches(l, a) && a.reply == Answered && Remaining(l.store, a, expiry).Length() < a.maxRequests
  }

  predicate Allows(l: Limiter, a: Attempt, expiry: bool) {
    !Reaches(l, a) || a.reply.Lost? || Hit(l, a, expiry)
  }

  function Next(l: Limiter, a: Attempt, expiry: bool): Limiter {
    var (client, available) := AfterConnect(l.client, l.available, a.connection);
    if !available then l.(client := client, available := false, misses := l.misses + 1)
    else
      var store := if Logged(l, a) then AfterPipeline(l.store, a, expiry) else l.store;
      if a.reply.Lost? then l.(client := false, available := false, misses := l.misses + 1, store := store)
      else if Hit(l, a, expiry) then l.(client := client, available := true, hits := l.hits + 1, store := store)
      else l.(client := client, available := true, violations := l.violations + 1, store := store)
  }

  /** The limiter object. Its `store` stands for the sorted sets held by the server. */
  class RedisRateLimiter {
    var client: bool
    var available: bool
    var hits: nat
    var misses: nat
    var violations: nat
    var store: Store

    constructor ()
      ensures State() == FRESH
    {
      client, available, hits, misses, violations, store := false, false, 0, 0, 0, map[];
    }

    function State(): Limiter
      reads this
    {
      Limiter(client, available, hits, misses, violations, store)
    }

    method GetRedis(c: Connection) returns (usable: bool)
      modifies this`client, this`available
      ensures (client, available) == old(AfterConnect(client, available, c))
      ensures usable == available
    {
      if !available && !client {
        if c.NoUrl? {
          return false;
        }
        if c.PingFails? || c.Connected? {
          client := true;
        }
        available := c.Connected?;
      }
      return available;
    }

    method IsAllowed(a: Attempt) returns (allowed: bool)
      modifies this
      ensures State() == old(Next(State(), a, true))
      ensures allowed == old(Allows(State(), a, true))
    {
      var usable := GetRedis(a.connection);
      if !usable {
        misses := misses + 1;
        return true;
      }
      var count := 0;
      if a.reply != Lost(false) {
        count := Pipeline(a);
      }
      if a.reply.Lost? {
        available := false;
        client := false;
        misses := misses + 1;
        return true;
      }
      if count < a.maxRequests {
        hits := hits + 1;
        return true;
      }
      violations := violations + 1;
      return false;
    }

    /** The four commands of the pipeline, run by the server as one step. */
    method Pipeline(a: Attempt) returns (count: nat)
      modifies this`store
      ensures store == old(AfterPipeline(store, a, true))
      ensures count == old(Remaining(store, a, true).Length())
    {
      var kept := Trimmed(Visible(store, a.key, a.now, true), a.now - a.window);
      count := kept.Length();
      store := store[a.key := SortedSet(Then(kept, a.now), a.now + a.window + 1.0)];
    }
  }

  ghost predicate InOrder(h: History<Attempt>) {
    h.Then? ==>
      && InOrder(h.past)
      && 0.0 <= h.last.now
      && (h.past.Then? ==> h.past.last.now <= h.last.now)
  }

  /** Every key keeps one window over the whole trace. */
  ghost predicate FixedWindows(h: History<Attempt>, window: string -> real) {
    h.Then? ==> FixedWindows(h.past, window) && h.last.window == window(h.last.key) >= 0.0
  }

  function Replay(h: History<Attempt>, expiry: bool): Limiter {
    if h.Empty? then FRESH else Next(Replay(h.past, expiry), h.last, expiry)
  }

  /** The times of the attempts on a key that are in the log, whatever was answered. */
  function Log(h: History<Attempt>, key: string, expiry: bool): History<real> {
    if h.Empty? then Empty
    else Maybe(Log(h.past, key, expiry), h.last.key == key && Logged(Replay(h.past, expiry), h.last), h.last.now)
  }

  /** The times of the grants made on the evidence of the log. */
  function Hits(h: History<Attempt>, key: string): History<real> {
    if h.Empty? then Empty
    else Maybe(Hits(h.past, key), h.last.key == key && Hit(Replay(h.past, true), h.last, true), h.last.now)
  }

  function Decisions(h: History<Attempt>, expiry: bool): History<bool> {
    if h.Empty? then Empty
    else Then(Decisions(h.past, expiry), Allows(Replay(h.past, expiry), h.last, expiry))
  }

  /** The time stamps after a cutoff. */
  function Since(ts: History<real>, cutoff: real): History<real> {
    if ts.Empty? then Empty else Maybe(Since(ts.past, cutoff), ts.last > cutoff, ts.last)
  }

  /** Time stamps between zero and `now`. */
  ghost predicate Past(ts: History<real>, now: real) {
    ts.Then? ==> Past(ts.past, now) && 0.0 <= ts.last <= now
  }

  lemma {:induction false} LaterPast(ts: History<real>, now: real, later: real)
    requires Past(ts, now) && now <= later
    ensures Past(ts, later) && NoLater(ts, now)
  {
    if ts.Then? {
      LaterPast(ts.past, now, later);
    }
  }

  lemma {:induction false} TrimSince(ts: History<real>, earlier: real, later: real, now: real)
    requires earlier <= later && Past(ts, now)
    ensures Trimmed(Since(ts, earlier), later) == Since(ts, later)
  {
    if ts.Then? {
      TrimSince(ts.past, earlier, later, now);
    }
  }

  lemma {:induction false} SinceCounts(ts: History<real>, cutoff: real, now: real)
    requires Past(ts, now)
    ensures Since(ts, cutoff).Length() == CountIn(ts, LeftOpen(cutoff, now))
  {
    if ts.Then? {
      SinceCounts(ts.past, cutoff, now);
    }
  }

  lemma {:induction false} SinceNothing(ts: History<real>, now: real, cutoff: real)
    requires Past(ts, now) && now <= cutoff
    ensures Since(ts, cutoff) == Empty
  {
    if ts.Then? {
      SinceNothing(ts.past, now, cutoff);
    }
  }

  /** The server's set for the key is what the last logged attempt left there. */
  ghost predicate StoreMatches(store: Store, log: History<real>, key: string, window: real) {
    && (key !in store ==> log.Empty?)
    && (key in store ==>
          && log.Then?
          && Past(log, log.last)
          && store[key] == SortedSet(Then(Since(log.past, log.last - window), log.last), log.last + window + 1.0))
  }

  lemma RemainingIsRecentLog(store: Store, log: History<real>, a: Attempt, expiry: bool)
    requires StoreMatches(store, log, a.key, a.window) && Past(log, a.now) && a.window >= 0.0
    ensures Remaining(store, a, expiry) == Since(log, a.now - a.window)
    ensures Remaining(store, a, expiry).Length() == CountIn(log, LeftOpen(a.now - a.window, a.now))
  {
    SinceCounts(log, a.now - a.window, a.now);
    if a.key in store {
      if expiry && a.now >= store[a.key].expiresAt {
        SinceNothing(log, log.last, a.now - a.window);
      } else {
        TrimSince(log.past, log.last - a.window, a.now - a.window, a.now);
      }
    }
  }

  lemma StoreStep(l: Limiter, log: History<real>, a: Attempt, key: string, window: real, expiry: bool)
    requires StoreMatches(l.store, log, key, window) && Past(log, a.now)
    requires window >= 0.0 && a.now >= 0.0 && (a.key == key ==> a.window == window)
    ensures StoreMatches(Next(l, a, expiry).store, Maybe(log, a.key == key && Logged(l, a), a.now), key, window)
  {
    if a.key == key {
      RemainingIsRecentLog(l.store, log, a, expiry);
    }
  }

  lemma {:induction false} StoreTracksLog(h: History<Attempt>, key: string, window: string -> real, expiry: bool)
    requires InOrder(h) && FixedWindows(h, window) && window(key) >= 0.0
    ensures StoreMatches(Replay(h, expiry).store, Log(h, key, expiry), key, window(key))
    ensures h.Then? ==> Past(Log(h, key, expiry), h.last.now)
  {
    if h.Then? {
      StoreTracksLog(h.past, key, window, expiry);
      if h.past.Then? {
        LaterPast(Log(h.past, key, expiry), h.past.last.now, h.last.now);
      }
      StoreStep(Replay(h.past, expiry), Log(h.past, key, expiry), h.last, key, window(key), expiry);
    }
  }

  /**
   The limiter is an exact sliding-window log: an answered request is granted if and only if fewer
   than `maxRequests` logged attempts of any kind, granted or refused, lie in the window before it.
   This holds whether or not the server forgets expired keys.
   */
  lemma GrantIffWindowHasRoom(h: History<Attempt>, a: Attempt, window: string -> real, expiry: bool)
    requires InOrder(Then(h, a)) && FixedWindows(Then(h, a), window)
    requires Reaches(Replay(h, expiry), a) && a.reply.Answered?
    ensures Allows(Replay(h, expiry), a, expiry) <==>
            CountIn(Log(h, a.key, expiry), LeftOpen(a.now - a.window, a.now)) < a.maxRequests
    ensures NoLater(Log(h, a.key, expiry), a.now)
  {
    StoreTracksLog(h, a.key, window, expiry);
    if h.Then? {
      LaterPast(Log(h, a.key, expiry), h.last.now, a.now);
      NoLaterStill(Log(h, a.key, expiry), h.last.now, a.now);
    }
    RemainingIsRecentLog(Replay(h, expiry).store, Log(h, a.key, expiry), a, expiry);
  }

  /** The limiter's visible state, leaving the server's sets aside. */
  function Visibles(l: Limiter): (bool, bool, nat, nat, nat) {
    (l.client, l.available, l.hits, l.misses, l.violations)
  }

  /** Limiters that differ only in their sorted sets stay so over a request that both answer alike. */
  lemma StepsAgree(l: Limiter, k: Limiter, a: Attempt)
    requires Visibles(l) == Visibles(k)
    requires Reaches(l, a) && a.reply.Answered? ==> Allows(l, a, true) == Allows(k, a, false)
    ensures Visibles(Next(l, a, true)) == Visibles(Next(k, a, false))
    ensures Allows(l, a, true) == Allows(k, a, false) && Logged(l, a) == Logged(k, a)
  {
    hide Remaining, AfterPipeline;
  }

  /**
   Key expiry changes no decision: with a server that forgets keys past their time and with one
   that keeps them for ever, every trace gets the same answers and the same counters.
   */
  lemma {:induction false} ExpiryUnobservable(h: History<Attempt>, window: string -> real, key: string)
    requires InOrder(h) && FixedWindows(h, window)
    ensures Decisions(h, true) == Decisions(h, false)
    ensures Visibles(Replay(h, true)) == Visibles(Replay(h, false))
    ensures Log(h, key, true) == Log(h, key, false)
  {
    if h.Then? {
      ExpiryUnobservable(h.past, window, key);
      ExpiryUnobservable(h.past, window, h.last.key);
      if Reaches(Replay(h.past, true), h.last) && h.last.reply.Answered? {
        GrantIffWindowHasRoom(h.past, h.last, window, true);
        GrantIffWindowHasRoom(h.past, h.last, window, false);
      }
      StepsAgree(Replay(h.past, true), Replay(h.past, false), h.last);
      hide Next, Allows, Logged, Visibles, CountIn, Reaches;
    }
  }

  lemma {:induction false} HitsAreLogged(h: History<Attempt>, key: string, span: Interval)
    ensures CountIn(Hits(h, key), span) <= CountIn(Log(h, key, true), span)
  {
    if h.Then? {
      HitsAreLogged(h.past, key, span);
    }
  }

  /**
   Whatever the connection and the pipelines do, any left-open interval one window long holds at
   most `m` grants made on the evidence of the log.
   */
  lemma {:induction false} AtMostTheLimit(h: History<Attempt>, key: string, m: int, window: string -> real, t: real)
    requires InOrder(h) && FixedWindows(h, window) && SameMax(h, key, m)
    ensures CountIn(Hits(h, key), LeftOpen(t - window(key), t)) <= Larger(m, 0)
  {
    if h.Then? {
      AtMostTheLimit(h.past, key, m, window, t);
      var a, span := h.last, LeftOpen(t - window(key), t);
      if a.key == key && Hit(Replay(h.past, true), a, true) && span.Contains(a.now) {
        GrantIffWindowHasRoom(h.past, a, window, true);
        HitsAreLogged(h.past, key, span);
        CountEarlierStart(Log(h.past, key, true), a.now, span, LeftOpen(a.now - window(key), a.now));
      }
    }
  }

  /** Every request for the key asks for the same limit. */
  ghost predicate SameMax(h: History<Attempt>, key: string, m: int) {
    h.Then? ==> SameMax(h.past, key, m) && (h.last.key == key ==> h.last.maxRequests == m)
  }

  function CountTrue(bs: History<bool>): nat {
    if bs.Empty? then 0 else CountTrue(bs.past) + if bs.last then 1 else 0
  }

  lemma CallCounted(l: Limiter, a: Attempt, expiry: bool)
    ensures var k := Next(l, a, expiry);
            && k.hits + k.misses + k.violations == l.hits + l.misses + l.violations + 1
            && k.hits + k.misses == l.hits + l.misses + (if Allows(l, a, expiry) then 1 else 0)
            && k.misses == l.misses + if Reaches(l, a) && a.reply == Answered then 0 else 1
  {
  }

  /** The calls that Redis did not answer, be it that there was no connection or that the pipeline was lost. */
  function Unanswered(h: History<Attempt>, expiry: bool): nat {
    if h.Empty? then 0
    else
      Unanswered(h.past, expiry) + if Reaches(Replay(h.past, expiry), h.last) && h.last.reply == Answered then 0 else 1
  }

  /** Every call is counted once, the granted calls are the hits and the misses, and these are the unanswered ones. */
  lemma {:induction false} EveryCallCounted(h: History<Attempt>, expiry: bool)
    ensures var l := Replay(h, expiry);
            && l.hits + l.misses + l.violations == h.Length()
            && l.hits + l.misses == CountTrue(Decisions(h, expiry))
            && l.misses == Unanswered(h, expiry)
  {
    if h.Then? {
      EveryCallCounted(h.past, expiry);
      CallCounted(Replay(h.past, expiry), h.last, expiry);
      hide Next, Allows, Reaches;
    }
  }

  /** The limiter is stuck: it holds a client that never answered a ping. */
  predicate Stuck(l: Limiter) {
    l.client && !l.available
  }

  /** Two traces one after the other. */
  function Append(h: History<Attempt>, more: History<Attempt>): History<Attempt> {
    if more.Empty? then h else Then(Append(h, more.past), more.last)
  }

  /**
   A failed ping is final: from then on every request is let through and counted as a miss without
   reaching the server, whatever the connection would answer.
   */
  lemma {:induction false} FailedPingIsFinal(h: History<Attempt>, more: History<Attempt>, expiry: bool)
    requires Stuck(Replay(h, expiry))
    ensures var before, after := Replay(h, expiry), Replay(Append(h, more), expiry);
            after == before.(misses := before.misses + more.Length())
    ensures CountTrue(Decisions(Append(h, more), expiry)) == CountTrue(Decisions(h, expiry)) + more.Length()
  {
    if more.Then? {
      FailedPingIsFinal(h, more.past, expiry);
    }
  }

  /** The limiter gets stuck at a request exactly when a connection it opens for it fails to answer a ping. */
  lemma {:induction false} StuckOnlyByFailedPing(h: History<Attempt>, a: Attempt, expiry: bool)
    requires !Stuck(Replay(h, expiry))
    ensures Stuck(Replay(Then(h, a), expiry)) <==> !Replay(h, expiry).available && a.connection.PingFails?
    ensures Replay(h, expiry).available ==> Replay(h, expiry).client
  {
    if h.Then? && !Stuck(Replay(h.past, expiry)) {
      StuckOnlyByFailedPing(h.past, h.last, expiry);
    }
  }
}
