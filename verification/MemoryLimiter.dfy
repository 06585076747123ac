/**
 The in-memory request limiter: a fixed window per key, started by the first request after the
 previous window has run out, and a periodic sweep that forgets old windows.
 */
module MemoryLimiter {
  import opened Common

  datatype Bucket = Bucket(count: int, start: real)
  type Buckets = map<string, Bucket>

  function KeyOf(identifier: string, endpoint: string): string {
    identifier + ":" + endpoint
  }

  /** The decision for one request. */
  predicate Admits(b: Buckets, key: string, maxRequests: int, window: real, now: real) {
    key !in b || now - b[key].start > window || b[key].count < maxRequests
  }

  /** The buckets after one request. */
  function AfterCall(b: Buckets, key: string, maxRequests: int, window: real, now: real): Buckets {
    if key !in b || now - b[key].start > window then b[key := Bucket(1, now)]
    else if b[key].count >= maxRequests then b
    else b[key := Bucket(b[key].count + 1, b[key].start)]
  }

  /** The buckets that survive a sweep. */
  function Swept(b: Buckets, maxAge: real, now: real): Buckets {
    map key | key in b && now - b[key].start <= maxAge :: b[key]
  }

  class RateLimiter {
    var buckets: Buckets

    constructor ()
      ensures buckets == map[]
    {
      buckets := map[];
    }

    method IsAllowed(identifier: string, endpoint: string, maxRequests: int, window: real, now: real)
      returns (allowed: bool)
      modifies this
      ensures allowed == old(Admits(buckets, KeyOf(identifier, endpoint), maxRequests, window, now))
      ensures buckets == old(AfterCall(buckets, KeyOf(identifier, endpoint), maxRequests, window, now))
    {
      var key := KeyOf(identifier, endpoint);
      if key in buckets {
        var Bucket(count, start) := buckets[key];
        if now - start > window {
          buckets := buckets[key := Bucket(1, now)];
          return true;
        }
        if count >= maxRequests {
          return false;
        }
        buckets := buckets[key := Bucket(count + 1, start)];
        return true;
      } else {
        buckets := buckets[key := Bucket(1, now)];
        return true;
      }
    }

    method Cleanup(maxAge: real, now: real)
      modifies this
      ensures buckets == old(Swept(buckets, maxAge, now))
    {
      var stale := set key | key in buckets && now - buckets[key].start > maxAge;
      while stale != {}
        invariant stale <= buckets.Keys
        invariant forall key :: key in stale ==> now - buckets[key].start > maxAge
        invariant Swept(buckets, maxAge, now) == old(Swept(buckets, maxAge, now))
        invariant forall key :: key in buckets && key !in stale ==> now - buckets[key].start <= maxAge
        decreases stale
      {
        var key :| key in stale;
        buckets := buckets - {key};
        stale := stale - {key};
      }
      assert buckets == Swept(buckets, maxAge, now);
    }
  }

  /** What the limiter sees over its life: requests, and sweeps by the background worker. */
  datatype Event =
    | Call(key: string, maxRequests: int, window: real, now: real)
    | Sweep(maxAge: real, now: real)

  ghost predicate InOrder(h: History<Event>) {
    h.Then? ==> InOrder(h.past) && (h.past.Then? ==> h.past.last.now <= h.last.now)
  }

  function Next(b: Buckets, e: Event): Buckets {
    match e
    case Call(key, maxRequests, window, now) => AfterCall(b, key, maxRequests, window, now)
    case Sweep(maxAge, now) => Swept(b, maxAge, now)
  }

  function Replay(h: History<Event>): Buckets {
    if h.Empty? then map[] else Next(Replay(h.past), h.last)
  }

  predicate Answer(b: Buckets, e: Event)
    requires e.Call?
  {
    Admits(b, e.key, e.maxRequests, e.window, e.now)
  }

  /** The answers given to the requests of a trace. */
  function Decisions(h: History<Event>): History<bool> {
    if h.Empty? then Empty
    else if h.last.Call? then Then(Decisions(h.past), Answer(Replay(h.past), h.last))
    else Decisions(h.past)
  }

  /** The times at which requests for one key were let through. */
  function Grants(h: History<Event>, key: string): History<real> {
    if h.Empty? then Empty
    else Maybe(Grants(h.past, key), h.last.Call? && h.last.key == key && Answer(Replay(h.past), h.last), h.last.now)
  }

  /** The trace with its sweeps left out. */
  function CallsOnly(h: History<Event>): History<Event> {
    if h.Empty? then Empty else Maybe(CallsOnly(h.past), h.last.Call?, h.last)
  }

  /** When the key's current window opened: with its first request, or one later than the window before allows. */
  function Opening(h: History<Event>, key: string): Option<real> {
    if h.Empty? then None
    else
      var before := Opening(h.past, key);
      if h.last.Call? && h.last.key == key && (before.None? || h.last.now > before.value + h.last.window)
      then Some(h.last.now)
      else before
  }

  /** How many requests for the key were let through since then. */
  function SinceOpening(h: History<Event>, key: string): nat {
    if h.Empty? then 0
    else if Opening(h, key) == Some(h.last.now) && Opens(h, key) then 1
    else
      SinceOpening(h.past, key) + if h.last.Call? && h.last.key == key && Answer(Replay(h.past), h.last) then 1 else 0
  }

  /** The last request is the first of its window. */
  predicate Opens(h: History<Event>, key: string)
    requires h.Then?
  {
    && h.last.Call? && h.last.key == key
    && (Opening(h.past, key).None? || h.last.now > Opening(h.past, key).value + h.last.window)
  }

  lemma {:induction false} BucketIs(h: History<Event>, key: string)
    requires CallsOnly(h) == h
    ensures key in Replay(h) <==> Opening(h, key).Some?
    ensures key in Replay(h) ==> Replay(h)[key] == Bucket(SinceOpening(h, key), Opening(h, key).value)
  {
    if h.Then? {
      CallsOnlyShorter(h.past);
      BucketIs(h.past, key);
    }
  }

  /**
   Over every run of requests, one is let through if and only if it is the key's first, comes after the end of the
   key's window, or fewer than the limit were let through since that window opened.
   */
  lemma {:induction false} GrantedIff(h: History<Event>, key: string, maxRequests: int, window: real, now: real)
    requires CallsOnly(h) == h
    ensures Answer(Replay(h), Call(key, maxRequests, window, now)) <==>
            || Opening(h, key).None? || now > Opening(h, key).value + window || SinceOpening(h, key) < maxRequests
  {
    BucketIs(h, key);
  }

  /** Each endpoint of an identifier has a key of its own, and each identifier at an endpoint. */
  lemma KeysApart(a: string, b: string, e: string, f: string)
    ensures KeyOf(a, e) == KeyOf(a, f) <==> e == f
    ensures KeyOf(a, e) == KeyOf(b, e) <==> a == b
  {
    assert KeyOf(a, e)[|a| + 1..] == e;
    if KeyOf(a, e) == KeyOf(a, f) {
      assert KeyOf(a, f)[|a| + 1..] == f;
    }
    assert KeyOf(a, e)[..|KeyOf(a, e)| - |e| - 1] == a;
    if KeyOf(a, e) == KeyOf(b, e) {
      assert KeyOf(b, e)[..|KeyOf(b, e)| - |e| - 1] == b;
    }
  }

  /** The swept buckets are the unswept ones minus some whose window has run out for every caller. */
  ghost predicate Covers(swept: Buckets, unswept: Buckets, age: real, now: real) {
    && (forall key :: key in swept ==> key in unswept && swept[key] == unswept[key])
    && (forall key :: key in unswept && key !in swept ==> now - unswept[key].start > age)
  }

  lemma CoversNext(swept: Buckets, unswept: Buckets, age: real, now: real, e: Event)
    requires Covers(swept, unswept, age, now) && now <= e.now
    requires if e.Call? then e.window <= age else age <= e.maxAge
    ensures e.Call? ==> Answer(swept, e) == Answer(unswept, e)
    ensures Covers(Next(swept, e), if e.Call? then Next(unswept, e) else unswept, age, e.now)
  {
  }

  /** Sweeps never outlive a window anybody asks about. */
  ghost predicate SweepsLate(h: History<Event>, age: real) {
    h.Then? ==> SweepsLate(h.past, age) && if h.last.Call? then h.last.window <= age else age <= h.last.maxAge
  }

  lemma {:induction false} SweepSimulation(h: History<Event>, age: real, key: string)
    requires InOrder(h) && SweepsLate(h, age)
    ensures Covers(Replay(h), Replay(CallsOnly(h)), age, if h.Then? then h.last.now else 0.0)
    ensures h.Empty? ==> Replay(h) == map[]
    ensures Decisions(h) == Decisions(CallsOnly(h))
    ensures Grants(h, key) == Grants(CallsOnly(h), key)
  {
    if h.Then? {
      SweepSimulation(h.past, age, key);
      CoversNext(Replay(h.past), Replay(CallsOnly(h.past)), age,
                 if h.past.Then? then h.past.last.now else h.last.now, h.last);
    }
  }

  /**
   The sweep is unobservable: as long as no window is longer than the sweep's age limit, every
   trace gets the same answers with its sweeps as without them.
   */
  lemma SweepUnobservable(h: History<Event>, age: real)
    requires InOrder(h) && SweepsLate(h, age)
    ensures Decisions(h) == Decisions(CallsOnly(h))
  {
    SweepSimulation(h, age, "");
  }

  /** The age condition is needed: a sweep younger than a window can let an extra request through. */
  lemma YoungSweepObservable(key: string, maxAge: real, window: real)
    requires 0.0 <= maxAge < window
    ensures var first, second := Call(key, 1, window, 0.0), Call(key, 1, window, window);
            var h := Then(Then(Then(Empty, first), Sweep(maxAge, window)), second);
            && InOrder(h)
            && Decisions(h) == Then(Then(Empty, true), true)
            && Decisions(CallsOnly(h)) == Then(Then(Empty, true), false)
  {
    var first, second := Call(key, 1, window, 0.0), Call(key, 1, window, window);
    var started := Then(Empty, first);
    var swept := Then(started, Sweep(maxAge, window));
    assert Replay(started) == map[key := Bucket(1, 0.0)];
    assert Replay(swept) == map[];
    assert InOrder(started) && InOrder(swept);
    assert Decisions(started) == Then(Empty, true) && Decisions(swept) == Then(Empty, true);
    assert CallsOnly(started) == started;
    assert CallsOnly(swept) == started;
    assert CallsOnly(Then(swept, second)) == Then(started, second);
  }

  /** Every request for the key asks for the same limit. */
  ghost predicate SameLimit(h: History<Event>, key: string, maxRequests: int, window: real) {
    h.Then? ==>
      && SameLimit(h.past, key, maxRequests, window)
      && (h.last.Call? && h.last.key == key ==> h.last.maxRequests == maxRequests && h.last.window == window)
  }

  /**
   What a run leaves behind, seen from a closed window-long interval starting at `lo`: a bucket
   opened before the interval has contributed all its grants but the first, one opened inside it
   shares the interval with at most one such predecessor, and one opened after it means the
   interval is already complete.
   */
  ghost predicate WindowBudget(b: Buckets, grants: History<real>, key: string, m: int, window: real, lo: real) {
    var limit := Larger(m, 1);
    var count := CountIn(grants, Closed(lo, lo + window));
    if key !in b then grants == Empty
    else
      var Bucket(c, start) := b[key];
      && 1 <= c <= limit
      && (if lo > start then count <= c - 1
          else if start <= lo + window then count <= limit - 1 + c
          else count <= 2 * limit - 1)
  }

  lemma BudgetStep(b: Buckets, grants: History<real>, e: Event, key: string, m: int, window: real, lo: real)
    requires WindowBudget(b, grants, key, m, window, lo) && window >= 0.0
    requires e.Call? && (e.key == key ==> e.maxRequests == m && e.window == window)
    requires NoLater(grants, e.now) && (key in b ==> b[key].start <= e.now)
    ensures var granted := Maybe(grants, e.key == key && Answer(b, e), e.now);
            && WindowBudget(Next(b, e), granted, key, m, window, lo)
            && NoLater(granted, e.now)
            && (key in Next(b, e) ==> Next(b, e)[key].start <= e.now)
  {
    if e.now < lo {
      CountNone(grants, e.now, Closed(lo, lo + window));
    }
  }

  lemma {:induction false} BudgetKept(h: History<Event>, key: string, m: int, window: real, lo: real)
    requires InOrder(h) && SameLimit(h, key, m, window) && window >= 0.0 && CallsOnly(h) == h
    ensures WindowBudget(Replay(h), Grants(h, key), key, m, window, lo)
    ensures h.Then? ==> NoLater(Grants(h, key), h.last.now)
    ensures h.Then? && key in Replay(h) ==> Replay(h)[key].start <= h.last.now
  {
    if h.Then? {
      CallsOnlyShorter(h.past);
      BudgetKept(h.past, key, m, window, lo);
      if h.past.Then? {
        NoLaterStill(Grants(h.past, key), h.past.last.now, h.last.now);
      }
      BudgetStep(Replay(h.past), Grants(h.past, key), h.last, key, m, window, lo);
    }
  }

  lemma {:induction false} CallsOnlyShorter(h: History<Event>)
    ensures CallsOnly(h).Length() <= h.Length()
  {
    if h.Then? {
      CallsOnlyShorter(h.past);
    }
  }

  lemma {:induction false} CallsOnlyKeeps(h: History<Event>, key: string, m: int, window: real)
    ensures CallsOnly(CallsOnly(h)) == CallsOnly(h)
    ensures SameLimit(h, key, m, window) ==> SameLimit(CallsOnly(h), key, m, window)
    ensures InOrder(h) ==> InOrder(CallsOnly(h))
    ensures InOrder(h) && h.Then? && CallsOnly(h).Then? ==> CallsOnly(h).last.now <= h.last.now
  {
    if h.Then? {
      CallsOnlyKeeps(h.past, key, m, window);
    }
  }

  /**
   The limiter's real guarantee over any request history, sweeps included: no closed interval one
   window long holds more than twice the limit minus one grants for a key.
   */
  lemma AtMostTwiceTheLimit(h: History<Event>, key: string, m: int, window: real, age: real, lo: real)
    requires InOrder(h) && SweepsLate(h, age) && SameLimit(h, key, m, window)
    ensures CountIn(Grants(h, key), Closed(lo, lo + window)) <= 2 * Larger(m, 1) - 1
  {
    SweepSimulation(h, age, key);
    CallsOnlyKeeps(h, key, m, window);
    if window < 0.0 {
      NothingInNoTime(Grants(h, key), lo, lo + window);
    } else {
      BudgetKept(CallsOnly(h), key, m, window, lo);
    }
  }

  lemma {:induction false} NothingInNoTime(ts: History<real>, lo: real, hi: real)
    requires hi < lo
    ensures CountIn(ts, Closed(lo, hi)) == 0
  {
    if ts.Then? {
      NothingInNoTime(ts.past, lo, hi);
    }
  }

  /** The history followed by `n` copies of one event. */
  function Repeated(h: History<Event>, e: Event, n: nat): History<Event> {
    if n == 0 then h else Then(Repeated(h, e, n - 1), e)
  }

  lemma {:induction false} RepeatedKeeps(h: History<Event>, e: Event, n: nat, key: string, m: int, window: real, age: real)
    requires h.Then? && InOrder(h) && SameLimit(h, key, m, window) && SweepsLate(h, age)
    requires h.last.now <= e.now && e.Call? && e.window <= age
    requires e.key == key ==> e.maxRequests == m && e.window == window
    ensures var r := Repeated(h, e, n);
            && r.Then? && InOrder(r) && SameLimit(r, key, m, window) && SweepsLate(r, age)
            && r.last.now == if n == 0 then h.last.now else e.now
  {
    if n > 0 {
      RepeatedKeeps(h, e, n - 1, key, m, window, age);
    }
  }

  /** A burst that fits into the open window is granted in full. */
  lemma {:induction false} BurstGranted(h: History<Event>, e: Event, n: nat, bucket: Bucket, span: Interval)
    requires e.Call? && e.key in Replay(h) && Replay(h)[e.key] == bucket
    requires e.now - bucket.start <= e.window && bucket.count + n <= e.maxRequests
    requires span.Contains(e.now)
    ensures e.key in Replay(Repeated(h, e, n))
    ensures Replay(Repeated(h, e, n))[e.key] == Bucket(bucket.count + n, bucket.start)
    ensures CountIn(Grants(Repeated(h, e, n), e.key), span) == CountIn(Grants(h, e.key), span) + n
  {
    if n > 0 {
      BurstGranted(h, e, n - 1, bucket, span);
    }
  }

  /** One request, the rest of its window's allowance at the last moment, then a full second window. */
  function TwoWindows(key: string, m: int, window: real): History<Event>
    requires m >= 1
  {
    var filled := Repeated(Then(Empty, Call(key, m, window, 0.0)), Call(key, m, window, window), m - 1);
    Repeated(filled, Call(key, m, window, 1.5 * window), m)
  }

  /** The bound is exact: every limit of at least one and every positive window reach it. */
  lemma TwiceTheLimitAttained(key: string, m: int, window: real)
    requires m >= 1 && window > 0.0
    ensures var h := TwoWindows(key, m, window);
            && InOrder(h) && SameLimit(h, key, m, window) && SweepsLate(h, window)
            && CountIn(Grants(h, key), Closed(0.5 * window, 1.5 * window)) == 2 * m - 1
  {
    var span := Closed(0.5 * window, 1.5 * window);
    var opening, late, next :=
      Call(key, m, window, 0.0), Call(key, m, window, window), Call(key, m, window, 1.5 * window);
    var started := Then(Empty, opening);
    assert Replay(started) == map[key := Bucket(1, 0.0)] && Grants(started, key) == Then(Empty, 0.0);
    RepeatedKeeps(started, late, m - 1, key, m, window, window);
    BurstGranted(started, late, m - 1, Bucket(1, 0.0), span);
    var filled := Repeated(started, late, m - 1);
    RepeatedKeeps(filled, next, m, key, m, window, window);
    RepeatedFromFirst(filled, next, m - 1);
    BurstGranted(Then(filled, next), next, m - 1, Bucket(1, next.now), span);
  }

  lemma {:induction false} RepeatedFromFirst(h: History<Event>, e: Event, n: nat)
    ensures Repeated(h, e, n + 1) == Repeated(Then(h, e), e, n)
  {
    if n > 0 {
      RepeatedFromFirst(h, e, n - 1);
    }
  }
}
