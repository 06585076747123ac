/** Vocabulary shared by the modules: optional values, histories of events, and spans of time. */
module Common {

  datatype Option<+T> = None | Some(value: T)

  /** Events in the order they happened. */
  datatype History<T> = Empty | Then(past: History<T>, last: T)
  {
    function Length(): nat {
      if Empty? then 0 else past.Length() + 1
    }
  }

  /** Extends a history by an event that may not have happened. */
  function Maybe<T>(past: History<T>, happened: bool, t: T): History<T> {
    if happened then Then(past, t) else past
  }

  /** A span of clock readings. The variants differ in which end points belong to the span. */
  datatype Interval =
    | Closed(lo: real, hi: real)
    | LeftOpen(lo: real, hi: real)
    | RightOpen(lo: real, hi: real)
  {
    predicate Contains(t: real) {
      match this
      case Closed(lo, hi) => lo <= t <= hi
      case LeftOpen(lo, hi) => lo < t <= hi
      case RightOpen(lo, hi) => lo <= t < hi
    }
  }

  /** How many of the time stamps lie in the span. */
  function CountIn(ts: History<real>, span: Interval): nat {
    if ts.Empty? then 0
    else CountIn(ts.past, span) + if span.Contains(ts.last) then 1 else 0
  }

  /** No time stamp is later than `now`. */
  ghost predicate NoLater(ts: History<real>, now: real) {
    ts.Then? ==> NoLater(ts.past, now) && ts.last <= now
  }

  lemma {:induction false} NoLaterStill(ts: History<real>, now: real, later: real)
    requires NoLater(ts, now) && now <= later
    ensures NoLater(ts, later)
  {
    if ts.Then? {
      NoLaterStill(ts.past, now, later);
    }
  }

  /** Nothing that happened by `now` is counted in a span that starts after `now`. */
  lemma {:induction false} CountNone(ts: History<real>, now: real, span: Interval)
    requires NoLater(ts, now) && now < span.lo
    ensures CountIn(ts, span) == 0
  {
    if ts.Then? {
      CountNone(ts.past, now, span);
    }
  }

  /** Moving the start of a left-open span back, and its end to `now`, loses no time stamp up to `now`. */
  lemma {:induction false} CountEarlierStart(ts: History<real>, now: real, inner: Interval, outer: Interval)
    requires NoLater(ts, now) && inner.LeftOpen? && outer == LeftOpen(outer.lo, now) && outer.lo <= inner.lo
    ensures CountIn(ts, inner) <= CountIn(ts, outer)
  {
    if ts.Then? {
      CountEarlierStart(ts.past, now, inner, outer);
    }
  }

  function Larger(a: int, b: int): (m: int)
    ensures m >= a && m >= b && (m == a || m == b)
  {
    if a >= b then a else b
  }
}
