/** The learning loop: each resolution of a cross-domain pair updates one domain-pair rule. */
module Learning {
  import opened Common
  import opened Entities

  /** A resolution that teaches something: who resolved, the two sender domains, and how. */
  datatype Lesson = Lesson(user: Id, domains: DomainPair, confirmed: bool)

  const AUTO_RESOLVE_THRESHOLD := 0.85
  const AUTO_RESOLVE_MIN_CONFIRMED := 3

  /** The rule a resolution goes to: the user's own, else everybody's, else a new one of the user's. */
  function Route(rules: Rules, lesson: Lesson): RuleKey {
    if RuleKey(Some(lesson.user), lesson.domains) in rules then RuleKey(Some(lesson.user), lesson.domains)
    else if RuleKey(None, lesson.domains) in rules then RuleKey(None, lesson.domains)
    else RuleKey(Some(lesson.user), lesson.domains)
  }

  const NEW_RULE := Rule(0, 0, 0.0, false)

  function RuleAt(rules: Rules, key: RuleKey): Rule {
    if key in rules then rules[key] else NEW_RULE
  }

  function Counted(rule: Rule, confirmed: bool): Rule {
    var c := rule.confirmed + if confirmed then 1 else 0;
    var d := rule.dismissed + if confirmed then 0 else 1;
    var confidence := c as real / (c + d) as real;
    Rule(c, d, confidence, confidence > AUTO_RESOLVE_THRESHOLD && c >= AUTO_RESOLVE_MIN_CONFIRMED)
  }

  function Learn(rules: Rules, lesson: Lesson): Rules {
    var key := Route(rules, lesson);
    rules[key := Counted(RuleAt(rules, key), lesson.confirmed)]
  }

  function LearnAll(rules: Rules, lessons: seq<Lesson>): Rules {
    if lessons == [] then rules else Learn(LearnAll(rules, lessons[..|lessons| - 1]), lessons[|lessons| - 1])
  }

  /** How many of the lessons go to the rule, counted apart by their outcome. */
  function Routed(rules: Rules, lessons: seq<Lesson>, key: RuleKey, confirmed: bool): nat {
    if lessons == [] then 0
    else
      var last := lessons[|lessons| - 1];
      Routed(rules, lessons[..|lessons| - 1], key, confirmed) +
      if Route(rules, last) == key && last.confirmed == confirmed then 1 else 0
  }

  /** The trust a rule has earned: its exact ratio, and auto-resolution above 85% with three confirmations. */
  ghost predicate Earned(rule: Rule) {
    && rule.confirmed + rule.dismissed > 0
    && rule.confidence == rule.confirmed as real / (rule.confirmed + rule.dismissed) as real
    && (rule.autoResolve <==> rule.confirmed >= 3 && 3 * rule.confirmed > 17 * rule.dismissed)
  }

  lemma RatioThreshold(c: nat, d: nat)
    requires c + d > 0
    ensures c as real / (c + d) as real > 0.85 <==> 3 * c > 17 * d
  {
    var x, y := c as real, d as real;
    assert (c + d) as real == x + y;
    RealThreshold(x, y);
    assert 3.0 * x == (3 * c) as real && 17.0 * y == (17 * d) as real;
  }

  lemma RealThreshold(x: real, y: real)
    requires x + y > 0.0
    ensures x / (x + y) > 0.85 <==> 3.0 * x > 17.0 * y
  {
    RatioOf(x / (x + y), x, x + y);
  }

  lemma RatioOf(ratio: real, x: real, total: real)
    requires total > 0.0 && ratio * total == x
    ensures ratio > 0.85 <==> 3.0 * x > 17.0 * (total - x)
  {
    Scaled(ratio, 0.85, total);
  }

  lemma Scaled(a: real, b: real, t: real)
    requires t > 0.0
    ensures a > b <==> a * t > b * t
  {
  }

  lemma CountedIsEarned(rule: Rule, confirmed: bool)
    ensures Earned(Counted(rule, confirmed))
  {
    var r := Counted(rule, confirmed);
    RatioThreshold(r.confirmed, r.dismissed);
  }

  /** Learning never changes where any lesson goes. */
  lemma RouteStable(rules: Rules, lesson: Lesson, other: Lesson)
    ensures Route(Learn(rules, lesson), other) == Route(rules, other)
  {
  }

  /**
   After any resolutions, a rule's counters are its starting counts plus the resolutions that were
   routed to it at the start, its trust is what those counters earn, a rule no resolution was routed
   to is untouched, and no other rules appear.
   */
  lemma {:induction false} CountersAreExact(rules: Rules, lessons: seq<Lesson>, key: RuleKey)
    ensures var after := LearnAll(rules, lessons);
            var yes, no := Routed(rules, lessons, key, true), Routed(rules, lessons, key, false);
            && (key in after <==> key in rules || yes + no > 0)
            && RuleAt(after, key).confirmed == RuleAt(rules, key).confirmed + yes
            && RuleAt(after, key).dismissed == RuleAt(rules, key).dismissed + no
            && (yes + no > 0 ==> Earned(after[key]))
            && (yes + no == 0 ==> RuleAt(after, key) == RuleAt(rules, key))
    ensures forall l :: Route(LearnAll(rules, lessons), l) == Route(rules, l)
  {
    if lessons != [] {
      var earlier, last := lessons[..|lessons| - 1], lessons[|lessons| - 1];
      CountersAreExact(rules, earlier, key);
      var before := LearnAll(rules, earlier);
      CountedIsEarned(RuleAt(before, Route(before, last)), last.confirmed);
      forall l: Lesson ensures Route(LearnAll(rules, lessons), l) == Route(rules, l) {
        RouteStable(before, last, l);
      }
      hide Earned;
    }
  }

  lemma {:induction false} RoutedWithout(rules: Rules, lessons: seq<Lesson>, i: nat, key: RuleKey, confirmed: bool)
    requires i < |lessons|
    ensures Routed(rules, lessons, key, confirmed) ==
            Routed(rules, lessons[..i] + lessons[i + 1..], key, confirmed) +
            if Route(rules, lessons[i]) == key && lessons[i].confirmed == confirmed then 1 else 0
  {
    hide Route;
    var n := |lessons| - 1;
    if i == n {
      assert lessons[..i] + lessons[i + 1..] == lessons[..n];
    } else {
      var earlier, without := lessons[..n], lessons[..i] + lessons[i + 1..];
      RoutedWithout(rules, earlier, i, key, confirmed);
      assert without[..|without| - 1] == earlier[..i] + earlier[i + 1..];
      assert without[|without| - 1] == lessons[n];
    }
  }

  /** Two sequences with the same members still have the same members after dropping one from each. */
  lemma DropSame(a: seq<Lesson>, b: seq<Lesson>) returns (i: nat)
    requires multiset(a) == multiset(b) && a != []
    ensures i < |b| && b[i] == a[|a| - 1]
    ensures multiset(a[..|a| - 1]) == multiset(b[..i] + b[i + 1..])
  {
    var n, last := |a| - 1, a[|a| - 1];
    assert last in multiset(b);
    i :| 0 <= i < |b| && b[i] == last;
    assert a == a[..n] + [last] && b == b[..i] + [last] + b[i + 1..];
    assert multiset(a) == multiset(a[..n]) + multiset{last};
    assert multiset(b) == multiset(b[..i]) + multiset{last} + multiset(b[i + 1..]);
    Cancel(multiset(a[..n]), multiset(b[..i] + b[i + 1..]), last);
  }

  lemma Cancel(a: multiset<Lesson>, b: multiset<Lesson>, x: Lesson)
    requires a + multiset{x} == b + multiset{x}
    ensures a == b
  {
    forall y ensures a[y] == b[y] {
      assert (a + multiset{x})[y] == (b + multiset{x})[y];
    }
  }

  lemma {:induction false} RoutedByMultiset(rules: Rules, a: seq<Lesson>, b: seq<Lesson>, key: RuleKey, confirmed: bool)
    requires multiset(a) == multiset(b)
    ensures Routed(rules, a, key, confirmed) == Routed(rules, b, key, confirmed)
  {
    hide Route;
    if a == [] {
      assert |multiset(b)| == 0;
    } else {
      var i := DropSame(a, b);
      RoutedByMultiset(rules, a[..|a| - 1], b[..i] + b[i + 1..], key, confirmed);
      RoutedWithout(rules, b, i, key, confirmed);
    }
  }

  /** The rules learnt do not depend on the order of the resolutions. */
  lemma OrderIrrelevant(rules: Rules, a: seq<Lesson>, b: seq<Lesson>)
    requires multiset(a) == multiset(b)
    ensures LearnAll(rules, a) == LearnAll(rules, b)
  {
    var x, y := LearnAll(rules, a), LearnAll(rules, b);
    forall key: RuleKey ensures (key in x <==> key in y) && RuleAt(x, key) == RuleAt(y, key) {
      CountersAreExact(rules, a, key);
      CountersAreExact(rules, b, key);
      RoutedByMultiset(rules, a, b, key, true);
      RoutedByMultiset(rules, a, b, key, false);
      hide Routed, LearnAll, Route;
      EarnedByCounts(RuleAt(x, key), RuleAt(y, key));
    }
    assert forall key :: key in x ==> key in y && x[key] == y[key];
    assert forall key :: key in y ==> key in x;
  }

  lemma EarnedByCounts(r: Rule, q: Rule)
    ensures Earned(r) && Earned(q) && r.confirmed == q.confirmed && r.dismissed == q.dismissed ==> r == q
  {
  }

  // --- One lesson, said of the rule tables before and after it ---

  /**
   One rule has learnt one resolution: the user's own, or everybody's where the user has none, or else a new one of
   the user's. Its ratio is exact, it is trusted from three confirmations and above 85%, and no other rule changes.
   */
  ghost predicate LearntOne(before: Rules, after: Rules, user: Id, domains: DomainPair, confirmed: bool) {
    var own, shared := RuleKey(Some(user), domains), RuleKey(None, domains);
    var key := if own !in before && shared in before then shared else own;
    && (forall other :: other != key ==> (other in after <==> other in before))
    && (forall other :: other != key && other in before ==> after[other] == before[other])
    && key in after
    && var rule := after[key];
       var c, d := if key in before then before[key].confirmed else 0, if key in before then before[key].dismissed else 0;
       && rule.confirmed == (if confirmed then c + 1 else c) && rule.dismissed == (if confirmed then d else d + 1)
       && RatioExact(rule)
       && (rule.autoResolve <==> rule.confirmed >= 3 && 3 * rule.confirmed > 17 * rule.dismissed)
  }

  predicate RatioExact(rule: Rule) {
    rule.confidence * (rule.confirmed + rule.dismissed) as real == rule.confirmed as real
  }

  lemma LearnMovesOneRule(rules: Rules, lesson: Lesson)
    ensures LearntOne(rules, Learn(rules, lesson), lesson.user, lesson.domains, lesson.confirmed)
  {
    var rule := RuleAt(rules, Route(rules, lesson));
    CountedIsEarned(rule, lesson.confirmed);
    ExactRatio(Counted(rule, lesson.confirmed));
    CountedMoves(rule, lesson.confirmed);
    hide Earned, Counted, RatioExact;
  }

  lemma CountedMoves(rule: Rule, confirmed: bool)
    ensures Counted(rule, confirmed).confirmed == rule.confirmed + if confirmed then 1 else 0
    ensures Counted(rule, confirmed).dismissed == rule.dismissed + if confirmed then 0 else 1
  {
  }

  lemma ExactRatio(rule: Rule)
    requires Earned(rule)
    ensures RatioExact(rule)
    ensures rule.autoResolve <==> rule.confirmed >= 3 && 3 * rule.confirmed > 17 * rule.dismissed
  {
    Undivided(rule.confirmed as real, (rule.confirmed + rule.dismissed) as real);
  }

  lemma Undivided(x: real, y: real)
    requires y > 0.0
    ensures x / y * y == x
  {
  }

  /** Lessons on a pair of domains go to the user's own rule, unless only everybody's exists. */
  lemma {:induction false} RoutedToOwn(rules: Rules, lessons: seq<Lesson>, user: Id, domains: DomainPair, confirmed: bool)
    requires RuleKey(Some(user), domains) in rules || RuleKey(None, domains) !in rules
    ensures Routed(rules, lessons, RuleKey(Some(user), domains), confirmed) == multiset(lessons)[Lesson(user, domains, confirmed)]
  {
    if lessons != [] {
      var front, last := lessons[..|lessons| - 1], lessons[|lessons| - 1];
      assert lessons == front + [last];
      RoutedToOwn(rules, front, user, domains, confirmed);
    }
  }

  /** Nothing is routed to a rule of everybody's that does not exist. */
  lemma {:induction false} NothingShared(rules: Rules, lessons: seq<Lesson>, domains: DomainPair, confirmed: bool)
    requires RuleKey(None, domains) !in rules
    ensures Routed(rules, lessons, RuleKey(None, domains), confirmed) == 0
  {
    if lessons != [] {
      NothingShared(rules, lessons[..|lessons| - 1], domains, confirmed);
    }
  }
}
