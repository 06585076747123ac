/**
 Reviewing filtered emails: keeping one classifies it into a transaction and counts towards an allow rule for
 its domain, discarding one counts towards a block rule, and undoing takes the count back.
 */
module Review {
  import opened Common

  type Id = nat

  datatype Status = Pending | Passed | Discarded

  datatype Mail = Mail(owner: Id, domain: string, status: Status)

  datatype Action = Keep | Discard | Unknown

  datatype Kind = AllowDomain | BlockDomain

  /** A filter rule made by a user. */
  datatype Key = Key(user: Id, kind: Kind, domain: string)

  /** What the classifier makes of an email; None when it raises, or makes a row that the table refuses. */
  type Classify = Id -> Option<string>

  type Rows = rows: seq<string> | rows != [] witness [""]

  /**
   The mails, the transactions of each mail that has any, and the hit counts of the users' rules. `unique` says
   whether the schema allows one transaction per mail only, as it did until the tables were partitioned.
   */
  datatype State = State(unique: bool, mails: map<Id, Mail>, transactions: map<Id, Rows>, rules: map<Key, nat>)

  datatype Error = NotFound | BadAction | Raised

  datatype Outcome = Ok(state: State) | Failed(error: Error)

  function Bumped(rules: map<Key, nat>, key: Key): map<Key, nat> {
    if key.domain == "" then rules
    else rules[key := if key in rules then rules[key] + 1 else 1]
  }

  function Dropped(rules: map<Key, nat>, key: Key): map<Key, nat> {
    if key.domain == "" || key !in rules then rules
    else if rules[key] <= 1 then rules - {key}
    else rules[key := rules[key] - 1]
  }

  predicate Owns(s: State, user: Id, id: Id) {
    id in s.mails && s.mails[id].owner == user
  }

  /** The table with one more transaction of the mail. */
  function Inserted(transactions: map<Id, Rows>, id: Id, row: string): map<Id, Rows> {
    transactions[id := if id in transactions then transactions[id] + [row] else [row]]
  }

  /** A second transaction of the same mail raises where the schema does not allow it. */
  function Reviewed(s: State, user: Id, id: Id, action: Action, classify: Classify): Outcome {
    if !Owns(s, user, id) then Failed(NotFound)
    else
      var mail := s.mails[id];
      match action
      case Keep =>
        var result := classify(id);
        if result.None? || (s.unique && id in s.transactions) then Failed(Raised)
        else Ok(s.(
          mails := s.mails[id := mail.(status := Passed)],
          transactions := Inserted(s.transactions, id, result.value),
          rules := Bumped(s.rules, Key(user, AllowDomain, mail.domain))))
      case Discard =>
        Ok(s.(
          mails := s.mails[id := mail.(status := Discarded)],
          rules := Bumped(s.rules, Key(user, BlockDomain, mail.domain))))
      case Unknown => Failed(BadAction)
  }

  /** Looking up the transaction of a mail that has several raises. */
  function Undone(s: State, user: Id, id: Id): Outcome {
    if !Owns(s, user, id) then Failed(NotFound)
    else
      var mail := s.mails[id];
      match mail.status
      case Pending => Ok(s)
      case Passed =>
        if id in s.transactions && |s.transactions[id]| > 1 then Failed(Raised)
        else Ok(s.(
          mails := s.mails[id := mail.(status := Pending)],
          transactions := s.transactions - {id},
          rules := Dropped(s.rules, Key(user, AllowDomain, mail.domain))))
      case Discarded =>
        Ok(s.(
          mails := s.mails[id := mail.(status := Pending)],
          rules := Dropped(s.rules, Key(user, BlockDomain, mail.domain))))
  }

  /** A failed request leaves the state as it was. */
  function Settled(s: State, o: Outcome): State {
    if o.Ok? then o.state else s
  }

  /** The single reviews one after another; failures are passed over. */
  function OneByOne(s: State, user: Id, ids: seq<Id>, action: Action, classify: Classify): State {
    if ids == [] then s
    else
      var last := |ids| - 1;
      var before := OneByOne(s, user, ids[..last], action, classify);
      Settled(before, Reviewed(before, user, ids[last], action, classify))
  }

  /** The outcome that the single review of the k-th mail meets. */
  function OutcomeAt(s: State, user: Id, ids: seq<Id>, k: nat, action: Action, classify: Classify): Outcome
    requires k < |ids|
  {
    Reviewed(OneByOne(s, user, ids[..k], action, classify), user, ids[k], action, classify)
  }

  /** How many of the single reviews succeed. */
  function Successes(s: State, user: Id, ids: seq<Id>, action: Action, classify: Classify): nat {
    if ids == [] then 0
    else
      var last := |ids| - 1;
      Successes(s, user, ids[..last], action, classify) + if OutcomeAt(s, user, ids, last, action, classify).Ok? then 1 else 0
  }

  // --- The requests, said of the state before and after ---

  /** One rule counts one mail more, or is new with a count of one; mails without a domain count towards none. */
  ghost predicate CountedUp(before: map<Key, nat>, after: map<Key, nat>, key: Key) {
    && (forall other :: other != key ==> (other in after <==> other in before))
    && (forall other :: other != key && other in before ==> after[other] == before[other])
    && (if key.domain == "" then key in after <==> key in before else key in after)
    && (key in after ==>
          after[key] == (if key in before then before[key] else 0) + if key.domain == "" then 0 else 1)
  }

  /** One rule counts one mail less, and goes with its last one. */
  ghost predicate CountedDown(before: map<Key, nat>, after: map<Key, nat>, key: Key) {
    && (forall other :: other != key ==> (other in after <==> other in before))
    && (forall other :: other != key && other in before ==> after[other] == before[other])
    && (key in after <==> key in before && (key.domain == "" || before[key] > 1))
    && (key in after ==> after[key] == before[key] - if key.domain == "" then 0 else 1)
  }

  /** One mail has this status now. */
  ghost predicate Marked(before: map<Id, Mail>, after: map<Id, Mail>, id: Id, status: Status)
    requires id in before
  {
    && after.Keys == before.Keys && after[id] == Mail(before[id].owner, before[id].domain, status)
    && forall other :: other in before && other != id ==> after[other] == before[other]
  }

  /** One mail has one more transaction, the last of its rows. */
  ghost predicate OneMoreRow(before: map<Id, Rows>, after: map<Id, Rows>, id: Id, row: string) {
    && (forall other :: other != id ==> (other in after <==> other in before))
    && (forall other :: other != id && other in before ==> after[other] == before[other])
    && id in after && after[id] == (if id in before then before[id] else []) + [row]
  }

  ghost predicate ReviewAnswered(
      before: State, user: Id, id: Id, action: Action, result: Option<string>, error: Option<Error>, after: State)
  {
    if id !in before.mails || before.mails[id].owner != user then error == Some(NotFound) && after == before
    else if action == Unknown then error == Some(BadAction) && after == before
    else if action == Keep && (result == None || (before.unique && id in before.transactions)) then
      error == Some(Raised) && after == before
    else
      && error == None && after.unique == before.unique
      && Marked(before.mails, after.mails, id, if action == Keep then Passed else Discarded)
      && (if action == Keep then OneMoreRow(before.transactions, after.transactions, id, result.value)
          else after.transactions == before.transactions)
      && CountedUp(before.rules, after.rules,
                   Key(user, if action == Keep then AllowDomain else BlockDomain, before.mails[id].domain))
  }

  ghost predicate UndoAnswered(before: State, user: Id, id: Id, error: Option<Error>, after: State) {
    if id !in before.mails || before.mails[id].owner != user then error == Some(NotFound) && after == before
    else
      var mail := before.mails[id];
      if mail.status == Pending then error == None && after == before
      else if mail.status == Passed && id in before.transactions && |before.transactions[id]| > 1 then
        error == Some(Raised) && after == before
      else
        && error == None && after.unique == before.unique
        && Marked(before.mails, after.mails, id, Pending)
        && after.transactions == (if mail.status == Passed then before.transactions - {id} else before.transactions)
        && CountedDown(before.rules, after.rules,
                       Key(user, if mail.status == Passed then AllowDomain else BlockDomain, mail.domain))
  }

  function ErrorOf(o: Outcome): Option<Error> {
    match o
    case Ok(_) => None
    case Failed(e) => Some(e)
  }

  lemma ReviewMeans(s: State, user: Id, id: Id, action: Action, classify: Classify)
    ensures var o := Reviewed(s, user, id, action, classify);
            ReviewAnswered(s, user, id, action, classify(id), ErrorOf(o), Settled(s, o))
  {
    if Owns(s, user, id) {
      BumpCounts(s.rules, Key(user, AllowDomain, s.mails[id].domain));
      BumpCounts(s.rules, Key(user, BlockDomain, s.mails[id].domain));
    }
    hide Bumped, CountedUp;
  }

  lemma BumpCounts(rules: map<Key, nat>, key: Key)
    ensures CountedUp(rules, Bumped(rules, key), key)
  {
  }

  lemma UndoMeans(s: State, user: Id, id: Id)
    ensures var o := Undone(s, user, id);
            UndoAnswered(s, user, id, ErrorOf(o), Settled(s, o))
  {
    if Owns(s, user, id) {
      DropCounts(s.rules, Key(user, AllowDomain, s.mails[id].domain));
      DropCounts(s.rules, Key(user, BlockDomain, s.mails[id].domain));
    }
    hide Dropped, CountedDown;
  }

  lemma DropCounts(rules: map<Key, nat>, key: Key)
    ensures CountedDown(rules, Dropped(rules, key), key)
  {
  }

  datatype BulkAnswer = BulkDone(ok: nat, errors: seq<(Id, Error)>) | BulkFailed

  /** The mails of the list that are not the user's, or all of them for an unknown action, with what is wrong. */
  function BulkErrors(s: State, user: Id, ids: seq<Id>, action: Action): seq<(Id, Error)> {
    if ids == [] then []
    else
      var front, id := ids[..|ids| - 1], ids[|ids| - 1];
      BulkErrors(s, user, front, action)
      + if !Owns(s, user, id) then [(id, NotFound)] else if action.Unknown? then [(id, BadAction)] else []
  }

  /** How often the list names mails of the user with this domain. */
  function Named(s: State, user: Id, ids: seq<Id>, domain: string): nat {
    if ids == [] then 0
    else
      var front, id := ids[..|ids| - 1], ids[|ids| - 1];
      Named(s, user, front, domain) + if Owns(s, user, id) && s.mails[id].domain == domain then 1 else 0
  }

  /** The rule that a decision on mails of the domain counts towards. */
  predicate CountsTowards(user: Id, action: Action, key: Key) {
    && key.user == user && key.domain != ""
    && ((action.Keep? && key.kind.AllowDomain?) || (action.Discard? && key.kind.BlockDomain?))
  }

  /**
   A bulk review that does not raise: the user's mails in the list have their status, a kept one has one transaction
   more for each time it is listed, and each rule counts the listed mails of its domain.
   */
  ghost predicate BulkEffect(s: State, user: Id, ids: seq<Id>, action: Action, classify: Classify, after: State) {
    && after.unique == s.unique && after.mails.Keys == s.mails.Keys
    && (forall id :: id in s.mails ==>
          after.mails[id] == if id in ids && s.mails[id].owner == user && !action.Unknown?
                             then s.mails[id].(status := if action.Keep? then Passed else Discarded)
                             else s.mails[id])
    && (forall id :: RowsOf(after, id) == RowsOf(s, id) + NewRows(s, user, ids, action, classify, id))
    && (forall key ::
          var more := if CountsTowards(user, action, key) then Named(s, user, ids, key.domain) else 0;
          && (key in after.rules <==> key in s.rules || more > 0)
          && (key in after.rules ==> after.rules[key] == (if key in s.rules then s.rules[key] else 0) + more))
  }

  function RowsOf(s: State, id: Id): seq<string> {
    if id in s.transactions then s.transactions[id] else []
  }

  /** A kept mail gets a row for each time it is listed. */
  function NewRows(s: State, user: Id, ids: seq<Id>, action: Action, classify: Classify, id: Id): seq<string> {
    if action.Keep? && Owns(s, user, id) && classify(id).Some? then Copies(classify(id).value, multiset(ids)[id]) else []
  }

  function Copies(row: string, n: nat): (rows: seq<string>)
    ensures |rows| == n
  {
    if n == 0 then [] else Copies(row, n - 1) + [row]
  }

  class ReviewQueue {
    const unique: bool
    var mails: map<Id, Mail>
    var transactions: map<Id, Rows>
    var rules: map<Key, nat>

    ghost function Now(): State
      reads this
    {
      State(unique, mails, transactions, rules)
    }

    method CountFor(key: Key)
      modifies this`rules
      ensures rules == Bumped(old(rules), key)
    {
      if key.domain != "" {
        if key in rules {
          rules := rules[key := rules[key] + 1];
        } else {
          rules := rules[key := 1];
        }
      }
    }

    method CountBack(key: Key)
      modifies this`rules
      ensures rules == Dropped(old(rules), key)
    {
      if key.domain != "" && key in rules {
        if rules[key] <= 1 {
          rules := rules - {key};
        } else {
          rules := rules[key := rules[key] - 1];
        }
      }
    }

    method ReviewEmail(user: Id, id: Id, action: Action, classify: Classify) returns (error: Option<Error>)
      modifies this
      ensures Now() == Settled(old(Now()), Reviewed(old(Now()), user, id, action, classify))
      ensures error == ErrorOf(Reviewed(old(Now()), user, id, action, classify))
      ensures ReviewAnswered(old(Now()), user, id, action, classify(id), error, Now())
    {
      ReviewMeans(Now(), user, id, action, classify);
      hide ReviewAnswered;
      if id !in mails || mails[id].owner != user {
        return Some(NotFound);
      }
      var mail := mails[id];
      if action == Keep {
        var result := classify(id);
        if result.None? || (unique && id in transactions) {
          return Some(Raised);
        }
        transactions := Inserted(transactions, id, result.value);
        mails := mails[id := mail.(status := Passed)];
        CountFor(Key(user, AllowDomain, mail.domain));
      } else if action == Discard {
        mails := mails[id := mail.(status := Discarded)];
        CountFor(Key(user, BlockDomain, mail.domain));
      } else {
        return Some(BadAction);
      }
      error := None;
    }

    method UndoReviewEmail(user: Id, id: Id) returns (error: Option<Error>)
      modifies this
      ensures Now() == Settled(old(Now()), Undone(old(Now()), user, id))
      ensures error == ErrorOf(Undone(old(Now()), user, id))
      ensures UndoAnswered(old(Now()), user, id, error, Now())
    {
      UndoMeans(Now(), user, id);
      hide UndoAnswered;
      if id !in mails || mails[id].owner != user {
        return Some(NotFound);
      }
      var mail := mails[id];
      if mail.status == Passed {
        if id in transactions && |transactions[id]| > 1 {
          return Some(Raised);
        }
        transactions := transactions - {id};
        CountBack(Key(user, AllowDomain, mail.domain));
        mails := mails[id := mail.(status := Pending)];
      } else if mail.status == Discarded {
        CountBack(Key(user, BlockDomain, mail.domain));
        mails := mails[id := mail.(status := Pending)];
      }
      error := None;
    }

    /** The whole batch has the effect of the single reviews in turn, or, if one of them raises, no effect. */
    method BulkReviewEmails(user: Id, ids: seq<Id>, action: Action, classify: Classify) returns (answer: BulkAnswer)
      modifies this
      ensures var s := old(Now());
              if exists k :: 0 <= k < |ids| && OutcomeAt(s, user, ids, k, action, classify) == Failed(Raised)
              then answer == BulkFailed && Now() == s
              else
                && Now() == OneByOne(s, user, ids, action, classify)
                && answer.BulkDone? && answer.ok == Successes(s, user, ids, action, classify)
                && answer.ok + |answer.errors| == |ids|
                && answer.errors == BulkErrors(s, user, ids, action)
                && BulkEffect(s, user, ids, action, classify, Now())
    {
      hide Reviewed, BulkEffect, OneByOne, Successes, BulkErrors, OutcomeAt;
      ghost var s := Now();
      SinglesStart(s, user, ids, action, classify);
      var before := (mails, transactions, rules);
      var ok := 0;
      var errors: seq<(Id, Error)> := [];
      for k := 0 to |ids|
        invariant Now() == OneByOne(s, user, ids[..k], action, classify)
        invariant ok == Successes(s, user, ids[..k], action, classify) && ok + |errors| == k
        invariant errors == BulkErrors(s, user, ids[..k], action)
        invariant forall j :: 0 <= j < k ==> OutcomeAt(s, user, ids, j, action, classify) != Failed(Raised)
      {
        SinglesOneMore(s, user, ids, k, action, classify);
        ErrorAt(s, user, ids, k, action, classify);
        var error := ReviewEmail(user, ids[k], action, classify);
        if error == Some(Raised) {
          mails, transactions, rules := before.0, before.1, before.2;
          return BulkFailed;
        }
        if error.Some? {
          errors := errors + [(ids[k], error.value)];
        } else {
          ok := ok + 1;
        }
      }
      assert ids[..|ids|] == ids;
      SinglesTogether(s, user, ids, action, classify);
      answer := BulkDone(ok, errors);
    }
  }

  // --- When a bulk review raises ---

  /** What the single reviews in turn leave unchanged, and which mails have a transaction after them. */
  lemma {:induction false} AfterSingles(s: State, user: Id, ids: seq<Id>, action: Action, classify: Classify, id: Id)
    ensures var after := OneByOne(s, user, ids, action, classify);
            && after.unique == s.unique
            && (Owns(after, user, id) <==> Owns(s, user, id))
            && (id in after.transactions <==>
                  || id in s.transactions
                  || (action.Keep? && id in ids && Owns(s, user, id) && classify(id).Some?))
  {
    if ids != [] {
      var earlier, last := ids[..|ids| - 1], ids[|ids| - 1];
      assert ids == earlier + [last];
      AfterSingles(s, user, earlier, action, classify, id);
      AfterSingles(s, user, earlier, action, classify, last);
      hide OneByOne, Bumped;
      OneByOneStep(s, user, earlier, last, action, classify);
    }
  }

  lemma OneByOneStep(s: State, user: Id, earlier: seq<Id>, last: Id, action: Action, classify: Classify)
    ensures var before := OneByOne(s, user, earlier, action, classify);
            OneByOne(s, user, earlier + [last], action, classify)
              == Settled(before, Reviewed(before, user, last, action, classify))
  {
    assert (earlier + [last])[..|earlier|] == earlier;
  }

  /** What goes wrong with one mail of the list, unless it raises. */
  lemma {:induction false} ErrorAt(s: State, user: Id, ids: seq<Id>, k: nat, action: Action, classify: Classify)
    requires k < |ids|
    ensures BulkErrors(s, user, ids[..k + 1], action)
         == BulkErrors(s, user, ids[..k], action)
            + if !Owns(s, user, ids[k]) then [(ids[k], NotFound)] else if action.Unknown? then [(ids[k], BadAction)] else []
    ensures OutcomeAt(s, user, ids, k, action, classify) != Failed(Raised) ==>
              ErrorOf(OutcomeAt(s, user, ids, k, action, classify))
                == if !Owns(s, user, ids[k]) then Some(NotFound) else if action.Unknown? then Some(BadAction) else None
  {
    AfterSingles(s, user, ids[..k], action, classify, ids[k]);
    assert ids[..k + 1][..k] == ids[..k];
    hide OneByOne, Bumped;
  }

  lemma SinglesStart(s: State, user: Id, ids: seq<Id>, action: Action, classify: Classify)
    ensures OneByOne(s, user, ids[..0], action, classify) == s
    ensures Successes(s, user, ids[..0], action, classify) == 0 && BulkErrors(s, user, ids[..0], action) == []
  {
  }

  lemma SinglesOneMore(s: State, user: Id, ids: seq<Id>, k: nat, action: Action, classify: Classify)
    requires k < |ids|
    ensures var before := OneByOne(s, user, ids[..k], action, classify);
            var outcome := Reviewed(before, user, ids[k], action, classify);
            && OutcomeAt(s, user, ids, k, action, classify) == outcome
            && OneByOne(s, user, ids[..k + 1], action, classify) == Settled(before, outcome)
            && Successes(s, user, ids[..k + 1], action, classify)
                 == Successes(s, user, ids[..k], action, classify) + if outcome.Ok? then 1 else 0
  {
    hide Reviewed;
    assert ids[..k + 1][..k] == ids[..k];
  }

  lemma {:induction false} SinglesTogether(s: State, user: Id, ids: seq<Id>, action: Action, classify: Classify)
    requires forall k :: 0 <= k < |ids| ==> OutcomeAt(s, user, ids, k, action, classify) != Failed(Raised)
    ensures BulkEffect(s, user, ids, action, classify, OneByOne(s, user, ids, action, classify))
  {
    if ids != [] {
      var front, id := ids[..|ids| - 1], ids[|ids| - 1];
      assert ids == front + [id];
      forall k | 0 <= k < |front| ensures OutcomeAt(s, user, front, k, action, classify) != Failed(Raised) {
        assert ids[..k] == front[..k];
        assert OutcomeAt(s, user, ids, k, action, classify) == OutcomeAt(s, user, front, k, action, classify);
      }
      SinglesTogether(s, user, front, action, classify);
      OneByOneStep(s, user, front, id, action, classify);
      AfterSingles(s, user, front, action, classify, id);
      ReviewMeans(OneByOne(s, user, front, action, classify), user, id, action, classify);
      assert ids[..|front|] == front;
      assert OutcomeAt(s, user, ids, |front|, action, classify)
          == Reviewed(OneByOne(s, user, front, action, classify), user, id, action, classify);
      hide OneByOne, Reviewed;
      EffectGrows(s, user, front, id, action, classify, OneByOne(s, user, front, action, classify),
                  OneByOne(s, user, ids, action, classify));
    }
  }

  lemma EffectGrows(
      s: State, user: Id, front: seq<Id>, id: Id, action: Action, classify: Classify, before: State, after: State)
    requires BulkEffect(s, user, front, action, classify, before) && (Owns(before, user, id) <==> Owns(s, user, id))
    requires exists error :: error != Some(Raised) && ReviewAnswered(before, user, id, action, classify(id), error, after)
    ensures BulkEffect(s, user, front + [id], action, classify, after)
  {
    var ids := front + [id];
    assert ids[..|ids| - 1] == front;
    var error :| error != Some(Raised) && ReviewAnswered(before, user, id, action, classify(id), error, after);
    MailsGrow(s, user, front, id, action, classify, before, after, error);
    RowsGrow(s, user, front, id, action, classify, before, after, error);
    RulesGrow(s, user, front, id, action, classify, before, after, error);
  }

  lemma MailsGrow(
      s: State, user: Id, front: seq<Id>, id: Id, action: Action, classify: Classify, before: State, after: State,
      error: Option<Error>)
    requires BulkEffect(s, user, front, action, classify, before) && (Owns(before, user, id) <==> Owns(s, user, id))
    requires error != Some(Raised) && ReviewAnswered(before, user, id, action, classify(id), error, after)
    ensures after.unique == s.unique && after.mails.Keys == s.mails.Keys
    ensures forall x :: x in s.mails ==>
              after.mails[x] == if x in front + [id] && s.mails[x].owner == user && !action.Unknown?
                                then s.mails[x].(status := if action.Keep? then Passed else Discarded)
                                else s.mails[x]
  {
    hide CountedUp, OneMoreRow, RowsOf, NewRows, Named;
    assert forall x :: x in front + [id] <==> x in front || x == id;
  }

  lemma RowsGrow(
      s: State, user: Id, front: seq<Id>, id: Id, action: Action, classify: Classify, before: State, after: State,
      error: Option<Error>)
    requires BulkEffect(s, user, front, action, classify, before) && (Owns(before, user, id) <==> Owns(s, user, id))
    requires error != Some(Raised) && ReviewAnswered(before, user, id, action, classify(id), error, after)
    ensures forall x :: RowsOf(after, x) == RowsOf(s, x) + NewRows(s, user, front + [id], action, classify, x)
  {
    hide ReviewAnswered, RowsOf, NewRows, CountsTowards, Named, Owns;
    forall x: Id ensures RowsOf(after, x) == RowsOf(s, x) + NewRows(s, user, front + [id], action, classify, x) {
      RowGrows(s, user, front, id, action, classify, before, after, error, x);
    }
  }

  lemma RowGrows(
      s: State, user: Id, front: seq<Id>, id: Id, action: Action, classify: Classify, before: State, after: State,
      error: Option<Error>, x: Id)
    requires RowsOf(before, x) == RowsOf(s, x) + NewRows(s, user, front, action, classify, x)
    requires Owns(before, user, id) <==> Owns(s, user, id)
    requires error != Some(Raised) && ReviewAnswered(before, user, id, action, classify(id), error, after)
    ensures RowsOf(after, x) == RowsOf(s, x) + NewRows(s, user, front + [id], action, classify, x)
  {
    hide *;
    ReviewedRow(before, user, id, action, classify(id), error, after, x);
    NewRowsGrow(s, user, front, id, action, classify, x);
  }

  lemma ReviewedRow(
      before: State, user: Id, id: Id, action: Action, result: Option<string>, error: Option<Error>, after: State, x: Id)
    requires error != Some(Raised) && ReviewAnswered(before, user, id, action, result, error, after)
    ensures x == id && action.Keep? && Owns(before, user, id) ==>
              result.Some? && RowsOf(after, x) == RowsOf(before, x) + [result.value]
    ensures !(x == id && action.Keep? && Owns(before, user, id)) ==> RowsOf(after, x) == RowsOf(before, x)
  {
    hide CountedUp, Marked;
  }

  lemma NewRowsGrow(s: State, user: Id, front: seq<Id>, id: Id, action: Action, classify: Classify, x: Id)
    requires x == id && action.Keep? && Owns(s, user, id) ==> classify(id).Some?
    ensures x == id && action.Keep? && Owns(s, user, id) ==>
              NewRows(s, user, front + [id], action, classify, x)
                == NewRows(s, user, front, action, classify, x) + [classify(id).value]
    ensures !(x == id && action.Keep? && Owns(s, user, id)) ==>
              NewRows(s, user, front + [id], action, classify, x) == NewRows(s, user, front, action, classify, x)
  {
    assert multiset(front + [id])[x] == multiset(front)[x] + if x == id then 1 else 0;
  }

  lemma RulesGrow(
      s: State, user: Id, front: seq<Id>, id: Id, action: Action, classify: Classify, before: State, after: State,
      error: Option<Error>)
    requires BulkEffect(s, user, front, action, classify, before) && (Owns(before, user, id) <==> Owns(s, user, id))
    requires error != Some(Raised) && ReviewAnswered(before, user, id, action, classify(id), error, after)
    ensures forall key ::
              var more := if CountsTowards(user, action, key) then Named(s, user, front + [id], key.domain) else 0;
              && (key in after.rules <==> key in s.rules || more > 0)
              && (key in after.rules ==> after.rules[key] == (if key in s.rules then s.rules[key] else 0) + more)
  {
    hide OneMoreRow, RowsOf, NewRows, Marked;
    forall key
      ensures var more := if CountsTowards(user, action, key) then Named(s, user, front + [id], key.domain) else 0;
              && (key in after.rules <==> key in s.rules || more > 0)
              && (key in after.rules ==> after.rules[key] == (if key in s.rules then s.rules[key] else 0) + more)
    {
      assert (front + [id])[..|front|] == front;
      assert Named(s, user, front + [id], key.domain)
          == Named(s, user, front, key.domain) + if Owns(s, user, id) && s.mails[id].domain == key.domain then 1 else 0;
    }
  }

  /** The single keep of this mail raises: it cannot be classified, or the schema refuses its second transaction. */
  ghost predicate Refused(s: State, user: Id, ids: seq<Id>, k: nat, classify: Classify)
    requires k < |ids|
  {
    && Owns(s, user, ids[k])
    && (classify(ids[k]).None? || (s.unique && (ids[k] in s.transactions || ids[k] in ids[..k])))
  }

  /**
   A bulk review raises, and is rolled back, if and only if it keeps and one of the user's mails in it cannot be
   classified or, under the old schema, already has a transaction or is listed before.
   */
  lemma {:induction false} BulkRaisesIff(s: State, user: Id, ids: seq<Id>, action: Action, classify: Classify)
    ensures (exists k :: 0 <= k < |ids| && OutcomeAt(s, user, ids, k, action, classify) == Failed(Raised))
            <==> action.Keep? && exists k :: 0 <= k < |ids| && Refused(s, user, ids, k, classify)
  {
    forall k | 0 <= k < |ids|
      ensures OutcomeAt(s, user, ids, k, action, classify) == Failed(Raised)
              <==> action.Keep? && Refused(s, user, ids, k, classify)
    {
      AfterSingles(s, user, ids[..k], action, classify, ids[k]);
      hide OneByOne, Bumped;
    }
  }

  // --- Undo after review ---

  function KeyFor(s: State, user: Id, id: Id, action: Action): Key
    requires id in s.mails
  {
    Key(user, if action.Keep? then AllowDomain else BlockDomain, s.mails[id].domain)
  }

  /**
   Undoing a successful review of a pending mail restores the whole state, unless the rule it counted towards
   had a count of zero, as a rule made by hand has, which loses that rule, or the mail was kept although it had
   a transaction already, which makes the undo raise.
   */
  lemma {:induction false} UndoRestoresIff(s: State, user: Id, id: Id, action: Action, classify: Classify)
    requires Reviewed(s, user, id, action, classify).Ok? && s.mails[id].status.Pending?
    ensures var back := Undone(Reviewed(s, user, id, action, classify).state, user, id);
            var key := KeyFor(s, user, id, action);
            && (back == Failed(Raised) <==> action.Keep? && id in s.transactions)
            && (back == Ok(s) <==>
                  && (key.domain == "" || key !in s.rules || s.rules[key] > 0)
                  && (action.Keep? ==> id !in s.transactions))
  {
    var key := KeyFor(s, user, id, action);
    BumpDrop(s.rules, key);
    var after := Reviewed(s, user, id, action, classify).state;
    var back := Undone(after, user, id);
    hide Bumped, Dropped;
    if back.Ok? {
      assert back.state.mails == s.mails;
      assert back.state.transactions == s.transactions;
      assert back.state.rules == Dropped(Bumped(s.rules, key), key);
    }
  }

  /** An input: keep, discard, undo, keep, undo. Each request but the last succeeds, and that one raises. */
  lemma SecondKeepBlocksUndo(s: State, user: Id, id: Id, row: string)
    requires Owns(s, user, id) && s.mails[id].status.Pending? && id !in s.transactions && !s.unique
    ensures var keep: Classify := _ => Some(row);
            var kept := Reviewed(s, user, id, Keep, keep);
            && kept.Ok?
            && var discarded := Reviewed(kept.state, user, id, Discard, keep);
               && discarded.Ok?
               && var undone := Undone(discarded.state, user, id);
                  && undone.Ok?
                  && var again := Reviewed(undone.state, user, id, Keep, keep);
                     again.Ok? && Undone(again.state, user, id) == Failed(Raised)
  {
    hide Bumped, Dropped;
  }

  lemma BumpDrop(rules: map<Key, nat>, key: Key)
    ensures Dropped(Bumped(rules, key), key) == rules <==> key.domain == "" || key !in rules || rules[key] > 0
  {
    var there := Bumped(rules, key);
    if key.domain != "" && key !in rules {
      assert there - {key} == rules;
    } else if key.domain != "" && rules[key] == 0 {
      assert key !in Dropped(there, key);
    }
  }

  // --- Hit counts over runs ---

  datatype Event =
    | Arrive(id: Id, mail: Mail, transaction: Option<string>)
    | Decide(user: Id, id: Id, action: Action, result: Option<string>)
    | TakeBack(user: Id, id: Id)

  function Decided(s: State, user: Id, id: Id, action: Action, result: Option<string>): Outcome {
    Reviewed(s, user, id, action, _ => result)
  }

  /** The state, and which mails stand reviewed, with what decision. */
  datatype Book = Book(state: State, marks: map<Id, Action>)

  function Apply(b: Book, e: Event): Book {
    var s := b.state;
    match e
    case Arrive(id, mail, transaction) =>
      if id in s.mails then b
      else
        Book(
          s.(mails := s.mails[id := mail],
             transactions := if transaction.Some? then s.transactions[id := [transaction.value]] else s.transactions),
          b.marks)
    case Decide(user, id, action, result) =>
      var o := Decided(s, user, id, action, result);
      if o.Ok? then Book(o.state, b.marks[id := action]) else b
    case TakeBack(user, id) =>
      var o := Undone(s, user, id);
      if o.Ok? then Book(o.state, b.marks - {id}) else b
  }

  /** From a state without mails and user rules, under either schema. */
  function After(unique: bool, run: History<Event>): Book {
    if run.Empty? then Book(State(unique, map[], map[], map[]), map[]) else Apply(After(unique, run.past), run.last)
  }

  /** Reviews are of pending mails, and undoing is of reviewed ones; only mails that passed arrive with a transaction. */
  predicate Proper(b: Book, e: Event) {
    match e
    case Arrive(id, mail, transaction) => transaction.Some? ==> mail.status.Passed?
    case Decide(user, id, action, result) => Owns(b.state, user, id) ==> b.state.mails[id].status.Pending?
    case TakeBack(user, id) => Owns(b.state, user, id) && !b.state.mails[id].status.Pending? ==> id in b.marks
  }

  ghost predicate ProperRun(unique: bool, run: History<Event>) {
    run.Then? ==> ProperRun(unique, run.past) && Proper(After(unique, run.past), run.last)
  }

  /** The user's mails of the domain that stand kept, or discarded. */
  function Standing(b: Book, key: Key): set<Id> {
    set id | id in b.marks && id in b.state.mails && b.state.mails[id].owner == key.user
             && b.state.mails[id].domain == key.domain
             && b.marks[id] == (if key.kind.AllowDomain? then Keep else Discard)
  }

  ghost predicate MarksFit(b: Book) {
    && (forall id :: id in b.marks ==>
          && id in b.state.mails
          && b.state.mails[id].status == (if b.marks[id].Keep? then Passed else Discarded)
          && !b.marks[id].Unknown?
          && (b.marks[id].Keep? ==> id in b.state.transactions))
    && (forall id :: id in b.state.transactions ==>
          id in b.state.mails && b.state.mails[id].status.Passed? && |b.state.transactions[id]| == 1)
  }

  ghost predicate CountFits(b: Book, key: Key) {
    Counts(b.state.rules, key, Standing(b, key))
  }

  /** The rule counts these mails. */
  ghost predicate Counts(rules: map<Key, nat>, key: Key, mails: set<Id>) {
    && (key in rules <==> key.domain != "" && mails != {})
    && (key in rules ==> rules[key] == |mails|)
  }

  lemma BumpFits(rules: map<Key, nat>, key: Key, mails: set<Id>, bumped: Key, id: Id)
    requires Counts(rules, key, mails) && id !in mails
    ensures Counts(Bumped(rules, bumped), key, if key == bumped then mails + {id} else mails)
  {
  }

  lemma DropFits(rules: map<Key, nat>, key: Key, mails: set<Id>, dropped: Key, id: Id)
    requires Counts(rules, key, mails) && (key == dropped <==> id in mails)
    ensures Counts(Dropped(rules, dropped), key, mails - {id})
  {
    if key == dropped {
      assert mails == mails - {id} + {id};
    } else {
      assert mails - {id} == mails;
    }
  }

  lemma DecideMarks(b: Book, user: Id, id: Id, action: Action, result: Option<string>)
    requires MarksFit(b)
    requires Decided(b.state, user, id, action, result).Ok? && b.state.mails[id].status.Pending?
    ensures MarksFit(Book(Decided(b.state, user, id, action, result).state, b.marks[id := action]))
  {
    hide Bumped;
  }

  lemma DecidedFrame(s: State, user: Id, id: Id, action: Action, result: Option<string>)
    requires Decided(s, user, id, action, result).Ok?
    ensures Owns(s, user, id) && !action.Unknown?
    ensures var after := Decided(s, user, id, action, result).state;
            && after.rules == Bumped(s.rules, KeyFor(s, user, id, action))
            && after.mails.Keys == s.mails.Keys
            && (forall other :: other in s.mails ==>
                  after.mails[other].owner == s.mails[other].owner && after.mails[other].domain == s.mails[other].domain)
  {
    hide Bumped;
  }

  /** A review moves the mail to the group of its decision, whatever it stood under before. */
  lemma DecideMoves(b: Book, user: Id, id: Id, action: Action, result: Option<string>, key: Key)
    requires MarksFit(b) && Decided(b.state, user, id, action, result).Ok?
    ensures var after := Book(Decided(b.state, user, id, action, result).state, b.marks[id := action]);
            && Standing(after, key)
                 == (if key == KeyFor(b.state, user, id, action) then Standing(b, key) + {id} else Standing(b, key) - {id})
            && after.state.rules == Bumped(b.state.rules, KeyFor(b.state, user, id, action))
            && (id in Standing(b, key) <==> id in b.marks && key == KeyFor(b.state, user, id, b.marks[id]))
  {
    DecidedFrame(b.state, user, id, action, result);
    hide Decided, Bumped;
  }

  lemma DecideFits(b: Book, user: Id, id: Id, action: Action, result: Option<string>, key: Key)
    requires MarksFit(b) && CountFits(b, key)
    requires Decided(b.state, user, id, action, result).Ok? && b.state.mails[id].status.Pending?
    ensures var after := Book(Decided(b.state, user, id, action, result).state, b.marks[id := action]);
            MarksFit(after) && CountFits(after, key)
  {
    DecideMarks(b, user, id, action, result);
    DecideMoves(b, user, id, action, result, key);
    assert id !in b.marks;
    hide MarksFit, Standing, Bumped, Counts, Decided;
    BumpFits(b.state.rules, key, Standing(b, key), KeyFor(b.state, user, id, action), id);
    assert id !in Standing(b, key) ==> Standing(b, key) - {id} == Standing(b, key);
  }

  lemma TakeBackMarks(b: Book, user: Id, id: Id, key: Key)
    requires MarksFit(b) && Owns(b.state, user, id) && id in b.marks
    ensures Undone(b.state, user, id).Ok?
    ensures var after := Book(Undone(b.state, user, id).state, b.marks - {id});
            && MarksFit(after)
            && Standing(after, key) == Standing(b, key) - {id}
            && after.state.rules == Dropped(b.state.rules, KeyFor(b.state, user, id, b.marks[id]))
            && (key == KeyFor(b.state, user, id, b.marks[id]) <==> id in Standing(b, key))
  {
    hide Dropped;
  }

  lemma TakeBackFits(b: Book, user: Id, id: Id, key: Key)
    requires MarksFit(b) && CountFits(b, key) && Owns(b.state, user, id) && id in b.marks
    ensures Undone(b.state, user, id).Ok?
    ensures var after := Book(Undone(b.state, user, id).state, b.marks - {id});
            MarksFit(after) && CountFits(after, key)
  {
    TakeBackMarks(b, user, id, key);
    hide MarksFit, Standing, Undone;
    DropFits(b.state.rules, key, Standing(b, key), KeyFor(b.state, user, id, b.marks[id]), id);
  }

  lemma ArriveFits(b: Book, id: Id, mail: Mail, transaction: Option<string>, key: Key)
    requires MarksFit(b) && CountFits(b, key) && (transaction.Some? ==> mail.status.Passed?)
    ensures var after := Apply(b, Arrive(id, mail, transaction));
            MarksFit(after) && CountFits(after, key)
  {
    assert Standing(Apply(b, Arrive(id, mail, transaction)), key) == Standing(b, key);
  }

  /**
   Over every proper run, each rule's hit count is the number of the user's mails of its domain that stand
   kept, or discarded, and the rule exists if and only if there are any. Every kept mail has one transaction, and
   no pending or discarded one has any.
   */
  lemma {:induction false} HitCountsAreExact(unique: bool, run: History<Event>, key: Key)
    requires ProperRun(unique, run)
    ensures MarksFit(After(unique, run)) && CountFits(After(unique, run), key)
  {
    if run.Then? {
      var b := After(unique, run.past);
      HitCountsAreExact(unique, run.past, key);
      match run.last
      case Arrive(id, mail, transaction) =>
        ArriveFits(b, id, mail, transaction, key);
      case Decide(user, id, action, result) =>
        if Decided(b.state, user, id, action, result).Ok? {
          DecideFits(b, user, id, action, result, key);
        }
      case TakeBack(user, id) =>
        if Owns(b.state, user, id) && id in b.marks {
          TakeBackFits(b, user, id, key);
        } else if Owns(b.state, user, id) {
          assert Apply(b, run.last).marks == b.marks;
        }
    }
  }

  // --- Requests that are not proper ---

  ghost predicate AllCountsFit(b: Book) {
    forall key :: CountFits(b, key)
  }

  /**
   The endpoint does not ask whether the mail is pending. A review that succeeds keeps all counts right if and
   only if the mail has no domain or stands under no review: keeping or discarding it again counts it twice,
   and changing one's mind leaves it counted under both decisions.
   */
  lemma {:induction false} DecideKeepsCountsIff(b: Book, user: Id, id: Id, action: Action, result: Option<string>)
    requires MarksFit(b) && AllCountsFit(b) && Decided(b.state, user, id, action, result).Ok?
    ensures AllCountsFit(Apply(b, Decide(user, id, action, result)))
            <==> b.state.mails[id].domain == "" || id !in b.marks
  {
    var after := Book(Decided(b.state, user, id, action, result).state, b.marks[id := action]);
    assert Apply(b, Decide(user, id, action, result)) == after;
    hide Decided, Apply, Bumped, Standing, Counts;
    if b.state.mails[id].domain == "" || id !in b.marks {
      forall key ensures CountFits(after, key) {
        DecideMoves(b, user, id, action, result, key);
        assert CountFits(b, key);
        HarmlessCount(b.state.rules, key, Standing(b, key), KeyFor(b.state, user, id, action), id);
      }
    } else {
      var stood := KeyFor(b.state, user, id, b.marks[id]);
      DecideMoves(b, user, id, action, result, stood);
      assert CountFits(b, stood);
      StaleCount(b.state.rules, stood, Standing(b, stood), KeyFor(b.state, user, id, action), id);
      assert !CountFits(after, stood);
    }
  }

  lemma HarmlessCount(rules: map<Key, nat>, key: Key, mails: set<Id>, bumped: Key, id: Id)
    requires Counts(rules, key, mails) && (id in mails ==> key.domain == "") && (bumped.domain == "" || id !in mails)
    ensures Counts(Bumped(rules, bumped), key, if key == bumped then mails + {id} else mails - {id})
  {
    if id !in mails {
      BumpFits(rules, key, mails, bumped, id);
      assert mails - {id} == mails;
    }
  }

  /** A mail already counted is counted once more, or is no longer there to be counted. */
  lemma StaleCount(rules: map<Key, nat>, key: Key, mails: set<Id>, bumped: Key, id: Id)
    requires Counts(rules, key, mails) && id in mails && key.domain != ""
    ensures !Counts(Bumped(rules, bumped), key, if key == bumped then mails + {id} else mails - {id})
  {
    assert mails + {id} == mails;
    assert mails == mails - {id} + {id};
  }

  /**
   Undoing the review of a mail that is not pending keeps all counts right if and only if the mail stands under a
   review, has no domain, or there is no rule to count down: otherwise it takes away the count of another mail.
   */
  lemma {:induction false} TakeBackKeepsCountsIff(b: Book, user: Id, id: Id)
    requires MarksFit(b) && AllCountsFit(b) && Owns(b.state, user, id) && !b.state.mails[id].status.Pending?
    ensures var key := KeyFor(b.state, user, id, if b.state.mails[id].status.Passed? then Keep else Discard);
            AllCountsFit(Apply(b, TakeBack(user, id)))
            <==> id in b.marks || key.domain == "" || key !in b.state.rules
  {
    var counted := KeyFor(b.state, user, id, if b.state.mails[id].status.Passed? then Keep else Discard);
    var after := Apply(b, TakeBack(user, id));
    if id in b.marks {
      forall key ensures CountFits(after, key) {
        assert CountFits(b, key);
        TakeBackFits(b, user, id, key);
      }
    } else {
      forall key ensures Standing(after, key) == Standing(b, key) && CountFits(b, key) {
        UndoMovesNothing(b, user, id, key);
      }
      assert after.state.rules == Dropped(b.state.rules, counted);
      hide MarksFit, Standing, Undone, Apply;
      if counted.domain != "" && counted in b.state.rules {
        assert !CountFits(after, counted);
      } else {
        assert forall key :: CountFits(after, key) <==> CountFits(b, key);
      }
    }
  }

  lemma UndoMovesNothing(b: Book, user: Id, id: Id, key: Key)
    requires MarksFit(b) && Owns(b.state, user, id) && id !in b.marks
    ensures Standing(Apply(b, TakeBack(user, id)), key) == Standing(b, key)
  {
    hide Dropped;
  }
}
