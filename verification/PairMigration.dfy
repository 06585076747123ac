/**
 The preflight of the migration that makes duplicate pairs unique whichever way round: two deletions
 over the table as it is, after which the symmetric unique index can be built.
 */
module PairMigration {

  datatype Row = Row(id: string, primary: nat, duplicate: nat)

  /** Text order on row ids. */
  predicate Less(a: string, b: string) {
    if b == "" then false
    else if a == "" then true
    else a[0] < b[0] || (a[0] == b[0] && Less(a[1..], b[1..]))
  }

  lemma {:induction false} LessIsTotalOrder(a: string, b: string, c: string)
    ensures !(Less(a, b) && Less(b, a))
    ensures a != b ==> Less(a, b) || Less(b, a)
    ensures Less(a, b) && Less(b, c) ==> Less(a, c)
  {
    if a != "" && b != "" {
      LessIsTotalOrder(a[1..], b[1..], if c == "" then "" else c[1..]);
      assert a == [a[0]] + a[1..] && b == [b[0]] + b[1..];
    }
  }

  predicate Mirrors(r: Row, q: Row) {
    r.primary == q.duplicate && r.duplicate == q.primary
  }

  predicate SameColumns(r: Row, q: Row) {
    r.primary == q.primary && r.duplicate == q.duplicate
  }

  predicate SamePair(r: Row, q: Row) {
    SameColumns(r, q) || Mirrors(r, q)
  }

  /** The id column is a key. */
  predicate Keyed(rows: set<Row>) {
    forall r, q :: r in rows && q in rows && r.id == q.id ==> r == q
  }

  /** What the symmetric unique index demands. */
  predicate SymmetricallyUnique(rows: set<Row>) {
    forall r, q :: r in rows && q in rows && SamePair(r, q) ==> r == q
  }

  /** No row about the same two transactions has a smaller id. */
  predicate Smallest(rows: set<Row>, r: Row) {
    forall q :: q in rows && SamePair(q, r) ==> !Less(q.id, r.id)
  }

  class DuplicatePairs {
    var rows: set<Row>

    /** Both deletions evaluate their conditions on the whole table before they delete. */
    method Preflight()
      requires Keyed(rows)
      modifies this
      ensures rows == set r | r in old(rows) && Smallest(old(rows), r)
      ensures SymmetricallyUnique(rows)
      ensures forall r :: r in old(rows) ==> exists q :: q in rows && SamePair(q, r)
    {
      ghost var before := rows;
      rows := rows - (set r | r in rows && exists q :: q in rows && Mirrors(r, q) && Less(q.id, r.id));
      ghost var between := rows;
      rows := rows - (set r | r in rows && exists q :: q in rows && SameColumns(r, q) && Less(q.id, r.id));
      SmallestRemain(before, between, rows);
      OnePerPair(before);
      forall r | r in before ensures exists q :: q in rows && SamePair(q, r) {
        var q := SmallestOf(before, r);
      }
    }
  }

  /** Together the two deletions leave exactly the smallest row of each unordered pair. */
  lemma SmallestRemain(before: set<Row>, between: set<Row>, after: set<Row>)
    requires Keyed(before)
    requires between == set r | r in before && !exists q :: q in before && Mirrors(r, q) && Less(q.id, r.id)
    requires after == set r | r in between && !exists q :: q in between && SameColumns(r, q) && Less(q.id, r.id)
    ensures after == set r | r in before && Smallest(before, r)
  {
    forall r | r in between && !Smallest(before, r) ensures r !in after {
      // The smallest row of the pair survives the first deletion and blocks `r` in the second.
      var q := SmallestOf(before, r);
      assert q in between && Less(q.id, r.id);
    }
    assert forall r :: r in before && Smallest(before, r) ==> r in after;
  }

  /** Every row has a smallest row of its pair. */
  lemma SmallestOf(rows: set<Row>, r: Row) returns (q: Row)
    requires r in rows
    ensures q in rows && SamePair(q, r) && Smallest(rows, q)
    ensures q == r || Less(q.id, r.id)
  {
    q := r;
    var left := set p | p in rows && SamePair(p, r) && Less(p.id, r.id);
    while left != {}
      invariant q in rows && SamePair(q, r) && (q == r || Less(q.id, r.id))
      invariant left == set p | p in rows && SamePair(p, r) && Less(p.id, q.id)
      decreases left
    {
      var p :| p in left;
      forall x: Row ensures Less(x.id, p.id) ==> Less(x.id, q.id) && x.id != p.id {
        LessIsTotalOrder(x.id, p.id, q.id);
        LessIsTotalOrder(p.id, p.id, p.id);
      }
      LessIsTotalOrder(p.id, q.id, r.id);
      var smaller := set x | x in rows && SamePair(x, r) && Less(x.id, p.id);
      assert smaller <= left && p !in smaller;
      q, left := p, smaller;
    }
    forall x | x in rows && SamePair(x, q) ensures !Less(x.id, q.id) {
      assert SamePair(x, r);
      assert x !in left;
    }
  }

  lemma OnePerPair(rows: set<Row>)
    requires Keyed(rows)
    ensures SymmetricallyUnique(set r | r in rows && Smallest(rows, r))
  {
    forall r, q | r in rows && Smallest(rows, r) && q in rows && Smallest(rows, q) && SamePair(r, q) ensures r == q {
      assert SamePair(q, r);
      LessIsTotalOrder(r.id, q.id, r.id);
    }
  }
}
