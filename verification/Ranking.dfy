/**
 * Ordering by `(distance, node id)` and the stable sort every ranked list goes through: the sorted list is the only
 * ranked arrangement of its elements.
 */
module Ranking {
  import opened Common

  datatype Rank = Rank(distance: real, id: NodeId)

  predicate Less(a: Rank, b: Rank) {
    a.distance < b.distance || (a.distance == b.distance && a.id < b.id)
  }

  predicate LessEq(a: Rank, b: Rank) { !Less(b, a) }

  ghost predicate SortedBy<T(!new)>(s: seq<T>, key: T -> Rank) {
    forall i, j :: 0 <= i < j < |s| ==> LessEq(key(s[i]), key(s[j]))
  }

  function InsertRanked<T(!new)>(x: T, s: seq<T>, key: T -> Rank): (r: seq<T>)
    requires SortedBy(s, key)
    ensures |r| == |s| + 1
    ensures forall y :: y in r <==> y == x || y in s
    ensures SortedBy(r, key)
  {
    if s == [] then [x]
    else if LessEq(key(x), key(s[0])) then [x] + s
    else
      assert s == [s[0]] + s[1..];
      var rest := InsertRanked(x, s[1..], key);
      assert forall y :: y in s[1..] ==> LessEq(key(s[0]), key(y));
      assert forall i :: 0 <= i < |rest| ==> rest[i] in rest;
      [s[0]] + rest
  }

  /** Stable sort: an element never moves past an equally ranked one. */
  function SortRanked<T(!new)>(s: seq<T>, key: T -> Rank): (r: seq<T>)
    ensures |r| == |s|
    ensures SameMembers(r, s)
    ensures SortedBy(r, key)
  {
    if s == [] then []
    else
      assert s == [s[0]] + s[1..];
      InsertRanked(s[0], SortRanked(s[1..], key), key)
  }

  lemma {:induction false} InsertIsPermutation<T(!new)>(x: T, s: seq<T>, key: T -> Rank)
    requires SortedBy(s, key)
    ensures multiset(InsertRanked(x, s, key)) == multiset(s) + multiset{x}
  {
    if s != [] && !LessEq(key(x), key(s[0])) {
      InsertIsPermutation(x, s[1..], key);
      assert s == [s[0]] + s[1..];
    }
  }

  lemma {:induction false} SortIsPermutation<T(!new)>(s: seq<T>, key: T -> Rank)
    ensures multiset(SortRanked(s, key)) == multiset(s)
  {
    if s != [] {
      assert s == [s[0]] + s[1..];
      SortIsPermutation(s[1..], key);
      InsertIsPermutation(s[0], SortRanked(s[1..], key), key);
    }
  }

  lemma {:induction false} InsertKeepsDistinct<T(!new)>(x: T, s: seq<T>, key: T -> Rank)
    requires SortedBy(s, key)
    requires Distinct(s) && x !in s
    ensures Distinct(InsertRanked(x, s, key))
  {
    if s != [] && !LessEq(key(x), key(s[0])) {
      InsertKeepsDistinct(x, s[1..], key);
      var rest := InsertRanked(x, s[1..], key);
      assert s[0] !in s[1..];
      assert forall i :: 0 <= i < |rest| ==> rest[i] in rest && rest[i] != s[0];
    }
  }

  lemma {:induction false} SortKeepsDistinct<T(!new)>(s: seq<T>, key: T -> Rank)
    requires Distinct(s)
    ensures Distinct(SortRanked(s, key))
  {
    if s != [] {
      SortKeepsDistinct(s[1..], key);
      assert s[0] !in s[1..];
      InsertKeepsDistinct(s[0], SortRanked(s[1..], key), key);
    }
  }

  /** A ranked list is determined by its members when no two of them share a rank. */
  lemma {:induction false} RankedListUnique<T(!new)>(a: seq<T>, b: seq<T>, key: T -> Rank)
    requires SortedBy(a, key) && SortedBy(b, key)
    requires Distinct(a) && Distinct(b)
    requires SameMembers(a, b)
    requires forall x, y :: x in a && y in a && key(x) == key(y) ==> x == y
    ensures a == b
  {
    assert a != [] ==> a[0] in b;
    assert b != [] ==> b[0] in a;
    if a != [] && b != [] {
      assert a[0] in b && b[0] in a;
      assert LessEq(key(a[0]), key(b[0])) && LessEq(key(b[0]), key(a[0]));
      assert a == [a[0]] + a[1..] && b == [b[0]] + b[1..];
      forall x ensures x in a[1..] <==> x in b[1..] {
        assert x in a[1..] <==> x in a && x != a[0];
        assert x in b[1..] <==> x in b && x != b[0];
      }
      RankedListUnique(a[1..], b[1..], key);
    }
  }

  /** Some member of a non-empty set of ids is ranked before all others. */
  lemma {:induction false} ClosestExists(ids: set<NodeId>, score: map<NodeId, real>)
    requires ids != {} && ids <= score.Keys
    ensures exists id :: IsClosest(id, ids, score)
    decreases ids
  {
    var x :| x in ids;
    if ids == {x} {
      assert IsClosest(x, ids, score);
    } else {
      ClosestExists(ids - {x}, score);
      var y :| IsClosest(y, ids - {x}, score);
      if Less(Rank(score[x], x), Rank(score[y], y)) {
        assert IsClosest(x, ids, score);
      } else {
        assert IsClosest(y, ids, score);
      }
    }
  }

  ghost predicate IsClosest(id: NodeId, ids: set<NodeId>, score: map<NodeId, real>)
    requires ids <= score.Keys
  {
    id in ids && forall other :: other in ids ==> LessEq(Rank(score[id], id), Rank(score[other], other))
  }

  /** The member ranked first by `(distance, id)`. */
  ghost function Closest(ids: set<NodeId>, score: map<NodeId, real>): (id: NodeId)
    requires ids != {} && ids <= score.Keys
    ensures IsClosest(id, ids, score)
  {
    ClosestExists(ids, score);
    var id :| IsClosest(id, ids, score);
    id
  }
}
