/**
 * Shared vocabulary: identifiers, error kinds, and strictly increasing lists; the elements of a list and its
 * prefixes; sorting with removal of repetitions, as label sets and id lists need it.
 */
module Common {

  datatype Option<+T> = None | Some(value: T)

  datatype Result<+T> = Ok(value: T) | Err(error: Error)

  /** The error kinds the modelled operations can return; messages are dropped. */
  datatype Error =
    | StorageNotFound
    | VersionMismatch
    | BatchTooLarge
    | BudgetExceeded
    | InvalidConfig
    | InvalidNodeRecord
    | InvalidStorageState
    | InvalidDistance
    | InvalidDimension
    | OffsetUnavailable
    | QuantizerState
    | DuplicateExternalId
    | UnknownExternalId
    | StorageFault

  type NodeId = nat

  /** Labels are 16-bit signed integers. */
  type Label = i: int | -32768 <= i < 32768

  /** Sentinel start node of an empty manifest. */
  const EMPTY_START_NODE: NodeId := 0

  /** Single-precision machine epsilon, 2^-23. */
  const EPSILON: real := 1.0 / 8388608.0

  function Min(a: nat, b: nat): nat { if a <= b then a else b }

  function Max(a: nat, b: nat): nat { if a <= b then b else a }

  ghost predicate Distinct<T>(s: seq<T>) {
    forall i, j :: 0 <= i < j < |s| ==> s[i] != s[j]
  }

  function Elements<T>(s: seq<T>): set<T> { set x | x in s }

  /** A list without repetitions is exactly as long as its element set is large. */
  lemma {:induction false} DistinctSize<T>(s: seq<T>)
    requires Distinct(s)
    ensures |Elements(s)| == |s|
  {
    if s == [] {
      assert Elements(s) == {};
    } else {
      var rest, last := s[..|s| - 1], s[|s| - 1];
      DistinctSize(rest);
      assert s == rest + [last];
      ElementsSnoc(rest, last);
      assert last !in Elements(rest);
    }
  }

  /** The set {0, ..., n - 1}. */
  function Below(n: nat): (r: set<nat>)
    ensures forall j: nat :: j in r <==> j < n
    ensures |r| == n
  {
    if n == 0 then {} else Below(n - 1) + {n - 1}
  }

  /** The ids {1, ..., n}. */
  function OneTo(n: nat): (r: set<NodeId>)
    ensures forall j: NodeId :: j in r <==> 1 <= j <= n
    ensures |r| == n
  {
    if n == 0 then {} else OneTo(n - 1) + {n}
  }

  ghost predicate IdsWithin(ids: seq<NodeId>, n: nat) {
    forall k :: 0 <= k < |ids| ==> 1 <= ids[k] <= n
  }

  ghost predicate InRange(at: seq<nat>, n: nat) {
    forall i :: 0 <= i < |at| ==> at[i] < n
  }

  lemma ElementsSnoc<T>(s: seq<T>, x: T)
    ensures Elements(s + [x]) == Elements(s) + {x}
  {}

  lemma DistinctSnoc<T>(s: seq<T>, x: T)
    requires Distinct(s) && x !in Elements(s)
    ensures Distinct(s + [x]) && Elements(s + [x]) == Elements(s) + {x}
  {
    ElementsSnoc(s, x);
    assert forall i :: 0 <= i < |s| ==> s[i] in Elements(s);
  }

  /** Taking one element more adds it to the elements seen. */
  lemma TakeSnoc<T>(s: seq<T>, j: nat)
    requires j < |s|
    ensures s[..j + 1] == s[..j] + [s[j]]
    ensures Elements(s[..j + 1]) == Elements(s[..j]) + {s[j]}
    ensures Elements(s[..j + 1]) <= Elements(s)
  {
    assert s[..j + 1] == s[..j] + [s[j]];
    ElementsSnoc(s[..j], s[j]);
  }

  lemma TakeEnds<T>(s: seq<T>)
    ensures Elements(s[..0]) == {} && s[..|s|] == s
  {}

  lemma SubsetSize<T>(a: set<T>, b: set<T>)
    requires a <= b
    ensures |a| <= |b|
  {
    assert |b| == |a| + |b - a| by { assert b == a + (b - a); }
  }

  /** The list form of a sorted vector after removing duplicates. */
  predicate StrictlySorted(s: seq<int>) {
    forall i, j :: 0 <= i < j < |s| ==> s[i] < s[j]
  }

  ghost predicate SameMembers<T(!new)>(a: seq<T>, b: seq<T>) {
    forall x :: x in a <==> x in b
  }

  function InsertSorted(x: int, s: seq<int>): (r: seq<int>)
    requires StrictlySorted(s)
    ensures StrictlySorted(r)
    ensures forall y :: y in r <==> y == x || y in s
  {
    if s == [] then [x]
    else if x < s[0] then [x] + s
    else if x == s[0] then s
    else
      assert s == [s[0]] + s[1..];
      var rest := InsertSorted(x, s[1..]);
      assert forall y :: y in s[1..] ==> s[0] < y;
      assert forall y :: y in rest ==> s[0] < y;
      assert forall i :: 0 <= i < |rest| ==> rest[i] in rest;
      [s[0]] + rest
  }

  /** `sort_unstable` followed by `dedup`. */
  function SortDedup(s: seq<int>): (r: seq<int>)
    ensures StrictlySorted(r)
    ensures SameMembers(r, s)
  {
    if s == [] then []
    else
      assert s == [s[0]] + s[1..];
      InsertSorted(s[0], SortDedup(s[1..]))
  }

  /** Two strictly sorted lists over the same elements are the same list. */
  lemma {:induction false} StrictlySortedUnique(a: seq<int>, b: seq<int>)
    requires StrictlySorted(a) && StrictlySorted(b)
    requires SameMembers(a, b)
    ensures a == b
  {
    assert a != [] ==> a[0] in b;
    assert b != [] ==> b[0] in a;
    if a != [] && b != [] {
      assert a[0] == b[0];
      assert a == [a[0]] + a[1..] && b == [b[0]] + b[1..];
      forall x ensures x in a[1..] <==> x in b[1..] {
        assert x in a[1..] <==> x in a && x != a[0];
        assert x in b[1..] <==> x in b && x != b[0];
      }
      StrictlySortedUnique(a[1..], b[1..]);
    }
  }

  lemma {:induction false} MaxExists(s: set<nat>)
    requires s != {}
    ensures exists m :: IsMax(m, s)
    decreases s
  {
    var x :| x in s;
    if s == {x} {
      assert IsMax(x, s);
    } else {
      MaxExists(s - {x});
      var y :| IsMax(y, s - {x});
      var m := if x < y then y else x;
      forall z | z in s ensures z <= m { assert z == x || z in s - {x}; }
      assert IsMax(m, s);
    }
  }

  predicate IsMax(m: nat, s: set<nat>) { m in s && forall x :: x in s ==> x <= m }

  /** The largest member, or zero. */
  function MaxOrZero(s: set<nat>): (m: nat)
    ensures forall x :: x in s ==> x <= m
    ensures m == 0 || m in s
  {
    if s == {} then 0
    else
      MaxExists(s);
      var m: nat :| IsMax(m, s);
      m
  }

  predicate IsLeast(m: Label, s: set<Label>) {
    m in s && forall x :: x in s ==> m <= x
  }

  lemma {:induction false} LeastExists(s: set<Label>)
    requires s != {}
    ensures exists m :: IsLeast(m, s)
    decreases s
  {
    var y :| y in s;
    if s == {y} {
      assert IsLeast(y, s);
    } else {
      LeastExists(s - {y});
      var m :| IsLeast(m, s - {y});
      var least := if y < m then y else m;
      forall x | x in s ensures least <= x {
        assert x == y || x in s - {y};
      }
      assert IsLeast(least, s);
    }
  }

  /** The keys of a tree map or tree set in iteration order. */
  function Ascending(s: set<Label>): (r: seq<Label>)
    ensures StrictlySorted(r)
    ensures forall x: Label :: x in r <==> x in s
  {
    if s == {} then []
    else
      LeastExists(s);
      var least :| IsLeast(least, s);
      var rest := Ascending(s - {least});
      assert forall i :: 0 <= i < |rest| ==> rest[i] in rest && least < rest[i];
      [least] + rest
  }

  lemma SortDedupIdempotent(s: seq<int>)
    requires StrictlySorted(s)
    ensures SortDedup(s) == s
  {
    StrictlySortedUnique(SortDedup(s), s);
  }
}
