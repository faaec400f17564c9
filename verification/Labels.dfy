/** Label sets: sorted lists without duplicates, and the two merge loops over them. */
module Labels {
  import opened Common

  type LabelSet = s: seq<Label> | StrictlySorted(s) witness []

  /** Builds a label set from an arbitrary list. */
  function FromList(labels: seq<Label>): (r: LabelSet)
    ensures SameMembers(r, labels)
  {
    var r := SortDedup(labels);
    assert forall i :: 0 <= i < |r| ==> r[i] in r && r[i] in labels;
    r
  }

  ghost predicate IntersectionWithin(a: LabelSet, b: LabelSet, c: LabelSet) {
    forall x :: x in a && x in b ==> x in c
  }

  ghost predicate Share(a: LabelSet, b: LabelSet) {
    exists x :: x in a && x in b
  }

  /** Decides in one merge whether every label common to `a` and `b` is in `c`. */
  method ContainsIntersection(c: LabelSet, a: LabelSet, b: LabelSet) returns (r: bool)
    ensures r <==> IntersectionWithin(a, b, c)
  {
    var i, j, k := 0, 0, 0;
    while i < |a| && j < |b|
      invariant 0 <= i <= |a| && 0 <= j <= |b| && 0 <= k <= |c|
      invariant forall x :: x in a[..i] && x in b ==> x in c
      invariant forall x :: x in a && x in b[..j] ==> x in c
      invariant i < |a| ==> forall y :: y in b[..j] ==> y < a[i]
      invariant j < |b| ==> forall y :: y in a[..i] ==> y < b[j]
      invariant i < |a| && j < |b| ==> forall n :: 0 <= n < k ==> c[n] < a[i] || c[n] < b[j]
      decreases |a| - i + |b| - j
    {
      if a[i] == b[j] {
        while k < |c| && c[k] < a[i]
          invariant 0 <= k <= |c|
          invariant forall n :: 0 <= n < k ==> c[n] < a[i]
        {
          k := k + 1;
        }
        if k == |c| || c[k] > a[i] {
          assert a[i] !in c;
          return false;
        }
        assert c[k] == a[i];
        assert a[..i + 1] == a[..i] + [a[i]] && b[..j + 1] == b[..j] + [b[j]];
        i, j := i + 1, j + 1;
      } else if a[i] < b[j] {
        assert a[..i + 1] == a[..i] + [a[i]];
        assert a[i] !in b by { assert forall n :: j <= n < |b| ==> a[i] < b[n]; assert forall n :: 0 <= n < j ==> b[n] in b[..j]; }
        i := i + 1;
      } else {
        assert b[..j + 1] == b[..j] + [b[j]];
        assert b[j] !in a by { assert forall n :: i <= n < |a| ==> b[j] < a[n]; assert forall n :: 0 <= n < i ==> a[n] in a[..i]; }
        j := j + 1;
      }
    }
    assert a[..|a|] == a && b[..|b|] == b;
    return true;
  }

  /** Decides in one merge whether two label sets share a label. */
  method Overlaps(a: LabelSet, b: LabelSet) returns (r: bool)
    ensures r <==> Share(a, b)
  {
    var i, j := 0, 0;
    while i < |a| && j < |b|
      invariant 0 <= i <= |a| && 0 <= j <= |b|
      invariant forall x :: x in a[..i] ==> x !in b
      invariant forall x :: x in b[..j] ==> x !in a
      decreases |a| - i + |b| - j
    {
      if a[i] == b[j] {
        assert a[i] in a && a[i] in b;
        return true;
      } else if a[i] < b[j] {
        assert a[i] !in b by { assert forall n :: j <= n < |b| ==> a[i] < b[n]; assert forall n :: 0 <= n < j ==> b[n] in b[..j]; }
        assert a[..i + 1] == a[..i] + [a[i]];
        i := i + 1;
      } else {
        assert b[j] !in a by { assert forall n :: i <= n < |a| ==> b[j] < a[n]; assert forall n :: 0 <= n < i ==> a[n] in a[..i]; }
        assert b[..j + 1] == b[..j] + [b[j]];
        j := j + 1;
      }
    }
    assert a[..|a|] == a && b[..|b|] == b;
    return false;
  }

  /** Construction is canonical: it depends on the elements alone, and rebuilding changes nothing. */
  lemma FromListCanonical(xs: seq<Label>, ys: seq<Label>)
    ensures SameMembers(xs, ys) <==> FromList(xs) == FromList(ys)
    ensures FromList(FromList(xs)) == FromList(xs)
  {
    if SameMembers(xs, ys) {
      StrictlySortedUnique(FromList(xs), FromList(ys));
    }
    SortDedupIdempotent(FromList(xs));
  }
}
