/**
 * The dense-vector kernels: eight accumulators run side by side over whole blocks and a remainder is added at the end;
 * over real numbers they compute the plain sums.
 */
module Distance {
  import opened Arithmetic

  type Dense = seq<real>

  const LANES: nat := 8

  function SquaredGap(a: Dense, b: Dense, i: nat): real
    requires i < |a| == |b|
  {
    Square(a[i] - b[i])
  }

  function Product(a: Dense, b: Dense, i: nat): real
    requires i < |a| == |b|
  {
    a[i] * b[i]
  }

  /** The plain sum of the first `n` terms. */
  function Total(term: nat -> real, n: nat): real {
    if n == 0 then 0.0 else Total(term, n - 1) + term(n - 1)
  }

  function SquaredTerm(a: Dense, b: Dense): nat -> real
    requires |a| == |b|
  {
    (i: nat) => if i < |a| then SquaredGap(a, b, i) else 0.0
  }

  function ProductTerm(a: Dense, b: Dense): nat -> real
    requires |a| == |b|
  {
    (i: nat) => if i < |a| then Product(a, b, i) else 0.0
  }

  /** What one lane accumulates over the first `chunks` chunks. */
  function LaneTotal(term: nat -> real, lane: nat, chunks: nat): real {
    if chunks == 0 then 0.0 else LaneTotal(term, lane, chunks - 1) + term(LANES * (chunks - 1) + lane)
  }

  function SumLanes(lanes: seq<real>): real
    requires |lanes| == LANES
  {
    ((lanes[0] + lanes[4]) + (lanes[1] + lanes[5])) + ((lanes[2] + lanes[6]) + (lanes[3] + lanes[7]))
  }

  /** Eight consecutive terms. */
  function Chunk(term: nat -> real, n: nat): (t: seq<real>)
    ensures |t| == LANES && forall l :: 0 <= l < LANES ==> t[l] == term(n + l)
  {
    seq(LANES, l requires 0 <= l < LANES => term(n + l))
  }

  /** The lanes together hold the plain sum of everything in the chunks. */
  lemma {:induction false} LanesAddUp(term: nat -> real, chunks: nat, lanes: seq<real>)
    requires Accumulated(lanes, term, chunks)
    ensures SumLanes(lanes) == Total(term, LANES * chunks)
  {
    if chunks > 0 {
      hide LaneTotal, SumLanes, Total, Chunk;
      var n := LANES * (chunks - 1);
      var before := seq(LANES, l requires 0 <= l < LANES => LaneTotal(term, l, chunks - 1));
      LanesAddUp(term, chunks - 1, before);
      forall l | 0 <= l < LANES ensures lanes[l] == before[l] + Chunk(term, n)[l] {
        LaneStep(term, l, chunks);
      }
      EightLanes(before, lanes, Chunk(term, n));
      EightMore(term, n);
    }
  }

  lemma LaneStep(term: nat -> real, lane: nat, chunks: nat)
    requires chunks > 0
    ensures LaneTotal(term, lane, chunks) == LaneTotal(term, lane, chunks - 1) + term(LANES * (chunks - 1) + lane)
  {}

  lemma EightLanes(before: seq<real>, lanes: seq<real>, t: seq<real>)
    requires |before| == |lanes| == |t| == LANES && forall l :: 0 <= l < LANES ==> lanes[l] == before[l] + t[l]
    ensures SumLanes(lanes) == SumLanes(before) + SumLanes(t)
  {}

  lemma EightMore(term: nat -> real, n: nat)
    ensures Total(term, n + LANES) == Total(term, n) + SumLanes(Chunk(term, n))
  {
    hide Chunk;
    assert Total(term, n + 2) == Total(term, n) + term(n) + term(n + 1);
    assert Total(term, n + 4) == Total(term, n + 2) + term(n + 2) + term(n + 3);
    assert Total(term, n + 6) == Total(term, n + 4) + term(n + 4) + term(n + 5);
  }

  ghost predicate Accumulated(lanes: seq<real>, term: nat -> real, chunks: nat) {
    |lanes| == LANES && forall l :: 0 <= l < LANES ==> lanes[l] == LaneTotal(term, l, chunks)
  }

  /** One chunk adds one term to every lane. */
  method AddChunk(lanes: array<real>, term: nat -> real, c: nat)
    requires lanes.Length == LANES && Accumulated(lanes[..], term, c)
    modifies lanes
    ensures Accumulated(lanes[..], term, c + 1)
  {
    ghost var was := lanes[..];
    for lane := 0 to LANES
      invariant forall l :: 0 <= l < lane ==> lanes[l] == LaneTotal(term, l, c + 1)
      invariant forall l :: lane <= l < LANES ==> lanes[l] == was[l]
    {
      lanes[lane] := lanes[lane] + term(LANES * c + lane);
    }
  }

  /** The loop shared by both kernels. */
  method SumInLanes(term: nat -> real, length: nat) returns (sum: real)
    ensures sum == Total(term, length)
  {
    var lanes := new real[LANES](_ => 0.0);
    var chunks := length / LANES;
    Fresh(lanes[..], term);
    for c := 0 to chunks
      invariant Accumulated(lanes[..], term, c)
    {
      AddChunk(lanes, term, c);
    }
    LanesAddUp(term, chunks, lanes[..]);
    sum := SumLanes(lanes[..]);
    for i := LANES * chunks to length
      invariant sum == Total(term, i)
    {
      sum := sum + term(i);
    }
  }

  lemma Fresh(lanes: seq<real>, term: nat -> real)
    requires |lanes| == LANES && forall l :: 0 <= l < LANES ==> lanes[l] == 0.0
    ensures Accumulated(lanes, term, 0)
  {}

  method DistanceL2(a: Dense, b: Dense) returns (d: real)
    requires |a| == |b|
    ensures d == Total(SquaredTerm(a, b), |a|) && d >= 0.0
  {
    d := SumInLanes(SquaredTerm(a, b), |a|);
    SquaresNonNegative(a, b, |a|);
  }

  method InnerProduct(a: Dense, b: Dense) returns (p: real)
    requires |a| == |b|
    ensures p == Total(ProductTerm(a, b), |a|)
  {
    p := SumInLanes(ProductTerm(a, b), |a|);
  }

  method DistanceInnerProduct(a: Dense, b: Dense) returns (d: real)
    requires |a| == |b|
    ensures d == -Total(ProductTerm(a, b), |a|)
  {
    var p := InnerProduct(a, b);
    d := -p;
  }

  /** Clamped at zero: rounding aside, equal unit vectors are at distance zero and none is closer. */
  method DistanceCosine(a: Dense, b: Dense) returns (d: real)
    requires |a| == |b|
    ensures d >= 0.0 && d >= 1.0 - Total(ProductTerm(a, b), |a|)
    ensures d == 0.0 || d == 1.0 - Total(ProductTerm(a, b), |a|)
  {
    var p := InnerProduct(a, b);
    d := if 1.0 - p > 0.0 then 1.0 - p else 0.0;
  }

  lemma {:induction false} SquaresNonNegative(a: Dense, b: Dense, n: nat)
    requires |a| == |b|
    ensures Total(SquaredTerm(a, b), n) >= 0.0
  {
    if n > 0 {
      SquaresNonNegative(a, b, n - 1);
    }
  }

  lemma {:induction false} SameTerms(f: nat -> real, g: nat -> real, n: nat)
    requires forall i: nat :: i < n ==> f(i) == g(i)
    ensures Total(f, n) == Total(g, n)
  {
    if n > 0 {
      SameTerms(f, g, n - 1);
    }
  }

  /** Both plain sums are symmetric, and the squared distance of a vector to itself is zero. */
  lemma {:induction false} Symmetric(a: Dense, b: Dense)
    requires |a| == |b|
    ensures Total(SquaredTerm(a, b), |a|) == Total(SquaredTerm(b, a), |a|)
    ensures Total(ProductTerm(a, b), |a|) == Total(ProductTerm(b, a), |a|)
  {
    forall i: nat | i < |a| ensures SquaredTerm(a, b)(i) == SquaredTerm(b, a)(i) {
      NegatedSquare(a[i], b[i]);
    }
    SameTerms(SquaredTerm(a, b), SquaredTerm(b, a), |a|);
    SameTerms(ProductTerm(a, b), ProductTerm(b, a), |a|);
  }

  lemma NegatedSquare(x: real, y: real)
    ensures Square(x - y) == Square(y - x)
  {}

  /** A squared distance is zero exactly between equal vectors. */
  lemma ZeroIffEqual(a: Dense, b: Dense)
    requires |a| == |b|
    ensures Total(SquaredTerm(a, b), |a|) == 0.0 <==> a == b
  {
    if a != b {
      var i :| 0 <= i < |a| && a[i] != b[i];
      PositiveFrom(a, b, i, |a|);
    } else {
      AllZero(a, |a|);
    }
  }

  lemma {:induction false} AllZero(a: Dense, n: nat)
    requires n <= |a|
    ensures Total(SquaredTerm(a, a), n) == 0.0
  {
    if n > 0 {
      AllZero(a, n - 1);
    }
  }

  lemma {:induction false} PositiveFrom(a: Dense, b: Dense, i: nat, n: nat)
    requires |a| == |b| && i < n <= |a| && a[i] != b[i]
    ensures Total(SquaredTerm(a, b), n) > 0.0
  {
    hide SquaredGap;
    SquaresNonNegative(a, b, n - 1);
    GapSign(a, b, n - 1);
    assert SquaredTerm(a, b)(n - 1) == SquaredGap(a, b, n - 1);
    if i < n - 1 {
      PositiveFrom(a, b, i, n - 1);
    }
  }

  lemma GapSign(a: Dense, b: Dense, i: nat)
    requires i < |a| == |b|
    ensures SquaredGap(a, b, i) >= 0.0 && (a[i] != b[i] ==> SquaredGap(a, b, i) > 0.0)
  {
    Sign(a[i] - b[i]);
  }

  lemma Sign(x: real)
    ensures Square(x) >= 0.0 && (x != 0.0 ==> Square(x) > 0.0)
  {
    if x > 0.0 {
      Positive(x);
    } else if x < 0.0 {
      Positive(-x);
      Flipped(x);
    }
  }

  lemma Positive(x: real)
    requires x > 0.0
    ensures Square(x) > 0.0
  {
    hide Mul;
    PositiveProduct(x, x);
  }

  lemma PositiveProduct(x: real, y: real)
    requires x > 0.0 && y > 0.0
    ensures Mul(x, y) > 0.0
  {}

  lemma Flipped(x: real)
    ensures Square(-x) == Square(x)
  {}
}
