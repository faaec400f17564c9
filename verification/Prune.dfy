/** Neighbour selection by escalating-alpha occlusion. */
module Prune {
  import opened Common
  import opened Labels
  import opened Ranking
  import opened Records

  type Metric = (RoutingVector, RoutingVector) -> real

  /** A candidate together with its routing distance to the node whose list is being pruned. */
  datatype PruneCandidate = PruneCandidate(id: NodeId, distance: real, routing: RoutingVector, labels: LabelSet)

  datatype PruneRule = PruneRule(
    base: LabelSet,
    hasLabels: bool,
    maxAlpha: real,
    maxNeighbors: nat,
    between: Metric)

  /** Ratio of two distances; `Huge` stands for the largest finite float, above every alpha. */
  datatype Factor = Finite(ratio: real) | Huge

  function Abs(x: real): real { if x < 0.0 then -x else x }

  function DistanceFactor(pointDistance: real, neighborDistance: real): Factor {
    if Abs(neighborDistance) < EPSILON then
      if Abs(pointDistance) < EPSILON then Finite(1.0) else Huge
    else
      Finite(pointDistance / neighborDistance)
  }

  predicate Exceeds(f: Factor, alpha: real) {
    f.Huge? || f.ratio > alpha
  }

  function MaxFactor(f: Factor, g: Factor): Factor {
    if f.Huge? || g.Huge? then Huge else if f.ratio < g.ratio then g else f
  }

  /** The escalation ladder 1, 1.2, 1.44, ... */
  function Alpha(round: nat): (alpha: real)
    ensures alpha >= 1.0
  {
    if round == 0 then 1.0 else Alpha(round - 1) * 1.2
  }

  /** A candidate position chosen in an escalation round. */
  datatype Pick = Pick(index: nat, round: nat)

  function Indices(picks: seq<Pick>): (r: seq<nat>)
    ensures |r| == |picks|
    ensures forall k :: 0 <= k < |r| ==> r[k] == picks[k].index
  {
    seq(|picks|, k requires 0 <= k < |picks| => picks[k].index)
  }

  ghost predicate Picked(picks: seq<Pick>, i: nat) {
    exists k :: 0 <= k < |picks| && picks[k].index == i
  }

  /** The pair is left alone because its common labels are not all labels of the base. */
  ghost predicate Exempt(rule: PruneRule, a: PruneCandidate, b: PruneCandidate) {
    rule.hasLabels && rule.base != [] && !IntersectionWithin(a.labels, b.labels, rule.base)
  }

  function Occlusion(rule: PruneRule, near: PruneCandidate, far: PruneCandidate): Factor {
    DistanceFactor(far.distance, rule.between(near.routing, far.routing))
  }

  /** Some earlier-picked nearer candidate occludes candidate `j` beyond `alpha`. */
  ghost predicate Blocked(rule: PruneRule, cands: seq<PruneCandidate>, picks: seq<Pick>, j: nat, alpha: real)
    requires j < |cands|
  {
    exists k :: 0 <= k < |picks| && BlockedBy(rule, cands, picks[k].index, j, alpha)
  }

  ghost predicate BlockedBy(rule: PruneRule, cands: seq<PruneCandidate>, i: nat, j: nat, alpha: real)
    requires j < |cands|
  {
    i < j && !Exempt(rule, cands[i], cands[j]) && Exceeds(Occlusion(rule, cands[i], cands[j]), alpha)
  }

  /** Pick `k` is admissible, and it is the first admissible candidate of the lowest possible round. */
  ghost predicate GreedyAt(rule: PruneRule, cands: seq<PruneCandidate>, picks: seq<Pick>, k: nat)
    requires k < |picks|
  {
    && picks[k].index < |cands|
    && !Picked(picks[..k], picks[k].index)
    && Alpha(picks[k].round) <= rule.maxAlpha
    && !Blocked(rule, cands, picks[..k], picks[k].index, Alpha(picks[k].round))
    && (forall j: nat :: j < picks[k].index && !Picked(picks[..k], j) ==>
          Blocked(rule, cands, picks[..k], j, Alpha(picks[k].round)))
    && (picks[k].round > 0 ==>
          forall j: nat :: j < |cands| && !Picked(picks[..k], j) ==>
            Blocked(rule, cands, picks[..k], j, Alpha(picks[k].round - 1)))
  }

  ghost predicate Greedy(rule: PruneRule, cands: seq<PruneCandidate>, picks: seq<Pick>) {
    && |picks| <= rule.maxNeighbors
    && forall k: nat :: k < |picks| ==> GreedyAt(rule, cands, picks, k)
  }

  /** State of a sweep at position `i`: what was passed over is blocked, now and in earlier rounds. */
  ghost predicate Swept(rule: PruneRule, cands: seq<PruneCandidate>, picks: seq<Pick>, i: nat, round: nat) {
    && i <= |cands|
    && Greedy(rule, cands, picks)
    && Alpha(round) <= rule.maxAlpha
    && (forall j: nat :: j < i && !Picked(picks, j) ==> Blocked(rule, cands, picks, j, Alpha(round)))
    && (round > 0 ==> forall j: nat :: j < |cands| && !Picked(picks, j) ==>
          Blocked(rule, cands, picks, j, Alpha(round - 1)))
  }

  lemma BlockedGrows(rule: PruneRule, cands: seq<PruneCandidate>, picks: seq<Pick>, p: Pick, j: nat, alpha: real)
    requires j < |cands|
    ensures Blocked(rule, cands, picks + [p], j, alpha) <==>
              Blocked(rule, cands, picks, j, alpha) || BlockedBy(rule, cands, p.index, j, alpha)
    ensures Picked(picks + [p], j) <==> Picked(picks, j) || p.index == j
  {
    var more := picks + [p];
    assert more[|picks|] == p;
    assert forall k :: 0 <= k < |picks| ==> more[k] == picks[k];
  }

  lemma GreedySnoc(rule: PruneRule, cands: seq<PruneCandidate>, picks: seq<Pick>, p: Pick)
    requires Greedy(rule, cands, picks) && |picks| < rule.maxNeighbors
    requires GreedyAt(rule, cands, picks + [p], |picks|)
    ensures Greedy(rule, cands, picks + [p])
  {
    var more := picks + [p];
    forall k: nat | k < |picks| ensures GreedyAt(rule, cands, more, k) {
      assert more[..k] == picks[..k] && more[k] == picks[k];
      assert GreedyAt(rule, cands, picks, k);
    }
  }

  lemma ExtendGreedy(rule: PruneRule, cands: seq<PruneCandidate>, picks: seq<Pick>, i: nat, round: nat)
    requires Swept(rule, cands, picks, i, round)
    requires |picks| < rule.maxNeighbors && i < |cands|
    requires !Picked(picks, i) && !Blocked(rule, cands, picks, i, Alpha(round))
    ensures Swept(rule, cands, picks + [Pick(i, round)], i + 1, round)
  {
    var p := Pick(i, round);
    var more := picks + [p];
    assert more[..|picks|] == picks && more[|picks|] == p;
    GreedySnoc(rule, cands, picks, p);
    forall j: nat | j < i + 1 && !Picked(more, j) ensures Blocked(rule, cands, more, j, Alpha(round)) {
      BlockedGrows(rule, cands, picks, p, j, Alpha(round));
    }
    if round > 0 {
      forall j: nat | j < |cands| && !Picked(more, j) ensures Blocked(rule, cands, more, j, Alpha(round - 1)) {
        BlockedGrows(rule, cands, picks, p, j, Alpha(round - 1));
      }
    }
  }

  /** One left-to-right pass at a fixed alpha. */
  ghost function Sweep(rule: PruneRule, cands: seq<PruneCandidate>, picks: seq<Pick>, i: nat, round: nat): seq<Pick>
    decreases |cands| - i
  {
    if i >= |cands| || |picks| >= rule.maxNeighbors then picks
    else if Picked(picks, i) || Blocked(rule, cands, picks, i, Alpha(round)) then
      Sweep(rule, cands, picks, i + 1, round)
    else
      Sweep(rule, cands, picks + [Pick(i, round)], i + 1, round)
  }

  lemma {:induction false} SweepFacts(rule: PruneRule, cands: seq<PruneCandidate>, picks: seq<Pick>, i: nat, round: nat)
    requires Swept(rule, cands, picks, i, round)
    ensures picks <= Sweep(rule, cands, picks, i, round)
    ensures Greedy(rule, cands, Sweep(rule, cands, picks, i, round))
    ensures |Sweep(rule, cands, picks, i, round)| < rule.maxNeighbors ==>
      Swept(rule, cands, Sweep(rule, cands, picks, i, round), |cands|, round)
    decreases |cands| - i
  {
    if i < |cands| && |picks| < rule.maxNeighbors {
      if Picked(picks, i) || Blocked(rule, cands, picks, i, Alpha(round)) {
        SweepFacts(rule, cands, picks, i + 1, round);
      } else {
        ExtendGreedy(rule, cands, picks, i, round);
        SweepFacts(rule, cands, picks + [Pick(i, round)], i + 1, round);
      }
    }
  }

  /** The ladder stays below any bound for finitely many rounds only. */
  function RoundsLeft(maxAlpha: real, round: nat): int {
    ((maxAlpha - Alpha(round)) * 5.0).Floor
  }

  lemma RoundsDecrease(maxAlpha: real, round: nat)
    ensures RoundsLeft(maxAlpha, round + 1) < RoundsLeft(maxAlpha, round)
    ensures Alpha(round) <= maxAlpha ==> RoundsLeft(maxAlpha, round) >= 0
  {
    var a := Alpha(round);
    assert Alpha(round + 1) == a * 1.2;
    assert (maxAlpha - a * 1.2) * 5.0 <= (maxAlpha - a) * 5.0 - 1.0;
  }

  /** Nothing more can be picked in the last round the bound allows, nor in any earlier one. */
  ghost predicate Exhausted(rule: PruneRule, cands: seq<PruneCandidate>, picks: seq<Pick>) {
    exists last: nat :: ExhaustedAt(rule, cands, picks, last)
  }

  ghost predicate ExhaustedAt(rule: PruneRule, cands: seq<PruneCandidate>, picks: seq<Pick>, last: nat) {
    && Alpha(last) <= rule.maxAlpha
    && Alpha(last + 1) > rule.maxAlpha
    && forall j: nat :: j < |cands| && !Picked(picks, j) ==> Blocked(rule, cands, picks, j, Alpha(last))
  }

  /** Sweeps at rising alpha until the list is full or the bound is passed. */
  ghost function Rounds(rule: PruneRule, cands: seq<PruneCandidate>, picks: seq<Pick>, round: nat): seq<Pick>
    decreases RoundsLeft(rule.maxAlpha, round) + 1
  {
    if Alpha(round) > rule.maxAlpha || |picks| >= rule.maxNeighbors then picks
    else
      RoundsDecrease(rule.maxAlpha, round);
      Rounds(rule, cands, Sweep(rule, cands, picks, 0, round), round + 1)
  }

  /** What holds between escalation rounds. */
  ghost predicate BetweenRounds(rule: PruneRule, cands: seq<PruneCandidate>, picks: seq<Pick>, round: nat) {
    if Alpha(round) <= rule.maxAlpha && |picks| < rule.maxNeighbors then Swept(rule, cands, picks, 0, round)
    else Greedy(rule, cands, picks) && (|picks| < rule.maxNeighbors ==> Exhausted(rule, cands, picks))
  }

  lemma {:induction false} RoundsFacts(rule: PruneRule, cands: seq<PruneCandidate>, picks: seq<Pick>, round: nat)
    requires BetweenRounds(rule, cands, picks, round)
    ensures picks <= Rounds(rule, cands, picks, round)
    ensures Greedy(rule, cands, Rounds(rule, cands, picks, round))
    ensures |Rounds(rule, cands, picks, round)| < rule.maxNeighbors ==>
      Exhausted(rule, cands, Rounds(rule, cands, picks, round))
    decreases RoundsLeft(rule.maxAlpha, round) + 1
  {
    if Alpha(round) <= rule.maxAlpha && |picks| < rule.maxNeighbors {
      RoundsDecrease(rule.maxAlpha, round);
      var swept := Sweep(rule, cands, picks, 0, round);
      SweepFacts(rule, cands, picks, 0, round);
      if |swept| < rule.maxNeighbors && Alpha(round + 1) > rule.maxAlpha {
        assert ExhaustedAt(rule, cands, swept, round);
      }
      RoundsFacts(rule, cands, swept, round + 1);
    }
  }

  /** Pads a selection with the nearest candidates not yet in it. */
  function Fill(picks: seq<nat>, n: nat, i: nat, maxNeighbors: nat): seq<nat>
    decreases n - i
  {
    if i >= n || |picks| >= maxNeighbors then picks
    else Fill(if i in picks then picks else picks + [i], n, i + 1, maxNeighbors)
  }

  ghost predicate Padding(picks: seq<nat>, n: nat, i: nat, maxNeighbors: nat) {
    && i <= n
    && (forall j: nat :: j < i ==> j in picks || |picks| >= maxNeighbors)
    && Distinct(picks) && InRange(picks, n)
    && |picks| <= maxNeighbors
  }

  lemma {:induction false} FillFacts(picks: seq<nat>, n: nat, i: nat, maxNeighbors: nat)
    requires Padding(picks, n, i, maxNeighbors)
    ensures var r := Fill(picks, n, i, maxNeighbors);
      && picks <= r && Distinct(r) && InRange(r, n) && |r| <= maxNeighbors
      && (|r| < maxNeighbors ==> forall j: nat :: j < n ==> j in r)
    decreases n - i
  {
    if i < n && |picks| < maxNeighbors {
      if i in picks {
        FillFacts(picks, n, i + 1, maxNeighbors);
      } else {
        PaddingGrows(picks, n, i, maxNeighbors);
        FillFacts(picks + [i], n, i + 1, maxNeighbors);
      }
    }
  }

  lemma PaddingGrows(picks: seq<nat>, n: nat, i: nat, maxNeighbors: nat)
    requires Padding(picks, n, i, maxNeighbors) && i < n && |picks| < maxNeighbors && i !in picks
    ensures Padding(picks + [i], n, i + 1, maxNeighbors)
  {
    var more := picks + [i];
    assert more[|picks|] == i;
    forall j: nat | j < i ensures j in more { assert j in picks; }
  }

  /** Whatever padding adds, everything nearer is already selected. */
  lemma {:induction false} FillNearestFirst(picks: seq<nat>, n: nat, i: nat, maxNeighbors: nat, k: nat, j: nat)
    requires Padding(picks, n, i, maxNeighbors)
    requires |picks| <= k < |Fill(picks, n, i, maxNeighbors)|
    requires j < Fill(picks, n, i, maxNeighbors)[k]
    ensures j in Fill(picks, n, i, maxNeighbors)[..k]
    decreases n - i
  {
    var r := Fill(picks, n, i, maxNeighbors);
    if i in picks {
      FillNearestFirst(picks, n, i + 1, maxNeighbors, k, j);
    } else {
      PaddingGrows(picks, n, i, maxNeighbors);
      FillFacts(picks + [i], n, i + 1, maxNeighbors);
      if k == |picks| {
        assert r[k] == i && j in picks;
        assert r[..k] == picks;
      } else {
        FillNearestFirst(picks + [i], n, i + 1, maxNeighbors, k, j);
      }
    }
  }

  lemma GreedyDistinct(rule: PruneRule, cands: seq<PruneCandidate>, picks: seq<Pick>)
    requires Greedy(rule, cands, picks)
    ensures Distinct(Indices(picks))
    ensures InRange(Indices(picks), |cands|)
  {
    forall a, b | 0 <= a < b < |picks| ensures picks[a].index != picks[b].index {
      assert GreedyAt(rule, cands, picks, b);
      assert picks[..b][a] == picks[a];
    }
    forall a | 0 <= a < |picks| ensures picks[a].index < |cands| {
      assert GreedyAt(rule, cands, picks, a);
    }
  }

  ghost function InRounds(rule: PruneRule, cands: seq<PruneCandidate>): seq<Pick> {
    Rounds(rule, cands, [], 0)
  }

  lemma InRoundsFacts(rule: PruneRule, cands: seq<PruneCandidate>)
    requires 1.0 <= rule.maxAlpha
    ensures Greedy(rule, cands, InRounds(rule, cands))
    ensures |InRounds(rule, cands)| < rule.maxNeighbors ==> Exhausted(rule, cands, InRounds(rule, cands))
    ensures Padding(Indices(InRounds(rule, cands)), |cands|, 0, rule.maxNeighbors)
  {
    assert BetweenRounds(rule, cands, [], 0);
    RoundsFacts(rule, cands, [], 0);
    GreedyDistinct(rule, cands, InRounds(rule, cands));
  }

  /** Positions selected from a ranked candidate list. */
  ghost function Selection(rule: PruneRule, cands: seq<PruneCandidate>): seq<nat> {
    if |cands| <= rule.maxNeighbors then seq(|cands|, i requires 0 <= i < |cands| => i)
    else Fill(Indices(InRounds(rule, cands)), |cands|, 0, rule.maxNeighbors)
  }

  /** Removes each element equal in id to the element before it. */
  function DedupAdjacent(s: seq<PruneCandidate>): (r: seq<PruneCandidate>)
    ensures |s| > 0 ==> |r| > 0 && r[0] == s[0]
  {
    if |s| <= 1 then s
    else if s[0].id == s[1].id then [s[0]] + DedupAdjacent(s[1..])[1..]
    else [s[0]] + DedupAdjacent(s[1..])
  }

  function CandidateRank(c: PruneCandidate): Rank { Rank(c.distance, c.id) }

  function RankedCandidates(cands: seq<PruneCandidate>): seq<PruneCandidate> {
    DedupAdjacent(SortRanked(cands, CandidateRank))
  }

  ghost function IdsAt(cands: seq<PruneCandidate>, at: seq<nat>): (ids: seq<NodeId>)
    ensures |ids| == |at|
    ensures forall i :: 0 <= i < |ids| && at[i] < |cands| ==> ids[i] == cands[at[i]].id
  {
    seq(|at|, i requires 0 <= i < |at| => if at[i] < |cands| then cands[at[i]].id else 0)
  }

  /** The neighbour list that pruning produces. */
  ghost function Pruned(rule: PruneRule, cands: seq<PruneCandidate>): seq<NodeId> {
    var ranked := RankedCandidates(cands);
    IdsAt(ranked, Selection(rule, ranked))
  }

  ghost predicate OneDistancePerId(cands: seq<PruneCandidate>) {
    forall a, b :: a in cands && b in cands && a.id == b.id ==> a.distance == b.distance
  }

  ghost predicate StrictlyRanked(s: seq<PruneCandidate>) {
    forall i, j :: 0 <= i < j < |s| ==> Less(CandidateRank(s[i]), CandidateRank(s[j]))
  }

  ghost predicate HasId(s: seq<PruneCandidate>, id: NodeId) {
    exists k :: 0 <= k < |s| && s[k].id == id
  }

  lemma {:induction false} DedupKeepsMembers(s: seq<PruneCandidate>)
    ensures forall c :: c in DedupAdjacent(s) ==> c in s
  {
    if |s| > 1 {
      DedupKeepsMembers(s[1..]);
      var rest := DedupAdjacent(s[1..]);
      assert forall c :: c in rest[1..] ==> c in rest;
      assert forall c :: c in s[1..] ==> c in s;
    }
  }

  lemma {:induction false} DedupKeepsIds(s: seq<PruneCandidate>, id: NodeId)
    requires HasId(s, id)
    ensures HasId(DedupAdjacent(s), id)
  {
    if |s| > 1 {
      var k :| 0 <= k < |s| && s[k].id == id;
      var rest, r := DedupAdjacent(s[1..]), DedupAdjacent(s);
      assert r[0] == s[0] && rest[0] == s[1];
      if id != s[0].id {
        assert s[1..][k - 1].id == id;
        DedupKeepsIds(s[1..], id);
        var m :| 0 <= m < |rest| && rest[m].id == id;
        assert r[if s[0].id == s[1].id then m else m + 1].id == id;
      }
    }
  }

  lemma {:induction false} DedupStrict(s: seq<PruneCandidate>)
    requires SortedBy(s, CandidateRank) && OneDistancePerId(s)
    ensures StrictlyRanked(DedupAdjacent(s))
  {
    if |s| > 1 {
      assert s == [s[0]] + s[1..];
      DedupStrict(s[1..]);
      var rest := DedupAdjacent(s[1..]);
      assert rest[0] == s[1] && s[0] in s && s[1] in s;
      if s[0].id == s[1].id {
        assert CandidateRank(s[0]) == CandidateRank(rest[0]);
        SameRankHead(s[0], rest);
      } else {
        assert Less(CandidateRank(s[0]), CandidateRank(rest[0]));
        LowerHead(s[0], rest);
      }
    }
  }

  lemma SameRankHead(c: PruneCandidate, rest: seq<PruneCandidate>)
    requires rest != [] && StrictlyRanked(rest) && CandidateRank(c) == CandidateRank(rest[0])
    ensures StrictlyRanked([c] + rest[1..])
  {
    var r := [c] + rest[1..];
    assert |r| == |rest| && forall i :: 0 <= i < |r| ==> CandidateRank(r[i]) == CandidateRank(rest[i]);
  }

  lemma LowerHead(c: PruneCandidate, rest: seq<PruneCandidate>)
    requires rest != [] && StrictlyRanked(rest) && Less(CandidateRank(c), CandidateRank(rest[0]))
    ensures StrictlyRanked([c] + rest)
  {
    var r := [c] + rest;
    forall i, j | 0 <= i < j < |r| ensures Less(CandidateRank(r[i]), CandidateRank(r[j])) {
      assert r[j] == rest[j - 1];
      assert i > 0 ==> r[i] == rest[i - 1];
    }
  }

  function IdSet(cands: seq<PruneCandidate>): set<NodeId> { set c | c in cands :: c.id }

  /** With one distance per id, ranking leaves every candidate id exactly once, nearest first. */
  lemma RankedFacts(cands: seq<PruneCandidate>)
    requires OneDistancePerId(cands)
    ensures StrictlyRanked(RankedCandidates(cands))
    ensures forall c :: c in RankedCandidates(cands) ==> c in cands
    ensures Distinct(AllIds(cands)) && Elements(AllIds(cands)) == IdSet(cands)
    ensures |RankedCandidates(cands)| == |IdSet(cands)|
  {
    var sorted := SortRanked(cands, CandidateRank);
    DedupStrict(sorted);
    DedupKeepsMembers(sorted);
    var r, ids := RankedCandidates(cands), AllIds(cands);
    forall i, j | 0 <= i < j < |r| ensures ids[i] != ids[j] {
      assert r[i] in cands && r[j] in cands;
    }
    forall id ensures id in Elements(ids) <==> id in IdSet(cands) {
      if id in IdSet(cands) {
        var c :| c in cands && c.id == id;
        assert c in sorted;
        DedupKeepsIds(sorted, id);
        var k :| 0 <= k < |r| && r[k].id == id;
        assert ids[k] == id;
      }
      if id in Elements(ids) {
        var k :| 0 <= k < |ids| && ids[k] == id;
        assert r[k] in cands;
      }
    }
    DistinctSize(ids);
  }

  ghost function AllIds(cands: seq<PruneCandidate>): (ids: seq<NodeId>)
    ensures |ids| == |RankedCandidates(cands)|
    ensures forall i :: 0 <= i < |ids| ==> ids[i] == RankedCandidates(cands)[i].id
  {
    var ranked := RankedCandidates(cands);
    seq(|ranked|, i requires 0 <= i < |ranked| => ranked[i].id)
  }

  lemma {:induction false} SelectionFacts(rule: PruneRule, cands: seq<PruneCandidate>)
    requires 1.0 <= rule.maxAlpha
    ensures |Selection(rule, cands)| == Min(rule.maxNeighbors, |cands|)
    ensures Distinct(Selection(rule, cands)) && InRange(Selection(rule, cands), |cands|)
    ensures |Selection(rule, cands)| > 0 ==> Selection(rule, cands)[0] == 0
  {
    if |cands| > rule.maxNeighbors {
      var picks := InRounds(rule, cands);
      InRoundsFacts(rule, cands);
      FillFacts(Indices(picks), |cands|, 0, rule.maxNeighbors);
      var r := Selection(rule, cands);
      if |r| < rule.maxNeighbors {
        assert Elements(r) == Below(|cands|);
        DistinctSize(r);
      }
      if rule.maxNeighbors > 0 {
        assert !Picked([], 0) && forall alpha :: !Blocked(rule, cands, [], 0, alpha);
        assert picks != [];
        assert GreedyAt(rule, cands, picks, 0);
        assert picks[..0] == [];
        assert r[0] == Indices(picks)[0];
      }
    }
  }

  /**
   * Pruning returns distinct candidate ids, exactly as many as the cap and the pool allow.
   */
  lemma PrunedCount(rule: PruneRule, cands: seq<PruneCandidate>)
    requires 1.0 <= rule.maxAlpha && OneDistancePerId(cands)
    ensures Distinct(Pruned(rule, cands))
    ensures |Pruned(rule, cands)| == Min(rule.maxNeighbors, |IdSet(cands)|)
    ensures forall id :: id in Pruned(rule, cands) ==> id in IdSet(cands)
  {
    var ranked, ids := RankedCandidates(cands), Pruned(rule, cands);
    var at := Selection(rule, ranked);
    RankedFacts(cands);
    SelectionFacts(rule, ranked);
    forall i, j | 0 <= i < j < |ids| ensures ids[i] != ids[j] {
      assert at[i] != at[j];
      assert ids[i] == AllIds(cands)[at[i]] && ids[j] == AllIds(cands)[at[j]];
    }
    forall id | id in ids ensures id in IdSet(cands) {
      var k :| 0 <= k < |ids| && ids[k] == id;
      assert ranked[at[k]] in cands;
    }
  }

  /** Equal ids stand side by side. */
  ghost predicate Contiguous(s: seq<PruneCandidate>) {
    forall i, j, k :: 0 <= i < j < k < |s| && s[i].id == s[k].id ==> s[j].id == s[i].id
  }

  ghost predicate DistinctCandidates(s: seq<PruneCandidate>) {
    forall i, j :: 0 <= i < j < |s| ==> s[i].id != s[j].id
  }

  /** Removing adjacent repetitions leaves distinct ids exactly when equal ids were contiguous. */
  lemma {:induction false} DedupDistinctIff(s: seq<PruneCandidate>)
    ensures DistinctCandidates(DedupAdjacent(s)) <==> Contiguous(s)
  {
    if |s| > 1 {
      var tail := s[1..];
      hide Contiguous, DistinctCandidates, HasId;
      DedupDistinctIff(tail);
      SameIds(tail, s[0].id);
      if s[0].id == s[1].id {
        RepeatedHead(s);
        HeadReplaced(s[0], DedupAdjacent(tail));
      } else {
        NewHead(s);
        HeadAdded(s[0], DedupAdjacent(tail));
      }
    }
  }

  lemma HeadReplaced(c: PruneCandidate, rest: seq<PruneCandidate>)
    requires rest != [] && c.id == rest[0].id
    ensures DistinctCandidates([c] + rest[1..]) <==> DistinctCandidates(rest)
  {
    var r := [c] + rest[1..];
    assert |r| == |rest| && forall i :: 0 <= i < |r| ==> r[i].id == rest[i].id;
  }

  lemma HeadAdded(c: PruneCandidate, rest: seq<PruneCandidate>)
    ensures DistinctCandidates([c] + rest) <==> DistinctCandidates(rest) && !HasId(rest, c.id)
  {
    var r := [c] + rest;
    assert forall i :: 0 <= i < |rest| ==> r[i + 1] == rest[i];
    assert forall i :: 0 < i < |r| ==> r[i] == rest[i - 1];
    assert DistinctCandidates(r) ==> forall i :: 0 <= i < |rest| ==> rest[i].id == r[i + 1].id != r[0].id;
  }

  lemma SameIds(s: seq<PruneCandidate>, id: NodeId)
    ensures HasId(DedupAdjacent(s), id) <==> HasId(s, id)
  {
    DedupKeepsMembers(s);
    if HasId(s, id) {
      DedupKeepsIds(s, id);
    }
  }

  lemma RepeatedHead(s: seq<PruneCandidate>)
    requires |s| > 1 && s[0].id == s[1].id
    ensures Contiguous(s) <==> Contiguous(s[1..])
  {
    var tail := s[1..];
    assert forall i :: 0 <= i < |tail| ==> tail[i] == s[i + 1];
    if Contiguous(tail) {
      forall i, j, k | 0 <= i < j < k < |s| && s[i].id == s[k].id ensures s[j].id == s[i].id {
        if j > 1 {
          assert tail[if i == 0 then 0 else i - 1].id == tail[k - 1].id;
        }
      }
    }
  }

  lemma NewHead(s: seq<PruneCandidate>)
    requires |s| > 1 && s[0].id != s[1].id
    ensures Contiguous(s) <==> Contiguous(s[1..]) && !HasId(s[1..], s[0].id)
  {
    var tail := s[1..];
    assert forall i :: 0 <= i < |tail| ==> tail[i] == s[i + 1];
    if Contiguous(tail) && !HasId(tail, s[0].id) {
      forall i, j, k | 0 <= i < j < k < |s| && s[i].id == s[k].id ensures s[j].id == s[i].id {
        assert tail[k - 1].id == s[k].id;
      }
    }
  }

  /**
   * Without any assumption on distances: pruned ids are distinct whenever equal ids are contiguous in the ranked
   * order, and for a pool that fits the cap exactly then.
   */
  lemma PrunedDistinctIff(rule: PruneRule, cands: seq<PruneCandidate>)
    requires 1.0 <= rule.maxAlpha
    ensures Contiguous(SortRanked(cands, CandidateRank)) ==> Distinct(Pruned(rule, cands))
    ensures |RankedCandidates(cands)| <= rule.maxNeighbors ==>
      (Distinct(Pruned(rule, cands)) <==> Contiguous(SortRanked(cands, CandidateRank)))
  {
    hide Contiguous, DedupAdjacent, SortRanked, InRounds, Fill;
    var ranked, ids := RankedCandidates(cands), Pruned(rule, cands);
    var at := Selection(rule, ranked);
    DedupDistinctIff(SortRanked(cands, CandidateRank));
    SelectionFacts(rule, ranked);
    if DistinctCandidates(ranked) {
      forall i, j | 0 <= i < j < |ids| ensures ids[i] != ids[j] {
        assert at[i] != at[j];
        assert ranked[at[i]].id == ids[i] && ranked[at[j]].id == ids[j];
      }
    } else if |ranked| <= rule.maxNeighbors {
      var i, j :| 0 <= i < j < |ranked| && ranked[i].id == ranked[j].id;
      assert at[i] == i && at[j] == j;
      assert ids[i] == ids[j];
    }
  }

  /** The nearest candidate is always kept, and comes first. */
  lemma PrunedNearest(rule: PruneRule, cands: seq<PruneCandidate>, nearest: PruneCandidate)
    requires 1.0 <= rule.maxAlpha && rule.maxNeighbors > 0
    requires nearest in cands && forall d :: d in cands ==> LessEq(CandidateRank(nearest), CandidateRank(d))
    ensures |Pruned(rule, cands)| > 0 && Pruned(rule, cands)[0] == nearest.id
  {
    var ranked, sorted := RankedCandidates(cands), SortRanked(cands, CandidateRank);
    SelectionFacts(rule, ranked);
    assert sorted != [] && ranked[0] == sorted[0];
    var k :| 0 <= k < |sorted| && sorted[k] == nearest;
    assert sorted[0] in cands;
    assert CandidateRank(sorted[0]) == CandidateRank(nearest);
  }

  /**
   * The occlusion rule. Selections made before padding follow the greedy order: every pick is within
   * its round's alpha, at most `maxAlpha`, of every nearer earlier pick not exempted by labels; no
   * nearer candidate and no lower round was admissible; padding happens only when nothing more is
   * admissible, and takes the nearest leftovers.
   */
  lemma PrunedOcclusion(rule: PruneRule, cands: seq<PruneCandidate>)
    requires 1.0 <= rule.maxAlpha && |cands| > rule.maxNeighbors
    ensures var picks := InRounds(rule, cands);
      && Greedy(rule, cands, picks)
      && Indices(picks) <= Selection(rule, cands)
      && (|picks| < rule.maxNeighbors ==> Exhausted(rule, cands, picks))
      && forall k, j: nat :: |picks| <= k < |Selection(rule, cands)| && j < Selection(rule, cands)[k]
           ==> j in Selection(rule, cands)[..k]
  {
    var picks := InRounds(rule, cands);
    InRoundsFacts(rule, cands);
    FillFacts(Indices(picks), |cands|, 0, rule.maxNeighbors);
    forall k, j: nat | |picks| <= k < |Selection(rule, cands)| && j < Selection(rule, cands)[k]
      ensures j in Selection(rule, cands)[..k]
    {
      FillNearestFirst(Indices(picks), |cands|, 0, rule.maxNeighbors, k, j);
    }
  }

  /** Consequence for pairs: an earlier-picked nearer candidate never occludes a later pick beyond its round. */
  lemma PickWithinAlpha(rule: PruneRule, cands: seq<PruneCandidate>, l: nat, k: nat)
    requires 1.0 <= rule.maxAlpha
    requires l < k < |InRounds(rule, cands)|
    ensures var picks := InRounds(rule, cands);
      picks[l].index < picks[k].index < |cands| && !Exempt(rule, cands[picks[l].index], cands[picks[k].index]) ==>
        && !Exceeds(Occlusion(rule, cands[picks[l].index], cands[picks[k].index]), Alpha(picks[k].round))
        && Alpha(picks[k].round) <= rule.maxAlpha
  {
    var picks := InRounds(rule, cands);
    InRoundsFacts(rule, cands);
    assert GreedyAt(rule, cands, picks, k);
    assert picks[..k][l] == picks[l];
  }

  /** Ids may repeat when one id comes with two distances and another candidate ranks between them. */
  lemma DuplicateIdsSurvive(v: RoutingVector, rule: PruneRule)
    requires 1.0 <= rule.maxAlpha && rule.maxNeighbors >= 3
    ensures var a, b, c := PruneCandidate(1, 1.0, v, []), PruneCandidate(2, 2.0, v, []), PruneCandidate(1, 3.0, v, []);
      Pruned(rule, [a, b, c]) == [1, 2, 1]
  {
    var a, b, c := PruneCandidate(1, 1.0, v, []), PruneCandidate(2, 2.0, v, []), PruneCandidate(1, 3.0, v, []);
    var s := [a, b, c];
    assert s[1..] == [b, c] && s[1..][1..] == [c] && s[1..][1..][1..] == [];
    assert SortRanked([c], CandidateRank) == [c];
    assert SortRanked([b, c], CandidateRank) == [b, c];
    assert SortRanked(s, CandidateRank) == s;
    assert DedupAdjacent([b, c]) == [b, c];
    assert RankedCandidates(s) == s;
  }

  /** The pruning loop, with a running maximum of occlusion factors per candidate. */
  method SelectDiverse(rule: PruneRule, cands: seq<PruneCandidate>) returns (results: seq<nat>)
    requires 1.0 <= rule.maxAlpha && |cands| > rule.maxNeighbors
    ensures results == Selection(rule, cands)
  {
    results := [];
    var maxFactors := new Factor[|cands|](_ => Finite(0.0));
    var alpha := 1.0;
    ghost var round: nat, picks: seq<Pick> := 0, [];
    NothingPicked(rule, cands, maxFactors[..]);
    while alpha <= rule.maxAlpha && |results| < rule.maxNeighbors
      invariant alpha == Alpha(round)
      invariant results == Indices(picks)
      invariant Rounds(rule, cands, picks, round) == InRounds(rule, cands)
      invariant Tracks(rule, cands, picks, maxFactors[..])
      decreases RoundsLeft(rule.maxAlpha, round) + 1
    {
      RoundsDecrease(rule.maxAlpha, round);
      results, picks := SweepOnce(rule, cands, maxFactors, results, alpha, picks, round);
      alpha := alpha * 1.2;
      round := round + 1;
    }
    results := PadNearest(results, |cands|, rule.maxNeighbors);
  }

  lemma NothingPicked(rule: PruneRule, cands: seq<PruneCandidate>, factors: seq<Factor>)
    requires |factors| == |cands| && forall j :: 0 <= j < |cands| ==> factors[j] == Finite(0.0)
    ensures Tracks(rule, cands, [], factors)
  {}

  /** One pass over the candidates at the current alpha. */
  method SweepOnce(rule: PruneRule, cands: seq<PruneCandidate>, maxFactors: array<Factor>, soFar: seq<nat>, alpha: real,
                   ghost before: seq<Pick>, ghost round: nat)
    returns (results: seq<nat>, ghost picks: seq<Pick>)
    requires maxFactors.Length == |cands|
    requires alpha == Alpha(round) && soFar == Indices(before)
    requires alpha <= rule.maxAlpha
    requires Tracks(rule, cands, before, maxFactors[..])
    modifies maxFactors
    ensures picks == Sweep(rule, cands, before, 0, round)
    ensures results == Indices(picks)
    ensures Tracks(rule, cands, picks, maxFactors[..])
  {
    results, picks := soFar, before;
    var i := 0;
    while i < |cands| && |results| < rule.maxNeighbors
      invariant 0 <= i <= |cands|
      invariant results == Indices(picks)
      invariant Sweep(rule, cands, picks, i, round) == Sweep(rule, cands, before, 0, round)
      invariant Tracks(rule, cands, picks, maxFactors[..])
    {
      assert TracksAt(rule, cands, picks, maxFactors[..], i);
      assert Exceeds(maxFactors[..][i], alpha) <==> Picked(picks, i) || Blocked(rule, cands, picks, i, alpha);
      if !Exceeds(maxFactors[i], alpha) {
        results := results + [i];
        MarkPicked(rule, cands, maxFactors, picks, i, round);
        picks := picks + [Pick(i, round)];
      }
      i := i + 1;
    }
  }

  method PadNearest(picks: seq<nat>, n: nat, maxNeighbors: nat) returns (results: seq<nat>)
    ensures results == Fill(picks, n, 0, maxNeighbors)
  {
    results := picks;
    var i := 0;
    while i < n && |results| < maxNeighbors
      invariant 0 <= i <= n
      invariant Fill(results, n, i, maxNeighbors) == Fill(picks, n, 0, maxNeighbors)
    {
      if i !in results {
        results := results + [i];
      }
      i := i + 1;
    }
  }

  /** The running factor of an unpicked candidate decides blocking at every alpha in use. */
  ghost predicate TracksAt(rule: PruneRule, cands: seq<PruneCandidate>, picks: seq<Pick>, factors: seq<Factor>, j: nat)
    requires j < |cands| == |factors|
  {
    if Picked(picks, j) then factors[j].Huge?
    else forall alpha :: 1.0 <= alpha <= rule.maxAlpha ==>
      (Exceeds(factors[j], alpha) <==> Blocked(rule, cands, picks, j, alpha))
  }

  ghost predicate Tracks(rule: PruneRule, cands: seq<PruneCandidate>, picks: seq<Pick>, factors: seq<Factor>) {
    |factors| == |cands| && forall j: nat :: j < |cands| ==> TracksAt(rule, cands, picks, factors, j)
  }

  /** Records pick `i` and raises the running factors of the candidates behind it. */
  method MarkPicked(rule: PruneRule, cands: seq<PruneCandidate>, factors: array<Factor>, ghost picks: seq<Pick>, i: nat,
                    ghost round: nat)
    requires factors.Length == |cands| && i < |cands|
    requires Tracks(rule, cands, picks, factors[..]) && !Picked(picks, i)
    modifies factors
    ensures Tracks(rule, cands, picks + [Pick(i, round)], factors[..])
  {
    ghost var p := Pick(i, round);
    ghost var before := factors[..];
    factors[i] := Huge;
    forall j: nat | j <= i ensures TracksAt(rule, cands, picks + [p], factors[..], j) {
      assert TracksAt(rule, cands, picks, before, j);
      SkipPick(rule, cands, picks, p, j);
    }
    for j := i + 1 to |cands|
      invariant forall k: nat :: k < j ==> TracksAt(rule, cands, picks + [p], factors[..], k)
      invariant forall k: nat :: j <= k < |cands| ==> factors[k] == before[k]
    {
      ghost var atStart := factors[..];
      assert TracksAt(rule, cands, picks, before, j);
      forall alpha ensures Blocked(rule, cands, picks + [p], j, alpha) <==>
        Blocked(rule, cands, picks, j, alpha) || BlockedBy(rule, cands, i, j, alpha)
      {
        BlockedGrows(rule, cands, picks, p, j, alpha);
      }
      BlockedGrows(rule, cands, picks, p, j, 1.0);
      if !Exceeds(factors[j], rule.maxAlpha) {
        var preserved := true;
        if rule.hasLabels && rule.base != [] {
          preserved := ContainsIntersection(rule.base, cands[i].labels, cands[j].labels);
        }
        if preserved {
          factors[j] := MaxFactor(factors[j], Occlusion(rule, cands[i], cands[j]));
        }
      }
      assert TracksAt(rule, cands, picks + [p], factors[..], j);
      forall k: nat | k < j ensures TracksAt(rule, cands, picks + [p], factors[..], k) {
        assert TracksAt(rule, cands, picks + [p], atStart, k);
      }
    }
  }

  lemma SkipPick(rule: PruneRule, cands: seq<PruneCandidate>, picks: seq<Pick>, p: Pick, j: nat)
    requires j < |cands| && j <= p.index
    ensures forall alpha :: Blocked(rule, cands, picks + [p], j, alpha) <==> Blocked(rule, cands, picks, j, alpha)
    ensures Picked(picks + [p], j) <==> Picked(picks, j) || p.index == j
  {
    forall alpha ensures Blocked(rule, cands, picks + [p], j, alpha) <==> Blocked(rule, cands, picks, j, alpha) {
      BlockedGrows(rule, cands, picks, p, j, alpha);
    }
    BlockedGrows(rule, cands, picks, p, j, 1.0);
  }

  /** Sorts, deduplicates and prunes a candidate pool. */
  method AlphaPrune(rule: PruneRule, cands: seq<PruneCandidate>) returns (ids: seq<NodeId>)
    requires 1.0 <= rule.maxAlpha
    ensures ids == Pruned(rule, cands)
  {
    var ranked := RankedCandidates(cands);
    if |ranked| <= rule.maxNeighbors {
      ids := seq(|ranked|, i requires 0 <= i < |ranked| => ranked[i].id);
      return;
    }
    var picks := SelectDiverse(rule, ranked);
    SelectionFacts(rule, ranked);
    ids := seq(|picks|, i requires 0 <= i < |picks| => ranked[picks[i]].id);
  }
}
