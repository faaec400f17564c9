/** Query search: a best-first walk over a pinned snapshot, then exact rescoring of what it visited. */
module Search {
  import opened Common
  import opened Labels
  import opened Ranking
  import opened Records
  import opened Reading
  import opened GraphWalk
  import opened QueryMemory

  datatype SearchHit = SearchHit(nodeId: NodeId, externalId: nat, distance: real)

  function HitRank(hit: SearchHit): Rank { Rank(hit.distance, hit.nodeId) }

  datatype SearchOptions = SearchOptions(
    limit: nat,
    searchListSize: nat,
    budget: QueryBudget,
    filter: Option<LabelSet>,
    rescore: bool)
  {
    predicate Valid() { 0 < limit <= searchListSize && budget.Valid() }
  }

  /** A query: its two distance functions and the byte sizes of its vectors. */
  datatype QueryPlan = QueryPlan(
    routingDistance: RoutingVector -> real,
    fullDistance: Vector -> real,
    rawBytes: nat,
    routingBytes: nat,
    configuredBytes: nat,
    dimensions: nat)

  // ----- specification -----

  /** Where a walk enters the graph: the starts of the filter's labels, and always the default node. */
  function StartIds(starts: StartNodes, filter: Option<LabelSet>): (ids: seq<NodeId>)
    ensures Distinct(ids) && starts.defaultNode in ids
    ensures filter.None? || filter.value == [] ==> ids == [starts.defaultNode]
    ensures filter.Some? ==> forall id :: id in ids <==>
      id == starts.defaultNode || exists l :: l in filter.value && l in starts.labeled && starts.labeled[l] == id
  {
    var first := if filter.Some? then starts.ForLabels(filter.value) else [starts.defaultNode];
    var all := if filter.Some? && starts.defaultNode !in first then first + [starts.defaultNode] else first;
    var ids := SortDedup(all);
    assert forall i :: 0 <= i < |ids| ==> ids[i] in ids && ids[i] in all;
    StrictlySortedUnique(SortDedup([starts.defaultNode]), [starts.defaultNode]);
    ids
  }

  ghost function GraphOf(view: View, startIds: seq<NodeId>, distance: RoutingVector -> real): (g: WalkGraph)
    ensures Scored(g)
  {
    WalkGraph(
      Elements(startIds),
      map id | id in Live(view) :: view.nodes[id].neighbors,
      map id | id in Live(view) :: distance(view.nodes[id].routing))
  }

  ghost predicate LabelsMatch(filter: Option<LabelSet>, labels: LabelSet) {
    filter.None? || filter.value == [] || Share(labels, filter.value)
  }

  ghost function CandidateAt(view: View, g: WalkGraph, id: NodeId): Candidate
    requires id in view.nodes && id in g.score
  {
    Candidate(RoutingOf(view.nodes[id]), g.score[id])
  }

  ghost function Retained(filter: Option<LabelSet>, candidates: seq<Candidate>): seq<Candidate> {
    if candidates == [] then []
    else
      var rest, last := Retained(filter, candidates[..|candidates| - 1]), candidates[|candidates| - 1];
      if LabelsMatch(filter, last.record.labels) then rest + [last] else rest
  }

  /** With rescoring, a candidate yields a hit at its exact distance when its full vector is present. */
  function HitOf(view: View, plan: QueryPlan, rescore: bool, c: Candidate): Option<SearchHit> {
    if !rescore then Some(SearchHit(c.record.id, c.record.externalId, c.distance))
    else
      var vector := ReadVector(view, c.record.id);
      if vector.VectorPresent? then Some(SearchHit(c.record.id, c.record.externalId, plan.fullDistance(vector.vector)))
      else None
  }

  function HitsOf(view: View, plan: QueryPlan, rescore: bool, candidates: seq<Candidate>): seq<SearchHit> {
    if candidates == [] then []
    else
      var rest := HitsOf(view, plan, rescore, candidates[..|candidates| - 1]);
      var last := HitOf(view, plan, rescore, candidates[|candidates| - 1]);
      if last.Some? then rest + [last.value] else rest
  }

  function FirstHits(hits: seq<SearchHit>, limit: nat): seq<SearchHit> {
    hits[..Min(limit, |hits|)]
  }

  ghost function VisitedIds(view: View, starts: StartNodes, plan: QueryPlan, options: SearchOptions): seq<NodeId> {
    Walk(GraphOf(view, StartIds(starts, options.filter), plan.routingDistance), [], options.searchListSize)
  }

  ghost predicate AllReadable(view: View, g: WalkGraph, ids: seq<NodeId>) {
    forall k :: 0 <= k < |ids| ==> ids[k] in view.nodes && ids[k] in g.score
  }

  ghost function CandidatesOf(view: View, g: WalkGraph, ids: seq<NodeId>): (r: seq<Candidate>)
    requires AllReadable(view, g, ids)
    ensures |r| == |ids|
    ensures forall k :: 0 <= k < |ids| ==> r[k] == CandidateAt(view, g, ids[k])
  {
    seq(|ids|, k requires 0 <= k < |ids| => CandidateAt(view, g, ids[k]))
  }

  lemma VisitedReadable(view: View, starts: StartNodes, plan: QueryPlan, options: SearchOptions)
    ensures AllReadable(view, GraphOf(view, StartIds(starts, options.filter), plan.routingDistance),
                        VisitedIds(view, starts, plan, options))
    ensures Distinct(VisitedIds(view, starts, plan, options))
    ensures |VisitedIds(view, starts, plan, options)| <= options.searchListSize
  {
    var g := GraphOf(view, StartIds(starts, options.filter), plan.routingDistance);
    WalkFacts(g, [], options.searchListSize);
    forall k | 0 <= k < |VisitedIds(view, starts, plan, options)|
      ensures VisitedIds(view, starts, plan, options)[k] in g.edges
    {
      assert VisitedIds(view, starts, plan, options)[k] in VisitedIds(view, starts, plan, options);
    }
  }

  /** The answer: the matching visited nodes ranked by (distance, id), cut to the limit. */
  ghost function Answer(view: View, starts: StartNodes, plan: QueryPlan, options: SearchOptions): seq<SearchHit> {
    VisitedReadable(view, starts, plan, options);
    var g := GraphOf(view, StartIds(starts, options.filter), plan.routingDistance);
    var candidates := Retained(options.filter, CandidatesOf(view, g, VisitedIds(view, starts, plan, options)));
    FirstHits(SortRanked(HitsOf(view, plan, options.rescore, candidates), HitRank), options.limit)
  }

  /** Every id the walk has looked at: live starts and all neighbours of visited nodes. */
  ghost function SeenIds(g: WalkGraph, visited: seq<NodeId>): set<NodeId> {
    if visited == [] then g.starts * g.edges.Keys
    else
      var rest, last := visited[..|visited| - 1], visited[|visited| - 1];
      SeenIds(g, rest) + (if last in g.edges then Elements(g.edges[last]) else {})
  }

  lemma {:induction false} SeenDiscovered(g: WalkGraph, visited: seq<NodeId>)
    requires forall k :: 0 <= k < |visited| ==> visited[k] in g.edges
    ensures Discovered(g, visited) == SeenIds(g, visited) * g.edges.Keys
  {
    if visited == [] {
      assert forall v :: !HasEdgeFrom(g, [], v);
    } else {
      var rest, last := visited[..|visited| - 1], visited[|visited| - 1];
      assert visited == rest + [last];
      SeenDiscovered(g, rest);
      DiscoveredSnoc(g, rest, last);
    }
  }

  lemma SeenSnoc(g: WalkGraph, visited: seq<NodeId>, u: NodeId)
    requires u in g.edges
    ensures SeenIds(g, visited + [u]) == SeenIds(g, visited) + Elements(g.edges[u])
  {
    assert (visited + [u])[..|visited|] == visited;
  }

  lemma HitsSnoc(view: View, plan: QueryPlan, rescore: bool, candidates: seq<Candidate>, i: nat)
    requires i < |candidates|
    ensures var next := HitOf(view, plan, rescore, candidates[i]);
      HitsOf(view, plan, rescore, candidates[..i + 1]) ==
        HitsOf(view, plan, rescore, candidates[..i]) + (if next.Some? then [next.value] else [])
  {
    assert candidates[..i + 1][..i] == candidates[..i];
  }

  // ----- ranking does not depend on the order in which candidates arrive -----

  lemma {:induction false} HitsFacts(view: View, plan: QueryPlan, rescore: bool, candidates: seq<Candidate>)
    ensures forall h :: h in HitsOf(view, plan, rescore, candidates) <==>
      exists c :: c in candidates && HitOf(view, plan, rescore, c) == Some(h)
  {
    if candidates != [] {
      var rest, last := candidates[..|candidates| - 1], candidates[|candidates| - 1];
      assert candidates == rest + [last];
      HitsFacts(view, plan, rescore, rest);
    }
  }

  ghost predicate DistinctIds(candidates: seq<Candidate>) {
    forall i, j :: 0 <= i < j < |candidates| ==> candidates[i].record.id != candidates[j].record.id
  }

  ghost predicate OneHitPerId(hits: seq<SearchHit>) {
    forall h, h' :: (h in hits && h' in hits && h.nodeId == h'.nodeId) ==> h == h'
  }

  lemma HitIds(view: View, plan: QueryPlan, rescore: bool, candidates: seq<Candidate>, h: SearchHit)
    requires h in HitsOf(view, plan, rescore, candidates)
    ensures exists k :: 0 <= k < |candidates| && candidates[k].record.id == h.nodeId &&
                        HitOf(view, plan, rescore, candidates[k]) == Some(h)
  {
    HitsFacts(view, plan, rescore, candidates);
    var c :| c in candidates && HitOf(view, plan, rescore, c) == Some(h);
    var k :| 0 <= k < |candidates| && candidates[k] == c;
  }

  lemma {:induction false} HitsDistinct(view: View, plan: QueryPlan, rescore: bool, candidates: seq<Candidate>)
    requires DistinctIds(candidates)
    ensures Distinct(HitsOf(view, plan, rescore, candidates))
    ensures OneHitPerId(HitsOf(view, plan, rescore, candidates))
  {
    var hits := HitsOf(view, plan, rescore, candidates);
    forall h, h' | h in hits && h' in hits && h.nodeId == h'.nodeId ensures h == h' {
      HitIds(view, plan, rescore, candidates, h);
      HitIds(view, plan, rescore, candidates, h');
    }
    if candidates != [] {
      var n := |candidates| - 1;
      var rest := HitsOf(view, plan, rescore, candidates[..n]);
      HitsDistinct(view, plan, rescore, candidates[..n]);
      var last := HitOf(view, plan, rescore, candidates[n]);
      if last.Some? && last.value in rest {
        HitIds(view, plan, rescore, candidates[..n], last.value);
      }
    }
  }

  /** Ranking the hits of a permuted candidate list gives the same list. */
  lemma RankingIgnoresOrder(view: View, plan: QueryPlan, rescore: bool, a: seq<Candidate>, b: seq<Candidate>)
    requires DistinctIds(a) && DistinctIds(b) && SameMembers(a, b)
    ensures SortRanked(HitsOf(view, plan, rescore, a), HitRank) == SortRanked(HitsOf(view, plan, rescore, b), HitRank)
  {
    var ha, hb := HitsOf(view, plan, rescore, a), HitsOf(view, plan, rescore, b);
    HitsFacts(view, plan, rescore, a);
    HitsFacts(view, plan, rescore, b);
    HitsDistinct(view, plan, rescore, a);
    HitsDistinct(view, plan, rescore, b);
    SortKeepsDistinct(ha, HitRank);
    SortKeepsDistinct(hb, HitRank);
    assert SameMembers(ha, hb);
    RankedListUnique(SortRanked(ha, HitRank), SortRanked(hb, HitRank), HitRank);
  }

  lemma {:induction false} RetainedFacts(filter: Option<LabelSet>, candidates: seq<Candidate>)
    ensures |Retained(filter, candidates)| <= |candidates|
    ensures forall c :: c in Retained(filter, candidates) <==> c in candidates && LabelsMatch(filter, c.record.labels)
  {
    if candidates != [] {
      var n := |candidates| - 1;
      RetainedFacts(filter, candidates[..n]);
      assert candidates == candidates[..n] + [candidates[n]];
    }
  }

  lemma {:induction false} RetainedDistinct(filter: Option<LabelSet>, candidates: seq<Candidate>)
    requires DistinctIds(candidates)
    ensures DistinctIds(Retained(filter, candidates))
  {
    if candidates != [] {
      var n := |candidates| - 1;
      RetainedDistinct(filter, candidates[..n]);
      RetainedFacts(filter, candidates[..n]);
      var rest := Retained(filter, candidates[..n]);
      forall i | 0 <= i < |rest| ensures rest[i].record.id != candidates[n].record.id {
        assert rest[i] in candidates[..n];
        var k :| 0 <= k < n && candidates[k] == rest[i];
      }
    }
  }
}
