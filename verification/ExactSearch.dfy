/** Build and search together: an exhaustive search of a built graph is the brute-force answer. */
module ExactSearch {
  import opened Common
  import opened Labels
  import opened Ranking
  import opened Records
  import opened GraphWalk
  import opened BulkBuild
  import opened Reading
  import opened QueryMemory
  import opened Search

  /** One input row; its vector is already in the form the metric needs. */
  datatype Row = Row(externalId: nat, vector: Vector, labels: LabelSet)

  /** Numbers the rows 1..n in input order. */
  function RecordsOf(rows: seq<Row>, route: Vector -> RoutingVector): (records: seq<NodeRecord>)
    ensures |records| == |rows|
    ensures forall i :: 0 <= i < |rows| ==> records[i] == RecordFor(rows, route, i)
  {
    seq(|rows|, i requires 0 <= i < |rows| => RecordFor(rows, route, i))
  }

  function RecordFor(rows: seq<Row>, route: Vector -> RoutingVector, i: nat): NodeRecord
    requires i < |rows|
  {
    NodeRecord(i + 1, rows[i].externalId, route(rows[i].vector), Some(rows[i].vector), rows[i].labels, [])
  }

  /** What the published snapshot shows: the built records and no tombstones. */
  ghost function BuiltView(records: seq<NodeRecord>): View {
    View(map id | id in OneTo(|records|) :: records[id - 1], {})
  }

  function HitFor(rows: seq<Row>, plan: QueryPlan, i: nat): SearchHit
    requires i < |rows|
  {
    SearchHit(i + 1, rows[i].externalId, plan.fullDistance(rows[i].vector))
  }

  /** The exact hits of all matching rows among the first `n`, in input order. */
  ghost function MatchingHits(rows: seq<Row>, plan: QueryPlan, filter: Option<LabelSet>, n: nat): seq<SearchHit>
    requires n <= |rows|
  {
    if n == 0 then []
    else
      var rest := MatchingHits(rows, plan, filter, n - 1);
      if LabelsMatch(filter, rows[n - 1].labels) then rest + [HitFor(rows, plan, n - 1)] else rest
  }

  /** Scan every row, rank by (distance, node id), keep the first `limit`. */
  ghost function BruteForce(rows: seq<Row>, plan: QueryPlan, filter: Option<LabelSet>, limit: nat): seq<SearchHit> {
    FirstHits(SortRanked(MatchingHits(rows, plan, filter, |rows|), HitRank), limit)
  }

  lemma {:induction false} MatchingFacts(rows: seq<Row>, plan: QueryPlan, filter: Option<LabelSet>, n: nat)
    requires n <= |rows|
    ensures forall h :: h in MatchingHits(rows, plan, filter, n) <==> IsMatch(rows, plan, filter, n, h)
  {
    hide LabelsMatch;
    if n > 0 {
      MatchingFacts(rows, plan, filter, n - 1);
    }
  }

  ghost predicate IsMatch(rows: seq<Row>, plan: QueryPlan, filter: Option<LabelSet>, n: nat, h: SearchHit)
    requires n <= |rows|
  {
    1 <= h.nodeId <= n && LabelsMatch(filter, rows[h.nodeId - 1].labels) && h == HitFor(rows, plan, h.nodeId - 1)
  }

  lemma {:induction false} MatchingDistinct(rows: seq<Row>, plan: QueryPlan, filter: Option<LabelSet>, n: nat)
    requires n <= |rows|
    ensures Distinct(MatchingHits(rows, plan, filter, n))
  {
    hide LabelsMatch;
    if n > 0 {
      MatchingDistinct(rows, plan, filter, n - 1);
      MatchingFacts(rows, plan, filter, n - 1);
      assert HitFor(rows, plan, n - 1) !in MatchingHits(rows, plan, filter, n - 1);
    }
  }

  lemma RecordsUnlinked(rows: seq<Row>, route: Vector -> RoutingVector)
    ensures Unlinked(RecordsOf(rows, route))
  {}

  /** The payload a built record shows for row `id - 1`. */
  lemma BuiltPayload(env: BuildEnv, rows: seq<Row>, route: Vector -> RoutingVector, id: NodeId)
    requires Ready(env) && 1 <= id <= |rows|
    ensures var built := BuildGraph(env, RecordsOf(rows, route));
      && built[id - 1].id == id && built[id - 1].externalId == rows[id - 1].externalId
      && built[id - 1].full == Some(rows[id - 1].vector) && built[id - 1].labels == rows[id - 1].labels
  {
    RecordsUnlinked(rows, route);
    BuildFacts(env, RecordsOf(rows, route));
  }

  lemma BuiltKeyed(env: BuildEnv, rows: seq<Row>, route: Vector -> RoutingVector)
    requires Ready(env)
    ensures Keyed(BuiltView(BuildGraph(env, RecordsOf(rows, route))).nodes)
  {
    RecordsUnlinked(rows, route);
    BuildFacts(env, RecordsOf(rows, route));
  }

  /** The built view holds ids 1..n, all live. */
  lemma BuiltNodes(built: seq<NodeRecord>)
    ensures BuiltView(built).nodes.Keys == OneTo(|built|) && BuiltView(built).tombstones == {}
    ensures forall id :: id in OneTo(|built|) ==> BuiltView(built).nodes[id] == built[id - 1]
  {
    hide OneTo;
    var n, nodes := OneTo(|built|), BuiltView(built).nodes;
    assert forall id :: id in nodes <==> id in n;
  }

  lemma LiveAll(view: View)
    requires view.tombstones == {}
    ensures Live(view) == view.nodes.Keys
  {}

  lemma BuiltShape(built: seq<NodeRecord>)
    ensures Live(BuiltView(built)) == OneTo(|built|) == BuiltView(built).nodes.Keys
    ensures forall id :: id in OneTo(|built|) ==> BuiltView(built).nodes[id] == built[id - 1]
  {
    hide BuiltView, OneTo, Live;
    BuiltNodes(built);
    LiveAll(BuiltView(built));
  }

  /** A search of the built view walks the built lists. */
  lemma BuiltEdges(built: seq<NodeRecord>, startIds: seq<NodeId>, distance: RoutingVector -> real)
    ensures var g := GraphOf(BuiltView(built), startIds, distance);
      g.edges == Adjacency(built) && g.edges.Keys == OneTo(|built|) && g.starts == Elements(startIds)
  {
    hide BuiltView, OneTo, Live;
    BuiltShape(built);
  }

  /** With a search list at least as long as the input, every row is visited. */
  lemma AllVisited(env: BuildEnv, rows: seq<Row>, route: Vector -> RoutingVector, starts: StartNodes, plan: QueryPlan,
                   options: SearchOptions)
    requires Ready(env) && |rows| > 0 ==> starts.defaultNode == 1
    requires Ready(env) && options.searchListSize >= |rows|
    ensures var view := BuiltView(BuildGraph(env, RecordsOf(rows, route)));
      forall id :: id in VisitedIds(view, starts, plan, options) <==> 1 <= id <= |rows|
  {
    hide BuildGraph, BuiltView, GraphOf, Adjacency, Live, OneTo, Walk;
    var built := BuildGraph(env, RecordsOf(rows, route));
    var view := BuiltView(built);
    var g := GraphOf(view, StartIds(starts, options.filter), plan.routingDistance);
    RecordsUnlinked(rows, route);
    BuiltEdges(built, StartIds(starts, options.filter), plan.routingDistance);
    ExhaustiveWalk(g, options.searchListSize);
    forall id | 1 <= id <= |rows| ensures Reachable(g, id) {
      BuiltReachable(env, RecordsOf(rows, route), g, id);
    }
    forall id | id in VisitedIds(view, starts, plan, options) ensures 1 <= id <= |rows| {
      ReachableReadable(g, id);
    }
  }

  lemma ReachableReadable(g: WalkGraph, id: NodeId)
    requires Reachable(g, id)
    ensures id in g.edges
  {}

  lemma CandidateMembers(view: View, starts: StartNodes, plan: QueryPlan, options: SearchOptions)
    requires Keyed(view.nodes)
    ensures var g := GraphOf(view, StartIds(starts, options.filter), plan.routingDistance);
      var ids := VisitedIds(view, starts, plan, options);
      && AllReadable(view, g, ids)
      && DistinctIds(CandidatesOf(view, g, ids))
      && (forall c :: c in CandidatesOf(view, g, ids) ==>
            c.record.id in ids && c.record.id in view.nodes && c.record == RoutingOf(view.nodes[c.record.id]))
      && (forall id :: id in ids ==> exists c :: c in CandidatesOf(view, g, ids) && c.record.id == id)
  {
    hide Walk;
    VisitedReadable(view, starts, plan, options);
    var g := GraphOf(view, StartIds(starts, options.filter), plan.routingDistance);
    var ids := VisitedIds(view, starts, plan, options);
    var candidates := CandidatesOf(view, g, ids);
    forall id | id in ids ensures exists c :: c in candidates && c.record.id == id {
      var k :| 0 <= k < |ids| && ids[k] == id;
      assert candidates[k] in candidates;
    }
    forall c | c in candidates
      ensures c.record.id in ids && c.record.id in view.nodes && c.record == RoutingOf(view.nodes[c.record.id])
    {
      var k :| 0 <= k < |candidates| && candidates[k] == c;
      assert ids[k] in ids;
    }
  }

  /** The matching candidates behind an answer. */
  ghost function KeptOf(view: View, starts: StartNodes, plan: QueryPlan, options: SearchOptions): seq<Candidate> {
    VisitedReadable(view, starts, plan, options);
    Retained(options.filter, CandidatesOf(view, GraphOf(view, StartIds(starts, options.filter), plan.routingDistance),
                                          VisitedIds(view, starts, plan, options)))
  }

  lemma KeptMembers(view: View, starts: StartNodes, plan: QueryPlan, options: SearchOptions, id: NodeId)
    requires Keyed(view.nodes)
    requires id in VisitedIds(view, starts, plan, options)
    ensures id in view.nodes && view.nodes[id].id == id
    ensures LabelsMatch(options.filter, view.nodes[id].labels) ==>
      exists c :: c in KeptOf(view, starts, plan, options) && c.record == RoutingOf(view.nodes[id])
  {
    hide VisitedIds, LabelsMatch;
    CandidateMembers(view, starts, plan, options);
    VisitedReadable(view, starts, plan, options);
    var g, ids := GraphOf(view, StartIds(starts, options.filter), plan.routingDistance), VisitedIds(view, starts, plan, options);
    RetainedFacts(options.filter, CandidatesOf(view, g, ids));
    var c :| c in CandidatesOf(view, g, ids) && c.record.id == id;
    assert c.record == RoutingOf(view.nodes[id]);
  }

  lemma KeptShape(view: View, starts: StartNodes, plan: QueryPlan, options: SearchOptions)
    requires Keyed(view.nodes)
    ensures DistinctIds(KeptOf(view, starts, plan, options))
    ensures forall c :: c in KeptOf(view, starts, plan, options) ==>
      && c.record.id in VisitedIds(view, starts, plan, options) && c.record.id in view.nodes
      && c.record == RoutingOf(view.nodes[c.record.id]) && LabelsMatch(options.filter, c.record.labels)
  {
    hide VisitedIds, LabelsMatch;
    CandidateMembers(view, starts, plan, options);
    VisitedReadable(view, starts, plan, options);
    var g, ids := GraphOf(view, StartIds(starts, options.filter), plan.routingDistance), VisitedIds(view, starts, plan, options);
    RetainedFacts(options.filter, CandidatesOf(view, g, ids));
    RetainedDistinct(options.filter, CandidatesOf(view, g, ids));
  }

  /** Every hit of the walk is a matching row. */
  lemma HitMatches(env: BuildEnv, rows: seq<Row>, route: Vector -> RoutingVector, starts: StartNodes,
                   plan: QueryPlan, options: SearchOptions, h: SearchHit)
    requires Ready(env) && (|rows| > 0 ==> starts.defaultNode == 1) && options.searchListSize >= |rows|
    requires var view := BuiltView(BuildGraph(env, RecordsOf(rows, route)));
      h in HitsOf(view, plan, true, KeptOf(view, starts, plan, options))
    ensures IsMatch(rows, plan, options.filter, |rows|, h)
  {
    hide BuildGraph, VisitedIds, KeptOf, LabelsMatch, RecordsOf;
    var view := BuiltView(BuildGraph(env, RecordsOf(rows, route)));
    var kept := KeptOf(view, starts, plan, options);
    BuiltKeyed(env, rows, route);
    HitsFacts(view, plan, true, kept);
    KeptShape(view, starts, plan, options);
    AllVisited(env, rows, route, starts, plan, options);
    var c :| c in kept && HitOf(view, plan, true, c) == Some(h);
    assert 1 <= c.record.id <= |rows|;
    BuiltPayload(env, rows, route, c.record.id);
  }

  /** Every matching row is a hit of the walk. */
  lemma MatchIsHit(env: BuildEnv, rows: seq<Row>, route: Vector -> RoutingVector, starts: StartNodes,
                   plan: QueryPlan, options: SearchOptions, h: SearchHit)
    requires Ready(env) && (|rows| > 0 ==> starts.defaultNode == 1) && options.searchListSize >= |rows|
    requires IsMatch(rows, plan, options.filter, |rows|, h)
    ensures var view := BuiltView(BuildGraph(env, RecordsOf(rows, route)));
      h in HitsOf(view, plan, true, KeptOf(view, starts, plan, options))
  {
    hide BuildGraph, VisitedIds, KeptOf, LabelsMatch, RecordsOf;
    var view := BuiltView(BuildGraph(env, RecordsOf(rows, route)));
    var kept := KeptOf(view, starts, plan, options);
    BuiltKeyed(env, rows, route);
    HitsFacts(view, plan, true, kept);
    AllVisited(env, rows, route, starts, plan, options);
    BuiltPayload(env, rows, route, h.nodeId);
    assert h.nodeId in VisitedIds(view, starts, plan, options);
    KeptMembers(view, starts, plan, options, h.nodeId);
    var c :| c in kept && c.record == RoutingOf(view.nodes[h.nodeId]);
    assert HitOf(view, plan, true, c) == Some(h);
  }

  /**
   * Exactness: searching a built graph with rescoring and a search list no shorter than the input
   * returns the brute-force answer, whatever the filter, the distances and the build configuration.
   */
  lemma ExhaustiveSearchIsExact(env: BuildEnv, rows: seq<Row>, route: Vector -> RoutingVector, starts: StartNodes,
                                plan: QueryPlan, options: SearchOptions)
    requires Ready(env)
    requires |rows| > 0 ==> starts.defaultNode == 1
    requires options.rescore && options.searchListSize >= |rows|
    ensures Answer(BuiltView(BuildGraph(env, RecordsOf(rows, route))), starts, plan, options)
      == BruteForce(rows, plan, options.filter, options.limit)
  {
    hide BuildGraph, VisitedIds, GraphOf, LabelsMatch, RecordsOf, IsMatch, HitsOf, MatchingHits;
    var view := BuiltView(BuildGraph(env, RecordsOf(rows, route)));
    BuiltKeyed(env, rows, route);
    KeptShape(view, starts, plan, options);
    var kept := KeptOf(view, starts, plan, options);
    var hits, expected := HitsOf(view, plan, true, kept), MatchingHits(rows, plan, options.filter, |rows|);
    HitsDistinct(view, plan, true, kept);
    MatchingFacts(rows, plan, options.filter, |rows|);
    MatchingDistinct(rows, plan, options.filter, |rows|);
    forall h ensures h in hits <==> h in expected {
      if h in hits {
        HitMatches(env, rows, route, starts, plan, options, h);
      }
      if IsMatch(rows, plan, options.filter, |rows|, h) {
        MatchIsHit(env, rows, route, starts, plan, options, h);
      }
    }
    SameRanking(hits, expected);
  }

  lemma SameRanking(a: seq<SearchHit>, b: seq<SearchHit>)
    requires Distinct(a) && Distinct(b) && SameMembers(a, b) && OneHitPerId(a)
    ensures SortRanked(a, HitRank) == SortRanked(b, HitRank)
  {
    SortKeepsDistinct(a, HitRank);
    SortKeepsDistinct(b, HitRank);
    RankedListUnique(SortRanked(a, HitRank), SortRanked(b, HitRank), HitRank);
  }
}
