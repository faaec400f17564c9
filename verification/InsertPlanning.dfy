/** What an insert decides on its pinned snapshot: its neighbours, and their lists. */
module InsertPlanning {
  import opened Common
  import opened Labels
  import opened Ranking
  import opened Records
  import opened Reading
  import opened Prune
  import opened Search
  import opened SearchLoop
  import opened SearchRun
  import opened ExactSearch

  /** Configuration and the functions of vectors that an index applies. */
  datatype OnlineEnv = OnlineEnv(
    config: IndexConfig,
    between: Metric,
    planFor: Vector -> QueryPlan,
    route: Vector -> RoutingVector,
    normalize: Vector -> Vector)

  /** Normalising twice is normalising once, and keeps the length. */
  ghost predicate Normalizing(env: OnlineEnv) {
    forall v :: env.normalize(env.normalize(v)) == env.normalize(v) && |env.normalize(v)| == |v|
  }

  function InsertOptions(config: IndexConfig, filter: Option<LabelSet>): SearchOptions {
    var limit := Max(config.maxNeighbors, 1);
    var list := Max(config.buildSearchListSize, limit);
    SearchOptions(limit, list, DEFAULT_BUDGET.(maxRescore := Max(DEFAULT_BUDGET.maxRescore, list)), filter, true)
  }

  predicate HasNode(hits: seq<SearchHit>, id: NodeId) {
    exists i :: 0 <= i < |hits| && hits[i].nodeId == id
  }

  /** Adds the hits whose node is not listed yet. */
  function MergeHits(hits: seq<SearchHit>, more: seq<SearchHit>): seq<SearchHit> {
    if more == [] then hits
    else
      var merged, last := MergeHits(hits, more[..|more| - 1]), more[|more| - 1];
      if HasNode(merged, last.nodeId) then merged else merged + [last]
  }

  function IdsOfHits(hits: seq<SearchHit>): (ids: seq<NodeId>)
    ensures |ids| == |hits| && forall i :: 0 <= i < |ids| ==> ids[i] == hits[i].nodeId
  {
    seq(|hits|, i requires 0 <= i < |hits| => hits[i].nodeId)
  }

  /** The nearest nodes of a plain search and, for a labelled vector, of a search among its labels. */
  ghost function NeighborHits(env: OnlineEnv, view: View, starts: StartNodes, vector: Vector, labels: LabelSet): seq<SearchHit> {
    var plain := Answer(view, starts, env.planFor(vector), InsertOptions(env.config, None));
    if labels == [] then plain
    else MergeHits(plain, Answer(view, starts, env.planFor(vector), InsertOptions(env.config, Some(labels))))
  }

  ghost function InsertNeighbors(env: OnlineEnv, view: View, starts: StartNodes, vector: Vector, labels: LabelSet): seq<NodeId> {
    IdsOfHits(FirstHits(SortRanked(NeighborHits(env, view, starts, vector, labels), HitRank), env.config.maxNeighbors))
  }

  ghost predicate DistinctNodes(hits: seq<SearchHit>) {
    forall i, j :: 0 <= i < j < |hits| ==> hits[i].nodeId != hits[j].nodeId
  }

  ghost predicate AllLive(view: View, hits: seq<SearchHit>) {
    forall h :: h in hits ==> h.nodeId in Live(view)
  }

  lemma RankedNodes(view: View, hits: seq<SearchHit>, limit: nat)
    requires Distinct(hits) && OneHitPerId(hits) && AllLive(view, hits)
    ensures var first := FirstHits(SortRanked(hits, HitRank), limit);
      DistinctNodes(first) && AllLive(view, first) && |first| <= limit
  {
    SortKeepsDistinct(hits, HitRank);
    var ranked := SortRanked(hits, HitRank);
    assert forall i :: 0 <= i < |ranked| ==> ranked[i] in ranked && ranked[i] in hits;
  }

  /** An answer names live nodes, each once. */
  lemma AnswerFacts(view: View, starts: StartNodes, plan: QueryPlan, options: SearchOptions)
    requires Keyed(view.nodes)
    ensures DistinctNodes(Answer(view, starts, plan, options)) && AllLive(view, Answer(view, starts, plan, options))
  {
    hide VisitedIds, LabelsMatch, SortRanked;
    var kept := KeptOf(view, starts, plan, options);
    KeptShape(view, starts, plan, options);
    HitsDistinct(view, plan, options.rescore, kept);
    HitsFacts(view, plan, options.rescore, kept);
    CandidateMembers(view, starts, plan, options);
    VisitedReadable(view, starts, plan, options);
    var hits := HitsOf(view, plan, options.rescore, kept);
    forall h | h in hits ensures h.nodeId in Live(view) {
      var c :| c in kept && HitOf(view, plan, options.rescore, c) == Some(h);
      VisitedLive(view, starts, plan, options, c.record.id);
    }
    RankedNodes(view, hits, options.limit);
  }

  lemma VisitedLive(view: View, starts: StartNodes, plan: QueryPlan, options: SearchOptions, id: NodeId)
    requires id in VisitedIds(view, starts, plan, options)
    ensures id in Live(view)
  {
    VisitedReadable(view, starts, plan, options);
  }

  lemma {:induction false} MergeFacts(view: View, hits: seq<SearchHit>, more: seq<SearchHit>)
    requires DistinctNodes(hits) && AllLive(view, hits) && AllLive(view, more)
    ensures DistinctNodes(MergeHits(hits, more)) && AllLive(view, MergeHits(hits, more))
  {
    if more != [] {
      assert forall h :: h in more[..|more| - 1] ==> h in more;
      MergeFacts(view, hits, more[..|more| - 1]);
    }
  }

  /**
   * The chosen neighbours are live, distinct, and no more than the cap: a valid list for every node that is not among
   * them, and so for one that is not live yet.
   */
  lemma InsertNeighborsValid(env: OnlineEnv, view: View, starts: StartNodes, vector: Vector, labels: LabelSet, id: NodeId)
    requires Keyed(view.nodes)
    ensures var ids := InsertNeighbors(env, view, starts, vector, labels);
      && (NeighborsValid(id, ids, env.config.maxNeighbors) <==> id !in ids)
      && forall n :: n in ids ==> n in Live(view)
  {
    hide Answer, SortRanked;
    AnswerFacts(view, starts, env.planFor(vector), InsertOptions(env.config, None));
    AnswerFacts(view, starts, env.planFor(vector), InsertOptions(env.config, Some(labels)));
    MergeFacts(view, Answer(view, starts, env.planFor(vector), InsertOptions(env.config, None)),
               Answer(view, starts, env.planFor(vector), InsertOptions(env.config, Some(labels))));
    var hits := NeighborHits(env, view, starts, vector, labels);
    RankedNodes(view, hits, env.config.maxNeighbors);
    var first, ids := FirstHits(SortRanked(hits, HitRank), env.config.maxNeighbors), InsertNeighbors(env, view, starts, vector, labels);
    forall n | n in ids ensures n in Live(view) {
      var i :| 0 <= i < |ids| && ids[i] == n;
      assert first[i] in first;
    }
  }

  // ----- back pointers -----

  function RoutingRule(env: OnlineEnv, base: RoutingRecord): PruneRule {
    PruneRule(base.labels, env.config.hasLabels, env.config.maxAlpha, env.config.maxNeighbors, env.between)
  }

  function CandidateFor(env: OnlineEnv, base: RoutingRecord, c: RoutingRecord): PruneCandidate {
    PruneCandidate(c.id, env.between(base.routing, c.routing), c.routing, c.labels)
  }

  /** The base itself is never a candidate for its own list. */
  function CandidatesFor(env: OnlineEnv, base: RoutingRecord, records: seq<RoutingRecord>): seq<PruneCandidate> {
    if records == [] then []
    else
      var rest, last := CandidatesFor(env, base, records[..|records| - 1]), records[|records| - 1];
      if last.id == base.id then rest else rest + [CandidateFor(env, base, last)]
  }

  function WithId(ids: seq<NodeId>, id: NodeId): seq<NodeId> { if id in ids then ids else ids + [id] }

  /** The rewritten list of a live neighbour: its readable old neighbours and the new node, pruned. */
  ghost function Backpointers(env: OnlineEnv, view: View, record: NodeRecord, n: NodeId): seq<NodeId>
    requires n in Live(view)
  {
    var base := RoutingOf(view.nodes[n]);
    Pruned(RoutingRule(env, base),
           CandidatesFor(env, base, PresentRecords(view, WithId(base.neighbors, record.id)) + [RoutingOf(record)]))
  }

  lemma {:induction false} CandidatesForFacts(env: OnlineEnv, base: RoutingRecord, records: seq<RoutingRecord>)
    ensures forall c :: c in CandidatesFor(env, base, records) ==>
      c.id != base.id && exists i :: 0 <= i < |records| && c == CandidateFor(env, base, records[i])
  {
    if records != [] {
      CandidatesForFacts(env, base, records[..|records| - 1]);
    }
  }

  /** A rewritten list is valid: within the cap, without repetitions, without the node itself. */
  lemma BackpointersValid(env: OnlineEnv, view: View, record: NodeRecord, n: NodeId)
    requires Keyed(view.nodes) && n in Live(view) && record.id !in Live(view) && env.config.Valid()
    ensures NeighborsValid(n, Backpointers(env, view, record, n), env.config.maxNeighbors)
  {
    hide PresentRecords, Pruned;
    var base := RoutingOf(view.nodes[n]);
    var ids := WithId(base.neighbors, record.id);
    var present := PresentRecords(view, ids);
    var records := present + [RoutingOf(record)];
    var cands := CandidatesFor(env, base, records);
    PresentFacts(view, ids);
    CandidatesForFacts(env, base, records);
    forall a, b | a in cands && b in cands && a.id == b.id ensures a.distance == b.distance {
      var i :| 0 <= i < |records| && a == CandidateFor(env, base, records[i]);
      var j :| 0 <= j < |records| && b == CandidateFor(env, base, records[j]);
      SameRecord(view, present, record, i, j);
    }
    PrunedCount(RoutingRule(env, base), cands);
    assert n !in IdSet(cands);
  }

  lemma SameRecord(view: View, present: seq<RoutingRecord>, record: NodeRecord, i: nat, j: nat)
    requires record.id !in Live(view)
    requires forall r :: r in present ==> r.id in Live(view) && r == RoutingOf(view.nodes[r.id])
    requires i <= |present| && j <= |present|
    requires (present + [RoutingOf(record)])[i].id == (present + [RoutingOf(record)])[j].id
    ensures (present + [RoutingOf(record)])[i] == (present + [RoutingOf(record)])[j]
  {
    assert i < |present| ==> present[i] in present;
    assert j < |present| ==> present[j] in present;
  }

  // ----- the code -----

  /** Budgets that neither search of an insert can exceed. */
  ghost predicate AmpleSearches(z: Sizes, env: OnlineEnv, view: View, starts: StartNodes, vector: Vector, labels: LabelSet, bound: nat) {
    var plain, labelled := InsertOptions(env.config, None), InsertOptions(env.config, Some(labels));
    && Ample(z, view, StartIds(starts, None), env.planFor(vector), plain, bound)
    && (labels != [] ==> Ample(z, view, StartIds(starts, Some(labels)), env.planFor(vector), labelled, bound))
  }

  /** Budgets that nothing an insert reads can exceed. */
  ghost predicate AmpleInsert(z: Sizes, env: OnlineEnv, view: View, starts: StartNodes, vector: Vector, labels: LabelSet, bound: nat) {
    AmpleSearches(z, env, view, starts, vector, labels, bound) && AnyBatchFits(z, view, DEFAULT_BUDGET)
  }

  method FindInsertNeighbors(z: Sizes, env: OnlineEnv, view: View, starts: StartNodes, emptySnapshot: bool, vector: Vector,
                             labels: LabelSet, ghost bound: nat) returns (r: Result<seq<NodeId>>)
    requires Keyed(view.nodes) && (emptySnapshot ==> view.nodes == map[])
    ensures r.Ok? ==> r.value == InsertNeighbors(env, view, starts, vector, labels)
    ensures AmpleSearches(z, env, view, starts, vector, labels, bound) ==> r.Ok?
  {
    hide Answer, Ample;
    var plan := env.planFor(vector);
    var plain := SearchSnapshot(z, view, starts, emptySnapshot, plan, InsertOptions(env.config, None), bound);
    if plain.Err? {
      return Err(plain.error);
    }
    var candidates := plain.value;
    if labels != [] {
      var labelled := SearchSnapshot(z, view, starts, emptySnapshot, plan, InsertOptions(env.config, Some(labels)), bound);
      if labelled.Err? {
        return Err(labelled.error);
      }
      candidates := AddNewHits(candidates, labelled.value);
    }
    r := Ok(IdsOfHits(FirstHits(SortRanked(candidates, HitRank), env.config.maxNeighbors)));
  }

  method AddNewHits(hits: seq<SearchHit>, more: seq<SearchHit>) returns (merged: seq<SearchHit>)
    ensures merged == MergeHits(hits, more)
  {
    merged := hits;
    for i := 0 to |more|
      invariant merged == MergeHits(hits, more[..i])
    {
      assert more[..i + 1][..i] == more[..i];
      if !HasNode(merged, more[i].nodeId) {
        merged := merged + [more[i]];
      }
    }
    assert more[..|more|] == more;
  }

  /** The new list for one neighbour; none when the neighbour is not readable any more. */
  method RewriteBackpointer(z: Sizes, env: OnlineEnv, view: View, record: NodeRecord, n: NodeId)
    returns (r: Result<Option<seq<NodeId>>>)
    requires Keyed(view.nodes) && env.config.Valid()
    ensures r.Ok? ==> (r.value.Some? <==> n in Live(view))
    ensures r.Ok? && n in Live(view) ==> r.value.value == Backpointers(env, view, record, n)
    ensures r.Err? ==> r.error == BudgetExceeded && !AnyBatchFits(z, view, DEFAULT_BUDGET)
  {
    hide PresentRecords, BatchesFit, Pruned, AnyBatchFits;
    var self := ReadPresent(z, view, [n], DEFAULT_BUDGET);
    if self.Err? {
      SomeBatchFails(z, view, [n], DEFAULT_BUDGET);
      return Err(self.error);
    }
    OnePresent(view, n);
    if self.value == [] {
      return Ok(None);
    }
    var base := self.value[0];
    var present := ReadPresent(z, view, WithId(base.neighbors, record.id), DEFAULT_BUDGET);
    if present.Err? {
      SomeBatchFails(z, view, WithId(base.neighbors, record.id), DEFAULT_BUDGET);
      return Err(present.error);
    }
    var candidates := ScoreCandidates(env, base, present.value + [RoutingOf(record)]);
    var ids := AlphaPrune(RoutingRule(env, base), candidates);
    r := Ok(Some(ids));
  }

  lemma OnePresent(view: View, n: NodeId)
    requires Keyed(view.nodes)
    ensures PresentRecords(view, [n]) == if n in Live(view) then [RoutingOf(view.nodes[n])] else []
  {
    assert [n][..0] == [];
  }

  method ScoreCandidates(env: OnlineEnv, base: RoutingRecord, records: seq<RoutingRecord>) returns (candidates: seq<PruneCandidate>)
    ensures candidates == CandidatesFor(env, base, records)
  {
    candidates := [];
    for i := 0 to |records|
      invariant candidates == CandidatesFor(env, base, records[..i])
    {
      assert records[..i + 1][..i] == records[..i];
      if records[i].id != base.id {
        candidates := candidates + [CandidateFor(env, base, records[i])];
      }
    }
    assert records[..|records|] == records;
  }
}
