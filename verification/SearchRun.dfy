/**
 * One whole query: opening, traversal, label filter, exact distances and ranking; its answer is the specified one, and
 * budgets that no query can exceed never fail it.
 */
module SearchRun {
  import opened Arithmetic
  import opened Common
  import opened Labels
  import opened Ranking
  import opened Records
  import opened Reading
  import opened GraphWalk
  import opened QueryMemory
  import opened Search
  import opened SearchLoop

  // ----- starts -----

  lemma StartFrontier(view: View, g: WalkGraph, startIds: seq<NodeId>, distance: RoutingVector -> real, batch: seq<RoutingRecord>)
    requires Keyed(view.nodes) && Distinct(startIds) && g == GraphOf(view, startIds, distance)
    requires batch == PresentRecords(view, startIds)
    ensures BatchLive(view, batch) && |IdsOf(batch)| == |batch|
    ensures SeenIds(g, []) == IdsOf(batch) && Discovered(g, []) == IdsOf(batch) && Frontier(g, []) == IdsOf(batch)
  {
    ReadBatchLive(view, startIds);
    IdsOfSize(view, batch);
    SeenDiscovered(g, []);
    assert SeenIds(g, []) == IdsOf(batch);
  }

  lemma StartsHold(view: View, g: WalkGraph, startIds: seq<NodeId>, distance: RoutingVector -> real,
                   batch: seq<RoutingRecord>, s: LoopState)
    requires Keyed(view.nodes) && Distinct(startIds) && g == GraphOf(view, startIds, distance)
    requires batch == PresentRecords(view, startIds)
    requires s.visited == {} && s.candidates == [] && s.seen == IdsOf(batch)
    requires HeapHolds(g, s.heap, IdsOf(batch)) && SlotsHold(view, s.heap, s.fetched) && SlotsLive(view, s.fetched)
    requires |s.fetched| == |batch|
    ensures LoopHolds(view, g, s, [])
  {
    hide HeapHolds, SlotsHold, SlotsLive, IdsOf, Discovered, SeenIds, Frontier;
    StartFrontier(view, g, startIds, distance, batch);
    assert CandidatesOf(view, g, []) == [];
  }

  lemma PrefixRoom(view: View, startIds: seq<NodeId>, batch: seq<RoutingRecord>, i: nat)
    requires BatchLive(view, batch) && i <= |batch| && IdsOf(batch) <= Elements(startIds)
    ensures i <= |Live(view)|
    ensures |IdsOf(batch[..i])| == i && i <= |KnownIds(view, startIds)|
  {
    IdsOfSize(view, batch[..i]);
    SubsetSize(IdsOf(batch[..i]), Live(view));
    SubsetSize(IdsOf(batch[..i]), KnownIds(view, startIds));
  }

  lemma StartFits(env: QueryEnv, startIds: seq<NodeId>, bound: nat, memory: QueryMemoryAccountant,
                  slots: seq<Option<RoutingRecord>>, heapLen: nat, seenLen: nat)
    requires AccountFor(env, memory) && memory.Tracks([], slots) && SlotsLive(env.view, slots)
    requires |slots| <= |Live(env.view)| && heapLen <= |Live(env.view)| && seenLen <= |KnownIds(env.view, startIds)|
    ensures AmpleFor(env, startIds, bound) ==> memory.FitsGraphState(heapLen, seenLen, 0, 0)
  {
    if AmpleFor(env, startIds, bound) {
      AmpleFits(env, startIds, bound, memory, [], slots, heapLen, seenLen, 0, 0);
    }
  }

  /** Queues the present start records one by one. */
  method QueueStarts(env: QueryEnv, batch: seq<RoutingRecord>, memory: QueryMemoryAccountant,
                     ghost g: WalkGraph, ghost startIds: seq<NodeId>, ghost bound: nat)
    returns (r: Result<LoopState>)
    requires Keyed(env.view.nodes) && Distinct(startIds)
    requires g == GraphOf(env.view, startIds, env.plan.routingDistance)
    requires batch == PresentRecords(env.view, startIds)
    requires AccountFor(env, memory) && memory.Tracks([], [])
    modifies memory
    ensures r.Ok? ==> LoopHolds(env.view, g, r.value, []) && memory.Tracks(r.value.candidates, r.value.fetched)
    ensures r.Ok? ==> |r.value.seen| <= env.options.budget.maxCandidates
    ensures AmpleFor(env, startIds, bound) ==> r.Ok?
  {
    hide HeapHolds, SlotsHold, SlotsLive, IdsOf, KnownIds, GraphOf, Peak, SetEstimate, CandidateEstimate, CacheEstimate;
    hide CachedBytes, CandidateBytes;
    ReadBatchLive(env.view, startIds);
    GraphOfFacts(env.view, startIds, env.plan.routingDistance);
    EmptyQueue(env.view, g);
    IdsOfNone(batch);
    var heap: set<Queued>, seen: set<NodeId>, fetched: seq<Option<RoutingRecord>> := {}, {}, [];
    for i := 0 to |batch|
      invariant memory.Tracks([], fetched) && |fetched| == i
      invariant seen == IdsOf(batch[..i]) && HeapHolds(g, heap, seen)
      invariant SlotsHold(env.view, heap, fetched) && SlotsLive(env.view, fetched)
      invariant |seen| <= env.options.budget.maxCandidates
    {
      NewId(env.view, batch, i);
      IdsOfSnoc(batch, i);
      PrefixRoom(env.view, startIds, batch, i);
      PrefixRoom(env.view, startIds, batch, i + 1);
      var more := seen + {batch[i].id};
      if |more| > env.options.budget.maxCandidates {
        return Err(BudgetExceeded);
      }
      OneRecord(env.view, batch, i);
      ghost var before := seen;
      HeapSize(g, heap, before);
      var ok;
      ok, heap, fetched := QueueBatch(env, [batch[i]], heap, fetched, memory, |more|, 0, g, before, []);
      if !ok {
        StartFits(env, startIds, bound, memory, fetched, |heap|, |more|);
        return Err(BudgetExceeded);
      }
      seen := more;
    }
    var s := LoopState(heap, seen, {}, [], fetched);
    StartsHold(env.view, g, startIds, env.plan.routingDistance, batch, s);
    r := Ok(s);
  }

  lemma EmptyQueue(view: View, g: WalkGraph)
    ensures HeapHolds(g, {}, {}) && SlotsHold(view, {}, []) && SlotsLive(view, [])
  {}

  lemma OneRecord(view: View, batch: seq<RoutingRecord>, i: nat)
    requires BatchLive(view, batch) && i < |batch|
    ensures BatchLive(view, [batch[i]]) && IdsOf([batch[i]]) == {batch[i].id}
  {}

  // ----- traversal -----

  /** One visit: takes the popped record, expands it, and fetches its new neighbours. */
  method VisitTop(env: QueryEnv, top: Queued, s: LoopState, memory: QueryMemoryAccountant,
                  ghost g: WalkGraph, ghost ids: seq<NodeId>, ghost startIds: seq<NodeId>, ghost bound: nat)
    returns (r: Result<LoopState>)
    requires CanVisit(env, g, s, ids, top, startIds)
    requires |s.seen| <= env.options.budget.maxCandidates
    requires AccountFor(env, memory) && memory.Tracks(s.candidates, s.fetched)
    modifies memory
    ensures r.Ok? ==> LoopHolds(env.view, g, r.value, ids + [top.nodeId])
    ensures r.Ok? ==> memory.Tracks(r.value.candidates, r.value.fetched)
    ensures r.Ok? ==> |r.value.seen| <= env.options.budget.maxCandidates && |ids| + 1 <= env.options.budget.maxVisited
    ensures AmpleFor(env, startIds, bound) ==> r.Ok?
  {
    hide Popped, Expanded, Sized, AmpleFor, LoopHolds, GraphOf, KnownIds, Frontier, IsTop, CandidateAt, RoutingOf;
    PopTop(env, g, s, ids, top, startIds);
    TopCandidate(env, g, s, ids, top, startIds);
    var popped, record := PopRecord(env, top, s, memory, g, ids, startIds, bound);
    if popped.Err? {
      return Err(popped.error);
    }
    PoppedSeen(env.view, g, popped.value, ids, top.nodeId);
    var expanded, toRead := Expand(env, record, top.distance, popped.value, memory, g, ids, top.nodeId, startIds, bound);
    if expanded.Err? {
      return Err(expanded.error);
    }
    r := FetchNew(env, toRead, expanded.value, memory, g, ids, top.nodeId, startIds, bound);
  }

  lemma TopCandidate(env: QueryEnv, g: WalkGraph, s: LoopState, ids: seq<NodeId>, top: Queued, startIds: seq<NodeId>)
    requires CanVisit(env, g, s, ids, top, startIds)
    requires top.nodeId in Frontier(g, ids) && top.distance == g.score[top.nodeId] && top.nodeId in env.view.nodes
    ensures top.nodeId in g.score
    ensures Candidate(RoutingOf(env.view.nodes[top.nodeId]), top.distance) == CandidateAt(env.view, g, top.nodeId)
  {}

  lemma PoppedSeen(view: View, g: WalkGraph, s: LoopState, ids: seq<NodeId>, u: NodeId)
    requires Popped(view, g, s, ids, u)
    ensures s.visited <= s.seen
  {
    hide HeapHolds, SlotsHold, SlotsLive, SeenIds, Discovered;
    SeenDiscovered(g, ids);
    ElementsSnoc(ids, u);
  }

  /** Visits nodes best-first until the search list is full or the frontier is empty. */
  method Traverse(env: QueryEnv, first: LoopState, memory: QueryMemoryAccountant,
                  ghost g: WalkGraph, ghost startIds: seq<NodeId>, ghost bound: nat)
    returns (r: Result<LoopState>, heapLen: nat)
    requires Keyed(env.view.nodes) && env.options.budget.Valid()
    requires g == GraphOf(env.view, startIds, env.plan.routingDistance)
    requires LoopHolds(env.view, g, first, []) && |first.seen| <= env.options.budget.maxCandidates
    requires AccountFor(env, memory) && memory.Tracks(first.candidates, first.fetched)
    modifies memory
    ensures r.Ok? ==> LoopHolds(env.view, g, r.value, Walk(g, [], env.options.searchListSize))
    ensures r.Ok? ==> memory.Tracks(r.value.candidates, r.value.fetched)
    ensures r.Ok? ==> |r.value.seen| <= env.options.budget.maxCandidates
    ensures r.Ok? ==> |Walk(g, [], env.options.searchListSize)| <= env.options.budget.maxVisited
    ensures r.Ok? ==> heapLen <= |r.value.heap|
    ensures AmpleFor(env, startIds, bound) ==> r.Ok?
  {
    heapLen := 0;
    hide Walk, GraphOf, AmpleFor, LoopHolds, IsTop, Frontier, Distinct;
    var s := first;
    ghost var ids: seq<NodeId> := [];
    NoneCollected();
    while s.heap != {}
      invariant LoopHolds(env.view, g, s, ids) && Distinct(ids)
      invariant |ids| <= env.options.searchListSize && |ids| <= env.options.budget.maxVisited
      invariant |s.seen| <= env.options.budget.maxCandidates
      invariant memory.Tracks(s.candidates, s.fetched)
      invariant Walk(g, ids, env.options.searchListSize) == Walk(g, [], env.options.searchListSize)
      decreases env.options.searchListSize - |ids|
    {
      LoopVisited(env.view, g, s, ids);
      var top, rest := PopNearest(s.heap);
      if |s.visited| >= env.options.searchListSize {
        WalkDone(g, ids, env.options.searchListSize);
        return Ok(s), |rest|;
      }
      NextVisit(env, g, s, ids, top, startIds);
      var next := VisitTop(env, top, s, memory, g, ids, startIds, bound);
      if next.Err? {
        return Err(next.error), 0;
      }
      s := next.value;
      ids := ids + [top.nodeId];
    }
    QueueExhausted(env.view, g, s, ids);
    WalkDone(g, ids, env.options.searchListSize);
    r := Ok(s);
  }

  lemma LoopVisited(view: View, g: WalkGraph, s: LoopState, ids: seq<NodeId>)
    requires LoopHolds(view, g, s, ids) && Distinct(ids)
    ensures |s.visited| == |ids|
  {
    DistinctSize(ids);
  }

  lemma QueueExhausted(view: View, g: WalkGraph, s: LoopState, ids: seq<NodeId>)
    requires LoopHolds(view, g, s, ids) && s.heap == {}
    ensures Frontier(g, ids) == {}
  {
    NothingHeld(g, Frontier(g, ids));
  }

  lemma NextVisit(env: QueryEnv, g: WalkGraph, s: LoopState, ids: seq<NodeId>, top: Queued, startIds: seq<NodeId>)
    requires CanVisit(env, g, s, ids, top, startIds)
    ensures Distinct(ids + [top.nodeId])
    ensures Walk(g, ids, env.options.searchListSize) == Walk(g, ids + [top.nodeId], env.options.searchListSize)
  {
    hide Walk, HeapHolds, SlotsHold, SlotsLive, SeenIds, Discovered;
    PopTop(env, g, s, ids, top, startIds);
    DistinctSnoc(ids, top.nodeId);
    WalkStep(g, ids, env.options.searchListSize);
  }

  // ----- filtering and rescoring -----

  /** Keeps the candidates that match the filter. */
  method Retain(filter: Option<LabelSet>, candidates: seq<Candidate>) returns (kept: seq<Candidate>)
    ensures kept == Retained(filter, candidates)
  {
    kept := [];
    for i := 0 to |candidates|
      invariant kept == Retained(filter, candidates[..i])
    {
      assert candidates[..i + 1][..i] == candidates[..i];
      var matches := true;
      if filter.Some? && filter.value != [] {
        matches := Overlaps(candidates[i].record.labels, filter.value);
      }
      if matches {
        kept := kept + [candidates[i]];
      }
    }
    assert candidates[..|candidates|] == candidates;
  }

  function CandidateKey(c: Candidate): Rank { Rank(c.distance, c.record.id) }

  ghost predicate CandidatesLive(view: View, candidates: seq<Candidate>) {
    && DistinctIds(candidates)
    && forall k :: 0 <= k < |candidates| ==>
      candidates[k].record.id in Live(view) && candidates[k].record == RoutingOf(view.nodes[candidates[k].record.id])
  }

  lemma {:induction false} CandidateIdSize(view: View, candidates: seq<Candidate>)
    requires CandidatesLive(view, candidates)
    ensures |candidates| <= |Live(view)|
  {
    var ids := seq(|candidates|, k requires 0 <= k < |candidates| => candidates[k].record.id);
    DistinctSize(ids);
    assert forall k :: 0 <= k < |ids| ==> ids[k] in Live(view);
    SubsetSize(Elements(ids), Live(view));
  }

  /** How many full vectors the byte budget allows in one batch. */
  function VectorsByBytes(total: nat, bytesPerVector: nat): nat { total / Max(bytesPerVector, 1) }

  lemma DivBound(count: nat, total: nat, bytesPerVector: nat)
    requires count <= VectorsByBytes(total, bytesPerVector)
    ensures count * bytesPerVector <= total
  {
    var unit := Max(bytesPerVector, 1);
    assert (total / unit) * unit <= total;
    MulMono(count, total / unit, unit);
  }

  lemma {:induction false} VectorSumBound(env: QueryEnv, ids: seq<NodeId>)
    requires forall id :: id in Live(env.view) && env.view.nodes[id].full.Some? ==>
      |env.view.nodes[id].full.value| == env.plan.dimensions
    ensures SumVectorBytes(env.z, ReadAllVectors(env.view, ids)) <= |ids| * BytesPerVector(env.z, env.plan)
  {
    if ids != [] {
      var n := |ids| - 1;
      VectorSumBound(env, ids[..n]);
      assert ReadAllVectors(env.view, ids)[..n] == ReadAllVectors(env.view, ids[..n]);
      MulPred(|ids|, BytesPerVector(env.z, env.plan));
    }
  }

  lemma KeptWithin(env: QueryEnv, startIds: seq<NodeId>, bound: nat, memory: QueryMemoryAccountant, kept: seq<Candidate>)
    requires AmpleFor(env, startIds, bound) && AccountFor(env, memory) && memory.Tracks(kept, [])
    requires CandidatesLive(env.view, kept)
    ensures |kept| <= |Live(env.view)|
    ensures memory.CandidatesEstimate() <= CandidateEstimate(env.z, |Live(env.view)|, |Live(env.view)| * bound)
  {
    hide KnownIds, Peak;
    var n := |Live(env.view)|;
    CandidateIdSize(env.view, kept);
    assert CandidatesWithin(env.z, kept, bound);
    CandidateBytesBound(env.z, kept, bound);
    MulMono(|kept|, n, bound);
    MulMono(|kept|, n, env.z.candidate);
  }

  lemma RowsWithin(env: QueryEnv, startIds: seq<NodeId>, bound: nat, hitCount: nat, ids: seq<NodeId>)
    requires AmpleFor(env, startIds, bound)
    requires hitCount <= |Live(env.view)| && |ids| <= |Live(env.view)|
    ensures env.z.vecHeader + hitCount * env.z.hit + VectorBatchBytes(env.z, ReadAllVectors(env.view, ids))
      <= TransientPeak(env.z, env.plan, |Live(env.view)|, |KnownIds(env.view, startIds)|, bound)
  {
    hide KnownIds, Peak, TransientPeak, BytesPerVector;
    var n := |Live(env.view)|;
    TransientParts(env.z, env.plan, n, |KnownIds(env.view, startIds)|, bound);
    VectorSumBound(env, ids);
    MulMono(|ids|, n, BytesPerVector(env.z, env.plan));
    MulMono(|ids|, n, env.z.vectorRead);
    MulMono(hitCount, n, env.z.hit);
  }

  /** The account while rescoring: the search sets are gone, the candidates are still there. */
  function RescorePeak(z: Sizes, plan: QueryPlan, n: nat, m: nat, bound: nat): nat {
    plan.rawBytes + plan.routingBytes + CandidateEstimate(z, n, n * bound) + TransientPeak(z, plan, n, m, bound)
  }

  /** Ample budgets cover it. */
  lemma AmpleRoom(env: QueryEnv, startIds: seq<NodeId>, bound: nat)
    requires AmpleFor(env, startIds, bound)
    ensures RescorePeak(env.z, env.plan, |Live(env.view)|, |KnownIds(env.view, startIds)|, bound) <= env.options.budget.maxQueryBytes
  {
    hide KnownIds, TransientPeak, SetEstimate, CandidateEstimate, CacheEstimate, Live, RecordsWithin;
  }

  /** Ample budgets cover the rescoring checks. */
  lemma RescoreFits(env: QueryEnv, startIds: seq<NodeId>, bound: nat, memory: QueryMemoryAccountant,
                    kept: seq<Candidate>, hitCount: nat, ids: seq<NodeId>)
    requires AmpleFor(env, startIds, bound) && AccountFor(env, memory) && memory.Tracks(kept, [])
    requires CandidatesLive(env.view, kept) && hitCount <= |kept| && |ids| <= |kept|
    ensures memory.FitsCandidatesOnly()
    ensures memory.FitsRescore(hitCount, VectorBatchBytes(env.z, ReadAllVectors(env.view, ids)))
    ensures VectorBatchBytes(env.z, ReadAllVectors(env.view, ids)) <= env.options.budget.maxQueryBytes
    ensures memory.FitsRescore(hitCount, 0)
  {
    hide KnownIds, TransientPeak, SetEstimate, CandidateEstimate, CacheEstimate, VectorBatchBytes, CandidatesLive,
         AmpleFor, ReadAllVectors, Live, QueryMemoryAccountant.Tracks, QueryMemoryAccountant.CandidatesEstimate;
    AmpleRoom(env, startIds, bound);
    KeptWithin(env, startIds, bound, memory, kept);
    RowsWithin(env, startIds, bound, hitCount, ids);
  }

  /** Re-ranks candidates by exact distance, reading full vectors in bounded batches. */
  method Rescore(env: QueryEnv, kept: seq<Candidate>, memory: QueryMemoryAccountant, ghost startIds: seq<NodeId>, ghost bound: nat)
    returns (r: Result<seq<SearchHit>>)
    requires env.options.budget.Valid()
    requires AccountFor(env, memory) && memory.Tracks(kept, [])
    requires CandidatesLive(env.view, kept) && |kept| <= env.options.budget.maxRescore
    ensures r.Ok? ==> r.value == HitsOf(env.view, env.plan, true, kept)
    ensures AmpleFor(env, startIds, bound) ==> r.Ok?
  {
    hide AmpleFor, CandidatesLive, HitsOf, BytesPerVector, CandidateBytes, VectorsByBytes;
    NoHits(env, kept);
    if kept == [] {
      return Ok([]);
    }
    var byBytes := VectorsByBytes(env.options.budget.maxFullVectorBytes, BytesPerVector(env.z, env.plan));
    ChunkRoom(env, startIds, bound);
    if byBytes == 0 {
      return Err(BudgetExceeded);
    }
    var chunkSize := Min(env.options.budget.maxRescore, byBytes);
    var hits: seq<SearchHit> := [];
    var offset := 0;
    while offset < |kept|
      invariant 0 <= offset <= |kept| && |hits| <= offset
      invariant hits == HitsOf(env.view, env.plan, true, kept[..offset])
    {
      var count := Min(|kept| - offset, chunkSize);
      DivBound(count, env.options.budget.maxFullVectorBytes, BytesPerVector(env.z, env.plan));
      var next := RescoreChunk(env, kept, hits, offset, count, memory, startIds, bound);
      if next.Err? {
        return next;
      }
      hits := next.value;
      offset := offset + count;
    }
    assert kept[..offset] == kept;
    r := Ok(hits);
  }

  lemma NoHits(env: QueryEnv, kept: seq<Candidate>)
    ensures HitsOf(env.view, env.plan, true, kept[..0]) == [] && kept[..|kept|] == kept
  {}

  lemma ChunkRoom(env: QueryEnv, startIds: seq<NodeId>, bound: nat)
    requires env.options.budget.Valid()
    ensures AmpleFor(env, startIds, bound) ==>
      VectorsByBytes(env.options.budget.maxFullVectorBytes, BytesPerVector(env.z, env.plan)) > 0
  {
    hide KnownIds, Peak;
    if AmpleFor(env, startIds, bound) {
      var unit, total := Max(BytesPerVector(env.z, env.plan), 1), env.options.budget.maxFullVectorBytes;
      assert unit <= total;
    }
  }

  function ChunkIds(kept: seq<Candidate>, offset: nat, count: nat): (ids: seq<NodeId>)
    requires offset + count <= |kept|
    ensures |ids| == count && forall k :: 0 <= k < count ==> ids[k] == kept[offset + k].record.id
  {
    if count == 0 then [] else ChunkIds(kept, offset, count - 1) + [kept[offset + count - 1].record.id]
  }

  /** Scores the rows of one batch. */
  method ScoreRows(env: QueryEnv, kept: seq<Candidate>, rows: seq<VectorRead>, before: seq<SearchHit>, offset: nat,
                   memory: QueryMemoryAccountant, ghost startIds: seq<NodeId>, ghost bound: nat)
    returns (r: Result<seq<SearchHit>>)
    requires offset + |rows| <= |kept| && |before| <= offset
    requires before == HitsOf(env.view, env.plan, true, kept[..offset])
    requires forall k :: 0 <= k < |rows| ==> rows[k] == ReadVector(env.view, kept[offset + k].record.id)
    requires AccountFor(env, memory) && memory.Tracks(kept, []) && CandidatesLive(env.view, kept)
    ensures r.Ok? ==> r.value == HitsOf(env.view, env.plan, true, kept[..offset + |rows|]) && |r.value| <= offset + |rows|
    ensures AmpleFor(env, startIds, bound) ==> r.Ok?
  {
    hide CandidatesLive, Ample, CandidateEstimate, ReadVector, CandidateBytes, CachedBytes;
    var hits := before;
    for k := 0 to |rows|
      invariant hits == HitsOf(env.view, env.plan, true, kept[..offset + k]) && |hits| <= offset + k
    {
      HitsSnoc(env.view, env.plan, true, kept, offset + k);
      RowDimension(env, startIds, bound, kept, offset + k);
      var row := rows[k];
      if row.VectorPresent? {
        if |row.vector| != env.plan.dimensions {
          return Err(InvalidDimension);
        }
        var c := kept[offset + k].record;
        hits := hits + [SearchHit(c.id, c.externalId, env.plan.fullDistance(row.vector))];
        if AmpleFor(env, startIds, bound) {
          RescoreFits(env, startIds, bound, memory, kept, |hits|, []);
        }
        if !memory.FitsRescore(|hits|, 0) {
          return Err(BudgetExceeded);
        }
      }
    }
    r := Ok(hits);
  }

  /** Reads and scores one batch of candidates. */
  method RescoreChunk(env: QueryEnv, kept: seq<Candidate>, before: seq<SearchHit>, offset: nat, count: nat,
                      memory: QueryMemoryAccountant, ghost startIds: seq<NodeId>, ghost bound: nat)
    returns (r: Result<seq<SearchHit>>)
    requires env.options.budget.Valid() && offset + count <= |kept| && |before| <= offset
    requires before == HitsOf(env.view, env.plan, true, kept[..offset])
    requires AccountFor(env, memory) && memory.Tracks(kept, [])
    requires CandidatesLive(env.view, kept) && |kept| <= env.options.budget.maxRescore
    requires count * BytesPerVector(env.z, env.plan) <= env.options.budget.maxFullVectorBytes
    ensures r.Ok? ==> r.value == HitsOf(env.view, env.plan, true, kept[..offset + count]) && |r.value| <= offset + count
    ensures AmpleFor(env, startIds, bound) ==> r.Ok?
  {
    hide CandidatesLive, Ample, CandidateEstimate, HitsOf, ReadVector, VectorBatchBytes;
    var ids := ChunkIds(kept, offset, count);
    if AmpleFor(env, startIds, bound) {
      RescoreFits(env, startIds, bound, memory, kept, |before|, ids);
    }
    var rows := ReadVectors(env.z, env.view, ids, env.options.budget, BytesPerVector(env.z, env.plan));
    if rows.Err? {
      return Err(rows.error);
    }
    if !memory.FitsRescore(|before|, VectorBatchBytes(env.z, rows.value)) {
      return Err(BudgetExceeded);
    }
    r := ScoreRows(env, kept, rows.value, before, offset, memory, startIds, bound);
  }

  lemma RowDimension(env: QueryEnv, startIds: seq<NodeId>, bound: nat, kept: seq<Candidate>, k: nat)
    requires k < |kept|
    ensures AmpleFor(env, startIds, bound) ==>
      var row := ReadVector(env.view, kept[k].record.id); row.VectorPresent? ==> |row.vector| == env.plan.dimensions
  {
    hide KnownIds, Peak;
  }

  // ----- the whole query -----

  /** Opens the account, reads the starts and walks the graph. */
  method WalkQuery(env: QueryEnv, startIds: seq<NodeId>, ghost bound: nat)
    returns (r: Result<LoopState>, memory: QueryMemoryAccountant, heapLen: nat)
    requires Keyed(env.view.nodes) && env.options.budget.Valid() && Distinct(startIds)
    ensures fresh(memory) && AccountFor(env, memory)
    ensures r.Ok? ==> var g := GraphOf(env.view, startIds, env.plan.routingDistance);
      && LoopHolds(env.view, g, r.value, Walk(g, [], env.options.searchListSize))
      && memory.Tracks(r.value.candidates, r.value.fetched)
      && |r.value.seen| <= env.options.budget.maxCandidates
      && |Walk(g, [], env.options.searchListSize)| <= env.options.budget.maxVisited
      && heapLen <= |r.value.heap|
    ensures AmpleFor(env, startIds, bound) ==> r.Ok?
  {
    hide LoopHolds, Ample, GraphOf, Walk, SetEstimate, CandidateEstimate, CacheEstimate;
    ghost var g := GraphOf(env.view, startIds, env.plan.routingDistance);
    memory := new QueryMemoryAccountant(env.z, env.options.budget.maxQueryBytes, env.plan.rawBytes + env.plan.routingBytes);
    heapLen := 0;
    OpeningFits(env, startIds, bound, memory);
    if env.plan.rawBytes + env.plan.routingBytes > env.options.budget.maxQueryBytes
       || env.plan.rawBytes + env.plan.configuredBytes > env.options.budget.maxQueryBytes
       || !memory.FitsGraphState(0, 0, 0, 0) {
      return Err(BudgetExceeded), memory, 0;
    }
    StartBatches(env, startIds, bound);
    var batch := ReadPresent(env.z, env.view, startIds, env.options.budget);
    if batch.Err? {
      return Err(batch.error), memory, 0;
    }
    StartBatchFits(env, startIds, bound, memory, batch.value);
    if !memory.FitsGraphState(0, 0, 0, RecordBatchBytes(env.z, batch.value)) {
      return Err(BudgetExceeded), memory, 0;
    }
    var first := QueueStarts(env, batch.value, memory, g, startIds, bound);
    if first.Err? {
      return first, memory, 0;
    }
    r, heapLen := Traverse(env, first.value, memory, g, startIds, bound);
  }

  lemma OpeningFits(env: QueryEnv, startIds: seq<NodeId>, bound: nat, memory: QueryMemoryAccountant)
    requires AccountFor(env, memory) && memory.Tracks([], [])
    ensures AmpleFor(env, startIds, bound) ==>
      && memory.FitsGraphState(0, 0, 0, 0)
      && env.plan.rawBytes + env.plan.routingBytes <= env.options.budget.maxQueryBytes
      && env.plan.rawBytes + env.plan.configuredBytes <= env.options.budget.maxQueryBytes
  {
    hide KnownIds, TransientPeak;
    if AmpleFor(env, startIds, bound) {
      AmpleFits(env, startIds, bound, memory, [], [], 0, 0, 0, 0);
      TransientParts(env.z, env.plan, |Live(env.view)|, |KnownIds(env.view, startIds)|, bound);
    }
  }

  lemma StartBatches(env: QueryEnv, startIds: seq<NodeId>, bound: nat)
    requires Keyed(env.view.nodes) && env.options.budget.Valid() && Distinct(startIds)
    ensures AmpleFor(env, startIds, bound) ==> BatchesFit(env.z, env.view, startIds, env.options.budget)
  {
    if AmpleFor(env, startIds, bound) {
      AmpleBatches(env, startIds, startIds, bound);
    }
  }

  lemma StartBatchFits(env: QueryEnv, startIds: seq<NodeId>, bound: nat, memory: QueryMemoryAccountant, batch: seq<RoutingRecord>)
    requires AccountFor(env, memory) && memory.Tracks([], [])
    requires Keyed(env.view.nodes) && Distinct(startIds) && batch == PresentRecords(env.view, startIds)
    ensures AmpleFor(env, startIds, bound) ==> memory.FitsGraphState(0, 0, 0, RecordBatchBytes(env.z, batch))
  {
    if AmpleFor(env, startIds, bound) {
      ReadBatchLive(env.view, startIds);
      RecordBatchBound(env, startIds, batch, bound);
      AmpleFits(env, startIds, bound, memory, [], [], 0, 0, 0, RecordBatchBytes(env.z, batch));
    }
  }

  lemma CandidatesAreLive(env: QueryEnv, g: WalkGraph, startIds: seq<NodeId>, ids: seq<NodeId>)
    requires Keyed(env.view.nodes) && g == GraphOf(env.view, startIds, env.plan.routingDistance)
    requires AllReadable(env.view, g, ids) && Distinct(ids)
    ensures CandidatesLive(env.view, CandidatesOf(env.view, g, ids))
  {}

  lemma KeptLive(view: View, all: seq<Candidate>, filter: Option<LabelSet>, kept: seq<Candidate>)
    requires CandidatesLive(view, all) && kept == SortRanked(Retained(filter, all), CandidateKey)
    ensures CandidatesLive(view, kept)
    ensures DistinctIds(Retained(filter, all)) && SameMembers(kept, Retained(filter, all))
  {
    var retained := Retained(filter, all);
    RetainedDistinct(filter, all);
    RetainedFacts(filter, all);
    SortKeepsDistinct(retained, CandidateKey);
    forall k | 0 <= k < |kept|
      ensures kept[k].record.id in Live(view) && kept[k].record == RoutingOf(view.nodes[kept[k].record.id])
    {
      assert kept[k] in kept;
      var i :| 0 <= i < |all| && all[i] == kept[k];
    }
    forall i, j | 0 <= i < j < |kept| ensures kept[i].record.id != kept[j].record.id {
      assert kept[i] in kept && kept[j] in kept && kept[i] != kept[j];
      var a :| 0 <= a < |retained| && retained[a] == kept[i];
      var b :| 0 <= b < |retained| && retained[b] == kept[j];
    }
  }

  /** Searches a snapshot. */
  method SearchSnapshot(z: Sizes, view: View, starts: StartNodes, emptySnapshot: bool, plan: QueryPlan, options: SearchOptions,
                        ghost bound: nat)
    returns (r: Result<seq<SearchHit>>)
    requires Keyed(view.nodes)
    requires emptySnapshot ==> view.nodes == map[]
    ensures r.Ok? ==> options.Valid() && r.value == Answer(view, starts, plan, options)
    ensures r.Ok? ==> |VisitedIds(view, starts, plan, options)| <= Min(options.searchListSize, options.budget.maxVisited)
    ensures r.Ok? ==> |SeenIds(GraphOf(view, StartIds(starts, options.filter), plan.routingDistance),
                               VisitedIds(view, starts, plan, options))| <= options.budget.maxCandidates
    ensures options.Valid() && Ample(z, view, StartIds(starts, options.filter), plan, options, bound) ==> r.Ok?
  {
    hide Ample, SetEstimate, CandidateEstimate, CacheEstimate, LoopHolds, Walk, GraphOf, Retained;
    var env := QueryEnv(z, view, plan, options);
    var startIds := StartIds(starts, options.filter);
    if !options.Valid() {
      return Err(InvalidConfig);
    }
    OpeningBudget(env, startIds, bound);
    if plan.rawBytes + plan.configuredBytes > options.budget.maxQueryBytes {
      return Err(BudgetExceeded);
    }
    VisitedReadable(view, starts, plan, options);
    if starts.defaultNode == EMPTY_START_NODE && emptySnapshot {
      EmptyAnswer(view, starts, plan, options);
      return Ok([]);
    }
    var walked, memory, heapLen := WalkQuery(env, startIds, bound);
    if walked.Err? {
      return Err(walked.error);
    }
    LoopSeen(view, GraphOf(view, startIds, plan.routingDistance), walked.value, VisitedIds(view, starts, plan, options));
    r := FinishQuery(env, starts, walked.value, heapLen, memory, bound);
  }

  lemma LoopSeen(view: View, g: WalkGraph, s: LoopState, ids: seq<NodeId>)
    requires LoopHolds(view, g, s, ids)
    ensures s.seen == SeenIds(g, ids)
  {}

  lemma OpeningBudget(env: QueryEnv, startIds: seq<NodeId>, bound: nat)
    ensures AmpleFor(env, startIds, bound) ==> env.plan.rawBytes + env.plan.configuredBytes <= env.options.budget.maxQueryBytes
  {
    hide KnownIds, TransientPeak;
    TransientParts(env.z, env.plan, |Live(env.view)|, |KnownIds(env.view, startIds)|, bound);
  }

  lemma EmptyAnswer(view: View, starts: StartNodes, plan: QueryPlan, options: SearchOptions)
    requires view.nodes == map[]
    ensures VisitedIds(view, starts, plan, options) == []
    ensures Answer(view, starts, plan, options) == []
    ensures SeenIds(GraphOf(view, StartIds(starts, options.filter), plan.routingDistance), []) == {}
  {
    var g := GraphOf(view, StartIds(starts, options.filter), plan.routingDistance);
    assert Live(view) == {};
    assert Discovered(g, []) == {};
  }

  /** Filters, ranks and rescores what the walk visited. */
  method FinishQuery(env: QueryEnv, starts: StartNodes, s: LoopState, heapLen: nat, memory: QueryMemoryAccountant, ghost bound: nat)
    returns (r: Result<seq<SearchHit>>)
    requires Keyed(env.view.nodes) && env.options.Valid()
    requires LoopHolds(env.view, GraphOf(env.view, StartIds(starts, env.options.filter), env.plan.routingDistance), s,
                       VisitedIds(env.view, starts, env.plan, env.options))
    requires heapLen <= |s.heap|
    requires AccountFor(env, memory) && memory.Tracks(s.candidates, s.fetched)
    modifies memory
    ensures r.Ok? ==> r.value == Answer(env.view, starts, env.plan, env.options)
    ensures AmpleFor(env, StartIds(starts, env.options.filter), bound) ==> r.Ok?
  {
    hide Ample, SetEstimate, CandidateEstimate, CacheEstimate, Walk, GraphOf, Retained, HitsOf, CandidatesLive, SeenIds, HeapHolds;
    ghost var startIds := StartIds(starts, env.options.filter);
    ghost var g := GraphOf(env.view, startIds, env.plan.routingDistance);
    ghost var ids := VisitedIds(env.view, starts, env.plan, env.options);
    VisitedReadable(env.view, starts, env.plan, env.options);
    LoopSized(env, g, s, ids, startIds, bound);
    CandidatesAreLive(env, g, startIds, ids);
    var retained := Retain(env.options.filter, s.candidates);
    var kept := SortRanked(retained, CandidateKey);
    KeptLive(env.view, s.candidates, env.options.filter, kept);
    KeptRoom(env, startIds, bound, kept);
    if env.options.rescore && |kept| > env.options.budget.maxRescore {
      return Err(BudgetExceeded);
    }
    memory.RebuildCandidates(kept, s.candidates, s.fetched);
    KeptFits(env, startIds, bound, memory, s, heapLen, kept);
    if !memory.FitsGraphState(heapLen, |s.seen|, |s.visited|, 0) {
      return Err(BudgetExceeded);
    }
    memory.ReleaseAllCached(kept, s.fetched);
    if AmpleFor(env, startIds, bound) {
      RescoreFits(env, startIds, bound, memory, kept, 0, []);
    }
    if !memory.FitsCandidatesOnly() {
      return Err(BudgetExceeded);
    }
    var hits: seq<SearchHit>;
    if env.options.rescore {
      var rescored := Rescore(env, kept, memory, startIds, bound);
      if rescored.Err? {
        return Err(rescored.error);
      }
      hits := rescored.value;
    } else {
      hits := RoutingHits(env, kept);
    }
    KeptDistinct(env.view, kept);
    RankingIgnoresOrder(env.view, env.plan, env.options.rescore, kept, retained);
    r := Ok(FirstHits(SortRanked(hits, HitRank), env.options.limit));
  }

  lemma KeptDistinct(view: View, kept: seq<Candidate>)
    requires CandidatesLive(view, kept)
    ensures DistinctIds(kept)
  {}

  lemma KeptRoom(env: QueryEnv, startIds: seq<NodeId>, bound: nat, kept: seq<Candidate>)
    requires CandidatesLive(env.view, kept)
    ensures AmpleFor(env, startIds, bound) ==> |kept| <= env.options.budget.maxRescore
  {
    hide KnownIds, Peak;
    CandidateIdSize(env.view, kept);
  }

  lemma KeptFits(env: QueryEnv, startIds: seq<NodeId>, bound: nat, memory: QueryMemoryAccountant, s: LoopState, heapLen: nat,
                 kept: seq<Candidate>)
    requires Sized(env, startIds, bound, s) && heapLen <= |s.heap| && CandidatesLive(env.view, kept)
    requires AccountFor(env, memory) && memory.Tracks(kept, s.fetched)
    ensures AmpleFor(env, startIds, bound) ==> memory.FitsGraphState(heapLen, |s.seen|, |s.visited|, 0)
  {
    hide KnownIds, Peak, SetEstimate, CandidateEstimate, CacheEstimate;
    if AmpleFor(env, startIds, bound) {
      CandidateIdSize(env.view, kept);
      assert CandidatesWithin(env.z, kept, bound);
      AmpleFits(env, startIds, bound, memory, kept, s.fetched, heapLen, |s.seen|, |s.visited|, 0);
    }
  }

  /** Without rescoring, candidates are returned at their routing distance. */
  method RoutingHits(env: QueryEnv, kept: seq<Candidate>) returns (hits: seq<SearchHit>)
    ensures hits == HitsOf(env.view, env.plan, false, kept)
  {
    hits := [];
    for i := 0 to |kept|
      invariant hits == HitsOf(env.view, env.plan, false, kept[..i])
    {
      HitsSnoc(env.view, env.plan, false, kept, i);
      hits := hits + [SearchHit(kept[i].record.id, kept[i].record.externalId, kept[i].distance)];
    }
    assert kept[..|kept|] == kept;
  }
}
