/**
 * The query loop: a heap, a seen set, a per-query slot cache and a running byte account, and the invariant that ties
 * them to the frontier and the visited sequence of the specified walk.
 */
module SearchLoop {
  import opened Arithmetic
  import opened Common
  import opened Ranking
  import opened Records
  import opened Reading
  import opened GraphWalk
  import opened QueryMemory
  import opened Search

  // ----- the slot cache -----

  /** Every queued node has its fetched record in the slot its queue entry carries. */
  ghost predicate SlotsHold(view: View, heap: set<Queued>, fetched: seq<Option<RoutingRecord>>) {
    forall q :: q in heap ==>
      q.slot < |fetched| && q.nodeId in view.nodes && fetched[q.slot] == Some(RoutingOf(view.nodes[q.nodeId]))
  }

  /** Taking one popped record leaves the slots of all other queued nodes full. */
  lemma PopSlots(view: View, g: WalkGraph, heap: set<Queued>, frontier: set<NodeId>, fetched: seq<Option<RoutingRecord>>, top: Queued)
    requires Keyed(view.nodes) && HeapHolds(g, heap, frontier) && SlotsHold(view, heap, fetched) && top in heap
    ensures top.slot < |fetched| && SlotsHold(view, heap - {top}, fetched[top.slot := None])
  {
    forall q | q in heap - {top} ensures q.slot != top.slot {
      assert RoutingOf(view.nodes[q.nodeId]).id == q.nodeId && RoutingOf(view.nodes[top.nodeId]).id == top.nodeId;
    }
  }

  lemma {:induction false} HeapSize(g: WalkGraph, heap: set<Queued>, frontier: set<NodeId>)
    requires HeapHolds(g, heap, frontier)
    ensures |heap| == |frontier|
    decreases heap
  {
    if heap == {} {
      NothingHeld(g, frontier);
    } else {
      var q :| q in heap;
      forall v | v in frontier - {q.nodeId} ensures exists p :: p in heap - {q} && p.nodeId == v {
        var p :| p in heap && p.nodeId == v;
        assert p in heap - {q};
      }
      HeapSize(g, heap - {q}, frontier - {q.nodeId});
    }
  }

  // ----- budgets that cannot run out -----

  /** Every id a walk over the view can come across. */
  ghost function KnownIds(view: View, startIds: seq<NodeId>): set<NodeId> {
    Elements(startIds) + set id, v | id in Live(view) && v in view.nodes[id].neighbors :: v
  }

  function BytesPerVector(z: Sizes, plan: QueryPlan): nat { plan.dimensions * z.float }

  /** Bytes that a query holds for a moment only. */
  function TransientPeak(z: Sizes, plan: QueryPlan, n: nat, m: nat, bound: nat): nat {
    plan.configuredBytes
    + (z.vecHeader + m * z.nodeId)
    + (z.vecHeader + n * z.record + n * bound)
    + (z.vecHeader + m * z.nodeRead + n * bound)
    + (z.vecHeader + n * z.hit)
    + (z.vecHeader + n * z.vectorRead + n * BytesPerVector(z, plan))
  }

  /** An upper bound on every byte estimate of a query over `n` live nodes and `m` known ids. */
  function Peak(z: Sizes, plan: QueryPlan, n: nat, m: nat, bound: nat): nat {
    plan.rawBytes + plan.routingBytes
    + SetEstimate(z, n, m, n) + CandidateEstimate(z, n, n * bound) + CacheEstimate(z, n, n * bound)
    + TransientPeak(z, plan, n, m, bound)
  }

  /** Budgets no query over this view can exceed. */
  ghost predicate Ample(z: Sizes, view: View, startIds: seq<NodeId>, plan: QueryPlan, options: SearchOptions, bound: nat) {
    var n, m := |Live(view)|, |KnownIds(view, startIds)|;
    && RecordsWithin(z, view, bound)
    && Peak(z, plan, n, m, bound) <= options.budget.maxQueryBytes
    && Min(options.searchListSize, n) <= options.budget.maxVisited
    && m <= options.budget.maxCandidates
    && n <= options.budget.maxRescore
    && BytesPerVector(z, plan) <= options.budget.maxFullVectorBytes
    && forall id :: id in Live(view) && view.nodes[id].full.Some? ==> |view.nodes[id].full.value| == plan.dimensions
  }

  lemma EstimateMono(z: Sizes, n: nat, m: nat, bound: nat, heapLen: nat, seenLen: nat, visitedLen: nat,
                     count: nat, countBytes: nat, slots: nat, slotBytes: nat)
    requires heapLen <= n && seenLen <= m && visitedLen <= n && count <= n && slots <= n
    requires countBytes <= n * bound && slotBytes <= n * bound
    ensures SetEstimate(z, heapLen, seenLen, visitedLen) <= SetEstimate(z, n, m, n)
    ensures CandidateEstimate(z, count, countBytes) <= CandidateEstimate(z, n, n * bound)
    ensures CacheEstimate(z, slots, slotBytes) <= CacheEstimate(z, n, n * bound)
  {
    MulMono(heapLen, n, z.queued);
    MulMono(seenLen, m, z.setEntry);
    MulMono(visitedLen, n, z.setEntry);
    MulMono(count, n, z.candidate);
    MulMono(slots, n, z.slot);
  }

  ghost predicate CandidatesWithin(z: Sizes, candidates: seq<Candidate>, bound: nat) {
    forall k :: 0 <= k < |candidates| ==> RecordBytes(z, candidates[k].record) <= bound
  }

  ghost predicate SlotsWithin(z: Sizes, slots: seq<Option<RoutingRecord>>, bound: nat) {
    forall k :: 0 <= k < |slots| ==> SlotBytes(z, slots[k]) <= bound
  }

  lemma {:induction false} CandidateBytesBound(z: Sizes, candidates: seq<Candidate>, bound: nat)
    requires CandidatesWithin(z, candidates, bound)
    ensures CandidateBytes(z, candidates) <= |candidates| * bound
  {
    hide RecordBytes;
    if candidates != [] {
      CandidateBytesBound(z, candidates[..|candidates| - 1], bound);
      MulPred(|candidates|, bound);
    }
  }

  lemma {:induction false} CachedBytesBound(z: Sizes, slots: seq<Option<RoutingRecord>>, bound: nat)
    requires SlotsWithin(z, slots, bound)
    ensures CachedBytes(z, slots) <= |slots| * bound
  {
    hide SlotBytes;
    if slots != [] {
      CachedBytesBound(z, slots[..|slots| - 1], bound);
      MulPred(|slots|, bound);
    }
  }

  // ----- the loop state -----

  datatype QueryEnv = QueryEnv(z: Sizes, view: View, plan: QueryPlan, options: SearchOptions)

  /** Slots hold records of live nodes. */
  ghost predicate SlotsLive(view: View, fetched: seq<Option<RoutingRecord>>) {
    forall k :: 0 <= k < |fetched| && fetched[k].Some? ==>
      fetched[k].value.id in Live(view) && fetched[k].value == RoutingOf(view.nodes[fetched[k].value.id])
  }

  /** Records as a batch read returns them: distinct live nodes. */
  ghost predicate BatchLive(view: View, batch: seq<RoutingRecord>) {
    && Distinct(batch)
    && forall k :: 0 <= k < |batch| ==> batch[k].id in Live(view) && batch[k] == RoutingOf(view.nodes[batch[k].id])
  }

  ghost function IdsOf(batch: seq<RoutingRecord>): set<NodeId> { set r | r in batch :: r.id }

  lemma IdsOfSnoc(batch: seq<RoutingRecord>, i: nat)
    requires i < |batch|
    ensures IdsOf(batch[..i + 1]) == IdsOf(batch[..i]) + {batch[i].id}
  {
    assert batch[..i + 1] == batch[..i] + [batch[i]];
  }

  lemma {:induction false} IdsOfSize(view: View, batch: seq<RoutingRecord>)
    requires BatchLive(view, batch)
    ensures |IdsOf(batch)| == |batch|
  {
    if batch == [] {
      assert IdsOf(batch) == {};
    } else {
      var n := |batch| - 1;
      IdsOfSize(view, batch[..n]);
      IdsOfSnoc(batch, n);
      assert batch[..n + 1] == batch;
      assert batch[n].id !in IdsOf(batch[..n]);
    }
  }

  lemma ReadBatchLive(view: View, ids: seq<NodeId>)
    requires Keyed(view.nodes) && Distinct(ids)
    ensures BatchLive(view, PresentRecords(view, ids))
    ensures IdsOf(PresentRecords(view, ids)) == Elements(ids) * Live(view)
  {
    PresentDistinct(view, ids);
    PresentFacts(view, ids);
    var batch := PresentRecords(view, ids);
    assert forall k :: 0 <= k < |batch| ==> batch[k] in batch;
    forall id ensures id in IdsOf(batch) <==> id in Elements(ids) * Live(view) {
      if id in Elements(ids) * Live(view) {
        assert RoutingOf(view.nodes[id]) in batch;
      }
    }
  }

  /** The loop invariant: the queue is the frontier, every discovered node was fetched exactly once. */
  ghost predicate Searching(view: View, g: WalkGraph, heap: set<Queued>, seen: set<NodeId>, ids: seq<NodeId>,
                            candidates: seq<Candidate>, fetched: seq<Option<RoutingRecord>>) {
    && AllReadable(view, g, ids) && (forall k :: 0 <= k < |ids| ==> ids[k] in g.edges)
    && Elements(ids) <= Discovered(g, ids)
    && candidates == CandidatesOf(view, g, ids)
    && seen == SeenIds(g, ids)
    && HeapHolds(g, heap, Frontier(g, ids))
    && SlotsHold(view, heap, fetched) && SlotsLive(view, fetched)
    && |fetched| == |Discovered(g, ids)|
  }

  /** Queues a batch of newly fetched records, one cache slot each. */
  method QueueBatch(env: QueryEnv, batch: seq<RoutingRecord>, queue: set<Queued>, cache: seq<Option<RoutingRecord>>,
                    memory: QueryMemoryAccountant, seenLen: nat, visitedLen: nat,
                    ghost g: WalkGraph, ghost frontier: set<NodeId>, ghost candidates: seq<Candidate>)
    returns (ok: bool, heap: set<Queued>, fetched: seq<Option<RoutingRecord>>)
    requires BatchLive(env.view, batch) && IdsOf(batch) !! frontier
    requires g.edges.Keys == Live(env.view) && g.score.Keys == Live(env.view)
    requires forall id :: id in Live(env.view) ==> g.score[id] == env.plan.routingDistance(env.view.nodes[id].routing)
    requires HeapHolds(g, queue, frontier) && SlotsHold(env.view, queue, cache) && SlotsLive(env.view, cache)
    requires memory.Tracks(candidates, cache)
    modifies memory
    ensures memory.Tracks(candidates, fetched) && SlotsLive(env.view, fetched)
    ensures ok ==> HeapHolds(g, heap, frontier + IdsOf(batch)) && SlotsHold(env.view, heap, fetched)
    ensures ok ==> |fetched| == |cache| + |batch|
    ensures !ok ==> |fetched| <= |cache| + |batch| && |heap| <= |frontier| + |batch|
    ensures !ok ==> !memory.FitsGraphState(|heap|, seenLen, visitedLen, 0)
  {
    hide HeapHolds, SlotsHold, SlotsLive, IdsOf, RecordBytes, CachedBytes, CandidateBytes;
    hide SetEstimate, CandidateEstimate, CacheEstimate;
    heap, fetched := queue, cache;
    IdsOfNone(batch);
    assert frontier + IdsOf(batch[..0]) == frontier;
    for i := 0 to |batch|
      invariant memory.Tracks(candidates, fetched)
      invariant HeapHolds(g, heap, frontier + IdsOf(batch[..i]))
      invariant SlotsHold(env.view, heap, fetched) && SlotsLive(env.view, fetched)
      invariant |fetched| == |cache| + i
    {
      var record := batch[i];
      NewId(env.view, batch, i);
      IdsOfSnoc(batch, i);
      ghost var before := frontier + IdsOf(batch[..i]);
      var entry := Queued(record.id, env.plan.routingDistance(record.routing), |fetched|);
      PushHolds(g, heap, before, entry);
      SlotsPush(env.view, heap, fetched, entry, record);
      assert before + {record.id} == frontier + IdsOf(batch[..i + 1]);
      heap := heap + {entry};
      memory.RecordCached(record, candidates, fetched);
      fetched := fetched + [Some(record)];
      if !memory.FitsGraphState(|heap|, seenLen, visitedLen, 0) {
        QueueSize(env.view, g, heap, batch, i + 1, frontier);
        return false, heap, fetched;
      }
    }
    ok := true;
  }

  lemma NewId(view: View, batch: seq<RoutingRecord>, i: nat)
    requires BatchLive(view, batch) && i < |batch|
    ensures batch[i].id !in IdsOf(batch[..i])
    ensures batch[i].id in IdsOf(batch)
  {}

  lemma IdsOfNone(batch: seq<RoutingRecord>)
    ensures IdsOf(batch[..0]) == {} && batch[..|batch|] == batch
  {}

  lemma SlotsPush(view: View, heap: set<Queued>, fetched: seq<Option<RoutingRecord>>, q: Queued, record: RoutingRecord)
    requires SlotsHold(view, heap, fetched) && SlotsLive(view, fetched)
    requires q.slot == |fetched| && q.nodeId in Live(view) && record == RoutingOf(view.nodes[q.nodeId]) && record.id == q.nodeId
    ensures SlotsHold(view, heap + {q}, fetched + [Some(record)]) && SlotsLive(view, fetched + [Some(record)])
  {}

  lemma QueueSize(view: View, g: WalkGraph, heap: set<Queued>, batch: seq<RoutingRecord>, i: nat, frontier: set<NodeId>)
    requires BatchLive(view, batch) && i <= |batch| && IdsOf(batch) !! frontier
    requires HeapHolds(g, heap, frontier + IdsOf(batch[..i]))
    ensures |heap| <= |frontier| + |batch|
  {
    HeapSize(g, heap, frontier + IdsOf(batch[..i]));
    IdsOfSize(view, batch[..i]);
    assert IdsOf(batch[..i]) !! frontier;
    assert |frontier + IdsOf(batch[..i])| == |frontier| + |IdsOf(batch[..i])|;
  }

  lemma NoneCollected()
    ensures var none: seq<NodeId> := []; Distinct(none) && Elements(none) == {}
  {}

  /** Marks a record's unseen neighbours as seen and lists them for reading. */
  method CollectNew(neighbors: seq<NodeId>, visited: set<NodeId>, known: set<NodeId>, maxCandidates: nat)
    returns (ok: bool, seen: set<NodeId>, toRead: seq<NodeId>)
    requires visited <= known
    requires |known| <= maxCandidates
    ensures ok <==> |known + Elements(neighbors)| <= maxCandidates
    ensures ok ==> seen == known + Elements(neighbors)
    ensures ok ==> Distinct(toRead) && Elements(toRead) == Elements(neighbors) - known
  {
    hide Distinct, Elements;
    seen, toRead := known, [];
    NoneCollected();
    TakeEnds(neighbors);
    for j := 0 to |neighbors|
      invariant seen == known + Elements(neighbors[..j])
      invariant Distinct(toRead) && Elements(toRead) == Elements(neighbors[..j]) - known
      invariant |seen| <= maxCandidates
    {
      TakeSnoc(neighbors, j);
      if neighbors[j] !in visited && neighbors[j] !in seen {
        if |seen| + 1 > maxCandidates {
          assert seen + {neighbors[j]} <= known + Elements(neighbors);
          SubsetSize(seen + {neighbors[j]}, known + Elements(neighbors));
          return false, seen, toRead;
        }
        DistinctSnoc(toRead, neighbors[j]);
        seen := seen + {neighbors[j]};
        toRead := toRead + [neighbors[j]];
      } else {
        assert seen == seen + {neighbors[j]};
      }
    }
    ok := true;
  }

  // ----- one visit -----

  lemma GraphOfFacts(view: View, startIds: seq<NodeId>, distance: RoutingVector -> real)
    ensures var g := GraphOf(view, startIds, distance);
      && g.starts == Elements(startIds) && g.edges.Keys == Live(view) && g.score.Keys == Live(view)
      && forall id :: id in Live(view) ==>
        g.edges[id] == view.nodes[id].neighbors && g.score[id] == distance(view.nodes[id].routing)
  {}

  /** Visiting `u` extends the candidates and the seen set, and discovers its live neighbours. */
  lemma VisitStep(view: View, g: WalkGraph, ids: seq<NodeId>, u: NodeId)
    requires g.edges.Keys == Live(view) && g.score.Keys == Live(view)
    requires forall k :: 0 <= k < |ids| ==> ids[k] in g.edges
    requires u in Frontier(g, ids) && Elements(ids) <= Discovered(g, ids)
    ensures var more := ids + [u];
      && AllReadable(view, g, ids) && AllReadable(view, g, more) && (forall k :: 0 <= k < |more| ==> more[k] in g.edges)
      && CandidatesOf(view, g, more) == CandidatesOf(view, g, ids) + [CandidateAt(view, g, u)]
      && SeenIds(g, more) == SeenIds(g, ids) + Elements(g.edges[u])
      && var found := (Elements(g.edges[u]) - SeenIds(g, ids)) * Live(view);
      && Discovered(g, more) == Discovered(g, ids) + found && Discovered(g, ids) !! found
      && Elements(more) <= Discovered(g, more)
      && Frontier(g, more) == Frontier(g, ids) - {u} + found && (Frontier(g, ids) - {u}) !! found
  {
    var more := ids + [u];
    SeenSnoc(g, ids, u);
    SeenDiscovered(g, ids);
    SeenDiscovered(g, more);
    ElementsSnoc(ids, u);
    assert CandidatesOf(view, g, more) == CandidatesOf(view, g, ids) + [CandidateAt(view, g, u)];
    VisitedDiscoveredOrNew(g, ids, u, (Elements(g.edges[u]) - SeenIds(g, ids)) * Live(view));
  }

  lemma VisitedDiscoveredOrNew(g: WalkGraph, ids: seq<NodeId>, u: NodeId, found: set<NodeId>)
    requires u in Frontier(g, ids) && u in g.edges
    requires Discovered(g, ids + [u]) == Discovered(g, ids) + found && Discovered(g, ids) !! found
    requires Elements(ids) !! found
    ensures Frontier(g, ids + [u]) == Frontier(g, ids) - {u} + found
  {
    ElementsSnoc(ids, u);
  }

  // ----- ample budgets cover every check -----

  /** The account belongs to this query. */
  ghost predicate AccountFor(env: QueryEnv, memory: QueryMemoryAccountant) {
    && memory.z == env.z
    && memory.maxQueryBytes == env.options.budget.maxQueryBytes
    && memory.baseQueryBytes == env.plan.rawBytes + env.plan.routingBytes
  }

  ghost predicate AmpleFor(env: QueryEnv, startIds: seq<NodeId>, bound: nat) {
    Ample(env.z, env.view, startIds, env.plan, env.options, bound)
  }

  lemma AmpleFits(env: QueryEnv, startIds: seq<NodeId>, bound: nat, memory: QueryMemoryAccountant,
                  candidates: seq<Candidate>, slots: seq<Option<RoutingRecord>>,
                  heapLen: nat, seenLen: nat, visitedLen: nat, transient: nat)
    requires AmpleFor(env, startIds, bound) && AccountFor(env, memory)
    requires memory.Tracks(candidates, slots)
    requires CandidatesWithin(env.z, candidates, bound) && SlotsWithin(env.z, slots, bound)
    requires |candidates| <= |Live(env.view)| && |slots| <= |Live(env.view)|
    requires heapLen <= |Live(env.view)| && visitedLen <= |Live(env.view)| && seenLen <= |KnownIds(env.view, startIds)|
    requires transient <= TransientPeak(env.z, env.plan, |Live(env.view)|, |KnownIds(env.view, startIds)|, bound)
    ensures memory.FitsGraphState(heapLen, seenLen, visitedLen, transient)
  {
    hide SetEstimate, CandidateEstimate, CacheEstimate, TransientPeak, KnownIds;
    var n, m := |Live(env.view)|, |KnownIds(env.view, startIds)|;
    CandidateBytesBound(env.z, candidates, bound);
    CachedBytesBound(env.z, slots, bound);
    MulMono(|candidates|, n, bound);
    MulMono(|slots|, n, bound);
    EstimateMono(env.z, n, m, bound, heapLen, seenLen, visitedLen,
                 |candidates|, CandidateBytes(env.z, candidates), |slots|, CachedBytes(env.z, slots));
  }

  lemma SearchingWithin(env: QueryEnv, g: WalkGraph, heap: set<Queued>, seen: set<NodeId>, ids: seq<NodeId>,
                        candidates: seq<Candidate>, fetched: seq<Option<RoutingRecord>>, startIds: seq<NodeId>, bound: nat)
    requires RecordsWithin(env.z, env.view, bound)
    requires g == GraphOf(env.view, startIds, env.plan.routingDistance)
    requires Searching(env.view, g, heap, seen, ids, candidates, fetched) && Distinct(ids)
    ensures CandidatesWithin(env.z, candidates, bound) && SlotsWithin(env.z, fetched, bound)
    ensures |candidates| <= |Live(env.view)| && |fetched| <= |Live(env.view)| && |heap| <= |Live(env.view)|
    ensures |seen| <= |KnownIds(env.view, startIds)|
  {
    hide HeapHolds;
    DistinctSize(ids);
    SubsetSize(Elements(ids), Live(env.view));
    SubsetSize(Discovered(g, ids), Live(env.view));
    HeapSize(g, heap, Frontier(g, ids));
    SubsetSize(Frontier(g, ids), Live(env.view));
    SeenKnown(env.view, startIds, env.plan.routingDistance, ids);
    SubsetSize(seen, KnownIds(env.view, startIds));
  }

  lemma {:induction false} SeenKnown(view: View, startIds: seq<NodeId>, distance: RoutingVector -> real, ids: seq<NodeId>)
    requires forall k :: 0 <= k < |ids| ==> ids[k] in Live(view)
    ensures SeenIds(GraphOf(view, startIds, distance), ids) <= KnownIds(view, startIds)
  {
    if ids != [] {
      SeenKnown(view, startIds, distance, ids[..|ids| - 1]);
    }
  }

  function SumRecordBytes(z: Sizes, batch: seq<RoutingRecord>): nat {
    if batch == [] then 0 else SumRecordBytes(z, batch[..|batch| - 1]) + RecordBytes(z, batch[|batch| - 1])
  }

  function RecordBatchBytes(z: Sizes, batch: seq<RoutingRecord>): nat {
    z.vecHeader + |batch| * z.record + SumRecordBytes(z, batch)
  }

  lemma {:induction false} RecordSumBound(z: Sizes, view: View, batch: seq<RoutingRecord>, bound: nat)
    requires BatchLive(view, batch) && RecordsWithin(z, view, bound)
    ensures SumRecordBytes(z, batch) <= |batch| * bound
  {
    hide RecordBytes;
    if batch != [] {
      RecordSumBound(z, view, batch[..|batch| - 1], bound);
      MulPred(|batch|, bound);
    }
  }

  lemma {:induction false} ReadSumPresent(z: Sizes, view: View, ids: seq<NodeId>)
    ensures SumReadBytes(z, ReadAll(view, ids)) == SumRecordBytes(z, PresentRecords(view, ids))
  {
    if ids != [] {
      var n := |ids| - 1;
      ReadSumPresent(z, view, ids[..n]);
      assert ReadAll(view, ids)[..n] == ReadAll(view, ids[..n]);
      var rest, last := PresentRecords(view, ids[..n]), ReadNode(view, ids[n]);
      if last.Present? {
        assert (rest + [last.record])[..|rest|] == rest;
      }
    }
  }

  /** A batch of distinct live records is no larger than the live set. */
  lemma BatchSize(z: Sizes, view: View, batch: seq<RoutingRecord>, bound: nat)
    requires BatchLive(view, batch) && RecordsWithin(z, view, bound)
    ensures |batch| <= |Live(view)|
    ensures SumRecordBytes(z, batch) <= |Live(view)| * bound
  {
    IdsOfSize(view, batch);
    SubsetSize(IdsOf(batch), Live(view));
    RecordSumBound(z, view, batch, bound);
    MulMono(|batch|, |Live(view)|, bound);
  }

  /** Each momentary holding is part of the transient peak, and the peak covers that. */
  lemma TransientParts(z: Sizes, plan: QueryPlan, n: nat, m: nat, bound: nat)
    ensures var peak := TransientPeak(z, plan, n, m, bound);
      && plan.configuredBytes <= peak
      && z.vecHeader + m * z.nodeId <= peak
      && z.vecHeader + n * z.record + n * bound <= peak
      && z.vecHeader + m * z.nodeRead + n * bound <= peak
      && (z.vecHeader + n * z.hit) + (z.vecHeader + n * z.vectorRead + n * BytesPerVector(z, plan)) <= peak
      && plan.rawBytes + plan.routingBytes + peak <= Peak(z, plan, n, m, bound)
  {
    hide Peak, BytesPerVector;
    PeakCovers(z, plan, n, m, bound);
    TransientSum(plan.configuredBytes, z.vecHeader, m * z.nodeId, n * z.record, n * bound, m * z.nodeRead, n * z.hit,
                 n * z.vectorRead, n * BytesPerVector(z, plan));
  }

  lemma PeakCovers(z: Sizes, plan: QueryPlan, n: nat, m: nat, bound: nat)
    ensures plan.rawBytes + plan.routingBytes + TransientPeak(z, plan, n, m, bound) <= Peak(z, plan, n, m, bound)
  {
    hide TransientPeak, SetEstimate, CandidateEstimate, CacheEstimate;
  }

  lemma TransientSum(configured: nat, header: nat, ids: nat, records: nat, bytes: nat, nodeReads: nat, hits: nat, rows: nat, vectors: nat)
    ensures var sum := configured + (header + ids) + (header + records + bytes) + (header + nodeReads + bytes) + (header + hits)
        + (header + rows + vectors);
      && configured <= sum && header + ids <= sum && header + records + bytes <= sum && header + nodeReads + bytes <= sum
      && (header + hits) + (header + rows + vectors) <= sum
  {}

  lemma IdBatchBound(env: QueryEnv, startIds: seq<NodeId>, count: nat, bound: nat)
    requires count <= |KnownIds(env.view, startIds)|
    ensures env.z.vecHeader + count * env.z.nodeId
      <= TransientPeak(env.z, env.plan, |Live(env.view)|, |KnownIds(env.view, startIds)|, bound)
  {
    hide TransientPeak, Peak, KnownIds;
    TransientParts(env.z, env.plan, |Live(env.view)|, |KnownIds(env.view, startIds)|, bound);
    MulMono(count, |KnownIds(env.view, startIds)|, env.z.nodeId);
  }

  lemma RecordBatchBound(env: QueryEnv, startIds: seq<NodeId>, batch: seq<RoutingRecord>, bound: nat)
    requires RecordsWithin(env.z, env.view, bound) && BatchLive(env.view, batch)
    ensures RecordBatchBytes(env.z, batch)
      <= TransientPeak(env.z, env.plan, |Live(env.view)|, |KnownIds(env.view, startIds)|, bound)
  {
    hide TransientPeak, Peak, KnownIds;
    BatchSize(env.z, env.view, batch, bound);
    TransientParts(env.z, env.plan, |Live(env.view)|, |KnownIds(env.view, startIds)|, bound);
    MulMono(|batch|, |Live(env.view)|, env.z.record);
  }

  /** Under ample budgets one chunk of distinct known ids fits. */
  lemma AmpleChunk(env: QueryEnv, startIds: seq<NodeId>, chunk: seq<NodeId>, bound: nat)
    requires Keyed(env.view.nodes) && AmpleFor(env, startIds, bound)
    requires Distinct(chunk) && Elements(chunk) <= KnownIds(env.view, startIds)
    ensures BatchBytes(env.z, ReadAll(env.view, chunk)) <= env.options.budget.maxQueryBytes
  {
    hide TransientPeak, Peak, KnownIds;
    DistinctSize(chunk);
    SubsetSize(Elements(chunk), KnownIds(env.view, startIds));
    ReadSumPresent(env.z, env.view, chunk);
    ReadBatchLive(env.view, chunk);
    BatchSize(env.z, env.view, PresentRecords(env.view, chunk), bound);
    MulMono(|chunk|, |KnownIds(env.view, startIds)|, env.z.nodeRead);
    TransientParts(env.z, env.plan, |Live(env.view)|, |KnownIds(env.view, startIds)|, bound);
  }

  /** Under ample budgets every chunk of a read of distinct known ids fits. */
  lemma {:induction false} AmpleBatches(env: QueryEnv, startIds: seq<NodeId>, ids: seq<NodeId>, bound: nat)
    requires Keyed(env.view.nodes) && env.options.budget.Valid()
    requires AmpleFor(env, startIds, bound) && Distinct(ids) && Elements(ids) <= KnownIds(env.view, startIds)
    ensures BatchesFit(env.z, env.view, ids, env.options.budget)
    decreases |ids|
  {
    hide Ample, KnownIds, BatchBytes, ReadAll;
    if ids != [] {
      var take := Min(|ids|, env.options.budget.maxReadBatch);
      var chunk, rest := ids[..take], ids[take..];
      assert Elements(chunk) <= Elements(ids) && Elements(rest) <= Elements(ids);
      AmpleChunk(env, startIds, chunk, bound);
      AmpleBatches(env, startIds, rest, bound);
    }
  }

  // ----- the loop -----

  datatype LoopState = LoopState(
    heap: set<Queued>,
    seen: set<NodeId>,
    visited: set<NodeId>,
    candidates: seq<Candidate>,
    fetched: seq<Option<RoutingRecord>>)

  ghost predicate LoopHolds(view: View, g: WalkGraph, s: LoopState, ids: seq<NodeId>) {
    Searching(view, g, s.heap, s.seen, ids, s.candidates, s.fetched) && s.visited == Elements(ids)
  }

  /** Under ample budgets the state is no larger than the view. */
  ghost predicate Sized(env: QueryEnv, startIds: seq<NodeId>, bound: nat, s: LoopState) {
    AmpleFor(env, startIds, bound) ==>
      && CandidatesWithin(env.z, s.candidates, bound) && SlotsWithin(env.z, s.fetched, bound)
      && |s.candidates| <= |Live(env.view)| && |s.fetched| <= |Live(env.view)| && |s.heap| <= |Live(env.view)|
      && |s.visited| <= |Live(env.view)| && |s.seen| <= |KnownIds(env.view, startIds)|
  }

  predicate Fits(memory: QueryMemoryAccountant, s: LoopState, transient: nat)
    reads memory
  {
    memory.FitsGraphState(|s.heap|, |s.seen|, |s.visited|, transient)
  }

  lemma SizedFits(env: QueryEnv, startIds: seq<NodeId>, bound: nat, memory: QueryMemoryAccountant, s: LoopState, transient: nat)
    requires Sized(env, startIds, bound, s) && AccountFor(env, memory) && memory.Tracks(s.candidates, s.fetched)
    requires transient <= TransientPeak(env.z, env.plan, |Live(env.view)|, |KnownIds(env.view, startIds)|, bound)
    ensures AmpleFor(env, startIds, bound) ==> Fits(memory, s, transient)
  {
    if AmpleFor(env, startIds, bound) {
      AmpleFits(env, startIds, bound, memory, s.candidates, s.fetched, |s.heap|, |s.seen|, |s.visited|, transient);
    }
  }

  lemma LoopSized(env: QueryEnv, g: WalkGraph, s: LoopState, ids: seq<NodeId>, startIds: seq<NodeId>, bound: nat)
    requires g == GraphOf(env.view, startIds, env.plan.routingDistance)
    requires LoopHolds(env.view, g, s, ids) && Distinct(ids)
    ensures Sized(env, startIds, bound, s)
  {
    if AmpleFor(env, startIds, bound) {
      SearchingWithin(env, g, s.heap, s.seen, ids, s.candidates, s.fetched, startIds, bound);
      DistinctSize(ids);
    }
  }

  /** State between taking a popped record from its slot and expanding it. */
  ghost predicate Popped(view: View, g: WalkGraph, s: LoopState, ids: seq<NodeId>, u: NodeId) {
    && u in Frontier(g, ids) && u in g.edges && u in view.nodes
    && AllReadable(view, g, ids) && (forall k :: 0 <= k < |ids| ==> ids[k] in g.edges)
    && Elements(ids) <= Discovered(g, ids)
    && s.candidates == CandidatesOf(view, g, ids)
    && s.seen == SeenIds(g, ids)
    && s.visited == Elements(ids + [u])
    && HeapHolds(g, s.heap, Frontier(g, ids) - {u})
    && SlotsHold(view, s.heap, s.fetched) && SlotsLive(view, s.fetched)
    && |s.fetched| == |Discovered(g, ids)|
  }

  /** State between expanding a record and queueing its newly found neighbours. */
  ghost predicate Expanded(view: View, g: WalkGraph, s: LoopState, ids: seq<NodeId>, u: NodeId, toRead: seq<NodeId>) {
    && u in Frontier(g, ids) && u in g.edges
    && AllReadable(view, g, ids + [u]) && (forall k :: 0 <= k < |ids| ==> ids[k] in g.edges)
    && Elements(ids) <= Discovered(g, ids)
    && s.candidates == CandidatesOf(view, g, ids + [u])
    && s.seen == SeenIds(g, ids + [u])
    && s.visited == Elements(ids + [u])
    && Distinct(toRead) && Elements(toRead) == Elements(g.edges[u]) - SeenIds(g, ids)
    && HeapHolds(g, s.heap, Frontier(g, ids) - {u})
    && SlotsHold(view, s.heap, s.fetched) && SlotsLive(view, s.fetched)
    && |s.fetched| == |Discovered(g, ids)|
  }

  ghost predicate CanVisit(env: QueryEnv, g: WalkGraph, s: LoopState, ids: seq<NodeId>, top: Queued, startIds: seq<NodeId>) {
    && Keyed(env.view.nodes) && env.options.budget.Valid()
    && g == GraphOf(env.view, startIds, env.plan.routingDistance)
    && LoopHolds(env.view, g, s, ids) && Distinct(ids) && |ids| < env.options.searchListSize
    && IsTop(top, s.heap)
  }

  function Counted(s: LoopState, top: Queued): LoopState {
    s.(heap := s.heap - {top}, visited := s.visited + {top.nodeId})
  }

  function Taken(s: LoopState, top: Queued): LoopState
    requires top.slot < |s.fetched|
  {
    Counted(s, top).(fetched := s.fetched[top.slot := None])
  }

  /** The popped node is the closest of the frontier, its slot is full, and no other node uses that slot. */
  lemma PopTop(env: QueryEnv, g: WalkGraph, s: LoopState, ids: seq<NodeId>, top: Queued, startIds: seq<NodeId>)
    requires CanVisit(env, g, s, ids, top, startIds)
    ensures top.nodeId in Frontier(g, ids)
    ensures Closest(Frontier(g, ids), g.score) == top.nodeId && top.distance == g.score[top.nodeId]
    ensures top.slot < |s.fetched| && top.nodeId in env.view.nodes
    ensures s.fetched[top.slot] == Some(RoutingOf(env.view.nodes[top.nodeId]))
    ensures Popped(env.view, g, Taken(s, top), ids, top.nodeId)
  {
    hide HeapHolds, SeenIds;
    PopIsClosest(g, s.heap, Frontier(g, ids), top);
    PopSlots(env.view, g, s.heap, Frontier(g, ids), s.fetched, top);
    ElementsSnoc(ids, top.nodeId);
  }

  lemma PopSized(env: QueryEnv, g: WalkGraph, s: LoopState, ids: seq<NodeId>, top: Queued, startIds: seq<NodeId>, bound: nat)
    requires CanVisit(env, g, s, ids, top, startIds) && top.nodeId in Frontier(g, ids) && top.slot < |s.fetched|
    ensures |s.visited| == |ids| && top.nodeId !in s.visited
    ensures AmpleFor(env, startIds, bound) ==> |ids| + 1 <= env.options.budget.maxVisited
    ensures Sized(env, startIds, bound, Counted(s, top)) && Sized(env, startIds, bound, Taken(s, top))
  {
    hide HeapHolds, KnownIds, Ample, SeenIds, Sized;
    LoopSized(env, g, s, ids, startIds, bound);
    VisitRoom(env, startIds, bound, g, ids, top.nodeId);
    VisitSized(env, s, top, startIds, bound);
  }

  /** One more visit keeps the state within the view. */
  lemma VisitSized(env: QueryEnv, s: LoopState, top: Queued, startIds: seq<NodeId>, bound: nat)
    requires Sized(env, startIds, bound, s) && |s.visited| + 1 <= |Live(env.view)| && top.slot < |s.fetched|
    ensures Sized(env, startIds, bound, Counted(s, top)) && Sized(env, startIds, bound, Taken(s, top))
  {
    hide KnownIds, AmpleFor;
    SubsetSize(s.heap - {top}, s.heap);
  }

  /** Counts the visit and takes the popped record out of its slot. */
  method PopRecord(env: QueryEnv, top: Queued, s: LoopState, memory: QueryMemoryAccountant,
                   ghost g: WalkGraph, ghost ids: seq<NodeId>, ghost startIds: seq<NodeId>, ghost bound: nat)
    returns (r: Result<LoopState>, record: RoutingRecord)
    requires CanVisit(env, g, s, ids, top, startIds)
    requires AccountFor(env, memory) && memory.Tracks(s.candidates, s.fetched)
    modifies memory
    ensures r.Ok? ==> Popped(env.view, g, r.value, ids, top.nodeId) && memory.Tracks(r.value.candidates, r.value.fetched)
    ensures r.Ok? ==> record == RoutingOf(env.view.nodes[top.nodeId])
    ensures r.Ok? ==> r.value.seen == s.seen
    ensures r.Ok? ==> |ids| + 1 <= env.options.budget.maxVisited
    ensures r.Ok? ==> Sized(env, startIds, bound, r.value)
    ensures AmpleFor(env, startIds, bound) ==> r.Ok?
  {
    hide Popped, Sized, AmpleFor, CanVisit;
    record := RoutingRecord(0, 0, Plain([]), [], []);
    PopTop(env, g, s, ids, top, startIds);
    PopSized(env, g, s, ids, top, startIds, bound);
    if |s.visited| + 1 > env.options.budget.maxVisited {
      return Err(BudgetExceeded), record;
    }
    var counted := Counted(s, top);
    SizedFits(env, startIds, bound, memory, counted, 0);
    if !Fits(memory, counted, 0) {
      return Err(BudgetExceeded), record;
    }
    record := s.fetched[top.slot].value;
    memory.ReleaseCached(record, top.slot, s.candidates, s.fetched);
    r := Ok(Taken(s, top));
  }

  lemma VisitRoom(env: QueryEnv, startIds: seq<NodeId>, bound: nat, g: WalkGraph, ids: seq<NodeId>, u: NodeId)
    requires g == GraphOf(env.view, startIds, env.plan.routingDistance)
    requires Distinct(ids) && (forall k :: 0 <= k < |ids| ==> ids[k] in g.edges) && u in Frontier(g, ids)
    requires |ids| < env.options.searchListSize
    ensures |Elements(ids)| == |ids| && |ids| + 1 <= |Live(env.view)|
    ensures AmpleFor(env, startIds, bound) ==> |ids| + 1 <= env.options.budget.maxVisited
  {
    DistinctSnoc(ids, u);
    DistinctSize(ids);
    DistinctSize(ids + [u]);
    SubsetSize(Elements(ids + [u]), Live(env.view));
  }

  /** The state after a popped record joined the candidates and its neighbours were marked as seen. */
  function Joined(s: LoopState, c: Candidate): LoopState {
    s.(seen := s.seen + Elements(c.record.neighbors), candidates := s.candidates + [c])
  }

  lemma JoinExpanded(env: QueryEnv, g: WalkGraph, s: LoopState, ids: seq<NodeId>, u: NodeId, startIds: seq<NodeId>, toRead: seq<NodeId>)
    requires g == GraphOf(env.view, startIds, env.plan.routingDistance)
    requires Popped(env.view, g, s, ids, u)
    requires Distinct(toRead) && Elements(toRead) == Elements(g.edges[u]) - s.seen
    ensures u in env.view.nodes && u in g.score
    ensures Expanded(env.view, g, Joined(s, CandidateAt(env.view, g, u)), ids, u, toRead)
  {
    hide HeapHolds, SlotsHold, SlotsLive, Discovered, Frontier;
    assert u in g.edges;
    var more := ids + [u];
    SeenSnoc(g, ids, u);
    assert AllReadable(env.view, g, more);
    assert CandidatesOf(env.view, g, more) == CandidatesOf(env.view, g, ids) + [CandidateAt(env.view, g, u)];
  }

  lemma JoinSized(env: QueryEnv, g: WalkGraph, s: LoopState, ids: seq<NodeId>, u: NodeId, startIds: seq<NodeId>, bound: nat)
    requires g == GraphOf(env.view, startIds, env.plan.routingDistance)
    requires Popped(env.view, g, s, ids, u) && Distinct(ids) && |ids| < env.options.searchListSize
    requires Sized(env, startIds, bound, s)
    ensures u in env.view.nodes && u in g.score && u in g.edges
    ensures CandidateAt(env.view, g, u).record.neighbors == g.edges[u]
    ensures var joined := Joined(s, CandidateAt(env.view, g, u));
      && Sized(env, startIds, bound, joined)
      && joined.seen <= KnownIds(env.view, startIds)
      && |joined.seen| <= |KnownIds(env.view, startIds)|
      && (AmpleFor(env, startIds, bound) ==> |joined.seen| <= env.options.budget.maxCandidates)
  {
    hide HeapHolds, SlotsHold, SlotsLive, Discovered, KnownIds, Peak;
    VisitRoom(env, startIds, bound, g, ids, u);
    SeenSnoc(g, ids, u);
    SeenKnown(env.view, startIds, env.plan.routingDistance, ids + [u]);
    SubsetSize(SeenIds(g, ids + [u]), KnownIds(env.view, startIds));
  }

  /** Adds a taken record to the candidates and lists its unseen neighbours. */
  method Expand(env: QueryEnv, record: RoutingRecord, distance: real, s: LoopState, memory: QueryMemoryAccountant,
                ghost g: WalkGraph, ghost ids: seq<NodeId>, ghost u: NodeId, ghost startIds: seq<NodeId>, ghost bound: nat)
    returns (r: Result<LoopState>, toRead: seq<NodeId>)
    requires g == GraphOf(env.view, startIds, env.plan.routingDistance)
    requires Popped(env.view, g, s, ids, u) && Distinct(ids) && |ids| < env.options.searchListSize
    requires u in env.view.nodes && u in g.score && Candidate(record, distance) == CandidateAt(env.view, g, u)
    requires |s.seen| <= env.options.budget.maxCandidates && s.visited <= s.seen
    requires Sized(env, startIds, bound, s)
    requires AccountFor(env, memory) && memory.Tracks(s.candidates, s.fetched)
    modifies memory
    ensures r.Ok? ==> Expanded(env.view, g, r.value, ids, u, toRead)
    ensures r.Ok? ==> memory.Tracks(r.value.candidates, r.value.fetched)
    ensures r.Ok? ==> |r.value.seen| <= env.options.budget.maxCandidates && Sized(env, startIds, bound, r.value)
    ensures r.Ok? ==> r.value.seen <= KnownIds(env.view, startIds) && Elements(toRead) <= r.value.seen
    ensures AmpleFor(env, startIds, bound) ==> r.Ok?
  {
    hide Expanded, Sized, AmpleFor, KnownIds, Popped, GraphOf, CandidateAt, Elements, Distinct;
    JoinSized(env, g, s, ids, u, startIds, bound);
    var c := Candidate(record, distance);
    var joined := Joined(s, c);
    var ok, seen;
    ok, seen, toRead := CollectNew(record.neighbors, s.visited, s.seen, env.options.budget.maxCandidates);
    if !ok {
      return Err(BudgetExceeded), toRead;
    }
    JoinExpanded(env, g, s, ids, u, startIds, toRead);
    memory.RecordCandidate(c, s.candidates, s.fetched);
    DistinctSize(toRead);
    SubsetSize(Elements(toRead), KnownIds(env.view, startIds));
    var fits := CheckIdBatch(env, joined, |toRead|, memory, startIds, bound);
    r := if fits then Ok(joined) else Err(BudgetExceeded);
  }

  /** The two byte checks made before a batch of node ids is read. */
  method CheckIdBatch(env: QueryEnv, s: LoopState, count: nat, memory: QueryMemoryAccountant, ghost startIds: seq<NodeId>,
                      ghost bound: nat)
    returns (fits: bool)
    requires Sized(env, startIds, bound, s) && AccountFor(env, memory) && memory.Tracks(s.candidates, s.fetched)
    requires count <= |KnownIds(env.view, startIds)|
    ensures AmpleFor(env, startIds, bound) ==> fits
  {
    hide Sized, AmpleFor, KnownIds;
    SizedFits(env, startIds, bound, memory, s, 0);
    if !Fits(memory, s, 0) {
      return false;
    }
    var transient: nat := IdBatchBytes(env.z, count);
    IdBatchBound(env, startIds, count, bound);
    SizedFits(env, startIds, bound, memory, s, transient);
    fits := Fits(memory, s, transient);
  }

  function IdBatchBytes(z: Sizes, count: nat): nat { z.vecHeader + count * z.nodeId }

  /** The newly read records are the undiscovered live neighbours, so queueing them restores the frontier. */
  lemma FetchHolds(env: QueryEnv, g: WalkGraph, s: LoopState, ids: seq<NodeId>, u: NodeId, startIds: seq<NodeId>,
                   toRead: seq<NodeId>, batch: seq<RoutingRecord>)
    requires Keyed(env.view.nodes) && g == GraphOf(env.view, startIds, env.plan.routingDistance)
    requires Expanded(env.view, g, s, ids, u, toRead) && batch == PresentRecords(env.view, toRead)
    ensures BatchLive(env.view, batch)
    ensures IdsOf(batch) !! (Frontier(g, ids) - {u})
    ensures Frontier(g, ids + [u]) == Frontier(g, ids) - {u} + IdsOf(batch)
    ensures |Discovered(g, ids + [u])| == |s.fetched| + |batch|
    ensures Elements(ids + [u]) <= Discovered(g, ids + [u])
    ensures HeapHolds(g, s.heap, Frontier(g, ids) - {u}) && SlotsHold(env.view, s.heap, s.fetched) && SlotsLive(env.view, s.fetched)
  {
    hide HeapHolds, SlotsHold, SlotsLive, SeenIds;
    ReadBatchLive(env.view, toRead);
    IdsOfSize(env.view, batch);
    VisitStep(env.view, g, ids, u);
  }

  /** With the batch queued the visit is complete. */
  lemma FetchedHolds(view: View, g: WalkGraph, s: LoopState, ids: seq<NodeId>, u: NodeId, toRead: seq<NodeId>,
                     heap: set<Queued>, fetched: seq<Option<RoutingRecord>>)
    requires Expanded(view, g, s, ids, u, toRead) && Elements(ids + [u]) <= Discovered(g, ids + [u])
    requires HeapHolds(g, heap, Frontier(g, ids + [u])) && SlotsHold(view, heap, fetched) && SlotsLive(view, fetched)
    requires |fetched| == |Discovered(g, ids + [u])|
    ensures LoopHolds(view, g, s.(heap := heap, fetched := fetched), ids + [u])
  {
    hide HeapHolds, SlotsHold, SlotsLive, SeenIds, Discovered, Frontier;
  }

  lemma FetchSized(env: QueryEnv, g: WalkGraph, s: LoopState, ids: seq<NodeId>, u: NodeId, startIds: seq<NodeId>,
                   fetched: seq<Option<RoutingRecord>>, heapLen: nat, bound: nat)
    requires g == GraphOf(env.view, startIds, env.plan.routingDistance)
    requires Sized(env, startIds, bound, s) && SlotsLive(env.view, fetched)
    requires |fetched| <= |Discovered(g, ids + [u])| && heapLen <= |Frontier(g, ids + [u])|
    ensures AmpleFor(env, startIds, bound) ==>
      && CandidatesWithin(env.z, s.candidates, bound) && SlotsWithin(env.z, fetched, bound)
      && |s.candidates| <= |Live(env.view)| && |fetched| <= |Live(env.view)| && heapLen <= |Live(env.view)|
      && |s.visited| <= |Live(env.view)| && |s.seen| <= |KnownIds(env.view, startIds)|
  {
    hide KnownIds;
    SubsetSize(Discovered(g, ids + [u]), Live(env.view));
    SubsetSize(Frontier(g, ids + [u]), Live(env.view));
  }

  /** Reads the listed neighbours and queues those that are present. */
  method FetchNew(env: QueryEnv, toRead: seq<NodeId>, s: LoopState, memory: QueryMemoryAccountant,
                  ghost g: WalkGraph, ghost ids: seq<NodeId>, ghost u: NodeId, ghost startIds: seq<NodeId>, ghost bound: nat)
    returns (r: Result<LoopState>)
    requires Keyed(env.view.nodes) && env.options.budget.Valid()
    requires g == GraphOf(env.view, startIds, env.plan.routingDistance)
    requires Expanded(env.view, g, s, ids, u, toRead)
    requires Sized(env, startIds, bound, s)
    requires Elements(toRead) <= KnownIds(env.view, startIds)
    requires AccountFor(env, memory) && memory.Tracks(s.candidates, s.fetched)
    modifies memory
    ensures r.Ok? ==> LoopHolds(env.view, g, r.value, ids + [u]) && memory.Tracks(r.value.candidates, r.value.fetched)
    ensures r.Ok? ==> r.value.seen == s.seen
    ensures AmpleFor(env, startIds, bound) ==> r.Ok?
  {
    hide Sized, AmpleFor, KnownIds, HeapHolds, SlotsHold, SlotsLive, Discovered, SeenIds, Frontier, LoopHolds, GraphOf, IdsOf,
         BatchLive;
    if AmpleFor(env, startIds, bound) {
      AmpleBatches(env, startIds, toRead, bound);
    }
    var batch := ReadPresent(env.z, env.view, toRead, env.options.budget);
    if batch.Err? {
      return Err(batch.error);
    }
    FetchHolds(env, g, s, ids, u, startIds, toRead, batch.value);
    var fits := CheckRecordBatch(env, s, batch.value, memory, startIds, bound);
    if !fits {
      return Err(BudgetExceeded);
    }
    GraphOfFacts(env.view, startIds, env.plan.routingDistance);
    var ok, heap, fetched := QueueBatch(env, batch.value, s.heap, s.fetched, memory, |s.seen|, |s.visited|,
                                        g, Frontier(g, ids) - {u}, s.candidates);
    if !ok {
      QueueRoom(env, g, s, ids, u, startIds, batch.value, fetched, |heap|, memory, bound);
      return Err(BudgetExceeded);
    }
    FetchedHolds(env.view, g, s, ids, u, toRead, heap, fetched);
    r := Ok(s.(heap := heap, fetched := fetched));
  }

  lemma QueueRoom(env: QueryEnv, g: WalkGraph, s: LoopState, ids: seq<NodeId>, u: NodeId, startIds: seq<NodeId>,
                  batch: seq<RoutingRecord>, fetched: seq<Option<RoutingRecord>>, heapLen: nat,
                  memory: QueryMemoryAccountant, bound: nat)
    requires g == GraphOf(env.view, startIds, env.plan.routingDistance)
    requires Sized(env, startIds, bound, s) && SlotsLive(env.view, fetched)
    requires AccountFor(env, memory) && memory.Tracks(s.candidates, fetched)
    requires BatchLive(env.view, batch) && IdsOf(batch) !! (Frontier(g, ids) - {u})
    requires Frontier(g, ids + [u]) == Frontier(g, ids) - {u} + IdsOf(batch)
    requires |fetched| <= |Discovered(g, ids + [u])| && heapLen <= |Frontier(g, ids) - {u}| + |batch|
    ensures AmpleFor(env, startIds, bound) ==> memory.FitsGraphState(heapLen, |s.seen|, |s.visited|, 0)
  {
    hide KnownIds, Discovered, Frontier, Ample;
    IdsOfSize(env.view, batch);
    assert |Frontier(g, ids) - {u} + IdsOf(batch)| == |Frontier(g, ids) - {u}| + |IdsOf(batch)|;
    FetchSized(env, g, s, ids, u, startIds, fetched, heapLen, bound);
    if AmpleFor(env, startIds, bound) {
      AmpleFits(env, startIds, bound, memory, s.candidates, fetched, heapLen, |s.seen|, |s.visited|, 0);
    }
  }

  method CheckRecordBatch(env: QueryEnv, s: LoopState, batch: seq<RoutingRecord>, memory: QueryMemoryAccountant,
                          ghost startIds: seq<NodeId>, ghost bound: nat)
    returns (fits: bool)
    requires Sized(env, startIds, bound, s) && AccountFor(env, memory) && memory.Tracks(s.candidates, s.fetched)
    requires BatchLive(env.view, batch)
    ensures AmpleFor(env, startIds, bound) ==> fits
  {
    hide Sized, KnownIds;
    if AmpleFor(env, startIds, bound) {
      RecordBatchBound(env, startIds, batch, bound);
      SizedFits(env, startIds, bound, memory, s, RecordBatchBytes(env.z, batch));
    }
    fits := Fits(memory, s, RecordBatchBytes(env.z, batch));
  }
}
