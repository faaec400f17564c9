/** The bounded maintenance walk over a published graph, batched and node by node. */
module Maintenance {
  import opened Common
  import opened Records
  import opened Reading

  // ----- the bounded walk, one node at a time -----

  /** A first-in-first-out walk: what waits, what was ever queued, what was visited, and whether a cap cut it. */
  datatype Tour = Tour(queue: seq<NodeId>, queued: set<NodeId>, done: seq<NodeId>, records: seq<RoutingRecord>, truncated: bool)

  /** Queues the ids that were never queued before. */
  function Enqueue(t: Tour, ids: seq<NodeId>): Tour {
    if ids == [] then t
    else
      var before, id := Enqueue(t, ids[..|ids| - 1]), ids[|ids| - 1];
      if id in before.queued then before else before.(queue := before.queue + [id], queued := before.queued + {id})
  }

  /** Queues new neighbours until `cap` ids were queued in all; a new id met after that truncates the walk. */
  function Discover(t: Tour, neighbors: seq<NodeId>, cap: nat): Tour
    decreases |neighbors|
  {
    if neighbors == [] then t
    else if |t.queued| >= cap then t.(truncated := t.truncated || exists id :: id in neighbors && id !in t.queued)
    else if neighbors[0] in t.queued then Discover(t, neighbors[1..], cap)
    else Discover(t.(queue := t.queue + [neighbors[0]], queued := t.queued + {neighbors[0]}), neighbors[1..], cap)
  }

  function AddRecord(t: Tour, record: RoutingRecord, cap: nat): Tour {
    var d := Discover(t, record.neighbors, cap);
    d.(records := d.records + [record])
  }

  function Absorb(t: Tour, records: seq<RoutingRecord>, cap: nat): Tour {
    if records == [] then t else AddRecord(Absorb(t, records[..|records| - 1], cap), records[|records| - 1], cap)
  }

  function Drain(t: Tour, k: nat): Tour
    requires k <= |t.queue|
  {
    t.(queue := t.queue[k..], done := t.done + t.queue[..k])
  }

  /** Visits the node at the head of the queue. */
  function VisitOne(view: View, t: Tour, cap: nat): Tour
    requires t.queue != []
  {
    var row := ReadNode(view, t.queue[0]);
    if row.Present? then AddRecord(Drain(t, 1), row.record, cap) else Drain(t, 1)
  }

  function TourFrom(view: View, t: Tour, maxVisited: nat, cap: nat): Tour
    decreases maxVisited - |t.done|
  {
    if t.queue == [] then t
    else if |t.done| >= maxVisited then t.(truncated := true)
    else
      DoneGrows(view, t, cap);
      TourFrom(view, VisitOne(view, t, cap), maxVisited, cap)
  }

  lemma {:induction false} DiscoverKeeps(t: Tour, neighbors: seq<NodeId>, cap: nat)
    ensures Discover(t, neighbors, cap).done == t.done && Discover(t, neighbors, cap).records == t.records
    decreases |neighbors|
  {
    if neighbors != [] && |t.queued| < cap {
      DiscoverKeeps(if neighbors[0] in t.queued then t
                    else t.(queue := t.queue + [neighbors[0]], queued := t.queued + {neighbors[0]}), neighbors[1..], cap);
    }
  }

  lemma DoneGrows(view: View, t: Tour, cap: nat)
    requires t.queue != []
    ensures |VisitOne(view, t, cap).done| == |t.done| + 1
  {
    var row := ReadNode(view, t.queue[0]);
    if row.Present? {
      DiscoverKeeps(Drain(t, 1), row.record.neighbors, cap);
    }
  }

  function InitialTour(starts: StartNodes): Tour {
    Enqueue(Tour([], {}, [], [], false), starts.AllNodes())
  }

  /** The walk from all start nodes. */
  function Reach(view: View, starts: StartNodes, budget: QueryBudget): Tour {
    TourFrom(view, InitialTour(starts), budget.maxVisited, budget.maxCandidates)
  }

  // ----- batching changes nothing -----

  lemma {:induction false} DiscoverAhead(t: Tour, neighbors: seq<NodeId>, cap: nat)
    requires t.queue != []
    ensures Discover(t, neighbors, cap).queue != []
    ensures Discover(t, neighbors, cap).queue[0] == t.queue[0]
    ensures Discover(Drain(t, 1), neighbors, cap) == Drain(Discover(t, neighbors, cap), 1)
    decreases |neighbors|
  {
    if neighbors != [] && |t.queued| < cap {
      if neighbors[0] in t.queued {
        DiscoverAhead(t, neighbors[1..], cap);
      } else {
        var more := t.(queue := t.queue + [neighbors[0]], queued := t.queued + {neighbors[0]});
        assert Drain(more, 1) == Drain(t, 1).(queue := Drain(t, 1).queue + [neighbors[0]], queued := more.queued);
        DiscoverAhead(more, neighbors[1..], cap);
      }
    }
  }

  lemma {:induction false} AbsorbAhead(t: Tour, records: seq<RoutingRecord>, cap: nat)
    requires t.queue != []
    ensures Absorb(t, records, cap).queue != []
    ensures Absorb(t, records, cap).queue[0] == t.queue[0]
    ensures Absorb(Drain(t, 1), records, cap) == Drain(Absorb(t, records, cap), 1)
  {
    if records != [] {
      var rest := records[..|records| - 1];
      AbsorbAhead(t, rest, cap);
      DiscoverAhead(Absorb(t, rest, cap), records[|records| - 1].neighbors, cap);
    }
  }

  /** Draining a frontier and absorbing its records in order is visiting its nodes one at a time. */
  lemma {:induction false} FrontierAtOnce(view: View, t: Tour, k: nat, maxVisited: nat, cap: nat)
    requires k <= |t.queue| && |t.done| + k <= maxVisited
    ensures TourFrom(view, t, maxVisited, cap)
      == TourFrom(view, Absorb(Drain(t, k), PresentRecords(view, t.queue[..k]), cap), maxVisited, cap)
  {
    if k == 0 {
      assert Drain(t, 0) == t;
    } else {
      FrontierAtOnce(view, t, k - 1, maxVisited, cap);
      FrontierStep(view, t, k, cap);
      var before := Absorb(Drain(t, k - 1), PresentRecords(view, t.queue[..k - 1]), cap);
      AbsorbKeeps(Drain(t, k - 1), PresentRecords(view, t.queue[..k - 1]), cap);
      assert |before.done| == |t.done| + k - 1;
    }
  }

  lemma {:induction false} AbsorbKeeps(t: Tour, records: seq<RoutingRecord>, cap: nat)
    ensures Absorb(t, records, cap).done == t.done
  {
    if records != [] {
      var rest := records[..|records| - 1];
      AbsorbKeeps(t, rest, cap);
      DiscoverKeeps(Absorb(t, rest, cap), records[|records| - 1].neighbors, cap);
    }
  }

  lemma FrontierStep(view: View, t: Tour, k: nat, cap: nat)
    requires 0 < k <= |t.queue|
    ensures var before := Absorb(Drain(t, k - 1), PresentRecords(view, t.queue[..k - 1]), cap);
      && before.queue != []
      && VisitOne(view, before, cap) == Absorb(Drain(t, k), PresentRecords(view, t.queue[..k]), cap)
  {
    var fewer, records := Drain(t, k - 1), PresentRecords(view, t.queue[..k - 1]);
    assert Drain(fewer, 1) == Drain(t, k) by {
      assert t.queue[..k - 1] + t.queue[k - 1..][..1] == t.queue[..k];
    }
    AbsorbAhead(fewer, records, cap);
    assert t.queue[..k][..k - 1] == t.queue[..k - 1];
    var row := ReadNode(view, t.queue[k - 1]);
    assert row.Present? ==> PresentRecords(view, t.queue[..k]) == records + [row.record];
  }

  /** The batched walk: frontiers of the largest size the visit budget still allows. */
  method CollectReachable(z: Sizes, view: View, starts: StartNodes, budget: QueryBudget) returns (r: Result<Tour>)
    requires budget.Valid()
    ensures r.Ok? ==> r.value == Reach(view, starts, budget)
    ensures r.Err? ==> r.error == BudgetExceeded && !AnyBatchFits(z, view, budget)
  {
    hide PresentRecords, Absorb, AnyBatchFits;
    var t := Seed(starts);
    while t.queue != []
      invariant TourFrom(view, t, budget.maxVisited, budget.maxCandidates) == Reach(view, starts, budget)
      invariant |t.done| <= budget.maxVisited
      decreases budget.maxVisited - |t.done|
    {
      var remaining := budget.maxVisited - |t.done|;
      if remaining == 0 {
        return Ok(t.(truncated := true));
      }
      var take := Min(|t.queue|, remaining);
      var frontier := t.queue[..take];
      FrontierAtOnce(view, t, take, budget.maxVisited, budget.maxCandidates);
      var records := ReadPresent(z, view, frontier, budget);
      if records.Err? {
        SomeBatchFails(z, view, frontier, budget);
        return Err(records.error);
      }
      AbsorbKeeps(Drain(t, take), records.value, budget.maxCandidates);
      t := AbsorbAll(Drain(t, take), records.value, budget.maxCandidates);
    }
    return Ok(t);
  }

  method Seed(starts: StartNodes) returns (t: Tour)
    ensures t == InitialTour(starts) && t.done == []
  {
    var ids := starts.AllNodes();
    t := Tour([], {}, [], [], false);
    for i := 0 to |ids|
      invariant t == Enqueue(Tour([], {}, [], [], false), ids[..i]) && t.done == []
    {
      assert ids[..i + 1][..i] == ids[..i];
      if ids[i] !in t.queued {
        t := t.(queue := t.queue + [ids[i]], queued := t.queued + {ids[i]});
      }
    }
    assert ids[..|ids|] == ids;
  }

  method AbsorbAll(from: Tour, records: seq<RoutingRecord>, cap: nat) returns (t: Tour)
    ensures t == Absorb(from, records, cap)
  {
    t := from;
    for i := 0 to |records|
      invariant t == Absorb(from, records[..i], cap)
    {
      assert records[..i + 1][..i] == records[..i];
      var queue, queued, truncated := ScanNeighbors(t, records[i].neighbors, cap);
      DiscoverKeeps(t, records[i].neighbors, cap);
      t := Tour(queue, queued, t.done, t.records + [records[i]], truncated);
    }
    assert records[..|records|] == records;
  }

  method ScanNeighbors(t: Tour, neighbors: seq<NodeId>, cap: nat)
    returns (queue: seq<NodeId>, queued: set<NodeId>, truncated: bool)
    ensures var d := Discover(t, neighbors, cap);
      queue == d.queue && queued == d.queued && truncated == d.truncated
  {
    queue, queued, truncated := t.queue, t.queued, t.truncated;
    for offset := 0 to |neighbors|
      invariant Discover(t, neighbors, cap)
        == Discover(t.(queue := queue, queued := queued, truncated := truncated), neighbors[offset..], cap)
    {
      assert neighbors[offset..][0] == neighbors[offset] && neighbors[offset..][1..] == neighbors[offset + 1..];
      if |queued| >= cap {
        truncated := truncated || exists id :: id in neighbors[offset..] && id !in queued;
        return;
      }
      if neighbors[offset] !in queued {
        queue, queued := queue + [neighbors[offset]], queued + {neighbors[offset]};
      }
    }
  }

  // ----- what the walk reaches -----

  ghost predicate Discoverable(starts: StartNodes, records: seq<RoutingRecord>, id: NodeId) {
    id in starts.AllNodes() || exists i :: 0 <= i < |records| && id in records[i].neighbors
  }

  /** Everything queued is waiting or visited, exactly once; only a full queue leaves something out. */
  ghost predicate Sound(view: View, starts: StartNodes, t: Tour, cap: nat) {
    && Distinct(t.done + t.queue) && Elements(t.done + t.queue) == t.queued
    && t.records == PresentRecords(view, t.done)
    && (forall id :: id in starts.AllNodes() ==> id in t.queued)
    && (forall id :: id in t.queued ==> Discoverable(starts, t.records, id))
    && (if t.truncated then |t.queued| >= cap && exists id :: Discoverable(starts, t.records, id) && id !in t.queued
        else forall id :: Discoverable(starts, t.records, id) ==> id in t.queued)
  }

  lemma {:induction false} EnqueueFacts(t: Tour, ids: seq<NodeId>)
    requires Distinct(t.done + t.queue) && Elements(t.done + t.queue) == t.queued
    ensures var e := Enqueue(t, ids);
      && e == t.(queue := e.queue, queued := e.queued)
      && Distinct(e.done + e.queue) && Elements(e.done + e.queue) == e.queued
      && e.queued == t.queued + Elements(ids)
  {
    if ids != [] {
      var rest, id := ids[..|ids| - 1], ids[|ids| - 1];
      EnqueueFacts(t, rest);
      assert ids == rest + [id];
      ElementsSnoc(rest, id);
      var before := Enqueue(t, rest);
      if id !in before.queued {
        DistinctSnoc(before.done + before.queue, id);
        assert before.done + (before.queue + [id]) == before.done + before.queue + [id];
      }
    }
  }

  lemma {:induction false} DiscoverFacts(t: Tour, neighbors: seq<NodeId>, cap: nat)
    requires Distinct(t.done + t.queue) && Elements(t.done + t.queue) == t.queued
    ensures var d := Discover(t, neighbors, cap);
      && Distinct(d.done + d.queue) && Elements(d.done + d.queue) == d.queued
      && t.queued <= d.queued <= t.queued + Elements(neighbors)
      && (|t.queued| >= cap ==> d.queued == t.queued)
      && (d.truncated <==> t.truncated || !(Elements(neighbors) <= d.queued))
      && (!(Elements(neighbors) <= d.queued) ==> |d.queued| >= cap)
    decreases |neighbors|
  {
    hide Distinct;
    if neighbors != [] {
      var id, rest := neighbors[0], neighbors[1..];
      assert neighbors == [id] + rest;
      assert Elements(neighbors) == {id} + Elements(rest);
      if |t.queued| < cap {
        if id in t.queued {
          DiscoverFacts(t, rest, cap);
        } else {
          DistinctSnoc(t.done + t.queue, id);
          assert t.done + (t.queue + [id]) == t.done + t.queue + [id];
          DiscoverFacts(t.(queue := t.queue + [id], queued := t.queued + {id}), rest, cap);
        }
      }
    }
  }

  lemma InitialSound(view: View, starts: StartNodes, cap: nat)
    ensures Sound(view, starts, InitialTour(starts), cap)
  {
    var empty := Tour([], {}, [], [], false);
    assert Elements(empty.done + empty.queue) == {};
    EnqueueFacts(empty, starts.AllNodes());
  }

  lemma DrainSound(t: Tour)
    requires t.queue != [] && Distinct(t.done + t.queue) && Elements(t.done + t.queue) == t.queued
    ensures var d := Drain(t, 1); Distinct(d.done + d.queue) && Elements(d.done + d.queue) == d.queued
  {
    assert Drain(t, 1).done + Drain(t, 1).queue == t.done + t.queue;
  }

  lemma VisitSound(view: View, starts: StartNodes, t: Tour, cap: nat)
    requires Sound(view, starts, t, cap) && t.queue != []
    ensures Sound(view, starts, VisitOne(view, t, cap), cap)
  {
    var row, d, v := ReadNode(view, t.queue[0]), Drain(t, 1), VisitOne(view, t, cap);
    DrainSound(t);
    assert d.done[..|d.done| - 1] == t.done;
    assert PresentRecords(view, d.done) == if row.Present? then t.records + [row.record] else t.records;
    if row.Present? {
      DiscoverFacts(d, row.record.neighbors, cap);
      DiscoverKeeps(d, row.record.neighbors, cap);
      assert v.records == t.records + [row.record];
      forall id ensures Discoverable(starts, v.records, id) <==> Discoverable(starts, t.records, id) || id in row.record.neighbors {
        MoreDiscoverable(starts, t.records, row.record, id);
      }
      assert forall id :: id in Elements(row.record.neighbors) <==> id in row.record.neighbors;
      TruncationCarries(starts, t, v, row.record);
    }
  }

  lemma MoreDiscoverable(starts: StartNodes, records: seq<RoutingRecord>, record: RoutingRecord, id: NodeId)
    ensures Discoverable(starts, records + [record], id) <==> Discoverable(starts, records, id) || id in record.neighbors
  {
    var more := records + [record];
    assert more[|records|] == record;
    assert forall i :: 0 <= i < |records| ==> more[i] == records[i];
  }

  /** Once something was left out of a full queue it stays out. */
  lemma TruncationCarries(starts: StartNodes, t: Tour, v: Tour, record: RoutingRecord)
    requires forall id :: Discoverable(starts, v.records, id) <==> Discoverable(starts, t.records, id) || id in record.neighbors
    requires t.truncated ==> v.queued == t.queued && exists id :: Discoverable(starts, t.records, id) && id !in t.queued
    requires v.truncated <==> t.truncated || !(Elements(record.neighbors) <= v.queued)
    ensures v.truncated ==> exists id :: Discoverable(starts, v.records, id) && id !in v.queued
  {
    if t.truncated {
      var id :| Discoverable(starts, t.records, id) && id !in t.queued;
      assert Discoverable(starts, v.records, id) && id !in v.queued;
    } else if v.truncated {
      var id :| id in Elements(record.neighbors) && id !in v.queued;
      assert Discoverable(starts, v.records, id);
    }
  }

  /** Start or neighbour of a visited record, yet never visited. */
  ghost predicate LeftOut(starts: StartNodes, t: Tour, id: NodeId) {
    Discoverable(starts, t.records, id) && id !in t.done
  }

  /**
   * The truncated flag tells the truth: it is set exactly when some start or some neighbour of a visited
   * record was left unvisited. The records are those of the visited nodes, each visited once, in order.
   */
  lemma {:induction false} TourFacts(view: View, starts: StartNodes, t: Tour, maxVisited: nat, cap: nat)
    requires Sound(view, starts, t, cap) && |t.done| <= maxVisited
    ensures var r := TourFrom(view, t, maxVisited, cap);
      && (r.truncated <==> exists id :: LeftOut(starts, r, id))
      && r.records == PresentRecords(view, r.done)
      && Distinct(r.done) && |r.done| <= maxVisited
    decreases maxVisited - |t.done|
  {
    hide PresentRecords, Discoverable, VisitOne;
    if t.queue == [] {
      Exhausted(view, starts, t, cap);
    } else if |t.done| >= maxVisited {
      Stopped(view, starts, t, cap);
    } else {
      VisitSound(view, starts, t, cap);
      DoneGrows(view, t, cap);
      TourFacts(view, starts, VisitOne(view, t, cap), maxVisited, cap);
    }
  }

  lemma Exhausted(view: View, starts: StartNodes, t: Tour, cap: nat)
    requires Sound(view, starts, t, cap) && t.queue == []
    ensures Distinct(t.done) && (t.truncated <==> exists id :: LeftOut(starts, t, id))
  {
    hide PresentRecords, Discoverable;
    assert t.done + t.queue == t.done;
    assert forall id :: id in t.done <==> id in t.queued;
    if t.truncated {
      var id :| Discoverable(starts, t.records, id) && id !in t.queued;
      assert LeftOut(starts, t, id);
    }
  }

  lemma Stopped(view: View, starts: StartNodes, t: Tour, cap: nat)
    requires Sound(view, starts, t, cap) && t.queue != []
    ensures Distinct(t.done) && LeftOut(starts, t.(truncated := true), t.queue[0])
  {
    hide PresentRecords, Discoverable;
    var all, waiting := t.done + t.queue, t.queue[0];
    assert all[|t.done|] == waiting && waiting in Elements(all);
    assert forall i :: 0 <= i < |t.done| ==> all[i] == t.done[i];
  }

  lemma ReachFacts(view: View, starts: StartNodes, budget: QueryBudget)
    ensures var r := Reach(view, starts, budget);
      && (r.truncated <==> exists id :: LeftOut(starts, r, id))
      && r.records == PresentRecords(view, r.done)
      && Distinct(r.done) && |r.done| <= budget.maxVisited
  {
    InitialSound(view, starts, budget.maxCandidates);
    var empty := Tour([], {}, [], [], false);
    EnqueueFacts(empty, starts.AllNodes());
    TourFacts(view, starts, InitialTour(starts), budget.maxVisited, budget.maxCandidates);
  }
}
