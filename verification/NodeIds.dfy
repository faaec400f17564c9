/** Where id allocation resumes on open: above the recorded high-water mark, or above every reachable id. */
module NodeIds {
  import opened Common
  import opened Records
  import opened Reading

  ghost predicate Leads(view: View, id: NodeId, next: NodeId) {
    id in Live(view) && next in view.nodes[id].neighbors
  }

  /** A chain of ids from a root, each a neighbour of a readable predecessor. */
  ghost predicate Chain(view: View, roots: set<NodeId>, path: seq<NodeId>) {
    path != [] && path[0] in roots && forall i :: 0 < i < |path| ==> Leads(view, path[i - 1], path[i])
  }

  ghost predicate Reached(view: View, roots: set<NodeId>, id: NodeId) {
    exists path :: Chain(view, roots, path) && path[|path| - 1] == id
  }

  lemma RootReached(view: View, roots: set<NodeId>, id: NodeId)
    requires id in roots
    ensures Reached(view, roots, id)
  {
    assert Chain(view, roots, [id]);
  }

  lemma StepReached(view: View, roots: set<NodeId>, id: NodeId, next: NodeId)
    requires Reached(view, roots, id) && Leads(view, id, next)
    ensures Reached(view, roots, next)
  {
    var path :| Chain(view, roots, path) && path[|path| - 1] == id;
    var longer := path + [next];
    assert forall i :: 0 <= i < |path| ==> longer[i] == path[i];
    assert Chain(view, roots, longer);
  }

  ghost predicate Closed(view: View, ids: set<NodeId>) {
    forall id, next :: id in ids && Leads(view, id, next) ==> next in ids
  }

  /** A set that holds the roots and all neighbours of its readable members holds everything reachable. */
  lemma {:induction false} ClosedHoldsChain(view: View, roots: set<NodeId>, ids: set<NodeId>, path: seq<NodeId>)
    requires roots <= ids && Closed(view, ids) && Chain(view, roots, path)
    ensures path[|path| - 1] in ids
  {
    if |path| > 1 {
      var front := path[..|path| - 1];
      assert forall i :: 0 <= i < |front| ==> front[i] == path[i];
      ClosedHoldsChain(view, roots, ids, front);
      assert Leads(view, path[|path| - 2], path[|path| - 1]);
    }
  }

  /** Ids that can ever be queued: finitely many, which is why the scan ends. */
  ghost function Universe(view: View, roots: set<NodeId>): set<NodeId> {
    roots + (set id, next | id in view.nodes && next in view.nodes[id].neighbors :: next)
  }

  /** The scan's state: ids waiting, ids ever queued, and the largest id read so far. */
  datatype Scan = Scan(queue: seq<NodeId>, queued: set<NodeId>, largest: NodeId)

  /** Everything queued is reachable; all but the waiting ids have been read and their neighbours queued. */
  ghost predicate Scanning(view: View, roots: set<NodeId>, s: Scan, waiting: set<NodeId>) {
    && roots <= s.queued <= Universe(view, roots)
    && waiting <= s.queued
    && (forall id :: id in s.queued ==> Reached(view, roots, id))
    && (forall id, next :: id in s.queued && id !in waiting && Leads(view, id, next) ==> next in s.queued)
    && (forall id :: id in s.queued && id !in waiting ==> id <= s.largest)
    && (s.largest == 0 || Reached(view, roots, s.largest))
  }

  /** The largest id reachable, plus one; one when nothing is reachable. */
  ghost predicate AboveReachable(view: View, roots: set<NodeId>, next: nat) {
    && (forall id: NodeId :: Reached(view, roots, id) ==> id < next)
    && 0 < next && (next == 1 || Reached(view, roots, next - 1))
  }

  /** The same as a function of what is reachable. */
  ghost function Resumed(view: View, roots: set<NodeId>): nat { MaxOrZero(ReachedIds(view, roots)) + 1 }

  ghost function ReachedIds(view: View, roots: set<NodeId>): set<nat> {
    set id | id in Universe(view, roots) && Reached(view, roots, id)
  }

  lemma ReachedWithin(view: View, roots: set<NodeId>, id: NodeId)
    ensures id in ReachedIds(view, roots) <==> Reached(view, roots, id)
  {
    if Reached(view, roots, id) {
      var path :| Chain(view, roots, path) && path[|path| - 1] == id;
      if |path| > 1 {
        assert Leads(view, path[|path| - 2], path[|path| - 1]);
      }
    }
  }

  lemma ResumedIff(view: View, roots: set<NodeId>, next: nat)
    ensures AboveReachable(view, roots, next) <==> next == Resumed(view, roots)
  {
    hide Universe, Reached;
    var ids := ReachedIds(view, roots);
    forall id: NodeId ensures id in ids <==> Reached(view, roots, id) {
      ReachedWithin(view, roots, id);
    }
  }

  method QueueNew(s: Scan, ids: seq<NodeId>) returns (t: Scan)
    ensures t.largest == s.largest && t.queued == s.queued + Elements(ids)
    ensures Elements(t.queue) == Elements(s.queue) + (Elements(ids) - s.queued)
  {
    t := s;
    TakeEnds(ids);
    for i := 0 to |ids|
      invariant t.largest == s.largest && t.queued == s.queued + Elements(ids[..i])
      invariant Elements(t.queue) == Elements(s.queue) + (Elements(ids[..i]) - s.queued)
    {
      TakeSnoc(ids, i);
      if ids[i] !in t.queued {
        ElementsSnoc(t.queue, ids[i]);
        t := t.(queue := t.queue + [ids[i]], queued := t.queued + {ids[i]});
      }
    }
  }

  /** Reads one id: its neighbours join the queue if they are new. */
  method ScanRow(view: View, ghost roots: set<NodeId>, s: Scan, ghost waiting: set<NodeId>, id: NodeId, row: NodeRead)
    returns (t: Scan)
    requires Scanning(view, roots, s, waiting) && id in s.queued
    requires Keyed(view.nodes) && row == ReadNode(view, id)
    ensures Scanning(view, roots, t, waiting - {id} + (t.queued - s.queued))
    ensures s.queued <= t.queued && Elements(t.queue) == Elements(s.queue) + (t.queued - s.queued)
  {
    hide Reached;
    t := s.(largest := Max(s.largest, id));
    if row.Present? {
      t := t.(largest := Max(t.largest, row.record.id));
      t := QueueNew(t, row.record.neighbors);
      forall next | next in row.record.neighbors
        ensures Leads(view, id, next) && Reached(view, roots, next) && next in Universe(view, roots)
      {
        StepReached(view, roots, id, next);
      }
    }
  }

  method ScanChunk(view: View, ghost roots: set<NodeId>, s: Scan, ghost waiting: set<NodeId>, ids: seq<NodeId>, rows: seq<NodeRead>)
    returns (t: Scan)
    requires Scanning(view, roots, s, waiting) && Elements(ids) <= s.queued && waiting <= s.queued
    requires Keyed(view.nodes) && rows == ReadAll(view, ids)
    ensures Scanning(view, roots, t, waiting - Elements(ids) + (t.queued - s.queued))
    ensures s.queued <= t.queued && Elements(t.queue) == Elements(s.queue) + (t.queued - s.queued)
  {
    hide Scanning;
    t := s;
    TakeEnds(ids);
    assert waiting - {} + (t.queued - s.queued) == waiting;
    for i := 0 to |ids|
      invariant Scanning(view, roots, t, waiting - Elements(ids[..i]) + (t.queued - s.queued))
      invariant s.queued <= t.queued && Elements(t.queue) == Elements(s.queue) + (t.queued - s.queued)
    {
      TakeSnoc(ids, i);
      ghost var now, before := waiting - Elements(ids[..i]) + (t.queued - s.queued), t.queued;
      t := ScanRow(view, roots, t, now, ids[i], rows[i]);
      assert now - {ids[i]} + (t.queued - before) == waiting - Elements(ids[..i + 1]) + (t.queued - s.queued);
    }
  }

  lemma Waits(view: View, roots: set<NodeId>, s: Scan, waiting: set<NodeId>, more: set<NodeId>)
    requires Scanning(view, roots, s, waiting) && waiting <= more <= s.queued
    ensures Scanning(view, roots, s, more)
  {}

  /** Reads one frontier in batches; the new queue holds exactly what was not queued before. */
  method ScanFrontier(z: Sizes, view: View, ghost roots: set<NodeId>, from: Scan, frontier: seq<NodeId>)
    returns (r: Result<Scan>)
    requires Keyed(view.nodes) && from.queue == []
    requires Scanning(view, roots, from, Elements(frontier)) && Elements(frontier) <= from.queued
    ensures r.Ok? ==> Scanning(view, roots, r.value, Elements(r.value.queue)) && from.queued <= r.value.queued
    ensures r.Ok? ==> Elements(r.value.queue) == r.value.queued - from.queued
    ensures r.Err? ==> r.error == BudgetExceeded
  {
    hide ReadNodes, Scanning;
    var s, offset := from, 0;
    assert frontier[0..] == frontier && Elements(frontier) + (s.queued - from.queued) == Elements(frontier);
    while offset < |frontier|
      invariant 0 <= offset <= |frontier|
      invariant Scanning(view, roots, s, Elements(frontier[offset..]) + (s.queued - from.queued))
      invariant from.queued <= s.queued && Elements(s.queue) == s.queued - from.queued
      invariant Elements(frontier[offset..]) <= from.queued
    {
      var take := Min(|frontier| - offset, DEFAULT_BUDGET.maxReadBatch);
      var chunk, rest := frontier[offset..offset + take], frontier[offset + take..];
      assert frontier[offset..] == chunk + rest;
      ReadOutcome(z, view, chunk, DEFAULT_BUDGET);
      var rows := ReadNodes(z, view, chunk, DEFAULT_BUDGET);
      if rows.Err? {
        return Err(rows.error);
      }
      ghost var waiting, before := Elements(frontier[offset..]) + (s.queued - from.queued), s.queued;
      Parts(frontier, offset, chunk, rest, from.queued);
      s := ScanChunk(view, roots, s, waiting, chunk, rows.value);
      Waits(view, roots, s, waiting - Elements(chunk) + (s.queued - before), Elements(rest) + (s.queued - from.queued));
      offset := offset + take;
    }
    assert Elements(frontier[offset..]) == {};
    assert {} + (s.queued - from.queued) == Elements(s.queue);
    r := Ok(s);
  }

  lemma Parts(frontier: seq<NodeId>, offset: nat, chunk: seq<NodeId>, rest: seq<NodeId>, queued: set<NodeId>)
    requires offset <= |frontier| && Elements(frontier[offset..]) <= queued && frontier[offset..] == chunk + rest
    ensures Elements(chunk + rest) == Elements(chunk) + Elements(rest)
    ensures Elements(chunk) <= queued && Elements(rest) <= queued
  {
    assert forall x :: x in chunk + rest <==> x in chunk || x in rest;
  }

  /** The id the next insert gets when an index is opened over a manifest. */
  method NextNodeId(z: Sizes, view: View, starts: StartNodes, maxAssigned: Option<NodeId>) returns (r: Result<nat>)
    requires Keyed(view.nodes)
    ensures maxAssigned.Some? ==> r == Ok(maxAssigned.value + 1)
    ensures maxAssigned.None? && r.Ok? ==> AboveReachable(view, Roots(starts), r.value) && r.value == Resumed(view, Roots(starts))
    ensures r.Err? ==> r.error == BudgetExceeded
  {
    hide Scanning, Resumed, AboveReachable;
    if maxAssigned.Some? {
      return Ok(maxAssigned.value + 1);
    }
    ghost var roots := Roots(starts);
    var s := SeedScan(view, starts);
    while s.queue != []
      invariant Scanning(view, roots, s, Elements(s.queue))
      decreases Universe(view, roots) - s.queued, |s.queue|
    {
      ghost var before := s;
      WithinUniverse(view, roots, s, Elements(s.queue));
      var level := ScanFrontier(z, view, roots, s.(queue := []), s.queue);
      if level.Err? {
        return Err(level.error);
      }
      s := level.value;
      WithinUniverse(view, roots, s, Elements(s.queue));
      LevelShrinks(Universe(view, roots), before, s);
    }
    ScanEnds(view, roots, s);
    ResumedIff(view, roots, s.largest + 1);
    r := Ok(s.largest + 1);
  }

  ghost function Roots(starts: StartNodes): set<NodeId> { Elements(starts.AllNodes()) - {EMPTY_START_NODE} }

  method SeedScan(view: View, starts: StartNodes) returns (s: Scan)
    ensures Scanning(view, Roots(starts), s, Elements(s.queue))
  {
    var ids := starts.AllNodes();
    s := Scan([], {}, 0);
    TakeEnds(ids);
    for i := 0 to |ids|
      invariant s.largest == 0 && s.queued == Elements(s.queue) == Elements(ids[..i]) - {EMPTY_START_NODE}
    {
      TakeSnoc(ids, i);
      if ids[i] != EMPTY_START_NODE && ids[i] !in s.queued {
        ElementsSnoc(s.queue, ids[i]);
        s := s.(queue := s.queue + [ids[i]], queued := s.queued + {ids[i]});
      }
    }
    forall id | id in Roots(starts) ensures Reached(view, Roots(starts), id) {
      RootReached(view, Roots(starts), id);
    }
  }

  lemma WithinUniverse(view: View, roots: set<NodeId>, s: Scan, waiting: set<NodeId>)
    requires Scanning(view, roots, s, waiting)
    ensures s.queued <= Universe(view, roots) && waiting <= s.queued
    ensures Scanning(view, roots, s.(queue := []), waiting)
  {}

  /** A level either queues new ids or empties the queue. */
  lemma LevelShrinks(all: set<NodeId>, before: Scan, s: Scan)
    requires before.queued <= s.queued <= all && Elements(s.queue) == s.queued - before.queued && before.queue != []
    ensures all - s.queued < all - before.queued || (s.queued == before.queued && s.queue == [])
  {
    if s.queue != [] {
      assert s.queue[0] in Elements(s.queue);
    } else {
      assert s.queued - before.queued == {};
    }
  }

  lemma ScanEnds(view: View, roots: set<NodeId>, s: Scan)
    requires Scanning(view, roots, s, Elements(s.queue)) && s.queue == []
    ensures AboveReachable(view, roots, s.largest + 1)
  {
    assert Elements(s.queue) == {} && s.queued - {} == s.queued;
    assert Closed(view, s.queued);
    forall id: NodeId | Reached(view, roots, id) ensures id < s.largest + 1 {
      var path :| Chain(view, roots, path) && path[|path| - 1] == id;
      ClosedHoldsChain(view, roots, s.queued, path);
    }
  }
}
