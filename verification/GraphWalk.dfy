/** Best-first graph walks: the specification shared by graph construction and query search. */
module GraphWalk {
  import opened Common
  import opened Ranking

  /** The nodes that can be read, their edges, and their distance to the query. */
  datatype WalkGraph = WalkGraph(starts: set<NodeId>, edges: map<NodeId, seq<NodeId>>, score: map<NodeId, real>)

  ghost predicate Scored(g: WalkGraph) { g.edges.Keys <= g.score.Keys }

  /** Readable nodes that are a start or a neighbour of a visited node. */
  ghost function Discovered(g: WalkGraph, visited: seq<NodeId>): set<NodeId> {
    set v | v in g.edges && (v in g.starts || HasEdgeFrom(g, visited, v))
  }

  ghost predicate HasEdgeFrom(g: WalkGraph, visited: seq<NodeId>, v: NodeId) {
    exists u :: u in visited && u in g.edges && v in g.edges[u]
  }

  ghost function Frontier(g: WalkGraph, visited: seq<NodeId>): set<NodeId> {
    Discovered(g, visited) - Elements(visited)
  }

  /** Visit the closest discovered node, until `limit` nodes are visited or nothing is left. */
  ghost function Walk(g: WalkGraph, visited: seq<NodeId>, limit: nat): (r: seq<NodeId>)
    requires Scored(g)
    ensures visited <= r
    decreases limit - |visited|
  {
    if |visited| >= limit || Frontier(g, visited) == {} then visited
    else Walk(g, visited + [Closest(Frontier(g, visited), g.score)], limit)
  }

  lemma WalkStep(g: WalkGraph, visited: seq<NodeId>, limit: nat)
    requires Scored(g) && |visited| < limit && Frontier(g, visited) != {}
    ensures Walk(g, visited, limit) == Walk(g, visited + [Closest(Frontier(g, visited), g.score)], limit)
  {}

  lemma WalkDone(g: WalkGraph, visited: seq<NodeId>, limit: nat)
    requires Scored(g) && (|visited| >= limit || Frontier(g, visited) == {})
    ensures Walk(g, visited, limit) == visited
  {}

  /** Every visited node was the closest among the nodes discovered by its predecessors. */
  ghost predicate BestFirst(g: WalkGraph, visited: seq<NodeId>)
    requires Scored(g)
  {
    forall k :: 0 <= k < |visited| ==> IsClosest(visited[k], Frontier(g, visited[..k]), g.score)
  }

  ghost predicate IsPath(g: WalkGraph, path: seq<NodeId>) {
    && |path| > 0
    && path[0] in g.starts
    && (forall k :: 0 <= k < |path| ==> path[k] in g.edges)
    && forall k :: 0 < k < |path| ==> path[k] in g.edges[path[k - 1]]
  }

  ghost predicate Reachable(g: WalkGraph, v: NodeId) {
    exists path :: IsPath(g, path) && path[|path| - 1] == v
  }

  lemma DiscoveredSnoc(g: WalkGraph, visited: seq<NodeId>, u: NodeId)
    requires u in g.edges
    ensures forall v :: v in Discovered(g, visited + [u]) <==>
      v in Discovered(g, visited) || (v in g.edges && v in g.edges[u])
  {
    forall v ensures HasEdgeFrom(g, visited + [u], v) <==> HasEdgeFrom(g, visited, v) || v in g.edges[u] {
      var more := visited + [u];
      assert forall w :: w in more <==> w in visited || w == u;
    }
  }

  lemma ClosestUnique(id: NodeId, ids: set<NodeId>, score: map<NodeId, real>)
    requires ids <= score.Keys && IsClosest(id, ids, score)
    ensures Closest(ids, score) == id
  {}

  /** Visits are distinct readable nodes, at most `limit`, in best-first order. */
  lemma {:induction false} WalkFacts(g: WalkGraph, visited: seq<NodeId>, limit: nat)
    requires Scored(g)
    requires BestFirst(g, visited) && Distinct(visited) && |visited| <= limit
    requires forall v :: v in visited ==> v in g.edges
    ensures var r := Walk(g, visited, limit);
      && BestFirst(g, r) && Distinct(r) && |r| <= limit
      && (forall v :: v in r ==> v in g.edges)
      && (|r| == limit || Frontier(g, r) == {})
    decreases limit - |visited|
  {
    if |visited| < limit && Frontier(g, visited) != {} {
      var next := Closest(Frontier(g, visited), g.score);
      var more := visited + [next];
      forall k | 0 <= k < |more| ensures IsClosest(more[k], Frontier(g, more[..k]), g.score) {
        assert more[..k] == visited[..k];
        assert k == |visited| ==> visited[..k] == visited;
      }
      WalkFacts(g, more, limit);
    }
  }

  /** A walk whose limit is not below the number of readable nodes visits exactly the reachable ones. */
  lemma ExhaustiveWalk(g: WalkGraph, limit: nat)
    requires Scored(g) && limit >= |g.edges|
    ensures forall v :: v in Walk(g, [], limit) <==> Reachable(g, v)
  {
    var r := Walk(g, [], limit);
    WalkFacts(g, [], limit);
    assert Frontier(g, r) == {} by {
      if |r| == limit {
        DistinctSize(r);
        assert Elements(r) <= g.edges.Keys;
        SubsetEqual(Elements(r), g.edges.Keys);
      }
    }
    forall v ensures v in r <==> Reachable(g, v) {
      if v in r {
        var k :| 0 <= k < |r| && r[k] == v;
        VisitedReachable(g, r, k);
      }
      if Reachable(g, v) {
        var path :| IsPath(g, path) && path[|path| - 1] == v;
        PathVisited(g, r, path, |path| - 1);
      }
    }
  }

  lemma SubsetEqual<T>(a: set<T>, b: set<T>)
    requires a <= b && |a| >= |b|
    ensures a == b
  {
    assert |b| == |a| + |b - a| by { assert b == a + (b - a); }
    assert b - a == {};
  }

  lemma ExtendPath(g: WalkGraph, u: NodeId, v: NodeId)
    requires Reachable(g, u) && u in g.edges && v in g.edges && v in g.edges[u]
    ensures Reachable(g, v)
  {
    var path :| IsPath(g, path) && path[|path| - 1] == u;
    var longer := path + [v];
    forall k | 0 < k < |longer| ensures longer[k] in g.edges[longer[k - 1]] {
      assert k < |path| ==> path[k] in g.edges[path[k - 1]];
    }
    assert IsPath(g, longer) && longer[|longer| - 1] == v;
  }

  lemma {:induction false} VisitedReachable(g: WalkGraph, r: seq<NodeId>, k: nat)
    requires Scored(g) && BestFirst(g, r) && k < |r|
    ensures Reachable(g, r[k])
    decreases k
  {
    assert r[k] in Frontier(g, r[..k]);
    if r[k] in g.starts {
      assert IsPath(g, [r[k]]);
    } else {
      var u :| u in r[..k] && u in g.edges && r[k] in g.edges[u];
      var m :| 0 <= m < k && r[m] == u;
      VisitedReachable(g, r, m);
      ExtendPath(g, u, r[k]);
    }
  }

  lemma {:induction false} PathVisited(g: WalkGraph, r: seq<NodeId>, path: seq<NodeId>, k: nat)
    requires IsPath(g, path) && k < |path|
    requires Frontier(g, r) == {}
    ensures path[k] in r
    decreases k
  {
    if k > 0 {
      PathVisited(g, r, path, k - 1);
      assert HasEdgeFrom(g, r, path[k]);
    }
    assert path[k] in Discovered(g, r);
    assert path[k] !in Frontier(g, r);
  }

  /** A queue entry; `slot` is a payload that does not take part in the order. */
  datatype Queued = Queued(nodeId: NodeId, distance: real, slot: nat)

  function QueueRank(q: Queued): Rank { Rank(q.distance, q.nodeId) }

  predicate IsTop(top: Queued, heap: set<Queued>) {
    top in heap && forall q :: q in heap ==> LessEq(QueueRank(top), QueueRank(q))
  }

  lemma {:induction false} TopExists(heap: set<Queued>)
    requires heap != {}
    ensures exists top :: IsTop(top, heap)
    decreases heap
  {
    var x :| x in heap;
    if heap == {x} {
      assert IsTop(x, heap);
    } else {
      TopExists(heap - {x});
      var y :| IsTop(y, heap - {x});
      var top := if Less(QueueRank(x), QueueRank(y)) then x else y;
      forall q | q in heap ensures LessEq(QueueRank(top), QueueRank(q)) {
        assert q == x || q in heap - {x};
      }
      assert IsTop(top, heap);
    }
  }

  /** The pop of a binary min-heap. */
  method PopNearest(heap: set<Queued>) returns (top: Queued, rest: set<Queued>)
    requires heap != {}
    ensures IsTop(top, heap) && rest == heap - {top}
  {
    TopExists(heap);
    top :| IsTop(top, heap);
    rest := heap - {top};
  }

  /** The heap holds each frontier node once, at its distance. */
  ghost predicate HeapHolds(g: WalkGraph, heap: set<Queued>, frontier: set<NodeId>) {
    && (forall q :: q in heap ==> q.nodeId in frontier && q.nodeId in g.score && q.distance == g.score[q.nodeId])
    && (forall v :: v in frontier ==> exists q :: q in heap && q.nodeId == v)
    && forall q, p :: q in heap && p in heap && q.nodeId == p.nodeId ==> q == p
  }

  /** Popping the heap takes the next step of the walk. */
  lemma PopIsClosest(g: WalkGraph, heap: set<Queued>, frontier: set<NodeId>, top: Queued)
    requires HeapHolds(g, heap, frontier) && frontier <= g.score.Keys && IsTop(top, heap)
    ensures frontier != {} && Closest(frontier, g.score) == top.nodeId
    ensures top.nodeId in frontier && top.distance == g.score[top.nodeId]
    ensures HeapHolds(g, heap - {top}, frontier - {top.nodeId})
  {
    forall v | v in frontier ensures LessEq(Rank(g.score[top.nodeId], top.nodeId), Rank(g.score[v], v)) {
      var q :| q in heap && q.nodeId == v;
    }
    ClosestUnique(top.nodeId, frontier, g.score);
    forall v | v in frontier - {top.nodeId} ensures exists q :: q in heap - {top} && q.nodeId == v {
      var q :| q in heap && q.nodeId == v;
      assert q in heap - {top};
    }
  }

  lemma OneHeld(g: WalkGraph, q: Queued)
    requires q.nodeId in g.score && q.distance == g.score[q.nodeId]
    ensures HeapHolds(g, {q}, {q.nodeId})
  {
    assert q in {q};
  }

  lemma NothingHeld(g: WalkGraph, frontier: set<NodeId>)
    ensures HeapHolds(g, {}, frontier) <==> frontier == {}
  {
    if frontier != {} {
      var v :| v in frontier;
    }
  }

  lemma PushHolds(g: WalkGraph, heap: set<Queued>, frontier: set<NodeId>, q: Queued)
    requires HeapHolds(g, heap, frontier)
    requires q.nodeId !in frontier && q.nodeId in g.score && q.distance == g.score[q.nodeId]
    ensures HeapHolds(g, heap + {q}, frontier + {q.nodeId})
  {
    forall v | v in frontier + {q.nodeId} ensures exists p :: p in heap + {q} && p.nodeId == v {
      if v == q.nodeId { assert q in heap + {q}; } else { var p :| p in heap && p.nodeId == v; assert p in heap + {q}; }
    }
  }

  /** Queues a node unless it was seen before. */
  method Offer(heap: set<Queued>, seen: set<NodeId>, entry: Queued, ghost g: WalkGraph, ghost done: set<NodeId>)
    returns (heap': set<Queued>, seen': set<NodeId>)
    requires HeapHolds(g, heap, seen - done) && done <= seen
    requires entry.nodeId in g.score && entry.distance == g.score[entry.nodeId]
    ensures seen' == seen + {entry.nodeId}
    ensures HeapHolds(g, heap', seen' - done)
    ensures heap <= heap' <= heap + {entry}
  {
    hide HeapHolds;
    heap', seen' := heap, seen;
    if entry.nodeId !in seen {
      PushHolds(g, heap, seen - done, entry);
      seen' := seen + {entry.nodeId};
      assert seen' - done == seen - done + {entry.nodeId};
      heap' := heap + {entry};
    } else {
      assert seen + {entry.nodeId} == seen;
    }
  }
}
