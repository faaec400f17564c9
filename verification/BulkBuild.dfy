/** Incremental graph construction: greedy search, pruning, reverse edges, and the chain of insurance edges. */
module BulkBuild {
  import opened Common
  import opened Records
  import opened Prune
  import opened GraphWalk

  /** Configuration, routing distance, and the cap on a list while edges are being installed. */
  datatype BuildEnv = BuildEnv(config: IndexConfig, between: Metric, slack: nat)

  predicate Ready(env: BuildEnv) {
    env.config.Valid() && env.slack == env.config.MaxNeighborsDuringBuild()
  }

  // ----- specification -----

  ghost predicate Numbered(records: seq<NodeRecord>) {
    forall i :: 0 <= i < |records| ==> records[i].id == i + 1
  }

  /** A neighbour list of node `id`: short enough, simple, and within `1..hi`. */
  ghost predicate SimpleList(id: NodeId, neighbors: seq<NodeId>, hi: nat, cap: nat) {
    && NeighborsValid(id, neighbors, cap)
    && IdsWithin(neighbors, hi)
  }

  ghost predicate ListOk(records: seq<NodeRecord>, i: nat, hi: nat, cap: nat)
    requires i < |records|
  {
    SimpleList(i + 1, records[i].neighbors, hi, cap) && (i >= hi ==> records[i].neighbors == [])
  }

  /** Lists are simple, within `1..hi` and `cap`; nodes above `hi` are not linked yet. */
  ghost predicate Wired(records: seq<NodeRecord>, hi: nat, cap: nat) {
    && Numbered(records)
    && hi <= |records|
    && forall i: nat :: i < |records| ==> ListOk(records, i, hi, cap)
  }

  /** The two versions differ in neighbour lists only. */
  ghost predicate SamePayload(a: seq<NodeRecord>, b: seq<NodeRecord>) {
    && |a| == |b|
    && forall i :: 0 <= i < |a| ==> b[i] == a[i].(neighbors := b[i].neighbors)
  }

  function SetList(records: seq<NodeRecord>, i: nat, neighbors: seq<NodeId>): seq<NodeRecord>
    requires i < |records|
  {
    records[i := records[i].(neighbors := neighbors)]
  }

  lemma SetListWired(records: seq<NodeRecord>, i: nat, neighbors: seq<NodeId>, hi: nat, cap: nat)
    requires Wired(records, hi, cap) && i < |records|
    requires SimpleList(i + 1, neighbors, hi, cap) && (i >= hi ==> neighbors == [])
    ensures Wired(SetList(records, i, neighbors), hi, cap)
    ensures SamePayload(records, SetList(records, i, neighbors))
  {
    var r := SetList(records, i, neighbors);
    forall j: nat | j < |r| ensures ListOk(r, j, hi, cap) {
      assert ListOk(records, j, hi, cap);
    }
  }

  lemma RaiseHi(records: seq<NodeRecord>, hi: nat, cap: nat)
    requires Wired(records, hi, cap) && hi < |records|
    ensures Wired(records, hi + 1, cap)
  {
    var up := hi + 1;
    forall j: nat | j < |records| ensures ListOk(records, j, up, cap) {
      assert ListOk(records, j, hi, cap);
    }
  }

  ghost function RuleFor(env: BuildEnv, base: NodeRecord): PruneRule {
    PruneRule(base.labels, env.config.hasLabels, env.config.maxAlpha, env.config.maxNeighbors, env.between)
  }

  /** How record `id` looks to a base record that considers it as a neighbour. */
  function View(env: BuildEnv, records: seq<NodeRecord>, base: NodeRecord, id: NodeId): PruneCandidate {
    if 1 <= id <= |records| then
      var record := records[id - 1];
      PruneCandidate(record.id, env.between(base.routing, record.routing), record.routing, record.labels)
    else PruneCandidate(id, 0.0, base.routing, [])
  }

  ghost function Views(env: BuildEnv, records: seq<NodeRecord>, base: NodeRecord, ids: seq<NodeId>): (views: seq<PruneCandidate>)
    ensures |views| == |ids|
    ensures forall k :: 0 <= k < |ids| ==> views[k] == View(env, records, base, ids[k])
  {
    seq(|ids|, k requires 0 <= k < |ids| => View(env, records, base, ids[k]))
  }

  ghost function PrunedList(env: BuildEnv, records: seq<NodeRecord>, base: NodeRecord, ids: seq<NodeId>): seq<NodeId> {
    Pruned(RuleFor(env, base), Views(env, records, base, ids))
  }

  /** Adds the reverse edge `i + 1 -> newId`, pruning when the list outgrows its slack. */
  ghost function AddReverse(env: BuildEnv, records: seq<NodeRecord>, i: nat, newId: NodeId): (r: seq<NodeRecord>)
    requires i < |records|
    ensures |r| == |records|
  {
    var longer := records[i].neighbors + [newId];
    if newId in records[i].neighbors then records
    else if |longer| <= env.slack then SetList(records, i, longer)
    else SetList(records, i, PrunedList(env, records, records[i], longer))
  }

  ghost function AddReverses(env: BuildEnv, records: seq<NodeRecord>, chosen: seq<NodeId>, k: nat, newId: NodeId)
    : (r: seq<NodeRecord>)
    ensures |r| == |records|
    decreases |chosen| - k
  {
    if k >= |chosen| then records
    else if 1 <= chosen[k] <= |records| then
      AddReverses(env, AddReverse(env, records, chosen[k] - 1, newId), chosen, k + 1, newId)
    else AddReverses(env, records, chosen, k + 1, newId)
  }

  /** The adjacency of a list of numbered records. */
  ghost function Adjacency(records: seq<NodeRecord>): map<NodeId, seq<NodeId>> {
    map id | id in OneTo(|records|) :: records[id - 1].neighbors
  }

  /** The partial graph, entered at node 1, as seen from the routing vector of record `idx`. */
  ghost function GraphFrom(env: BuildEnv, records: seq<NodeRecord>, idx: nat): (g: WalkGraph)
    requires idx < |records|
    ensures Scored(g)
  {
    WalkGraph(
      {1},
      Adjacency(records),
      map id | id in OneTo(|records|) :: env.between(records[idx].routing, records[id - 1].routing))
  }

  function BuildLimit(config: IndexConfig): nat {
    Max(Max(config.buildSearchListSize, config.maxNeighbors), 1)
  }

  ghost function Visited(env: BuildEnv, records: seq<NodeRecord>, idx: nat): seq<NodeId>
    requires idx < |records|
  {
    Walk(GraphFrom(env, records, idx), [], BuildLimit(env.config))
  }

  /** The neighbours selected for record `idx`. */
  ghost function Chosen(env: BuildEnv, records: seq<NodeRecord>, idx: nat): seq<NodeId>
    requires idx < |records|
  {
    PrunedList(env, records, records[idx], Visited(env, records, idx))
  }

  /** Wires record `idx` to the part of the graph before it. */
  ghost function WireNode(env: BuildEnv, records: seq<NodeRecord>, idx: nat): (r: seq<NodeRecord>)
    requires idx < |records|
    ensures |r| == |records|
  {
    var chosen := Chosen(env, records, idx);
    SetList(AddReverses(env, records, chosen, 0, idx + 1), idx, chosen)
  }

  ghost function WireAll(env: BuildEnv, records: seq<NodeRecord>, idx: nat): (r: seq<NodeRecord>)
    ensures |r| == |records|
    decreases |records| - idx
  {
    if idx >= |records| then records else WireAll(env, WireNode(env, records, idx), idx + 1)
  }

  /** Adds a neighbour, replacing the last one when the list is full, and sorts the list. */
  function WithNeighbor(neighbors: seq<NodeId>, id: NodeId, maxNeighbors: nat): seq<NodeId> {
    if id in neighbors || maxNeighbors == 0 then neighbors
    else if |neighbors| < maxNeighbors then SortIds(neighbors + [id])
    else if |neighbors| > 0 then SortIds(neighbors[..|neighbors| - 1] + [id])
    else SortIds(neighbors)
  }

  function SortIds(s: seq<NodeId>): (r: seq<NodeId>)
    ensures r == SortDedup(s)
  {
    var r := SortDedup(s);
    assert forall i :: 0 <= i < |r| ==> r[i] in r && r[i] in s;
    r
  }

  /** The successor in id order; the last node links back. */
  function ChainNeighbor(n: nat, idx: nat): NodeId {
    if idx + 1 < n then idx + 2 else idx
  }

  /** The published list of record `idx`: trimmed to the cap, with its chain edge. */
  ghost function FinalList(env: BuildEnv, records: seq<NodeRecord>, idx: nat): seq<NodeId>
    requires idx < |records|
  {
    var list := records[idx].neighbors;
    var trimmed := if |list| > env.config.maxNeighbors then PrunedList(env, records, records[idx], list) else list;
    if |records| > 1 then WithNeighbor(trimmed, ChainNeighbor(|records|, idx), env.config.maxNeighbors) else trimmed
  }

  ghost function FinishAll(env: BuildEnv, records: seq<NodeRecord>, idx: nat): (r: seq<NodeRecord>)
    ensures |r| == |records|
    decreases |records| - idx
  {
    if idx >= |records| then records
    else FinishAll(env, SetList(records, idx, FinalList(env, records, idx)), idx + 1)
  }

  ghost function BuildGraph(env: BuildEnv, records: seq<NodeRecord>): (r: seq<NodeRecord>)
    ensures |r| == |records|
  {
    FinishAll(env, WireAll(env, records, 1), 0)
  }

  // ----- each step keeps the lists simple -----

  lemma ViewIds(env: BuildEnv, records: seq<NodeRecord>, base: NodeRecord, ids: seq<NodeId>)
    requires Numbered(records)
    ensures OneDistancePerId(Views(env, records, base, ids))
    ensures IdSet(Views(env, records, base, ids)) == Elements(ids)
  {
    var views := Views(env, records, base, ids);
    forall c | c in views ensures c == View(env, records, base, c.id) && c.id in ids {
      var k :| 0 <= k < |views| && views[k] == c;
      assert ids[k] in ids;
    }
    forall v | v in ids ensures v in IdSet(views) {
      var k :| 0 <= k < |ids| && ids[k] == v;
      assert views[k] in views && views[k].id == v;
    }
  }

  /** Pruning a list of ids keeps a duplicate-free part of it, as much as the cap allows. */
  lemma PrunedListFacts(env: BuildEnv, records: seq<NodeRecord>, base: NodeRecord, ids: seq<NodeId>)
    requires 1.0 <= env.config.maxAlpha && Numbered(records)
    ensures var r := PrunedList(env, records, base, ids);
      && Distinct(r) && |r| == Min(env.config.maxNeighbors, |Elements(ids)|)
      && forall v :: v in r ==> v in ids
  {
    ViewIds(env, records, base, ids);
    PrunedCount(RuleFor(env, base), Views(env, records, base, ids));
    assert forall v :: v in Elements(ids) ==> v in ids;
  }

  /** Pruning a simple list leaves a simple list within the published cap. */
  lemma PrunedListSimple(env: BuildEnv, records: seq<NodeRecord>, base: NodeRecord, ids: seq<NodeId>, id: NodeId, hi: nat)
    requires 1.0 <= env.config.maxAlpha && Numbered(records)
    requires IdsWithin(ids, hi) && id !in ids
    ensures SimpleList(id, PrunedList(env, records, base, ids), hi, env.config.maxNeighbors)
  {
    PrunedListFacts(env, records, base, ids);
    var r := PrunedList(env, records, base, ids);
    forall k | 0 <= k < |r| ensures 1 <= r[k] <= hi {
      assert r[k] in ids;
    }
  }

  lemma SimpleListWeaken(id: NodeId, neighbors: seq<NodeId>, hi: nat, cap: nat, hi': nat, cap': nat)
    requires SimpleList(id, neighbors, hi, cap) && hi <= hi' && cap <= cap'
    ensures SimpleList(id, neighbors, hi', cap')
  {}

  lemma AddReverseWired(env: BuildEnv, records: seq<NodeRecord>, i: nat, newId: NodeId)
    requires Ready(env) && Wired(records, newId, env.slack)
    requires i < newId - 1
    ensures var r := AddReverse(env, records, i, newId);
      Wired(r, newId, env.slack) && SamePayload(records, r) && forall j :: 0 <= j < |r| && j != i ==> r[j] == records[j]
  {
    assert ListOk(records, i, newId, env.slack);
    if newId !in records[i].neighbors {
      var longer := records[i].neighbors + [newId];
      assert IdsWithin(longer, newId) && Distinct(longer) && i + 1 !in longer;
      if |longer| <= env.slack {
        SetListWired(records, i, longer, newId, env.slack);
      } else {
        PrunedListSimple(env, records, records[i], longer, i + 1, newId);
        SetListWired(records, i, PrunedList(env, records, records[i], longer), newId, env.slack);
      }
    }
  }

  lemma {:induction false} AddReversesWired(env: BuildEnv, records: seq<NodeRecord>, chosen: seq<NodeId>, k: nat, newId: NodeId)
    requires Ready(env) && Wired(records, newId, env.slack)
    requires 1 <= newId && IdsWithin(chosen, newId - 1)
    ensures var r := AddReverses(env, records, chosen, k, newId);
      && Wired(r, newId, env.slack) && SamePayload(records, r)
    decreases |chosen| - k
  {
    hide AddReverse, SamePayload;
    SamePayloadSelf(records);
    if k < |chosen| {
      var next := AddReverse(env, records, chosen[k] - 1, newId);
      AddReverseWired(env, records, chosen[k] - 1, newId);
      AddReversesWired(env, next, chosen, k + 1, newId);
      SamePayloadTrans(records, next, AddReverses(env, next, chosen, k + 1, newId));
    }
  }

  lemma SamePayloadSelf(records: seq<NodeRecord>)
    ensures SamePayload(records, records)
  {}

  lemma SamePayloadTrans(a: seq<NodeRecord>, b: seq<NodeRecord>, c: seq<NodeRecord>)
    requires SamePayload(a, b) && SamePayload(b, c)
    ensures SamePayload(a, c)
  {}

  ghost predicate EdgesWithin(g: WalkGraph, hi: nat) {
    && (forall v :: v in g.starts ==> 1 <= v <= hi)
    && forall u :: u in g.edges ==> IdsWithin(g.edges[u], hi)
  }

  lemma FrontierWithin(g: WalkGraph, visited: seq<NodeId>, v: NodeId, hi: nat)
    requires EdgesWithin(g, hi) && v in Frontier(g, visited)
    ensures 1 <= v <= hi
  {
    if v !in g.starts {
      var u :| u in visited && u in g.edges && v in g.edges[u];
      assert IdsWithin(g.edges[u], hi);
    }
  }

  /** A walk stays where the edges lead. */
  lemma WalkWithin(g: WalkGraph, limit: nat, hi: nat)
    requires Scored(g) && EdgesWithin(g, hi)
    ensures Distinct(Walk(g, [], limit)) && IdsWithin(Walk(g, [], limit), hi)
  {
    WalkFacts(g, [], limit);
    var r := Walk(g, [], limit);
    forall k | 0 <= k < |r| ensures 1 <= r[k] <= hi {
      FrontierWithin(g, r[..k], r[k], hi);
    }
  }

  /** The search for a new node's neighbours never leaves the part of the graph already wired. */
  lemma ChosenSimple(env: BuildEnv, records: seq<NodeRecord>, idx: nat)
    requires Ready(env) && Wired(records, idx, env.slack) && 1 <= idx < |records|
    ensures IdsWithin(Visited(env, records, idx), idx)
    ensures SimpleList(idx + 1, Chosen(env, records, idx), idx, env.config.maxNeighbors)
  {
    var g := GraphFrom(env, records, idx);
    forall u | u in g.edges ensures IdsWithin(g.edges[u], idx) {
      assert ListOk(records, u - 1, idx, env.slack);
    }
    WalkWithin(g, BuildLimit(env.config), idx);
    var visited := Visited(env, records, idx);
    assert idx + 1 !in visited;
    PrunedListSimple(env, records, records[idx], visited, idx + 1, idx);
  }

  lemma WireNodeWired(env: BuildEnv, records: seq<NodeRecord>, idx: nat)
    requires Ready(env) && Wired(records, idx, env.slack) && 1 <= idx < |records|
    ensures Wired(WireNode(env, records, idx), idx + 1, env.slack)
    ensures SamePayload(records, WireNode(env, records, idx))
  {
    hide PrunedList, Visited, AddReverses;
    var chosen := Chosen(env, records, idx);
    ChosenSimple(env, records, idx);
    RaiseHi(records, idx, env.slack);
    var linked := AddReverses(env, records, chosen, 0, idx + 1);
    AddReversesWired(env, records, chosen, 0, idx + 1);
    SimpleListWeaken(idx + 1, chosen, idx, env.config.maxNeighbors, idx + 1, env.slack);
    SetListWired(linked, idx, chosen, idx + 1, env.slack);
    SamePayloadTrans(records, linked, SetList(linked, idx, chosen));
  }

  lemma {:induction false} WireAllWired(env: BuildEnv, records: seq<NodeRecord>, idx: nat)
    requires Ready(env) && Wired(records, Min(idx, |records|), env.slack) && 1 <= idx
    ensures Wired(WireAll(env, records, idx), |records|, env.slack)
    ensures SamePayload(records, WireAll(env, records, idx))
    decreases |records| - idx
  {
    hide WireNode;
    if idx < |records| {
      var next := WireNode(env, records, idx);
      WireNodeWired(env, records, idx);
      WireAllWired(env, next, idx + 1);
      SamePayloadTrans(records, next, WireAll(env, next, idx + 1));
    }
  }

  lemma SortIdsFacts(s: seq<NodeId>, n: nat)
    requires IdsWithin(s, n)
    ensures SameMembers(SortIds(s), s) && Distinct(SortIds(s)) && |SortIds(s)| <= |s| && IdsWithin(SortIds(s), n)
  {
    var r := SortIds(s);
    DistinctSize(r);
    assert Elements(r) == Elements(s);
    ElementsSize(s);
    forall k | 0 <= k < |r| ensures 1 <= r[k] <= n { assert r[k] in s; }
  }

  lemma {:induction false} ElementsSize(s: seq<NodeId>)
    ensures |Elements(s)| <= |s|
  {
    if s != [] {
      var rest, last := s[..|s| - 1], s[|s| - 1];
      ElementsSize(rest);
      assert s == rest + [last];
      ElementsSnoc(rest, last);
    }
  }

  /** The added neighbour is in the list, which stays simple and within the cap. */
  lemma WithNeighborSimple(self: NodeId, neighbors: seq<NodeId>, id: NodeId, n: nat, maxNeighbors: nat)
    requires SimpleList(self, neighbors, n, maxNeighbors) && maxNeighbors > 0
    requires 1 <= id <= n && id != self
    ensures SimpleList(self, WithNeighbor(neighbors, id, maxNeighbors), n, maxNeighbors)
    ensures id in WithNeighbor(neighbors, id, maxNeighbors)
  {
    if id !in neighbors {
      var kept := if |neighbors| < maxNeighbors then neighbors else neighbors[..|neighbors| - 1];
      var longer := kept + [id];
      assert longer[|kept|] == id;
      SortIdsFacts(longer, n);
    }
  }

  ghost predicate Finished(env: BuildEnv, records: seq<NodeRecord>, i: nat)
    requires i < |records|
  {
    && SimpleList(i + 1, records[i].neighbors, |records|, env.config.maxNeighbors)
    && (|records| > 1 ==> ChainNeighbor(|records|, i) in records[i].neighbors)
  }

  lemma FinishOneFacts(env: BuildEnv, records: seq<NodeRecord>, idx: nat)
    requires Ready(env) && idx < |records| && Wired(records, |records|, env.slack)
    ensures var r := SetList(records, idx, FinalList(env, records, idx));
      Wired(r, |records|, env.slack) && SamePayload(records, r) && Finished(env, r, idx)
  {
    hide PrunedList;
    var n, list := |records|, records[idx].neighbors;
    assert ListOk(records, idx, n, env.slack);
    PrunedListSimple(env, records, records[idx], list, idx + 1, n);
    var trimmed := if |list| > env.config.maxNeighbors then PrunedList(env, records, records[idx], list) else list;
    if n > 1 {
      WithNeighborSimple(idx + 1, trimmed, ChainNeighbor(n, idx), n, env.config.maxNeighbors);
    }
    var final := FinalList(env, records, idx);
    SimpleListWeaken(idx + 1, final, n, env.config.maxNeighbors, n, env.slack);
    SetListWired(records, idx, final, n, env.slack);
  }

  lemma {:induction false} FinishAllFacts(env: BuildEnv, records: seq<NodeRecord>, idx: nat)
    requires Ready(env) && idx <= |records| && Wired(records, |records|, env.slack)
    requires forall i: nat :: i < idx ==> Finished(env, records, i)
    ensures var r := FinishAll(env, records, idx);
      && Wired(r, |records|, env.slack) && SamePayload(records, r)
      && forall i: nat :: i < |r| ==> Finished(env, r, i)
    decreases |records| - idx
  {
    hide FinalList;
    if idx < |records| {
      var next := SetList(records, idx, FinalList(env, records, idx));
      FinishOneFacts(env, records, idx);
      assert forall i: nat :: i < idx ==> Finished(env, records, i) && next[i] == records[i];
      FinishAllFacts(env, next, idx + 1);
      SamePayloadTrans(records, next, FinishAll(env, next, idx + 1));
    }
  }

  /** Records as numbered by the build, before any edge exists. */
  ghost predicate Unlinked(records: seq<NodeRecord>) {
    && Numbered(records)
    && forall i :: 0 <= i < |records| ==> records[i].neighbors == []
  }

  lemma UnlinkedWired(env: BuildEnv, records: seq<NodeRecord>)
    requires Ready(env) && Unlinked(records)
    ensures Wired(records, Min(1, |records|), env.slack)
  {
    forall j: nat | j < |records| ensures ListOk(records, j, Min(1, |records|), env.slack) {}
  }

  // ----- what the published graph guarantees -----

  lemma BuildFacts(env: BuildEnv, records: seq<NodeRecord>)
    requires Ready(env) && Unlinked(records)
    ensures SamePayload(records, BuildGraph(env, records))
    ensures Numbered(BuildGraph(env, records))
    ensures forall i: nat :: i < |records| ==> Finished(env, BuildGraph(env, records), i)
  {
    UnlinkedWired(env, records);
    var wired := WireAll(env, records, 1);
    WireAllWired(env, records, 1);
    FinishAllFacts(env, wired, 0);
    SamePayloadTrans(records, wired, BuildGraph(env, records));
  }

  /** Simple lists over `1..n` within the published cap, and node i always linked to node i + 1. */
  lemma BuiltGraph(env: BuildEnv, records: seq<NodeRecord>, id: NodeId)
    requires Ready(env) && Unlinked(records) && 1 <= id <= |records|
    ensures var r := BuildGraph(env, records);
      && SamePayload(records, r)
      && SimpleList(id, r[id - 1].neighbors, |records|, env.config.maxNeighbors)
      && (id < |records| ==> id + 1 in r[id - 1].neighbors)
  {
    BuildFacts(env, records);
    assert Finished(env, BuildGraph(env, records), id - 1);
  }

  /** While edges are being installed no list exceeds ceil(1.3 * maxNeighbors), whichever record comes next. */
  lemma {:induction false} MidBuildBound(env: BuildEnv, records: seq<NodeRecord>, upto: nat)
    requires Ready(env) && Unlinked(records) && 1 <= upto <= |records|
    ensures Wired(WiredUpTo(env, records, upto), upto, env.config.MaxNeighborsDuringBuild())
    ensures WireAll(env, WiredUpTo(env, records, upto), upto) == WireAll(env, records, 1)
  {
    hide WireNode;
    if upto == 1 {
      UnlinkedWired(env, records);
    } else {
      MidBuildBound(env, records, upto - 1);
      WireNodeWired(env, WiredUpTo(env, records, upto - 1), upto - 1);
    }
  }

  /** The state of the slice after the records before position `upto` have been wired. */
  ghost function WiredUpTo(env: BuildEnv, records: seq<NodeRecord>, upto: nat): (r: seq<NodeRecord>)
    requires 1 <= upto <= |records|
    ensures |r| == |records|
  {
    if upto == 1 then records else WireNode(env, WiredUpTo(env, records, upto - 1), upto - 1)
  }

  /** Validation after wiring rejects a record only for its payload, never for its neighbour list. */
  lemma BuiltRecordsValid(env: BuildEnv, records: seq<NodeRecord>, i: nat)
    requires Ready(env) && Unlinked(records) && i < |records|
    ensures RecordValid(BuildGraph(env, records)[i], env.config) <==> PayloadValid(records[i], env.config)
  {
    hide BuildGraph, NeighborsValid;
    BuildFacts(env, records);
    assert Finished(env, BuildGraph(env, records), i);
  }

  /** A graph over `1..n` in which every node links to its successor. */
  ghost predicate ChainGraph(g: WalkGraph, n: nat) {
    && 1 in g.starts
    && g.edges.Keys == OneTo(n)
    && forall id :: id in OneTo(n) && id < n ==> id + 1 in g.edges[id]
  }

  lemma {:induction false} ChainReachable(g: WalkGraph, n: nat, v: NodeId)
    requires ChainGraph(g, n) && 1 <= v <= n
    ensures Reachable(g, v)
    decreases v
  {
    if v == 1 {
      assert IsPath(g, [1]);
    } else {
      hide OneTo, Reachable;
      ChainReachable(g, n, v - 1);
      assert v - 1 in OneTo(n) && v in OneTo(n);
      ExtendPath(g, v - 1, v);
    }
  }

  /** Every node of a built graph is reachable from node 1, whatever the query. */
  lemma BuiltReachable(env: BuildEnv, records: seq<NodeRecord>, g: WalkGraph, v: NodeId)
    requires Ready(env) && Unlinked(records)
    requires 1 in g.starts && g.edges == Adjacency(BuildGraph(env, records))
    requires 1 <= v <= |records|
    ensures Reachable(g, v)
  {
    hide BuildGraph, OneTo, Reachable;
    forall id | id in OneTo(|records|) && id < |records| ensures id + 1 in g.edges[id] {
      BuiltGraph(env, records, id);
    }
    ChainReachable(g, |records|, v);
  }

  // ----- the in-place construction -----

  /** What the walk needs of the slice: every edge leads to a record. */
  ghost predicate Closed(records: seq<NodeRecord>) {
    && Numbered(records)
    && forall i: nat :: i < |records| ==> IdsWithin(records[i].neighbors, |records|)
  }

  lemma WiredClosed(records: seq<NodeRecord>, hi: nat, cap: nat)
    requires Wired(records, hi, cap)
    ensures Closed(records)
  {
    forall i: nat | i < |records| ensures IdsWithin(records[i].neighbors, |records|) {
      assert ListOk(records, i, hi, cap);
    }
  }

  lemma GraphShape(env: BuildEnv, records: seq<NodeRecord>, idx: nat)
    requires idx < |records|
    ensures var g := GraphFrom(env, records, idx);
      && Scored(g) && g.starts == {1} && g.edges.Keys == OneTo(|records|) && g.score.Keys == OneTo(|records|)
      && ScoresFrom(env, records, idx, g)
  {
    hide OneTo;
  }

  lemma NodeAt(env: BuildEnv, records: seq<NodeRecord>, idx: nat, id: NodeId)
    requires idx < |records| && Closed(records)
    ensures var g := GraphFrom(env, records, idx);
      && (id in g.edges <==> 1 <= id <= |records|)
      && (id in g.score <==> 1 <= id <= |records|)
      && (1 <= id <= |records| ==>
            && records[id - 1].id == id && IdsWithin(records[id - 1].neighbors, |records|)
            && g.edges[id] == records[id - 1].neighbors
            && g.score[id] == env.between(records[idx].routing, records[id - 1].routing))
  {
    hide OneTo;
    if 1 <= id <= |records| {
      assert records[id - 1].id == id;
    }
  }

  /** The walk over the slice being wired; returns `(distance, position)` in visit order. */
  method GreedySearch(env: BuildEnv, records: seq<NodeRecord>, idx: nat) returns (visited: seq<(real, nat)>)
    requires 1 <= idx < |records| && Closed(records)
    ensures Recorded(GraphFrom(env, records, idx), visited, Visited(env, records, idx))
  {
    hide Walk, GraphFrom, HeapHolds, OneTo, Recorded, Discovered, Frontier, ScoresFrom, Closed, Elements, SlotsMatch;
    ghost var g := GraphFrom(env, records, idx);
    GraphShape(env, records, idx);
    NodeAt(env, records, idx, 1);
    var limit := BuildLimit(env.config);
    var first := Queued(records[0].id, env.between(records[idx].routing, records[0].routing), 0);
    var heap := {first};
    var seen := {first.nodeId};
    visited := [];
    ghost var ids: seq<NodeId> := [];
    OneHeld(g, first);
    SearchStarts(g, first);
    while heap != {}
      invariant |visited| == |ids| <= limit
      invariant Recorded(g, visited, ids)
      invariant Elements(ids) <= seen
      invariant Walk(g, ids, limit) == Walk(g, [], limit)
      invariant seen == Discovered(g, ids)
      invariant HeapHolds(g, heap, Frontier(g, ids))
      invariant SlotsMatch(heap)
      decreases limit - |visited|
    {
      var top, rest := PopNearest(heap);
      FrontierScored(g, ids);
      PopIsClosest(g, heap, Frontier(g, ids), top);
      PopSlot(heap, top);
      heap := rest;
      if |visited| >= limit {
        WalkDone(g, ids, limit);
        return;
      }
      WalkStep(g, ids, limit);
      NodeAt(env, records, idx, top.nodeId);
      RecordedSnoc(g, visited, ids, top);
      visited := visited + [(top.distance, top.slot)];
      StepDiscovers(g, ids, top.nodeId, seen, |records|);
      ids := ids + [top.nodeId];
      heap, seen := PushNeighbors(env, records, idx, records[top.slot].neighbors, heap, seen, Elements(ids), g);
    }
    NothingHeld(g, Frontier(g, ids));
    WalkDone(g, ids, limit);
  }

  /** Only node 1 is known when the walk starts. */
  lemma SearchStarts(g: WalkGraph, first: Queued)
    requires Scored(g) && g.starts == {1} && 1 in g.edges && first.nodeId == 1 && first.slot == 0
    ensures Discovered(g, []) == Frontier(g, []) == {1} && Recorded(g, [], []) && SlotsMatch({first})
    ensures var none: seq<NodeId> := []; Elements(none) == {}
  {}

  lemma FrontierScored(g: WalkGraph, ids: seq<NodeId>)
    requires Scored(g)
    ensures Frontier(g, ids) <= g.score.Keys
  {}

  lemma PopSlot(heap: set<Queued>, top: Queued)
    requires SlotsMatch(heap) && top in heap
    ensures top.slot + 1 == top.nodeId && SlotsMatch(heap - {top})
  {}

  /** During construction the slot of a queue entry is its position in the slice. */
  ghost predicate SlotsMatch(heap: set<Queued>) {
    forall q :: q in heap ==> q.slot + 1 == q.nodeId
  }

  /** The method's view of the visit sequence: distances and positions. */
  ghost predicate Recorded(g: WalkGraph, visited: seq<(real, nat)>, ids: seq<NodeId>)
    requires Scored(g)
  {
    && |visited| == |ids|
    && forall k :: 0 <= k < |ids| ==> ids[k] in g.edges && visited[k].1 + 1 == ids[k] && visited[k].0 == g.score[ids[k]]
  }

  lemma RecordedSnoc(g: WalkGraph, visited: seq<(real, nat)>, ids: seq<NodeId>, top: Queued)
    requires Scored(g) && Recorded(g, visited, ids)
    requires top.nodeId in g.edges && top.slot + 1 == top.nodeId && top.distance == g.score[top.nodeId]
    ensures Recorded(g, visited + [(top.distance, top.slot)], ids + [top.nodeId])
  {}

  /** Visiting `u` removes it from the frontier and discovers exactly its neighbours. */
  lemma StepDiscovers(g: WalkGraph, ids: seq<NodeId>, u: NodeId, seen: set<NodeId>, n: nat)
    requires g.edges.Keys == OneTo(n) && u in g.edges && IdsWithin(g.edges[u], n)
    requires seen == Discovered(g, ids)
    ensures seen - Elements(ids + [u]) == Frontier(g, ids) - {u}
    ensures Elements(ids) <= seen && u in seen ==> Elements(ids + [u]) <= seen
    ensures u in Frontier(g, ids) ==> u in seen
    ensures Discovered(g, ids + [u]) == seen + Elements(g.edges[u])
    ensures Frontier(g, ids + [u]) == seen + Elements(g.edges[u]) - Elements(ids + [u])
  {
    DiscoveredSnoc(g, ids, u);
    ElementsSnoc(ids, u);
  }

  ghost predicate ScoresFrom(env: BuildEnv, records: seq<NodeRecord>, idx: nat, g: WalkGraph)
    requires idx < |records|
  {
    forall id :: 1 <= id <= |records| ==>
      id in g.score && g.score[id] == env.between(records[idx].routing, records[id - 1].routing)
  }

  method PushNeighbors(env: BuildEnv, records: seq<NodeRecord>, idx: nat, neighbors: seq<NodeId>, queue: set<Queued>,
                       known: set<NodeId>, ghost done: set<NodeId>, ghost g: WalkGraph)
    returns (heap: set<Queued>, seen: set<NodeId>)
    requires idx < |records| && IdsWithin(neighbors, |records|)
    requires ScoresFrom(env, records, idx, g)
    requires done <= known && HeapHolds(g, queue, known - done) && SlotsMatch(queue)
    ensures seen == known + Elements(neighbors)
    ensures HeapHolds(g, heap, seen - done) && SlotsMatch(heap)
  {
    hide HeapHolds, Elements;
    heap, seen := queue, known;
    TakeEnds(neighbors);
    for j := 0 to |neighbors|
      invariant seen == known + Elements(neighbors[..j])
      invariant HeapHolds(g, heap, seen - done) && SlotsMatch(heap)
    {
      var id := neighbors[j];
      TakeSnoc(neighbors, j);
      var entry := Queued(id, env.between(records[idx].routing, records[id - 1].routing), id - 1);
      heap, seen := Offer(heap, seen, entry, g, done);
    }
  }

  /** Prunes the candidates at the given positions against a base record. */
  method PruneAgainst(env: BuildEnv, records: seq<NodeRecord>, base: NodeRecord, ids: seq<NodeId>) returns (kept: seq<NodeId>)
    requires 1.0 <= env.config.maxAlpha
    requires IdsWithin(ids, |records|)
    ensures kept == PrunedList(env, records, base, ids)
  {
    var views: seq<PruneCandidate> := [];
    for k := 0 to |ids|
      invariant views == Views(env, records, base, ids[..k])
    {
      TakeSnoc(ids, k);
      var record := records[ids[k] - 1];
      views := views + [PruneCandidate(record.id, env.between(base.routing, record.routing), record.routing, record.labels)];
    }
    assert ids[..|ids|] == ids;
    kept := AlphaPrune(
      PruneRule(base.labels, env.config.hasLabels, env.config.maxAlpha, env.config.maxNeighbors, env.between), views);
  }

  /** Installs one reverse edge in place. */
  method LinkOne(env: BuildEnv, records: array<NodeRecord>, i: nat, newId: NodeId)
    requires 1.0 <= env.config.maxAlpha && i < records.Length && 1 <= newId <= records.Length
    requires IdsWithin(records[i].neighbors, records.Length)
    modifies records
    ensures records[..] == AddReverse(env, old(records[..]), i, newId)
  {
    ghost var before := records[..];
    if newId !in records[i].neighbors {
      var longer := records[i].neighbors + [newId];
      records[i] := records[i].(neighbors := longer);
      assert records[..] == SetList(before, i, longer);
      if |longer| > env.slack {
        var kept := PruneAgainst(env, records[..], records[i], longer);
        SameViews(env, before, records[..], before[i], records[i], longer);
        records[i] := records[i].(neighbors := kept);
        assert records[..] == SetList(before, i, kept);
      }
    }
  }

  /** Pruning looks at payloads only, so a change of neighbour lists does not affect it. */
  lemma SameViews(env: BuildEnv, a: seq<NodeRecord>, b: seq<NodeRecord>, base: NodeRecord, base': NodeRecord, ids: seq<NodeId>)
    requires SamePayload(a, b) && base' == base.(neighbors := base'.neighbors)
    ensures PrunedList(env, a, base, ids) == PrunedList(env, b, base', ids)
  {
    assert Views(env, a, base, ids) == Views(env, b, base', ids);
  }

  method LinkBack(env: BuildEnv, records: array<NodeRecord>, chosen: seq<NodeId>, newId: NodeId)
    requires Ready(env) && Wired(records[..], newId, env.slack)
    requires 1 <= newId && IdsWithin(chosen, newId - 1)
    modifies records
    ensures records[..] == AddReverses(env, old(records[..]), chosen, 0, newId)
  {
    hide AddReverse;
    ghost var goal := AddReverses(env, records[..], chosen, 0, newId);
    for k := 0 to |chosen|
      invariant Wired(records[..], newId, env.slack)
      invariant AddReverses(env, records[..], chosen, k, newId) == goal
    {
      ghost var before := records[..];
      AddReverseWired(env, before, chosen[k] - 1, newId);
      assert ListOk(before, chosen[k] - 1, newId, env.slack);
      LinkOne(env, records, chosen[k] - 1, newId);
    }
  }

  /** Drops the distance column and the queried node itself. */
  method CandidateIds(visited: seq<(real, nat)>, idx: nat, ghost g: WalkGraph, ghost walk: seq<NodeId>) returns (ids: seq<NodeId>)
    requires Scored(g) && Recorded(g, visited, walk) && IdsWithin(walk, idx)
    ensures ids == walk
  {
    ids := [];
    for k := 0 to |visited|
      invariant ids == walk[..k]
    {
      if visited[k].1 != idx {
        ids := ids + [visited[k].1 + 1];
      }
    }
  }

  /** Searches the partial graph for record `idx` and prunes what it finds. */
  method ChooseNeighbors(env: BuildEnv, records: seq<NodeRecord>, idx: nat) returns (chosen: seq<NodeId>)
    requires Ready(env) && 1 <= idx < |records| && Wired(records, idx, env.slack)
    ensures chosen == Chosen(env, records, idx)
  {
    hide PrunedList, Walk, GraphFrom;
    GraphShape(env, records, idx);
    WiredClosed(records, idx, env.slack);
    var visited := GreedySearch(env, records, idx);
    ChosenSimple(env, records, idx);
    var ids := CandidateIds(visited, idx, GraphFrom(env, records, idx), Visited(env, records, idx));
    chosen := PruneAgainst(env, records, records[idx], ids);
  }

  /** Wires record `idx` in place. */
  method WireOne(env: BuildEnv, records: array<NodeRecord>, idx: nat)
    requires Ready(env) && 1 <= idx < records.Length && Wired(records[..], idx, env.slack)
    modifies records
    ensures records[..] == WireNode(env, old(records[..]), idx)
  {
    hide Chosen;
    ghost var before := records[..];
    var chosen := ChooseNeighbors(env, records[..], idx);
    ChosenSimple(env, before, idx);
    RaiseHi(before, idx, env.slack);
    LinkBack(env, records, chosen, idx + 1);
    records[idx] := records[idx].(neighbors := chosen);
  }

  /** First pass: wires the records in input order. */
  method WirePass(env: BuildEnv, records: array<NodeRecord>)
    requires Ready(env) && Wired(records[..], Min(1, records.Length), env.slack)
    modifies records
    ensures records[..] == WireAll(env, old(records[..]), 1)
  {
    hide Wired, WireNode;
    ghost var goal := WireAll(env, records[..], 1);
    var idx := 1;
    while idx < records.Length
      invariant 1 <= idx && Wired(records[..], Min(idx, records.Length), env.slack)
      invariant WireAll(env, records[..], idx) == goal
    {
      WireNodeWired(env, records[..], idx);
      WireOne(env, records, idx);
      idx := idx + 1;
    }
  }

  /** Trims one list, adds its chain edge and validates the record. */
  method FinishOne(env: BuildEnv, records: array<NodeRecord>, idx: nat) returns (valid: bool)
    requires Ready(env) && idx < records.Length && Wired(records[..], records.Length, env.slack)
    modifies records
    ensures records[..] == SetList(old(records[..]), idx, FinalList(env, old(records[..]), idx))
    ensures valid <==> PayloadValid(old(records[idx]), env.config)
  {
    hide PrunedList;
    ghost var before := records[..];
    FinishOneFacts(env, before, idx);
    assert ListOk(before, idx, records.Length, env.slack);
    if |records[idx].neighbors| > env.config.maxNeighbors {
      var kept := PruneAgainst(env, records[..], records[idx], records[idx].neighbors);
      records[idx] := records[idx].(neighbors := kept);
    }
    if records.Length > 1 {
      var list := WithNeighbor(records[idx].neighbors, ChainNeighbor(records.Length, idx), env.config.maxNeighbors);
      records[idx] := records[idx].(neighbors := list);
    }
    assert records[idx] == before[idx].(neighbors := FinalList(env, before, idx));
    valid := ValidateRecord(records[idx], env.config);
  }

  /** Second pass: trims, chains and validates. */
  method FinishPass(env: BuildEnv, records: array<NodeRecord>) returns (ok: bool)
    requires Ready(env) && Wired(records[..], records.Length, env.slack)
    modifies records
    ensures ok <==> forall i: nat :: i < records.Length ==> PayloadValid(old(records[..])[i], env.config)
    ensures ok ==> records[..] == FinishAll(env, old(records[..]), 0)
  {
    ghost var wired := records[..];
    var idx := 0;
    while idx < records.Length
      invariant 0 <= idx <= records.Length && Wired(records[..], records.Length, env.slack)
      invariant SamePayload(wired, records[..])
      invariant FinishAll(env, records[..], idx) == FinishAll(env, wired, 0)
      invariant forall i: nat :: i < idx ==> PayloadValid(wired[i], env.config)
    {
      ghost var before := records[..];
      FinishOneFacts(env, before, idx);
      assert PayloadValid(before[idx], env.config) <==> PayloadValid(wired[idx], env.config);
      var valid := FinishOne(env, records, idx);
      if !valid {
        return false;
      }
      SamePayloadTrans(wired, before, records[..]);
      idx := idx + 1;
    }
    return true;
  }

  /** Wires the whole slice in place and validates every record. */
  method AssignBulkNeighbors(env: BuildEnv, records: array<NodeRecord>) returns (ok: bool)
    requires Ready(env) && Unlinked(records[..])
    modifies records
    ensures ok <==> forall i: nat :: i < records.Length ==> PayloadValid(old(records[..])[i], env.config)
    ensures ok ==> records[..] == BuildGraph(env, old(records[..]))
  {
    ghost var start := records[..];
    UnlinkedWired(env, start);
    WirePass(env, records);
    WireAllWired(env, start, 1);
    ghost var wired := records[..];
    assert forall i: nat :: i < |start| ==> (PayloadValid(start[i], env.config) <==> PayloadValid(wired[i], env.config));
    ok := FinishPass(env, records);
  }
}
