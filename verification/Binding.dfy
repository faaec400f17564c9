/** The binding's map from external ids to node ids, kept beside the index and rebuilt on open. */
module Binding {
  import opened Common
  import opened Labels
  import opened Records
  import opened Reading
  import opened StorageModel
  import opened StorageRuns
  import opened StartRepair
  import opened InsertPlanning
  import opened OnlineModel
  import opened OnlineSteps
  import opened OnlineRuns
  import opened OnlineBase
  import ExactSearch

  type NodeIds = map<nat, NodeId>

  datatype Handle = Handle(index: Index, nodeIds: NodeIds)

  datatype Call =
    | InsertCall(externalId: nat, vector: Vector, labels: LabelSet)
    | DeleteCall(externalId: nat)
    | ReopenCall

  /** Duplicate inserts and unknown deletes are refused before anything happens. */
  function Refusal(h: Handle, c: Call): Option<Error> {
    match c
    case InsertCall(externalId, _, _) => if externalId in h.nodeIds then Some(DuplicateExternalId) else None
    case DeleteCall(externalId) => if externalId in h.nodeIds then None else Some(UnknownExternalId)
    case ReopenCall => None
  }

  /** An insert that the core rejects or refuses takes an id and leaves the map alone; opening rebuilds the map by a scan. */
  ghost function Completed(env: OnlineEnv, h: Handle, c: Call): Handle {
    if Refusal(h, c).Some? then h
    else
      match c
      case InsertCall(externalId, vector, labels) =>
        var op := InsertOp(env, h.index.store.manifest, externalId, vector, labels);
        Handle(Perform(env, h.index, op), if op.OpInsert? then h.nodeIds[externalId := h.index.next] else h.nodeIds)
      case DeleteCall(externalId) =>
        Handle(Perform(env, h.index, OpDelete(h.nodeIds[externalId])), h.nodeIds - {externalId})
      case ReopenCall =>
        var mark := h.index.store.manifest.maxAssigned;
        Handle(Perform(env, h.index, OpReopen), Found(CurrentView(h.index.store), if mark.Some? then mark.value else 0))
  }

  ghost function Calls(env: OnlineEnv, h: Handle, calls: seq<Call>): Handle {
    if calls == [] then h else Completed(env, Calls(env, h, calls[..|calls| - 1]), calls[|calls| - 1])
  }

  /** The map is exactly "external id to node id" over the rows of the table; external ids are unique. */
  ghost predicate Mirrors(table: map<NodeId, Entry>, nodeIds: NodeIds) {
    && (forall e :: e in nodeIds ==> nodeIds[e] in table && table[nodeIds[e]].Row? && table[nodeIds[e]].externalId == e)
    && (forall id :: id in table && table[id].Row? ==> table[id].externalId in nodeIds && nodeIds[table[id].externalId] == id)
  }

  /** Rows have ids from one up to the recorded mark. */
  ghost predicate Marked(ix: Index) {
    && ix.store.manifest.maxAssigned.Some?
    && forall id :: id in Live(CurrentView(ix.store)) ==> 1 <= id <= ix.store.manifest.maxAssigned.value
  }

  ghost predicate Good(env: OnlineEnv, h: Handle) {
    Healthy(env, h.index) && Mirrors(Table(h.index), h.nodeIds) && Marked(h.index)
  }

  lemma MirrorsInsert(table: map<NodeId, Entry>, nodeIds: NodeIds, id: NodeId, row: Entry)
    requires Mirrors(table, nodeIds) && row.Row? && row.externalId !in nodeIds
    requires id in table ==> table[id].Dead?
    ensures Mirrors(table[id := row], nodeIds[row.externalId := id])
  {}

  lemma MirrorsDelete(table: map<NodeId, Entry>, nodeIds: NodeIds, e: nat)
    requires Mirrors(table, nodeIds) && e in nodeIds
    ensures Mirrors(table[nodeIds[e] := Dead], nodeIds - {e})
  {}

  lemma RowsAreLive(view: View, id: NodeId)
    ensures id in TableOf(view) && TableOf(view)[id].Row? <==> id in Live(view)
    ensures id in Live(view) ==> TableOf(view)[id] == EntryOf(view.nodes[id])
  {}

  lemma StaysMarked(env: OnlineEnv, ix: Index, r: Index)
    requires Healthy(env, r) && r.store.manifest.maxAssigned == Some(r.next - 1)
    requires 0 !in Live(CurrentView(r.store))
    ensures Marked(r)
  {
    hide Steady, CurrentView, BaseNodes, RecentDeltas, StartsLive, ListsValid, Keyed, Live;
  }

  /** Every completed call keeps the map in step with the index. */
  lemma CallKeepsMap(env: OnlineEnv, h: Handle, c: Call)
    requires Good(env, h)
    ensures Good(env, Completed(env, h, c))
  {
    hide Healthy, TableOf, CurrentView, Perform, Extends, Live, Mirrors, Found;
    if Refusal(h, c).None? {
      NextIsFree(env, h.index);
      NextPositive(env, h.index);
      match c {
        case InsertCall(externalId, vector, labels) =>
          InsertKeepsMap(env, h, externalId, vector, labels);
        case DeleteCall(externalId) =>
          var op := OpDelete(h.nodeIds[externalId]);
          StepFacts(env, h.index, op);
          MirrorsDelete(Table(h.index), h.nodeIds, externalId);
          ZeroNotLive(env, h.index, op);
          StaysMarked(env, h.index, Perform(env, h.index, op));
        case ReopenCall =>
          StepFacts(env, h.index, OpReopen);
          RebuiltMapIsTheSame(env, h);
      }
    }
  }

  lemma InsertKeepsMap(env: OnlineEnv, h: Handle, externalId: nat, vector: Vector, labels: LabelSet)
    requires Good(env, h) && externalId !in h.nodeIds
    ensures Good(env, Completed(env, h, InsertCall(externalId, vector, labels)))
  {
    hide Healthy, TableOf, CurrentView, Perform, Extends, Live, Mirrors, Found;
    var op := InsertOp(env, h.index.store.manifest, externalId, vector, labels);
    StepFacts(env, h.index, op);
    if op.OpInsert? {
      NextIsFree(env, h.index);
      NextPositive(env, h.index);
      RowsAreLive(CurrentView(h.index.store), h.index.next);
      MirrorsInsert(Table(h.index), h.nodeIds, h.index.next, OnlineSteps.Row(externalId, labels, Some(env.normalize(vector))));
      ZeroNotLive(env, h.index, op);
      StaysMarked(env, h.index, Perform(env, h.index, op));
    }
  }

  lemma NextPositive(env: OnlineEnv, ix: Index)
    requires Healthy(env, ix)
    ensures ix.next >= 1
  {
    hide Steady, CurrentView, GoodView, BaseNodes, RecentDeltas, Keyed;
  }

  /** No operation makes node id zero live. */
  lemma ZeroNotLive(env: OnlineEnv, ix: Index, op: Op)
    requires Healthy(env, ix) && ix.next >= 1 && 0 !in Live(CurrentView(ix.store)) && (op.OpInsert? || op.OpDelete?)
    ensures 0 !in Live(CurrentView(Perform(env, ix, op).store))
  {
    hide Healthy, TableOf, CurrentView, Perform, Extends, Live;
    StepFacts(env, ix, op);
    RowsAreLive(CurrentView(ix.store), 0);
    RowsAreLive(CurrentView(Perform(env, ix, op).store), 0);
  }

  lemma {:induction false} CallsKeepMap(env: OnlineEnv, h: Handle, calls: seq<Call>)
    requires Good(env, h)
    ensures Good(env, Calls(env, h, calls))
  {
    hide Good, Completed;
    if calls != [] {
      CallsKeepMap(env, h, calls[..|calls| - 1]);
      CallKeepsMap(env, Calls(env, h, calls[..|calls| - 1]), calls[|calls| - 1]);
    }
  }

  // ----- after a bulk build -----

  ghost predicate UniqueRows(rows: seq<ExactSearch.Row>) {
    forall i, j :: 0 <= i < j < |rows| ==> rows[i].externalId != rows[j].externalId
  }

  /** The uniqueness scan over the input of a bulk build. */
  method CheckUnique(rows: seq<ExactSearch.Row>) returns (ok: bool)
    ensures ok <==> UniqueRows(rows)
  {
    var seen: set<nat> := {};
    for i := 0 to |rows|
      invariant forall e :: e in seen <==> exists k :: 0 <= k < i && rows[k].externalId == e
      invariant forall j, k :: 0 <= j < k < i ==> rows[j].externalId != rows[k].externalId
    {
      if rows[i].externalId in seen {
        return false;
      }
      seen := seen + {rows[i].externalId};
    }
    return true;
  }

  /** The map is cleared and filled in input order. */
  function BulkMap(rows: seq<ExactSearch.Row>, n: nat): NodeIds
    requires n <= |rows|
  {
    if n == 0 then map[] else BulkMap(rows, n - 1)[rows[n - 1].externalId := n]
  }

  function ExternalAt(rows: seq<ExactSearch.Row>, id: NodeId): nat
    requires 1 <= id <= |rows|
  {
    rows[id - 1].externalId
  }

  ghost predicate DistinctAt(rows: seq<ExactSearch.Row>) {
    forall a, b :: 1 <= a <= |rows| && 1 <= b <= |rows| && ExternalAt(rows, a) == ExternalAt(rows, b) ==> a == b
  }

  lemma UniqueAt(rows: seq<ExactSearch.Row>)
    requires UniqueRows(rows)
    ensures DistinctAt(rows)
  {
    forall a, b | 1 <= a <= |rows| && 1 <= b <= |rows| && ExternalAt(rows, a) == ExternalAt(rows, b) ensures a == b {
      var i, j := a - 1, b - 1;
      assert rows[i].externalId == rows[j].externalId;
    }
  }

  ghost predicate MapsFirst(rows: seq<ExactSearch.Row>, n: nat, m: NodeIds)
    requires n <= |rows|
  {
    && (forall e :: e in m ==> 1 <= m[e] <= n && ExternalAt(rows, m[e]) == e)
    && (forall id :: 1 <= id <= n ==> ExternalAt(rows, id) in m && m[ExternalAt(rows, id)] == id)
  }

  lemma {:induction false} BulkMapFacts(rows: seq<ExactSearch.Row>, n: nat)
    requires n <= |rows| && DistinctAt(rows)
    ensures MapsFirst(rows, n, BulkMap(rows, n))
  {
    if n > 0 {
      BulkMapFacts(rows, n - 1);
      assert BulkMap(rows, n) == BulkMap(rows, n - 1)[ExternalAt(rows, n) := n];
      hide BulkMap, ExternalAt;
      forall id | 1 <= id <= n ensures ExternalAt(rows, id) in BulkMap(rows, n) && BulkMap(rows, n)[ExternalAt(rows, id)] == id {
        assert id < n ==> ExternalAt(rows, id) != ExternalAt(rows, n);
      }
    }
  }

  lemma BulkMirrors(rows: seq<ExactSearch.Row>, table: map<NodeId, Entry>, m: NodeIds)
    requires MapsFirst(rows, |rows|, m) && table.Keys == OneTo(|rows|)
    requires forall id :: id in OneTo(|rows|) ==> table[id].Row? && table[id].externalId == ExternalAt(rows, id)
    ensures Mirrors(table, m)
  {
    hide ExternalAt, OneTo;
  }

  ghost function Bulk(env: OnlineEnv, s: Store, rows: seq<ExactSearch.Row>, quantizers: seq<QuantizerReference>): Handle {
    Handle(BulkIndex(env, s, rows, quantizers), BulkMap(rows, |rows|))
  }

  /** A bulk build of rows with unique external ids leaves the map in step with the index. */
  lemma BulkKeepsMap(env: OnlineEnv, s: Store, rows: seq<ExactSearch.Row>, quantizers: seq<QuantizerReference>)
    requires Untouched(s) && env.config.Valid() && QuantizersStored(s, quantizers) && UniqueRows(rows)
    ensures Good(env, Bulk(env, s, rows, quantizers))
  {
    hide Healthy, TableOf, CurrentView, BulkStore, BulkMap, UniqueRows, Mirrors, Live, OneTo, MapsFirst, BulkIndex, DistinctAt;
    BulkHealthy(env, s, rows, quantizers);
    UniqueAt(rows);
    BulkMapFacts(rows, |rows|);
    BulkTable(env, s, rows, quantizers);
    BulkMirrors(rows, Table(BulkIndex(env, s, rows, quantizers)), BulkMap(rows, |rows|));
    BulkMarked(env, s, rows, quantizers);
  }

  lemma BulkMarked(env: OnlineEnv, s: Store, rows: seq<ExactSearch.Row>, quantizers: seq<QuantizerReference>)
    requires Untouched(s) && env.config.Valid() && QuantizersStored(s, quantizers)
    ensures Marked(BulkIndex(env, s, rows, quantizers))
  {
    hide TableOf, CurrentView, BulkIndex, Live, OneTo;
    var ix := BulkIndex(env, s, rows, quantizers);
    BulkMark(env, s, rows, quantizers);
    BulkTable(env, s, rows, quantizers);
    forall id | id in Live(CurrentView(ix.store)) ensures 1 <= id <= |rows| {
      RowsAreLive(CurrentView(ix.store), id);
    }
  }

  // ----- rebuilding on open -----

  /** What the scan of the ids 1..n finds. */
  function Found(view: View, n: nat): NodeIds {
    if n == 0 then map[]
    else if n in Live(view) then Found(view, n - 1)[view.nodes[n].externalId := n]
    else Found(view, n - 1)
  }

  function Counting(from: nat, to: nat): (ids: seq<NodeId>)
    requires from <= to + 1
    ensures |ids| == to + 1 - from && forall i :: 0 <= i < |ids| ==> ids[i] == from + i
  {
    seq(to + 1 - from, i requires 0 <= i < to + 1 - from => from + i)
  }

  /** Scans the ids 1..max in chunks; every id is asked for exactly once, in order. */
  method RebuildNodeIds(z: Sizes, view: View, maxAssigned: Option<NodeId>, budget: QueryBudget)
    returns (r: Result<NodeIds>, ghost asked: seq<NodeId>)
    requires Keyed(view.nodes) && budget.Valid()
    ensures maxAssigned.None? ==> r == Err(StorageFault)
    ensures maxAssigned.Some? && r.Ok? ==> r.value == Found(view, maxAssigned.value) && asked == Counting(1, maxAssigned.value)
    ensures maxAssigned.Some? && r.Err? ==> r.error == BudgetExceeded
  {
    hide ReadNodes;
    asked := [];
    if maxAssigned.None? {
      return Err(StorageFault), asked;
    }
    var nodeIds: NodeIds := map[];
    var next := 1;
    while next <= maxAssigned.value
      invariant 1 <= next <= maxAssigned.value + 1
      invariant nodeIds == Found(view, next - 1) && asked == Counting(1, next - 1)
    {
      var end := Min(next + budget.maxReadBatch - 1, maxAssigned.value);
      var chunk := Counting(next, end);
      ReadOutcome(z, view, chunk, budget);
      var rows := ReadNodes(z, view, chunk, budget);
      if rows.Err? {
        return Err(rows.error), asked;
      }
      nodeIds := KeepRows(view, next, chunk, rows.value, nodeIds);
      asked := asked + chunk;
      assert asked == Counting(1, end);
      next := end + 1;
    }
    r := Ok(nodeIds);
  }

  method KeepRows(view: View, from: nat, chunk: seq<NodeId>, rows: seq<NodeRead>, found: NodeIds) returns (nodeIds: NodeIds)
    requires Keyed(view.nodes) && 1 <= from && rows == ReadAll(view, chunk)
    requires forall i :: 0 <= i < |chunk| ==> chunk[i] == from + i
    requires found == Found(view, from - 1)
    ensures nodeIds == Found(view, from - 1 + |chunk|)
  {
    nodeIds := found;
    for i := 0 to |rows|
      invariant nodeIds == Found(view, from - 1 + i)
    {
      if rows[i].Present? {
        nodeIds := nodeIds[rows[i].record.externalId := rows[i].record.id];
      }
    }
  }

  lemma {:induction false} FoundFacts(view: View, n: nat)
    requires forall a, b :: a in Live(view) && b in Live(view) && view.nodes[a].externalId == view.nodes[b].externalId ==> a == b
    ensures forall e :: e in Found(view, n) ==>
      1 <= Found(view, n)[e] <= n && Found(view, n)[e] in Live(view) && view.nodes[Found(view, n)[e]].externalId == e
    ensures forall id :: id in Live(view) && 1 <= id <= n ==>
      view.nodes[id].externalId in Found(view, n) && Found(view, n)[view.nodes[id].externalId] == id
  {
    if n > 0 {
      FoundFacts(view, n - 1);
    }
  }

  /** The scan rebuilds exactly the map that was kept beside the index. */
  lemma RebuiltMapIsTheSame(env: OnlineEnv, h: Handle)
    requires Good(env, h)
    ensures Found(CurrentView(h.index.store), h.index.store.manifest.maxAssigned.value) == h.nodeIds
  {
    hide Healthy, TableOf, CurrentView, Found;
    var view, max := CurrentView(h.index.store), h.index.store.manifest.maxAssigned.value;
    MirrorsLive(view, h.nodeIds);
    FoundFacts(view, max);
    forall e ensures e in Found(view, max) <==> e in h.nodeIds {
      if e in h.nodeIds {
        assert h.nodeIds[e] in Live(view) && view.nodes[h.nodeIds[e]].externalId == e;
      }
    }
    forall e | e in h.nodeIds ensures Found(view, max)[e] == h.nodeIds[e] {
      assert h.nodeIds[e] in Live(view) && view.nodes[h.nodeIds[e]].externalId == e;
    }
  }

  lemma MirrorsLive(view: View, nodeIds: NodeIds)
    requires Mirrors(TableOf(view), nodeIds)
    ensures forall e :: e in nodeIds ==> nodeIds[e] in Live(view) && view.nodes[nodeIds[e]].externalId == e
    ensures forall id :: id in Live(view) ==> view.nodes[id].externalId in nodeIds && nodeIds[view.nodes[id].externalId] == id
    ensures forall a, b :: a in Live(view) && b in Live(view) && view.nodes[a].externalId == view.nodes[b].externalId ==> a == b
  {
    forall e | e in nodeIds ensures nodeIds[e] in Live(view) && view.nodes[nodeIds[e]].externalId == e {
      RowsAreLive(view, nodeIds[e]);
    }
    forall id | id in Live(view) ensures view.nodes[id].externalId in nodeIds && nodeIds[view.nodes[id].externalId] == id {
      RowsAreLive(view, id);
    }
  }

  /** After any completed calls the map is what a fresh open would rebuild. */
  lemma ReopenAfterCalls(env: OnlineEnv, h: Handle, calls: seq<Call>)
    requires Good(env, h)
    ensures var r := Calls(env, h, calls);
      && r.index.store.manifest.maxAssigned.Some?
      && Found(CurrentView(r.index.store), r.index.store.manifest.maxAssigned.value) == r.nodeIds
  {
    hide Calls, Healthy, Mirrors, Found;
    CallsKeepMap(env, h, calls);
    RebuiltMapIsTheSame(env, Calls(env, h, calls));
  }
}
