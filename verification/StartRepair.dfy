/** Electing start nodes, repairing them around a delete, and extending them for an insert. */
module StartRepair {
  import opened Common
  import opened Labels
  import opened Records
  import opened Reading
  import opened Maintenance

  type Labelled = (NodeId, LabelSet)

  /** Labels without an entry get one; existing entries stay. */
  function AddLabels(labeled: map<Label, NodeId>, labels: LabelSet, id: NodeId): map<Label, NodeId> {
    (map l | l in labels :: id) + labeled
  }

  /** The first record is the default start; each label starts at the first record that carries it. */
  function Elect(records: seq<Labelled>): StartNodes {
    if records == [] then StartNodes(EMPTY_START_NODE, map[])
    else
      var before, last := Elect(records[..|records| - 1]), records[|records| - 1];
      StartNodes(if |records| == 1 then last.0 else before.defaultNode, AddLabels(before.labeled, last.1, last.0))
  }

  ghost predicate FirstCarrier(records: seq<Labelled>, l: Label, k: nat) {
    k < |records| && l in records[k].1 && forall i :: 0 <= i < k ==> l !in records[i].1
  }

  /** The entry of a label is the first record that carries it; a label nobody carries has none. */
  ghost predicate EntryRight(records: seq<Labelled>, labeled: map<Label, NodeId>, l: Label) {
    if l in labeled then exists k: nat :: FirstCarrier(records, l, k) && labeled[l] == records[k].0
    else forall i :: 0 <= i < |records| ==> l !in records[i].1
  }

  lemma {:induction false} ElectEntry(records: seq<Labelled>, l: Label)
    ensures EntryRight(records, Elect(records).labeled, l)
  {
    if records != [] {
      var n := |records| - 1;
      var front := records[..n];
      ElectEntry(front, l);
      assert forall i :: 0 <= i < n ==> front[i] == records[i];
      if l in Elect(front).labeled {
        var k: nat :| FirstCarrier(front, l, k) && Elect(front).labeled[l] == front[k].0;
        assert FirstCarrier(records, l, k);
      } else if l in records[n].1 {
        assert FirstCarrier(records, l, n);
      }
    }
  }

  lemma {:induction false} ElectDefault(records: seq<Labelled>)
    ensures Elect(records).defaultNode == (if records == [] then EMPTY_START_NODE else records[0].0)
  {
    if records != [] {
      ElectDefault(records[..|records| - 1]);
    }
  }

  /** The label loop: a label without an entry gets one. */
  method AddMissing(base: StartNodes, id: NodeId, labels: LabelSet) returns (next: StartNodes, added: bool)
    ensures next == base.(labeled := AddLabels(base.labeled, labels, id))
    ensures added <==> !(Elements(labels) <= base.labeled.Keys)
  {
    hide AddLabels, Filled;
    next, added := base, false;
    TakeEnds(labels);
    FilledStart(base.labeled, id);
    for i := 0 to |labels|
      invariant next.defaultNode == base.defaultNode && Filled(base.labeled, Elements(labels[..i]), id, next.labeled)
      invariant added <==> !(Elements(labels[..i]) <= base.labeled.Keys)
    {
      TakeSnoc(labels, i);
      FilledStep(base.labeled, Elements(labels[..i]), id, next.labeled, labels[i]);
      if labels[i] !in next.labeled {
        next := next.Upsert(labels[i], id);
        added := true;
      }
    }
    FilledEnd(base.labeled, labels, id, next.labeled);
  }

  /** The labels in `seen` that had no entry now lead to `id`. */
  ghost predicate Filled(base: map<Label, NodeId>, seen: set<Label>, id: NodeId, next: map<Label, NodeId>) {
    next.Keys == base.Keys + seen && forall l :: l in next ==> next[l] == if l in base then base[l] else id
  }

  lemma FilledStart(base: map<Label, NodeId>, id: NodeId)
    ensures Filled(base, {}, id, base)
  {}

  lemma FilledStep(base: map<Label, NodeId>, seen: set<Label>, id: NodeId, next: map<Label, NodeId>, l: Label)
    requires Filled(base, seen, id, next)
    ensures Filled(base, seen + {l}, id, if l in next then next else next[l := id])
    ensures seen + {l} <= base.Keys <==> seen <= base.Keys && l in next
  {}

  lemma FilledEnd(base: map<Label, NodeId>, labels: LabelSet, id: NodeId, next: map<Label, NodeId>)
    requires Filled(base, Elements(labels), id, next)
    ensures next == AddLabels(base, labels, id)
  {}

  method ElectStarts(records: seq<Labelled>) returns (starts: StartNodes)
    ensures starts == Elect(records)
  {
    hide AddLabels;
    starts := StartNodes(if records == [] then EMPTY_START_NODE else records[0].0, map[]);
    for i := 0 to |records|
      invariant starts.labeled == Elect(records[..i]).labeled
      invariant starts.defaultNode == if records == [] then EMPTY_START_NODE else records[0].0
    {
      assert records[..i + 1][..i] == records[..i];
      var next, _ := AddMissing(starts, records[i].0, records[i].1);
      starts := next;
    }
    assert records[..|records|] == records;
    ElectDefault(records);
  }

  /** Every start is live and every labelled start carries its label; the default may be the empty sentinel. */
  ghost predicate StartsLive(view: View, starts: StartNodes) {
    && (starts.defaultNode == EMPTY_START_NODE || starts.defaultNode in Live(view))
    && forall l :: l in starts.labeled ==> starts.labeled[l] in Live(view) && l in view.nodes[starts.labeled[l]].labels
  }

  // ----- repair around a delete -----

  function Others(records: seq<RoutingRecord>, node: NodeId): seq<Labelled> {
    if records == [] then []
    else
      var rest, last := Others(records[..|records| - 1], node), records[|records| - 1];
      if last.id == node then rest else rest + [(last.id, last.labels)]
  }

  /** Labelled entries the truncated walk did not replace and that are still readable. */
  function Holdovers(view: View, starts: StartNodes, elected: StartNodes, node: NodeId): map<Label, NodeId> {
    map l | l in starts.labeled && starts.labeled[l] != node && l !in elected.labeled && starts.labeled[l] in Live(view)
      :: starts.labeled[l]
  }

  /** The start nodes to publish with the delete of `node`. */
  function Repaired(view: View, starts: StartNodes, node: NodeId, budget: QueryBudget): StartNodes {
    var tour := Reach(view, starts, budget);
    var elected := Elect(Others(tour.records, node));
    if tour.truncated then elected.(labeled := elected.labeled + Holdovers(view, starts, elected, node)) else elected
  }

  function RepairAround(view: View, starts: StartNodes, node: NodeId, budget: QueryBudget): Option<StartNodes> {
    if node in starts.AllNodes() then Some(Repaired(view, starts, node, budget)) else None
  }

  method RepairStartNodes(z: Sizes, view: View, starts: StartNodes, node: NodeId, budget: QueryBudget)
    returns (r: Result<Option<StartNodes>>)
    requires budget.Valid() && Keyed(view.nodes)
    ensures r.Ok? ==> r.value == RepairAround(view, starts, node, budget)
    ensures r.Err? ==> r.error == BudgetExceeded && !AnyBatchFits(z, view, budget)
    ensures node !in starts.AllNodes() ==> r == Ok(None)
  {
    hide Reach, Elect, AnyBatchFits;
    if node !in starts.AllNodes() {
      return Ok(None);
    }
    var tour := CollectReachable(z, view, starts, budget);
    if tour.Err? {
      return Err(tour.error);
    }
    var others := KeepOthers(tour.value.records, node);
    var elected := ElectStarts(others);
    if tour.value.truncated {
      var held := HoldOver(z, view, starts, elected, node, budget);
      if held.Err? {
        return Err(held.error);
      }
      return Ok(Some(held.value));
    }
    return Ok(Some(elected));
  }

  method KeepOthers(records: seq<RoutingRecord>, node: NodeId) returns (others: seq<Labelled>)
    ensures others == Others(records, node)
  {
    others := [];
    for i := 0 to |records|
      invariant others == Others(records[..i], node)
    {
      assert records[..i + 1][..i] == records[..i];
      if records[i].id != node {
        others := others + [(records[i].id, records[i].labels)];
      }
    }
    assert records[..|records|] == records;
  }

  /** Candidates for holding over: the labels without a replacement whose start is not the deleted node. */
  predicate MayHold(starts: StartNodes, elected: StartNodes, node: NodeId, l: Label) {
    l in starts.labeled && starts.labeled[l] != node && l !in elected.labeled
  }

  method HoldOver(z: Sizes, view: View, starts: StartNodes, elected: StartNodes, node: NodeId, budget: QueryBudget)
    returns (r: Result<StartNodes>)
    requires budget.Valid() && Keyed(view.nodes)
    ensures r.Ok? ==> r.value == elected.(labeled := elected.labeled + Holdovers(view, starts, elected, node))
    ensures r.Err? ==> r.error == BudgetExceeded && !AnyBatchFits(z, view, budget)
  {
    hide AnyBatchFits;
    var labels := Ascending(starts.labeled.Keys);
    var candidates := CandidateStarts(starts, elected, node, labels);
    var live := LiveAmong(z, view, SortedIds(candidates), budget);
    if live.Err? {
      return Err(live.error);
    }
    var held := HoldLabels(starts, elected, node, labels, live.value);
    r := Ok(elected.(labeled := elected.labeled + held));
    assert held == Holdovers(view, starts, elected, node) by {
      forall l | l in labels && MayHold(starts, elected, node, l)
        ensures starts.labeled[l] in live.value <==> starts.labeled[l] in Live(view)
      {
        assert starts.labeled[l] in candidates;
      }
    }
  }

  function SortedIds(ids: seq<NodeId>): (r: seq<NodeId>)
    ensures StrictlySorted(r) && SameMembers(r, ids)
  {
    var r := SortDedup(ids);
    assert forall i :: 0 <= i < |r| ==> r[i] in r && r[i] in ids;
    r
  }

  method CandidateStarts(starts: StartNodes, elected: StartNodes, node: NodeId, labels: seq<Label>) returns (ids: seq<NodeId>)
    ensures forall l :: l in labels && MayHold(starts, elected, node, l) ==> starts.labeled[l] in ids
  {
    ids := [];
    for i := 0 to |labels|
      invariant forall l :: l in labels[..i] && MayHold(starts, elected, node, l) ==> starts.labeled[l] in ids
    {
      assert labels[..i + 1] == labels[..i] + [labels[i]];
      if MayHold(starts, elected, node, labels[i]) {
        ids := ids + [starts.labeled[labels[i]]];
      }
    }
    assert labels[..|labels|] == labels;
  }

  method HoldLabels(starts: StartNodes, elected: StartNodes, node: NodeId, labels: seq<Label>, live: set<NodeId>)
    returns (held: map<Label, NodeId>)
    ensures held == map l | l in labels && MayHold(starts, elected, node, l) && starts.labeled[l] in live :: starts.labeled[l]
  {
    held := map[];
    for i := 0 to |labels|
      invariant held == map l | l in labels[..i] && MayHold(starts, elected, node, l) && starts.labeled[l] in live :: starts.labeled[l]
    {
      assert labels[..i + 1] == labels[..i] + [labels[i]];
      if MayHold(starts, elected, node, labels[i]) && starts.labeled[labels[i]] in live {
        held := held[labels[i] := starts.labeled[labels[i]]];
      }
    }
    assert labels[..|labels|] == labels;
  }

  /** The readable ids among the given ones, by batched reads. */
  method LiveAmong(z: Sizes, view: View, ids: seq<NodeId>, budget: QueryBudget) returns (r: Result<set<NodeId>>)
    requires budget.Valid() && Keyed(view.nodes)
    ensures r.Ok? ==> forall id :: id in r.value <==> id in ids && id in Live(view)
    ensures r.Err? ==> r.error == BudgetExceeded && !AnyBatchFits(z, view, budget)
  {
    hide PresentRecords, BatchesFit, AnyBatchFits;
    var present := ReadPresent(z, view, ids, budget);
    if present.Err? {
      SomeBatchFails(z, view, ids, budget);
      return Err(present.error);
    }
    PresentFacts(view, ids);
    r := Ok(set record | record in present.value :: record.id);
  }

  lemma {:induction false} OthersFacts(records: seq<RoutingRecord>, node: NodeId)
    ensures forall p :: p in Others(records, node) ==>
      p.0 != node && exists i :: 0 <= i < |records| && records[i].id == p.0 && records[i].labels == p.1
    ensures Others(records, node) == [] <==> forall i :: 0 <= i < |records| ==> records[i].id == node
  {
    if records != [] {
      OthersFacts(records[..|records| - 1], node);
    }
  }

  /** A record the walk returned shows a live node. */
  lemma ReachedLive(view: View, starts: StartNodes, budget: QueryBudget, i: nat)
    requires Keyed(view.nodes) && i < |Reach(view, starts, budget).records|
    ensures var record := Reach(view, starts, budget).records[i];
      record.id in Live(view) && record.labels == view.nodes[record.id].labels
  {
    hide Reach;
    var tour := Reach(view, starts, budget);
    ReachFacts(view, starts, budget);
    PresentFacts(view, tour.done);
    assert tour.records[i] in tour.records;
  }

  /**
   * Repair keeps the start nodes good: after the delete each one is live, carries its label, and none is the
   * deleted node; a walk that was cut short keeps the old entries that are still good.
   */
  lemma RepairKeepsStarts(view: View, starts: StartNodes, node: NodeId, budget: QueryBudget, after: View)
    requires Keyed(view.nodes) && StartsLive(view, starts) && Deleted(view, node, after)
    ensures var r := RepairAround(view, starts, node, budget);
      StartsLive(after, if r.Some? then r.value else starts)
  {
    hide Reach, Elect, StartsLive;
    if node in starts.AllNodes() {
      ElectedLive(view, starts, node, budget, after);
      HeldLive(view, starts, Elect(Others(Reach(view, starts, budget).records, node)), node, after);
    } else {
      UntouchedLive(view, starts, node, after);
    }
  }

  ghost predicate Deleted(view: View, node: NodeId, after: View) {
    && Live(after) == Live(view) - {node}
    && forall id :: id in Live(after) ==> after.nodes[id].labels == view.nodes[id].labels
  }

  lemma ElectedLive(view: View, starts: StartNodes, node: NodeId, budget: QueryBudget, after: View)
    requires Keyed(view.nodes) && Deleted(view, node, after)
    ensures StartsLive(after, Elect(Others(Reach(view, starts, budget).records, node)))
  {
    hide Reach, Elect, Others;
    var tour := Reach(view, starts, budget);
    var others := Others(tour.records, node);
    var elected := Elect(others);
    OthersFacts(tour.records, node);
    forall p | p in others ensures p.0 in Live(after) && after.nodes[p.0].labels == p.1 {
      var i :| 0 <= i < |tour.records| && tour.records[i].id == p.0 && tour.records[i].labels == p.1;
      ReachedLive(view, starts, budget, i);
    }
    forall l | l in elected.labeled ensures elected.labeled[l] in Live(after) && l in after.nodes[elected.labeled[l]].labels {
      ElectEntry(others, l);
      var k: nat :| FirstCarrier(others, l, k) && elected.labeled[l] == others[k].0;
      assert others[k] in others;
    }
    ElectDefault(others);
    assert others != [] ==> others[0] in others;
  }

  lemma HeldLive(view: View, starts: StartNodes, elected: StartNodes, node: NodeId, after: View)
    requires StartsLive(view, starts) && StartsLive(after, elected) && Deleted(view, node, after)
    ensures StartsLive(after, elected.(labeled := elected.labeled + Holdovers(view, starts, elected, node)))
  {}

  lemma UntouchedLive(view: View, starts: StartNodes, node: NodeId, after: View)
    requires StartsLive(view, starts) && Deleted(view, node, after) && node !in starts.AllNodes()
    ensures StartsLive(after, starts)
  {
    assert forall l :: l in starts.labeled ==> starts.labeled[l] in starts.AllNodes();
  }

  // ----- inserts -----

  predicate NeedsDefault(view: View, starts: StartNodes) {
    starts.defaultNode == EMPTY_START_NODE || starts.defaultNode !in Live(view)
  }

  /** With no readable default the new node becomes it and labelled entries start over; missing labels are added. */
  function Extended(view: View, starts: StartNodes, id: NodeId, labels: LabelSet): StartNodes {
    var base := if NeedsDefault(view, starts) then StartNodes(id, map[]) else starts;
    base.(labeled := AddLabels(base.labeled, labels, id))
  }

  function StartsAfterInsert(view: View, starts: StartNodes, id: NodeId, labels: LabelSet): Option<StartNodes> {
    if NeedsDefault(view, starts) || exists l :: l in labels && l !in starts.labeled
    then Some(Extended(view, starts, id, labels)) else None
  }

  method ExtendStartNodes(z: Sizes, view: View, starts: StartNodes, id: NodeId, labels: LabelSet)
    returns (r: Result<Option<StartNodes>>)
    requires Keyed(view.nodes)
    ensures r.Ok? ==> r.value == StartsAfterInsert(view, starts, id, labels)
    ensures r.Err? ==> r.error == BudgetExceeded && !AnyBatchFits(z, view, DEFAULT_BUDGET)
  {
    hide PresentRecords, AnyBatchFits;
    var defaultMissing := starts.defaultNode == EMPTY_START_NODE;
    if !defaultMissing {
      var live := LiveAmong(z, view, [starts.defaultNode], DEFAULT_BUDGET);
      if live.Err? {
        return Err(live.error);
      }
      defaultMissing := starts.defaultNode !in live.value;
    }
    var base := if defaultMissing then StartNodes(id, map[]) else starts;
    var next, added := AddMissing(base, id, labels);
    assert added <==> exists l :: l in Elements(labels) && l !in base.labeled;
    r := Ok(if defaultMissing || added then Some(next) else None);
  }

  /** An insert keeps the start nodes good, and leaves a live default. */
  lemma InsertKeepsStarts(view: View, starts: StartNodes, id: NodeId, labels: LabelSet, after: View)
    requires StartsLive(view, starts)
    requires Live(after) == Live(view) + {id} && after.nodes[id].labels == labels
    requires forall other :: other in Live(view) && other != id ==> after.nodes[other].labels == view.nodes[other].labels
    requires id !in Live(view)
    ensures var r := StartsAfterInsert(view, starts, id, labels);
      var next := if r.Some? then r.value else starts;
      StartsLive(after, next) && next.defaultNode in Live(after)
  {}
}
