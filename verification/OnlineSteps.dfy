/**
 * What one completed insert or delete does to a healthy index: the row it adds or the deletion it marks, the starts
 * and lists it keeps good, the pinned snapshots it leaves alone, and the mark it raises.
 */
module OnlineSteps {
  import opened Common
  import opened Labels
  import opened Records
  import opened Reading
  import opened StorageModel
  import opened StorageRuns
  import opened StartRepair
  import opened InsertPlanning
  import opened OnlineModel

  /** What a user put under an id: a row, or the fact that it was deleted. */
  datatype Entry = Row(externalId: nat, labels: LabelSet, full: Option<Vector>) | Dead

  function EntryOf(record: NodeRecord): Entry { Row(record.externalId, record.labels, record.full) }

  /** The plain table a view amounts to; neighbour lists and routing vectors are not part of it. */
  function TableOf(view: View): map<NodeId, Entry> {
    map id | id in view.nodes.Keys + view.tombstones :: if id in view.tombstones then Dead else EntryOf(view.nodes[id])
  }

  /** What every completed operation leaves behind. */
  ghost predicate Healthy(env: OnlineEnv, ix: Index) {
    && Steady(ix.store)
    && ix.store.manifest.config == env.config
    && 1 <= ix.next
    && (ix.store.manifest.maxAssigned.Some? ==> ix.store.manifest.maxAssigned.value < ix.next)
    && Keyed(BaseNodes(ix.store))
    && GoodView(env, CurrentView(ix.store), ix.store.manifest.starts, IdBound(ix))
    && RecentDeltas(ix.store)
  }

  /** Every live id is below this: one past the recorded mark, or the next id when no mark is recorded. */
  function IdBound(ix: Index): nat {
    if ix.store.manifest.maxAssigned.Some? then ix.store.manifest.maxAssigned.value + 1 else ix.next
  }

  ghost predicate GoodView(env: OnlineEnv, view: View, starts: StartNodes, bound: nat) {
    && Keyed(view.nodes)
    && StartsLive(view, starts)
    && ListsValid(view, env.config.maxNeighbors)
    && forall id :: id in Live(view) ==> id < bound
  }

  /** The manifest shows the newest frozen delta, and no more than the two newest are kept. */
  ghost predicate RecentDeltas(s: Store) {
    && (s.manifest.hotDelta.Some? ==> s.manifest.hotDelta.value + 1 == s.nextDelta)
    && forall r :: r in s.deltas ==> s.nextDelta <= r + RETAINED
  }

  // ----- staging an insert -----

  lemma {:induction false} RewritesInv(s: Store, rewrites: seq<(NodeId, seq<NodeId>)>)
    requires Inv(s)
    ensures Inv(ApplyRewrites(s, rewrites)) && Extends(s, ApplyRewrites(s, rewrites))
    ensures var r := ApplyRewrites(s, rewrites); r == s.(draft := s.draft.(delta := r.draft.delta))
  {
    hide Inv, Extends;
    if rewrites == [] {
      ExtendsSelf(s);
    } else {
      var front, last := rewrites[..|rewrites| - 1], rewrites[|rewrites| - 1];
      RewritesInv(s, front);
      StepInv(ApplyRewrites(s, front), DoRewrite(last.0, last.1));
      ExtendsTrans(s, ApplyRewrites(s, front), ApplyRewrites(s, rewrites));
    }
  }

  lemma ExtendsSelf(s: Store)
    ensures Extends(s, s)
  {}

  lemma StageInv(s: Store, staged: Staged)
    requires Inv(s)
    ensures Inv(Stage(s, staged)) && Extends(s, Stage(s, staged))
    ensures var r := Stage(s, staged);
      r == s.(draft := Draft(ApplyRewrites(AppendNode(s, staged.record), staged.rewrites).draft.delta,
                             if staged.starts.Some? then staged.starts else s.draft.starts))
  {
    hide Inv, Extends;
    var appended := AppendNode(s, staged.record);
    StepInv(s, DoAppend(staged.record));
    RewritesInv(appended, staged.rewrites);
    var rewritten := ApplyRewrites(appended, staged.rewrites);
    ExtendsTrans(s, appended, rewritten);
    if staged.starts.Some? {
      StepInv(rewritten, DoStarts(staged.starts.value));
      ExtendsTrans(s, rewritten, Stage(s, staged));
    }
  }

  lemma {:induction false} RewritesForValid(env: OnlineEnv, view: View, record: NodeRecord, ids: seq<NodeId>)
    requires Keyed(view.nodes) && record.id !in Live(view) && env.config.Valid()
    ensures RewritesValid(RewritesFor(env, view, record, ids), env.config.maxNeighbors)
  {
    hide NeighborsValid;
    if ids != [] {
      var n := ids[|ids| - 1];
      RewritesForValid(env, view, record, ids[..|ids| - 1]);
      if n in Live(view) {
        BackpointersValid(env, view, record, n);
      }
    }
  }

  /** After the row is appended, before any list is rewritten. */
  function WithRow(view: View, record: NodeRecord): View {
    View(view.nodes[record.id := record], view.tombstones - {record.id})
  }

  /** The view an insert publishes: the new row is there, lists may differ, nothing else does. */
  ghost predicate RowAdded(env: OnlineEnv, view: View, record: NodeRecord, after: View) {
    Rewired(WithRow(view, record), after) && ListsValid(after, env.config.maxNeighbors)
  }

  lemma StagedView(env: OnlineEnv, s: Store, id: NodeId, externalId: nat, vector: Vector, labels: LabelSet)
    requires Steady(s) && Keyed(CurrentView(s).nodes) && ListsValid(CurrentView(s), env.config.maxNeighbors)
    requires id !in Live(CurrentView(s)) && env.config.Valid()
    ensures var staged := PlanInsert(env, s, id, externalId, vector, labels);
      RowAdded(env, CurrentView(s), staged.record, Shown(BaseNodes(s), Stage(s, staged).draft.delta))
  {
    hide Inv, ManifestValid, InsertNeighbors, NeighborsValid, Shown;
    var view, base := CurrentView(s), BaseNodes(s);
    var staged := PlanInsert(env, s, id, externalId, vector, labels);
    SteadyView(s);
    ShownAppend(base, s, staged.record);
    InsertNeighborsValid(env, view, s.manifest.starts, vector, labels, id);
    RewritesForValid(env, view, staged.record, staged.record.neighbors);
    assert ListsValid(WithRow(view, staged.record), env.config.maxNeighbors);
    RewritesRewire(base, AppendNode(s, staged.record), staged.rewrites, env.config.maxNeighbors);
    StagedDelta(s, staged);
  }

  lemma StagedDelta(s: Store, staged: Staged)
    ensures Stage(s, staged).draft.delta == ApplyRewrites(AppendNode(s, staged.record), staged.rewrites).draft.delta
  {}

  lemma RowAddedFacts(env: OnlineEnv, view: View, record: NodeRecord, after: View)
    requires RowAdded(env, view, record, after) && Keyed(view.nodes)
    ensures Keyed(after.nodes)
    ensures Live(after) == Live(view) + {record.id} && after.nodes[record.id].labels == record.labels
    ensures forall other :: other in Live(view) && other != record.id ==> after.nodes[other].labels == view.nodes[other].labels
    ensures TableOf(after) == TableOf(view)[record.id := EntryOf(record)]
  {
    hide ListsValid, TableOf;
    RowTable(view, record);
    SameTable(WithRow(view, record), after);
  }

  lemma RowTable(view: View, record: NodeRecord)
    ensures Live(WithRow(view, record)) == Live(view) + {record.id}
    ensures TableOf(WithRow(view, record)) == TableOf(view)[record.id := EntryOf(record)]
  {
    var row := WithRow(view, record);
    assert TableOf(row).Keys == TableOf(view).Keys + {record.id};
  }

  /** Lists are no part of the table. */
  lemma SameTable(a: View, b: View)
    requires Rewired(a, b)
    ensures TableOf(b) == TableOf(a) && Live(b) == Live(a)
  {}

  // ----- one insert, one delete -----

  /** The start nodes a publication carries: the staged ones, or else the current ones. */
  lemma PublishedStarts(s: Store, draftStarts: Option<StartNodes>, snapshot: Manifest, highest: NodeId)
    requires s.draft.starts == (if draftStarts.Some? then draftStarts else s.draft.starts)
    requires s.draft.starts.Some? && draftStarts.None? ==> s.draft.starts.value == snapshot.starts
    ensures PublishOver(s, snapshot, highest).manifest.starts == if draftStarts.Some? then draftStarts.value else snapshot.starts
  {
    hide FreezeDelta, MaxOrZero;
  }

  lemma PublishedFields(s: Store, highest: NodeId)
    ensures var t := PublishOver(s, s.manifest, highest);
      && t.manifest.config == s.manifest.config
      && t.manifest.version == s.manifest.version + 1
      && t.manifest.maxAssigned == Some(if s.manifest.maxAssigned.Some? then Max(s.manifest.maxAssigned.value, highest) else highest)
      && t.manifest.hotDelta == Some(s.nextDelta) && t.nextDelta == s.nextDelta + 1
      && t.draft == s.draft && t.manifest.segments == s.manifest.segments
  {
    hide Collect, MaxOrZero;
  }

  /** The storage side of an insert. */
  lemma InsertStores(env: OnlineEnv, ix: Index, id: NodeId, externalId: nat, vector: Vector, labels: LabelSet)
    requires Healthy(env, ix) && id !in Live(CurrentView(ix.store))
    ensures var r := ApplyInsert(env, ix, id, externalId, vector, labels);
      && Steady(r.store) && Extends(ix.store, r.store) && BaseNodes(r.store) == BaseNodes(ix.store) && RecentDeltas(r.store)
      && RowAdded(env, CurrentView(ix.store), RecordFor(env, ix.store, id, externalId, vector, labels), CurrentView(r.store))
  {
    hide Inv, Extends, ManifestValid, InsertNeighbors, Stage, Epochs, FreezeDelta, ListsValid, PublishOver, StartsLive, Keyed,
         CurrentView, RewritesFor, RowAdded, Steady, BaseNodes, RecentDeltas;
    var s, next := ix.store, Max(ix.next, id + 1);
    var t := Stage(s, PlanInsert(env, s, id, externalId, vector, labels));
    HealthyFacts(env, ix);
    StageInv(s, PlanInsert(env, s, id, externalId, vector, labels));
    StagedView(env, s, id, externalId, vector, labels);
    StagedBase(s, t);
    PublishedRecent(t, Highest(next));
    PublishOverFacts(t, Highest(next));
    ExtendsTrans(s, t, PublishOver(t, s.manifest, Highest(next)));
  }

  lemma StagedBase(s: Store, t: Store)
    requires t == s.(draft := t.draft)
    ensures BaseNodes(t) == BaseNodes(s)
    ensures RecentDeltas(s) ==> RecentDeltas(t)
  {
    SameBase(s, t, s.manifest.segments);
  }

  /** The manifest and allocator side of an insert. */
  lemma InsertPublishes(env: OnlineEnv, ix: Index, id: NodeId, externalId: nat, vector: Vector, labels: LabelSet)
    requires Healthy(env, ix)
    ensures var r := ApplyInsert(env, ix, id, externalId, vector, labels);
      var planned := StartsAfterInsert(CurrentView(ix.store), ix.store.manifest.starts, id, labels);
      && Published(ix, r) && MarkMoves(ix, r) && r.next == Max(ix.next, id + 1)
      && r.store.manifest.starts == if planned.Some? then planned.value else ix.store.manifest.starts
  {
    hide Inv, Extends, ManifestValid, InsertNeighbors, Stage, Epochs, FreezeDelta, PublishOver, CurrentView, RewritesFor,
         ListsValid, StartsLive, Keyed, StartsAfterInsert;
    var s, next := ix.store, Max(ix.next, id + 1);
    var staged := PlanInsert(env, s, id, externalId, vector, labels);
    HealthyFacts(env, ix);
    StageInv(s, staged);
    PublishedFields(Stage(s, staged), Highest(next));
    PublishedStarts(Stage(s, staged), staged.starts, s.manifest, Highest(next));
  }

  /** A publication leaves only the two newest deltas, the newer of which the manifest shows. */
  lemma PublishedRecent(s: Store, highest: NodeId)
    requires Inv(s) && RecentDeltas(s)
    ensures RecentDeltas(PublishOver(s, s.manifest, highest))
  {
    hide Epochs, AllEpochs, ReferencesExist, MaxOrZero, Collect, Kept;
    CollectKeeps(s.deltas, s.nextDelta, s.manifest.hotDelta, s.draft.delta);
    RecentOnly(s.deltas.Keys, s.nextDelta, s.manifest.hotDelta);
  }

  lemma RecentOnly(refs: set<nat>, n: nat, published: Option<nat>)
    requires Kept(refs, n, published) && (published.Some? ==> published.value + 1 == n)
    ensures var keep := Newest(n + 1) + AsSet(published); forall r :: r in keep ==> n + 1 <= r + RETAINED
  {}

  /** One more version over one more delta, nothing else in the manifest changes but starts, epoch and mark. */
  ghost predicate Published(ix: Index, r: Index) {
    && r.log == ix.log
    && r.store.manifest.config == ix.store.manifest.config
    && r.store.manifest.version == ix.store.manifest.version + 1
    && r.store.manifest.segments == ix.store.manifest.segments
    && r.store.nextDelta == ix.store.nextDelta + 1
    && r.store.manifest.hotDelta == Some(ix.store.nextDelta)
  }

  /**
   * A completed insert: the index stays healthy, readers see exactly one more row, pinned snapshots are
   * untouched, and the new high-water mark covers the id without ever dropping.
   */
  lemma InsertFacts(env: OnlineEnv, ix: Index, id: NodeId, externalId: nat, vector: Vector, labels: LabelSet)
    requires Healthy(env, ix) && id !in Live(CurrentView(ix.store))
    ensures var r := ApplyInsert(env, ix, id, externalId, vector, labels);
      && Healthy(env, r) && Extends(ix.store, r.store) && Published(ix, r) && MarkMoves(ix, r)
      && TableOf(CurrentView(r.store)) == TableOf(CurrentView(ix.store))[id := Row(externalId, labels, Some(vector))]
      && r.store.manifest.starts.defaultNode in Live(CurrentView(r.store))
      && r.next == Max(ix.next, id + 1)
  {
    hide Inv, Extends, InsertNeighbors, ApplyInsert, StartsLive, CurrentView, Steady, BaseNodes, StartsAfterInsert, TableOf, Live,
         ListsValid, Keyed, RowAdded, RecentDeltas;
    var r, record := ApplyInsert(env, ix, id, externalId, vector, labels), RecordFor(env, ix.store, id, externalId, vector, labels);
    var view, after := CurrentView(ix.store), CurrentView(r.store);
    HealthyFacts(env, ix);
    InsertStores(env, ix, id, externalId, vector, labels);
    InsertPublishes(env, ix, id, externalId, vector, labels);
    RowAddedFacts(env, view, record, after);
    RowAddedLists(env, view, record, after);
    InsertKeepsStarts(view, ix.store.manifest.starts, id, labels, after);
  }

  lemma HealthyFacts(env: OnlineEnv, ix: Index)
    requires Healthy(env, ix)
    ensures env.config.Valid() && Inv(ix.store) && ManifestValid(ix.store.manifest) && Steady(ix.store)
    ensures ix.store.manifest.config == env.config
    ensures ix.store.draft.starts.Some? ==> ix.store.draft.starts.value == ix.store.manifest.starts
    ensures CurrentView(ix.store) == Shown(BaseNodes(ix.store), ix.store.draft.delta)
    ensures Keyed(CurrentView(ix.store).nodes) && StartsLive(CurrentView(ix.store), ix.store.manifest.starts)
    ensures ListsValid(CurrentView(ix.store), env.config.maxNeighbors) && RecentDeltas(ix.store)
  {
    hide Inv, Shown, CurrentView, BaseNodes;
    SteadyView(ix.store);
  }

  /** The published high-water mark is the id just below the next one, and the next one never drops. */
  ghost predicate MarkMoves(ix: Index, r: Index) {
    r.next >= 1 && r.store.manifest.maxAssigned == Some(r.next - 1) && ix.next <= r.next
  }

  lemma ShownBury(base: map<NodeId, NodeRecord>, s: Store, id: NodeId)
    ensures var before, after := Shown(base, s.draft.delta), Shown(base, TombstoneNode(s, id).draft.delta);
      && RowBuried(before, id, after)
      && (Keyed(base) && Keyed(before.nodes) ==> Keyed(after.nodes))
  {
    hide Shown;
    var d, e := s.draft.delta, TombstoneNode(s, id).draft.delta;
    ShownTombstones(base, d);
    ShownTombstones(base, e);
    forall other: NodeId
      ensures other != id ==> (other in Shown(base, e).nodes <==> other in Shown(base, d).nodes)
      ensures other in Shown(base, e).nodes && other in Shown(base, d).nodes && other != id ==>
        Shown(base, e).nodes[other] == Shown(base, d).nodes[other]
      ensures other in Shown(base, e).nodes && Keyed(base) && Keyed(Shown(base, d).nodes) ==> Shown(base, e).nodes[other].id == other
    {
      ShownOf(base, d, other);
      ShownOf(base, e, other);
    }
  }

  /** The view a delete publishes. */
  ghost predicate RowBuried(view: View, id: NodeId, after: View) {
    && after.tombstones == view.tombstones + {id}
    && after.nodes.Keys - {id} == view.nodes.Keys - {id}
    && forall other :: other in view.nodes && other in after.nodes && other != id ==> after.nodes[other] == view.nodes[other]
  }

  lemma BuriedFacts(view: View, id: NodeId, after: View)
    requires RowBuried(view, id, after)
    ensures Deleted(view, id, after)
    ensures forall other :: other in Live(after) ==> other in Live(view) && after.nodes[other] == view.nodes[other]
    ensures TableOf(after) == TableOf(view)[id := Dead]
  {
    forall other | other != id ensures other in after.nodes <==> other in view.nodes {
      assert other in after.nodes.Keys - {id} <==> other in view.nodes.Keys - {id};
    }
    assert Live(after) == Live(view) - {id};
    assert TableOf(after).Keys == TableOf(view)[id := Dead].Keys;
  }

  lemma RowAddedLists(env: OnlineEnv, view: View, record: NodeRecord, after: View)
    requires RowAdded(env, view, record, after)
    ensures ListsValid(after, env.config.maxNeighbors)
  {}

  /** The storage side of a delete. */
  lemma DeleteStores(env: OnlineEnv, ix: Index, id: NodeId)
    requires Healthy(env, ix)
    ensures var r := ApplyDelete(ix, id);
      && Steady(r.store) && Extends(ix.store, r.store) && BaseNodes(r.store) == BaseNodes(ix.store) && RecentDeltas(r.store)
      && RowBuried(CurrentView(ix.store), id, CurrentView(r.store)) && Keyed(CurrentView(r.store).nodes)
  {
    hide Inv, Extends, ManifestValid, Epochs, FreezeDelta, ListsValid, PublishOver, StartsLive, Keyed, CurrentView, Steady,
         BaseNodes, RowBuried, RepairAround, Shown, RecentDeltas;
    var s := ix.store;
    var starts := RepairAround(CurrentView(s), s.manifest.starts, id, DEFAULT_BUDGET);
    var buried := TombstoneNode(s, id);
    var t := SetStarts(buried, starts);
    HealthyFacts(env, ix);
    StepInv(s, DoTombstone(id));
    StartsInv(s, buried, starts);
    ShownBury(BaseNodes(s), s, id);
    StagedEpochBase(s, t);
    PublishedRecent(t, Highest(ix.next));
    PublishOverFacts(t, Highest(ix.next));
    ExtendsTrans(s, t, PublishOver(t, s.manifest, Highest(ix.next)));
  }

  lemma StagedEpochBase(s: Store, t: Store)
    requires t == s.(draft := t.draft, nextEpoch := t.nextEpoch)
    ensures BaseNodes(t) == BaseNodes(s)
    ensures RecentDeltas(s) ==> RecentDeltas(t)
  {
    SameBase(s, t, s.manifest.segments);
  }

  lemma StartsInv(s: Store, buried: Store, starts: Option<StartNodes>)
    requires Inv(buried) && Extends(s, buried)
    ensures var t := SetStarts(buried, starts);
      && Inv(t) && Extends(s, t)
      && t == buried.(draft := buried.draft.(starts := if starts.Some? then starts else buried.draft.starts))
  {
    hide Inv, Extends;
    if starts.Some? {
      StepInv(buried, DoStarts(starts.value));
      ExtendsTrans(s, buried, SetStarts(buried, starts));
    }
  }

  /** The manifest and allocator side of a delete. */
  lemma DeletePublishes(env: OnlineEnv, ix: Index, id: NodeId)
    requires Healthy(env, ix)
    ensures var r := ApplyDelete(ix, id);
      var repaired := RepairAround(CurrentView(ix.store), ix.store.manifest.starts, id, DEFAULT_BUDGET);
      && Published(ix, r) && MarkMoves(ix, r) && r.next == ix.next
      && r.store.manifest.starts == if repaired.Some? then repaired.value else ix.store.manifest.starts
  {
    hide Inv, Extends, ManifestValid, Epochs, FreezeDelta, PublishOver, CurrentView, ListsValid, StartsLive, Keyed, RepairAround;
    var s := ix.store;
    var starts := RepairAround(CurrentView(s), s.manifest.starts, id, DEFAULT_BUDGET);
    var t := SetStarts(TombstoneNode(s, id), starts);
    HealthyFacts(env, ix);
    PublishedFields(t, Highest(ix.next));
    PublishedStarts(t, starts, s.manifest, Highest(ix.next));
  }

  /** A completed delete: the row reads as deleted from now on, all other rows as before; ids and marks hold. */
  lemma DeleteFacts(env: OnlineEnv, ix: Index, id: NodeId)
    requires Healthy(env, ix)
    ensures var r := ApplyDelete(ix, id);
      && Healthy(env, r) && Extends(ix.store, r.store) && Published(ix, r) && MarkMoves(ix, r)
      && TableOf(CurrentView(r.store)) == TableOf(CurrentView(ix.store))[id := Dead]
      && r.next == ix.next
  {
    hide Inv, Extends, ApplyDelete, StartsLive, CurrentView, Steady, BaseNodes, RepairAround, TableOf, Live, Keyed, RowBuried, RecentDeltas;
    var r := ApplyDelete(ix, id);
    var view, after := CurrentView(ix.store), CurrentView(r.store);
    HealthyFacts(env, ix);
    DeleteStores(env, ix, id);
    DeletePublishes(env, ix, id);
    BuriedFacts(view, id, after);
    RepairKeepsStarts(view, ix.store.manifest.starts, id, DEFAULT_BUDGET, after);
  }

  /**
   * An insert that fails after its record was staged leaves the published manifest as it was, but not the draft: the
   * row is invisible at first, and the next publication, here that of a delete of another id, shows it.
   */
  lemma HalfInsertSurfaces(env: OnlineEnv, ix: Index, record: NodeRecord, id: NodeId)
    requires Healthy(env, ix) && record.id != id
    ensures var half := ix.(store := AppendNode(ix.store, record));
      var after := CurrentView(ApplyDelete(half, id).store);
      && CurrentView(half.store) == CurrentView(ix.store)
      && record.id in Live(after) && after.nodes[record.id] == record
  {
    hide Inv, ManifestValid, Shown, Steady, BaseNodes, RecentDeltas, AppendNode, ApplyDelete, CurrentView, Extends;
    var s, half := ix.store, AppendNode(ix.store, record);
    HealthyFacts(env, ix);
    StagedOnly(s, record);
    StepInv(s, DoAppend(record));
    ShownAppend(BaseNodes(s), s, record);
    ShownBury(BaseNodes(s), half, id);
    DeleteShows(ix.(store := half), id);
    BuriedStays(Shown(BaseNodes(s), half.draft.delta), id, CurrentView(ApplyDelete(ix.(store := half), id).store), record.id);
  }

  lemma BuriedStays(view: View, id: NodeId, after: View, other: NodeId)
    requires RowBuried(view, id, after) && other in Live(view) && other != id
    ensures other in Live(after) && after.nodes[other] == view.nodes[other]
  {
    assert other in view.nodes.Keys - {id};
  }

  /** What a delete publishes over any storage: the draft, with the id buried. */
  lemma DeleteShows(ix: Index, id: NodeId)
    requires Inv(ix.store) && ManifestValid(ix.store.manifest)
    ensures CurrentView(ApplyDelete(ix, id).store) == Shown(BaseNodes(ix.store), TombstoneNode(ix.store, id).draft.delta)
  {
    hide Inv, Extends, ManifestValid, PublishOver, Shown, RepairAround, Steady, CurrentView, BaseNodes, RecentDeltas;
    var s := ix.store;
    var starts := RepairAround(CurrentView(s), s.manifest.starts, id, DEFAULT_BUDGET);
    var t := SetStarts(TombstoneNode(s, id), starts);
    StepInv(s, DoTombstone(id));
    StartsInv(s, TombstoneNode(s, id), starts);
    StagedEpochBase(s, t);
    PublishOverFacts(t, Highest(ix.next));
  }

  lemma StagedOnly(s: Store, record: NodeRecord)
    ensures var t := AppendNode(s, record);
      && t.manifest == s.manifest && CurrentView(t) == CurrentView(s) && BaseNodes(t) == BaseNodes(s)
  {
    SameBase(s, AppendNode(s, record), s.manifest.segments);
  }
}
