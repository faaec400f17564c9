/**
 * Online inserts and deletes as transitions of the whole index: storage, id allocator and mutation log. What each
 * staged write and each publication changes in what a reader of the published manifest sees.
 */
module OnlineModel {
  import opened Common
  import opened Labels
  import opened Records
  import opened Reading
  import opened StorageModel
  import opened StorageRuns
  import opened StartRepair
  import opened InsertPlanning

  datatype Mutation =
    | InsertRow(id: NodeId, externalId: nat, vector: Vector, labels: LabelSet)
    | DeleteRow(id: NodeId)

  datatype Index = Index(store: Store, next: nat, log: seq<Mutation>)

  /** The writes of one insert, in the order they are made. */
  datatype Staged = Staged(record: NodeRecord, rewrites: seq<(NodeId, seq<NodeId>)>, starts: Option<StartNodes>)

  function CurrentView(s: Store): View { ViewOf(s, s.manifest) }

  ghost function RecordFor(env: OnlineEnv, s: Store, id: NodeId, externalId: nat, vector: Vector, labels: LabelSet): NodeRecord {
    NodeRecord(id, externalId, env.route(vector), Some(vector), labels,
               InsertNeighbors(env, CurrentView(s), s.manifest.starts, vector, labels))
  }

  /** One rewritten list for each chosen neighbour that is still readable. */
  ghost function RewritesFor(env: OnlineEnv, view: View, record: NodeRecord, ids: seq<NodeId>): seq<(NodeId, seq<NodeId>)> {
    if ids == [] then []
    else
      var rest, n := RewritesFor(env, view, record, ids[..|ids| - 1]), ids[|ids| - 1];
      if n in Live(view) then rest + [(n, Backpointers(env, view, record, n))] else rest
  }

  ghost function PlanInsert(env: OnlineEnv, s: Store, id: NodeId, externalId: nat, vector: Vector, labels: LabelSet): Staged {
    var record := RecordFor(env, s, id, externalId, vector, labels);
    Staged(record, RewritesFor(env, CurrentView(s), record, record.neighbors),
           StartsAfterInsert(CurrentView(s), s.manifest.starts, id, labels))
  }

  function ApplyRewrites(s: Store, rewrites: seq<(NodeId, seq<NodeId>)>): Store {
    if rewrites == [] then s
    else
      var last := rewrites[|rewrites| - 1];
      RewriteNeighbors(ApplyRewrites(s, rewrites[..|rewrites| - 1]), last.0, last.1)
  }

  function SetStarts(s: Store, starts: Option<StartNodes>): Store {
    if starts.Some? then UpdateStarts(s, starts.value) else s
  }

  function Stage(s: Store, staged: Staged): Store {
    SetStarts(ApplyRewrites(AppendNode(s, staged.record), staged.rewrites), staged.starts)
  }

  /** The manifest that makes a frozen delta visible; the id high-water mark never drops. */
  function Replacement(snapshot: Manifest, published: PublishedDelta, highest: NodeId): Manifest {
    snapshot.(
      hotDelta := Some(published.reference),
      tombstoneEpoch := Max(snapshot.tombstoneEpoch, published.tombstoneEpoch),
      starts := if published.starts.Some? then published.starts.value else snapshot.starts,
      maxAssigned := Some(if snapshot.maxAssigned.Some? then Max(snapshot.maxAssigned.value, highest) else highest))
  }

  function PublishOver(s: Store, snapshot: Manifest, highest: NodeId): Store {
    Publish(FreezeDelta(s, true), Replacement(snapshot, Frozen(s), highest))
  }

  /** The id just below the next one to hand out. */
  function Highest(next: nat): NodeId { if next == 0 then 0 else next - 1 }

  /** Inserts an already normalised row under a given id, live or from a log. */
  ghost function ApplyInsert(env: OnlineEnv, ix: Index, id: NodeId, externalId: nat, vector: Vector, labels: LabelSet): Index {
    var staged := Stage(ix.store, PlanInsert(env, ix.store, id, externalId, vector, labels));
    var next := Max(ix.next, id + 1);
    ix.(store := PublishOver(staged, ix.store.manifest, Highest(next)), next := next)
  }

  ghost function ApplyDelete(ix: Index, id: NodeId): Index {
    var starts := RepairAround(CurrentView(ix.store), ix.store.manifest.starts, id, DEFAULT_BUDGET);
    ix.(store := PublishOver(SetStarts(TombstoneNode(ix.store, id), starts), ix.store.manifest, Highest(ix.next)))
  }

  /** A live insert: takes the next id, logs the normalised row, applies it. */
  ghost function Insert(env: OnlineEnv, ix: Index, externalId: nat, vector: Vector, labels: LabelSet): Index {
    var id, normal := ix.next, env.normalize(vector);
    var logged := ix.(next := id + 1, log := ix.log + [InsertRow(id, externalId, normal, labels)]);
    ApplyInsert(env, logged, id, externalId, normal, labels)
  }

  ghost function Delete(ix: Index, id: NodeId): Index {
    ApplyDelete(ix.(log := ix.log + [DeleteRow(id)]), id)
  }

  /** The checks on its input that an insert makes before it writes anything, the log included. */
  predicate Accepted(env: OnlineEnv, vector: Vector, labels: LabelSet) {
    |vector| == env.config.dimensions && (!env.config.hasLabels ==> labels == [])
  }

  // ----- what a reader sees of a base and a delta -----

  /** The view in which every tombstone of the delta is visible. */
  function Shown(base: map<NodeId, NodeRecord>, d: Delta): View {
    View((map id | id in base :: if id in d.rewrites then base[id].(neighbors := d.rewrites[id]) else base[id]) + d.records,
         d.tombstones.Keys)
  }

  lemma OverlayShown(base: map<NodeId, NodeRecord>, d: Delta, epoch: nat)
    requires Epochs(d, epoch + 1)
    ensures Overlay(base, d, epoch) == Shown(base, d)
  {}

  /** What a delta shows under one id. */
  lemma ShownOf(base: map<NodeId, NodeRecord>, d: Delta, id: NodeId)
    ensures id in Shown(base, d).nodes <==> id in base || id in d.records
    ensures id in d.records ==> Shown(base, d).nodes[id] == d.records[id]
    ensures id in base && id !in d.records ==>
      Shown(base, d).nodes[id] == if id in d.rewrites then base[id].(neighbors := d.rewrites[id]) else base[id]
  {}

  lemma ShownTombstones(base: map<NodeId, NodeRecord>, d: Delta)
    ensures Shown(base, d).tombstones == d.tombstones.Keys
  {}

  lemma ShownAppend(base: map<NodeId, NodeRecord>, s: Store, record: NodeRecord)
    ensures var before, after := Shown(base, s.draft.delta), Shown(base, AppendNode(s, record).draft.delta);
      after == View(before.nodes[record.id := record], before.tombstones - {record.id})
  {
    hide Shown;
    var d, e := s.draft.delta, AppendNode(s, record).draft.delta;
    var expected := Shown(base, d).nodes[record.id := record];
    ShownTombstones(base, d);
    ShownTombstones(base, e);
    forall id: NodeId
      ensures id in Shown(base, e).nodes <==> id in expected
      ensures id in expected ==> Shown(base, e).nodes[id] == expected[id]
    {
      ShownOf(base, d, id);
      ShownOf(base, e, id);
    }
    assert Shown(base, e).nodes == expected;
  }

  lemma ShownRewrite(base: map<NodeId, NodeRecord>, s: Store, id: NodeId, list: seq<NodeId>)
    ensures var before, after := Shown(base, s.draft.delta), Shown(base, RewriteNeighbors(s, id, list).draft.delta);
      after == before.(nodes := if id in before.nodes then before.nodes[id := before.nodes[id].(neighbors := list)] else before.nodes)
  {
    hide Shown;
    var d, e := s.draft.delta, RewriteNeighbors(s, id, list).draft.delta;
    var before := Shown(base, d).nodes;
    var expected := if id in before then before[id := before[id].(neighbors := list)] else before;
    ShownTombstones(base, d);
    ShownTombstones(base, e);
    ShownOf(base, d, id);
    forall other: NodeId
      ensures other in Shown(base, e).nodes <==> other in expected
      ensures other in expected ==> Shown(base, e).nodes[other] == expected[other]
    {
      ShownOf(base, d, other);
      ShownOf(base, e, other);
    }
    assert Shown(base, e).nodes == expected;
  }

  /** Same nodes, same tombstones, same payloads. */
  ghost predicate Rewired(a: View, b: View) {
    && a.tombstones == b.tombstones && a.nodes.Keys == b.nodes.Keys
    && forall id :: id in a.nodes ==> b.nodes[id] == a.nodes[id].(neighbors := b.nodes[id].neighbors)
  }

  ghost predicate ListsValid(view: View, maxNeighbors: nat) {
    forall id :: id in Live(view) ==> NeighborsValid(id, view.nodes[id].neighbors, maxNeighbors)
  }

  ghost predicate RewritesValid(rewrites: seq<(NodeId, seq<NodeId>)>, maxNeighbors: nat) {
    forall i :: 0 <= i < |rewrites| ==> NeighborsValid(rewrites[i].0, rewrites[i].1, maxNeighbors)
  }

  /** Rewriting lists changes lists alone, and valid lists stay valid. */
  lemma {:induction false} RewritesRewire(base: map<NodeId, NodeRecord>, s: Store, rewrites: seq<(NodeId, seq<NodeId>)>, maxNeighbors: nat)
    requires ListsValid(Shown(base, s.draft.delta), maxNeighbors) && RewritesValid(rewrites, maxNeighbors)
    ensures var after := ApplyRewrites(s, rewrites);
      && Rewired(Shown(base, s.draft.delta), Shown(base, after.draft.delta))
      && ListsValid(Shown(base, after.draft.delta), maxNeighbors)
      && after == s.(draft := s.draft.(delta := after.draft.delta))
      && after.draft.delta.tombstones == s.draft.delta.tombstones
  {
    hide Shown, NeighborsValid, RewriteNeighbors;
    if rewrites != [] {
      var front, last := rewrites[..|rewrites| - 1], rewrites[|rewrites| - 1];
      assert forall i :: 0 <= i < |front| ==> front[i] == rewrites[i];
      RewritesRewire(base, s, front, maxNeighbors);
      RewriteFields(ApplyRewrites(s, front), last.0, last.1);
      ShownRewrite(base, ApplyRewrites(s, front), last.0, last.1);
    }
  }

  lemma RewriteFields(s: Store, id: NodeId, list: seq<NodeId>)
    ensures var after := RewriteNeighbors(s, id, list);
      after == s.(draft := s.draft.(delta := after.draft.delta)) && after.draft.delta.tombstones == s.draft.delta.tombstones
  {}

  // ----- publication -----

  /** What a writer relies on between operations. */
  ghost predicate Steady(s: Store) {
    && Inv(s)
    && ManifestValid(s.manifest)
    && Epochs(s.draft.delta, s.manifest.tombstoneEpoch + 1)
    && (if s.manifest.hotDelta.Some? then s.manifest.hotDelta.value in s.deltas && s.deltas[s.manifest.hotDelta.value] == s.draft.delta
        else s.draft.delta == Delta(map[], map[], map[]))
    && (s.draft.starts.Some? ==> s.draft.starts.value == s.manifest.starts)
  }

  function BaseNodes(s: Store): map<NodeId, NodeRecord> { ImmutableNodes(s, s.manifest.segments) }

  /** Between operations the published manifest shows the whole draft over the immutable nodes. */
  lemma SteadyView(s: Store)
    requires Steady(s)
    ensures CurrentView(s) == Shown(BaseNodes(s), s.draft.delta)
  {
    hide Inv, ManifestValid;
    OverlayShown(BaseNodes(s), s.draft.delta, s.manifest.tombstoneEpoch);
  }

  lemma {:induction false} SameBase(a: Store, b: Store, segments: seq<Segment>)
    requires a.segments == b.segments
    ensures ImmutableNodes(a, segments) == ImmutableNodes(b, segments)
  {
    if segments != [] {
      SameBase(a, b, segments[1..]);
    }
  }

  lemma ReplacementValid(snapshot: Manifest, published: PublishedDelta, highest: NodeId)
    requires ManifestValid(snapshot)
    ensures ManifestValid(Replacement(snapshot, published, highest))
  {}

  /** The freshly frozen delta is there to be referenced. */
  lemma FrozenKept(s: Store)
    requires Inv(s)
    ensures var f := FreezeDelta(s, true); s.nextDelta in f.deltas && f.deltas[s.nextDelta] == s.draft.delta
  {
    hide Epochs, AllEpochs, ReferencesExist;
    CollectKeeps(s.deltas, s.nextDelta, s.manifest.hotDelta, s.draft.delta);
    assert s.nextDelta in Newest(s.nextDelta + 1);
  }

  /** Publishing over the current manifest cannot fail, and leaves a steady state that shows the draft. */
  lemma PublishOverFacts(s: Store, highest: NodeId)
    requires Inv(s) && ManifestValid(s.manifest)
    ensures var f, replacement := FreezeDelta(s, true), Replacement(s.manifest, Frozen(s), highest);
      PublishError(f, s.manifest.version, replacement).None?
    ensures Steady(PublishOver(s, s.manifest, highest)) && Extends(s, PublishOver(s, s.manifest, highest))
    ensures CurrentView(PublishOver(s, s.manifest, highest)) == Shown(BaseNodes(s), s.draft.delta)
    ensures BaseNodes(PublishOver(s, s.manifest, highest)) == BaseNodes(s)
  {
    hide Inv, Extends, ManifestValid, FreezeDelta, MaxOrZero;
    var f, replacement := FreezeDelta(s, true), Replacement(s.manifest, Frozen(s), highest);
    var t := PublishOver(s, s.manifest, highest);
    FreezeInv(s);
    FrozenKept(s);
    FreezeFields(s);
    ReplacementValid(s.manifest, Frozen(s), highest);
    ReplacementRefers(s, highest);
    var step := DoPublish(s.manifest.version, replacement);
    assert Succeeds(f, step) && Apply(f, step) == t;
    PublishInv(f, step);
    ExtendsTrans(s, f, t);
    PublishedEpochs(s);
    SameBase(s, t, s.manifest.segments);
    SteadyManifest(replacement, s.manifest.version + 1);
    SteadyView(t);
  }

  lemma SteadyManifest(m: Manifest, version: nat)
    requires ManifestValid(m)
    ensures ManifestValid(m.(version := version))
  {}

  lemma FreezeFields(s: Store)
    ensures var f := FreezeDelta(s, true);
      f == s.(nextDelta := s.nextDelta + 1, deltas := f.deltas)
  {
    hide Collect;
  }

  lemma ReplacementRefers(s: Store, highest: NodeId)
    requires Inv(s)
    ensures ReferencesExist(FreezeDelta(s, true), Replacement(s.manifest, Frozen(s), highest))
  {
    hide Kept, Epochs, AllEpochs, MaxOrZero;
    FrozenKept(s);
    FreezeFields(s);
    hide FreezeDelta;
  }

  lemma PublishedEpochs(s: Store)
    ensures Epochs(s.draft.delta, Frozen(s).tombstoneEpoch + 1)
  {
    var d := s.draft.delta;
    forall id | id in d.tombstones ensures d.tombstones[id] < Frozen(s).tombstoneEpoch + 1 {
      assert d.tombstones[id] in d.tombstones.Values;
    }
  }

  lemma {:induction false} ExtendsTrans(a: Store, b: Store, c: Store)
    requires Extends(a, b) && Extends(b, c)
    ensures Extends(a, c)
  {}
}
