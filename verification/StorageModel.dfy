/** Versioned storage as values: manifest, segments, frozen deltas, draft, tombstone epochs, quantizers. */
module StorageModel {
  import opened Common
  import opened Records
  import opened Reading

  datatype Segment = Segment(reference: nat, nodeCount: nat)

  datatype QuantizerScope = IndexScope | SegmentScope(segment: nat)

  datatype QuantizerReference = QuantizerReference(reference: nat, scope: QuantizerScope, version: nat)

  datatype StoredQuantizer = StoredQuantizer(
    dimensions: nat, bitsPerDimension: nat, useMean: bool, count: nat, mean: Vector, m2: Vector)

  /** Everything a reader needs to pin one published state. */
  datatype Manifest = Manifest(
    version: nat,
    config: IndexConfig,
    starts: StartNodes,
    segments: seq<Segment>,
    hotDelta: Option<nat>,
    tombstoneEpoch: nat,
    quantizers: seq<QuantizerReference>,
    maxAssigned: Option<NodeId>)

  predicate ManifestValid(m: Manifest) {
    && m.config.Valid()
    && (forall i, j :: 0 <= i < j < |m.segments| ==> m.segments[i].reference != m.segments[j].reference)
    && (forall i, j :: 0 <= i < j < |m.quantizers| ==> m.quantizers[i] != m.quantizers[j])
  }

  /** What validation reports: the configuration is checked first. */
  function ManifestError(m: Manifest): Option<Error> {
    if !m.config.Valid() then Some(InvalidConfig) else if !ManifestValid(m) then Some(InvalidStorageState) else None
  }

  /** A manifest of an SBQ index needs an index quantizer to encode queries and inserted vectors. */
  predicate Routable(m: Manifest) {
    m.config.quantizer.Unquantized? || exists i :: 0 <= i < |m.quantizers| && m.quantizers[i].scope.IndexScope?
  }

  datatype Delta = Delta(
    records: map<NodeId, NodeRecord>,
    rewrites: map<NodeId, seq<NodeId>>,
    tombstones: map<NodeId, nat>)

  /** The mutable delta under construction, with the start nodes to publish next. */
  datatype Draft = Draft(delta: Delta, starts: Option<StartNodes>)

  const EMPTY_DRAFT: Draft := Draft(Delta(map[], map[], map[]), None)

  datatype Store = Store(
    manifest: Manifest,
    nextSegment: nat,
    segments: map<nat, map<NodeId, NodeRecord>>,
    nextDelta: nat,
    deltas: map<nat, Delta>,
    draft: Draft,
    nextEpoch: nat,
    nextQuantizer: nat,
    quantizers: map<nat, (QuantizerReference, StoredQuantizer)>)

  datatype PublishedDelta = PublishedDelta(reference: nat, starts: Option<StartNodes>, tombstoneEpoch: nat)

  function InitialStore(manifest: Manifest): Store {
    Store(manifest, 1, map[], 1, map[], EMPTY_DRAFT, 1, 1, map[])
  }

  // ----- writes -----

  function AppendNode(s: Store, record: NodeRecord): Store {
    var d := s.draft.delta;
    s.(draft := s.draft.(delta := Delta(
      d.records[record.id := record], d.rewrites - {record.id}, d.tombstones - {record.id})))
  }

  /** A record in the draft changes its list; any other node gets an overlay. */
  function RewriteNeighbors(s: Store, id: NodeId, neighbors: seq<NodeId>): Store {
    var d := s.draft.delta;
    var rewritten :=
      if id in d.records then d.(records := d.records[id := d.records[id].(neighbors := neighbors)])
      else d.(rewrites := d.rewrites[id := neighbors]);
    s.(draft := s.draft.(delta := rewritten))
  }

  function TombstoneNode(s: Store, id: NodeId): Store {
    var d := s.draft.delta;
    s.(nextEpoch := s.nextEpoch + 1,
       draft := s.draft.(delta := Delta(d.records - {id}, d.rewrites - {id}, d.tombstones[id := s.nextEpoch])))
  }

  function UpdateStarts(s: Store, starts: StartNodes): Store {
    s.(draft := s.draft.(starts := Some(starts)))
  }

  /** How many of the newest frozen deltas survive collection. */
  const RETAINED: nat := 2

  /** A frozen delta survives if it is among the newest or is the published manifest's. */
  predicate Survives(refs: set<nat>, reference: nat, manifestDelta: Option<nat>) {
    |set r | r in refs && r > reference| < RETAINED || manifestDelta == Some(reference)
  }

  function Collect(deltas: map<nat, Delta>, manifestDelta: Option<nat>): map<nat, Delta> {
    map r | r in deltas && Survives(deltas.Keys, r, manifestDelta) :: deltas[r]
  }

  function Frozen(s: Store): PublishedDelta {
    PublishedDelta(s.nextDelta, s.draft.starts, MaxOrZero(s.draft.delta.tombstones.Values))
  }

  /** Freezes the draft under a new reference; `collect` tells whether superseded deltas are dropped. */
  function FreezeDelta(s: Store, collect: bool): Store {
    var all := s.deltas[s.nextDelta := s.draft.delta];
    s.(nextDelta := s.nextDelta + 1, deltas := if collect then Collect(all, s.manifest.hotDelta) else all)
  }

  predicate ReferencesExist(s: Store, m: Manifest) {
    && (forall i :: 0 <= i < |m.segments| ==> m.segments[i].reference in s.segments)
    && (m.hotDelta.Some? ==> m.hotDelta.value in s.deltas)
    && (forall i :: 0 <= i < |m.quantizers| ==>
          m.quantizers[i].reference in s.quantizers && s.quantizers[m.quantizers[i].reference].0 == m.quantizers[i])
  }

  /** The error a publication meets, if any, in the order the checks are made. */
  function PublishError(s: Store, expected: nat, replacement: Manifest): Option<Error> {
    if ManifestError(replacement).Some? then ManifestError(replacement)
    else if s.manifest.version != expected then Some(VersionMismatch)
    else if !ReferencesExist(s, replacement) then Some(StorageNotFound)
    else None
  }

  function Publish(s: Store, replacement: Manifest): Store {
    s.(manifest := replacement.(version := s.manifest.version + 1))
  }

  function SegmentNodes(records: seq<NodeRecord>): map<NodeId, NodeRecord> {
    if records == [] then map[]
    else SegmentNodes(records[..|records| - 1])[records[|records| - 1].id := records[|records| - 1]]
  }

  function InsertSegment(s: Store, nodes: map<NodeId, NodeRecord>): Store {
    s.(nextSegment := s.nextSegment + 1, segments := s.segments[s.nextSegment := nodes])
  }

  /** The next version in a scope: one above the highest stored there. */
  function NextQuantizerVersion(s: Store, scope: QuantizerScope): nat {
    MaxOrZero(set r | r in s.quantizers && s.quantizers[r].0.scope == scope :: s.quantizers[r].0.version) + 1
  }

  function NewQuantizerReference(s: Store, scope: QuantizerScope): QuantizerReference {
    QuantizerReference(s.nextQuantizer, scope, NextQuantizerVersion(s, scope))
  }

  function StoreQuantizer(s: Store, scope: QuantizerScope, quantizer: StoredQuantizer): Store {
    s.(nextQuantizer := s.nextQuantizer + 1,
       quantizers := s.quantizers[s.nextQuantizer := (NewQuantizerReference(s, scope), quantizer)])
  }

  // ----- reads -----

  /** The first listed segment that holds the node. */
  function FindImmutable(s: Store, segments: seq<Segment>, id: NodeId): Result<Option<NodeRecord>> {
    if segments == [] then Ok(None)
    else if segments[0].reference !in s.segments then Err(StorageNotFound)
    else if id in s.segments[segments[0].reference] then Ok(Some(s.segments[segments[0].reference][id]))
    else FindImmutable(s, segments[1..], id)
  }

  function ReadImmutable(found: Result<Option<NodeRecord>>, id: NodeId): Result<NodeRead> {
    match found
    case Err(e) => Err(e)
    case Ok(None) => Ok(Missing(id))
    case Ok(Some(record)) => Ok(Present(RoutingOf(record)))
  }

  predicate Buried(d: Delta, epoch: nat, id: NodeId) {
    id in d.tombstones && d.tombstones[id] <= epoch
  }

  /** Resolution order: tombstone, delta record, neighbour overlay, immutable segments. */
  function ResolveNode(s: Store, snapshot: Manifest, id: NodeId): Result<NodeRead> {
    var found := FindImmutable(s, snapshot.segments, id);
    if snapshot.hotDelta.None? then ReadImmutable(found, id)
    else if snapshot.hotDelta.value !in s.deltas then Err(StorageNotFound)
    else
      var d := s.deltas[snapshot.hotDelta.value];
      if Buried(d, snapshot.tombstoneEpoch, id) then Ok(Tombstoned(id))
      else if id in d.records then Ok(Present(RoutingOf(d.records[id])))
      else if id in d.rewrites then
        match found
        case Err(e) => Err(e)
        case Ok(None) => Ok(Missing(id))
        case Ok(Some(record)) => Ok(Present(RoutingOf(record).(neighbors := d.rewrites[id])))
      else ReadImmutable(found, id)
  }

  function VectorOf(record: NodeRecord, id: NodeId): VectorRead {
    if record.full.Some? then VectorPresent(id, record.full.value) else VectorMissing(id)
  }

  function ResolveVector(s: Store, snapshot: Manifest, id: NodeId): Result<VectorRead> {
    var found := FindImmutable(s, snapshot.segments, id);
    var immutable := match found
      case Err(e) => Err(e)
      case Ok(None) => Ok(VectorMissing(id))
      case Ok(Some(record)) => Ok(VectorOf(record, id));
    if snapshot.hotDelta.None? then immutable
    else if snapshot.hotDelta.value !in s.deltas then Err(StorageNotFound)
    else
      var d := s.deltas[snapshot.hotDelta.value];
      if Buried(d, snapshot.tombstoneEpoch, id) then Ok(VectorTombstoned(id))
      else if id in d.records then Ok(VectorOf(d.records[id], id))
      else immutable
  }

  /** All references of the snapshot's data can be followed. */
  predicate Resolves(s: Store, snapshot: Manifest) {
    && (forall i :: 0 <= i < |snapshot.segments| ==> snapshot.segments[i].reference in s.segments)
    && (snapshot.hotDelta.Some? ==> snapshot.hotDelta.value in s.deltas)
  }

  function DeltaOf(s: Store, snapshot: Manifest): Delta {
    if snapshot.hotDelta.Some? && snapshot.hotDelta.value in s.deltas then s.deltas[snapshot.hotDelta.value]
    else Delta(map[], map[], map[])
  }

  /** The union of the listed segments; earlier segments win. */
  function ImmutableNodes(s: Store, segments: seq<Segment>): map<NodeId, NodeRecord> {
    if segments == [] then map[]
    else
      var rest := ImmutableNodes(s, segments[1..]);
      if segments[0].reference in s.segments then rest + s.segments[segments[0].reference] else rest
  }

  /** What a snapshot shows over an immutable base. */
  function Overlay(nodes: map<NodeId, NodeRecord>, d: Delta, epoch: nat): View {
    View(
      (map id | id in nodes :: if id in d.rewrites then nodes[id].(neighbors := d.rewrites[id]) else nodes[id]) + d.records,
      set id | id in d.tombstones && d.tombstones[id] <= epoch)
  }

  function ViewOf(s: Store, snapshot: Manifest): View {
    Overlay(ImmutableNodes(s, snapshot.segments), DeltaOf(s, snapshot), snapshot.tombstoneEpoch)
  }

  lemma {:induction false} FindInUnion(s: Store, segments: seq<Segment>, id: NodeId)
    requires forall i :: 0 <= i < |segments| ==> segments[i].reference in s.segments
    ensures var nodes := ImmutableNodes(s, segments);
      FindImmutable(s, segments, id) == Ok(if id in nodes then Some(nodes[id]) else None)
  {
    if segments != [] {
      assert forall i :: 0 <= i < |segments[1..]| ==> segments[1..][i] == segments[i + 1];
      FindInUnion(s, segments[1..], id);
    }
  }

  /** Resolution through a followable snapshot reads exactly the overlay view. */
  lemma ResolveReadsView(s: Store, snapshot: Manifest, id: NodeId)
    requires Resolves(s, snapshot)
    ensures ResolveNode(s, snapshot, id) == Ok(ReadNode(ViewOf(s, snapshot), id))
    ensures ResolveVector(s, snapshot, id) == Ok(ReadVector(ViewOf(s, snapshot), id))
  {
    FindInUnion(s, snapshot.segments, id);
  }

  /** A read fails only because something it needs is gone. */
  lemma {:induction false} ResolveErrors(s: Store, snapshot: Manifest, id: NodeId)
    ensures ResolveNode(s, snapshot, id).Err? ==> ResolveNode(s, snapshot, id).error == StorageNotFound && !Resolves(s, snapshot)
    ensures ResolveVector(s, snapshot, id).Err? ==> ResolveVector(s, snapshot, id).error == StorageNotFound && !Resolves(s, snapshot)
  {
    FindErrors(s, snapshot.segments, id);
    if Resolves(s, snapshot) {
      ResolveReadsView(s, snapshot, id);
    }
  }

  lemma {:induction false} FindErrors(s: Store, segments: seq<Segment>, id: NodeId)
    ensures FindImmutable(s, segments, id).Err? ==> FindImmutable(s, segments, id).error == StorageNotFound
  {
    if segments != [] {
      FindErrors(s, segments[1..], id);
    }
  }

  // ----- batches -----

  function Resolver(s: Store, snapshot: Manifest): NodeId -> Result<NodeRead> {
    (id: NodeId) => ResolveNode(s, snapshot, id)
  }

  function BatchRead(z: Sizes, s: Store, snapshot: Manifest, ids: seq<NodeId>, budget: QueryBudget): Result<seq<NodeRead>> {
    BatchOf(z, Resolver(s, snapshot), ids, budget)
  }

  /** Through a followable snapshot a batch reads the overlay view under the same budget. */
  lemma BatchReadsView(z: Sizes, s: Store, snapshot: Manifest, ids: seq<NodeId>, budget: QueryBudget)
    requires Resolves(s, snapshot)
    ensures BatchRead(z, s, snapshot, ids, budget) == ReadNodes(z, ViewOf(s, snapshot), ids, budget)
  {
    AllReadView(s, snapshot, ids);
  }

  lemma {:induction false} AllReadView(s: Store, snapshot: Manifest, ids: seq<NodeId>)
    requires Resolves(s, snapshot)
    ensures RowsOf(Resolver(s, snapshot), ids) == Ok(ReadAll(ViewOf(s, snapshot), ids))
  {
    if ids != [] {
      AllReadView(s, snapshot, ids[..|ids| - 1]);
      ResolveReadsView(s, snapshot, ids[|ids| - 1]);
      var view := ViewOf(s, snapshot);
      assert ReadAll(view, ids) == ReadAll(view, ids[..|ids| - 1]) + [ReadNode(view, ids[|ids| - 1])];
    }
  }

  function VectorResolver(s: Store, snapshot: Manifest): NodeId -> Result<VectorRead> {
    (id: NodeId) => ResolveVector(s, snapshot, id)
  }

  function VectorBytesOf(z: Sizes, snapshot: Manifest): nat { snapshot.config.dimensions * z.float }

  function VectorBatchRead(z: Sizes, s: Store, snapshot: Manifest, ids: seq<NodeId>, budget: QueryBudget): Result<seq<VectorRead>> {
    VectorBatchOf(z, VectorResolver(s, snapshot), ids, budget, VectorBytesOf(z, snapshot))
  }

  /** The same for full vectors, with the budget that rescoring works under. */
  lemma VectorBatchReadsView(z: Sizes, s: Store, snapshot: Manifest, ids: seq<NodeId>, budget: QueryBudget)
    requires Resolves(s, snapshot)
    ensures VectorBatchRead(z, s, snapshot, ids, budget)
      == ReadVectors(z, ViewOf(s, snapshot), ids, budget, VectorBytesOf(z, snapshot))
  {
    AllVectorsReadView(s, snapshot, ids);
  }

  lemma {:induction false} AllVectorsReadView(s: Store, snapshot: Manifest, ids: seq<NodeId>)
    requires Resolves(s, snapshot)
    ensures RowsOf(VectorResolver(s, snapshot), ids) == Ok(ReadAllVectors(ViewOf(s, snapshot), ids))
  {
    if ids != [] {
      AllVectorsReadView(s, snapshot, ids[..|ids| - 1]);
      ResolveReadsView(s, snapshot, ids[|ids| - 1]);
      var view := ViewOf(s, snapshot);
      assert ReadAllVectors(view, ids) == ReadAllVectors(view, ids[..|ids| - 1]) + [ReadVector(view, ids[|ids| - 1])];
    }
  }
}
