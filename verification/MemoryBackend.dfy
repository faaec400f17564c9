/** The in-memory backend: record payloads are heap objects shared between the draft and frozen deltas. */
module MemoryBackend {
  import opened Common
  import opened Records
  import opened Reading
  import opened StorageModel

  /** A reference-counted record; several deltas may hold the same object. */
  class SharedRecord {
    var value: NodeRecord

    constructor (value: NodeRecord)
      ensures this.value == value
    {
      this.value := value;
    }
  }

  datatype SharedDelta = SharedDelta(
    records: map<NodeId, SharedRecord>,
    rewrites: map<NodeId, seq<NodeId>>,
    tombstones: map<NodeId, nat>)

  /** The frozen deltas that survive collection. */
  function Superseding(deltas: map<nat, SharedDelta>, published: Option<nat>): map<nat, SharedDelta> {
    map r | r in deltas && Survives(deltas.Keys, r, published) :: deltas[r]
  }

  /** The heap delta reads as the given value, each record under its own id and inside `cells`. */
  ghost predicate Holds(d: SharedDelta, value: Delta, cells: set<SharedRecord>)
    reads cells
  {
    && d.rewrites == value.rewrites && d.tombstones == value.tombstones && d.records.Keys == value.records.Keys
    && forall id :: id in d.records ==>
         d.records[id] in cells && d.records[id].value == value.records[id] && value.records[id].id == id
  }

  ghost predicate HoldsAll(deltas: map<nat, SharedDelta>, values: map<nat, Delta>, cells: set<SharedRecord>)
    reads cells
  {
    deltas.Keys == values.Keys && forall r :: r in deltas ==> Holds(deltas[r], values[r], cells)
  }

  lemma HoldsMore(deltas: map<nat, SharedDelta>, values: map<nat, Delta>, cells: set<SharedRecord>, more: set<SharedRecord>)
    requires HoldsAll(deltas, values, cells) && cells <= more
    ensures HoldsAll(deltas, values, more)
  {}

  lemma HoldsPut(d: SharedDelta, value: Delta, cells: set<SharedRecord>, cell: SharedRecord)
    requires Holds(d, value, cells)
    ensures Holds(d.(records := d.records[cell.value.id := cell]),
                  value.(records := value.records[cell.value.id := cell.value]), cells + {cell})
  {}

  lemma HoldsAppended(d: SharedDelta, value: Delta, cells: set<SharedRecord>, cell: SharedRecord)
    requires Holds(d, value, cells)
    ensures var id := cell.value.id;
      Holds(SharedDelta(d.records[id := cell], d.rewrites - {id}, d.tombstones - {id}),
            Delta(value.records[id := cell.value], value.rewrites - {id}, value.tombstones - {id}), cells + {cell})
  {}

  /** Without the id that holds an object, nothing in the delta depends on that object. */
  lemma HoldsWithout(d: SharedDelta, value: Delta, cells: set<SharedRecord>, id: NodeId)
    requires Holds(d, value, cells) && id in d.records
    ensures Holds(d.(records := d.records - {id}), value.(records := value.records - {id}), cells - {d.records[id]})
    ensures d.records[id] in cells && d.records[id].value.id == id
  {}

  lemma HoldsBuried(d: SharedDelta, value: Delta, cells: set<SharedRecord>, id: NodeId, epoch: nat)
    requires Holds(d, value, cells)
    ensures Holds(SharedDelta(d.records - {id}, d.rewrites - {id}, d.tombstones[id := epoch]),
                  Delta(value.records - {id}, value.rewrites - {id}, value.tombstones[id := epoch]), cells)
  {}

  lemma HoldsRewritten(d: SharedDelta, value: Delta, cells: set<SharedRecord>, id: NodeId, list: seq<NodeId>)
    requires Holds(d, value, cells)
    ensures Holds(d.(rewrites := d.rewrites[id := list]), value.(rewrites := value.rewrites[id := list]), cells)
  {}

  lemma HoldsKeys(d: SharedDelta, value: Delta, cells: set<SharedRecord>)
    requires Holds(d, value, cells)
    ensures d.records.Keys == value.records.Keys && d.tombstones == value.tombstones
  {}

  lemma HoldsAllKeys(deltas: map<nat, SharedDelta>, values: map<nat, Delta>, cells: set<SharedRecord>)
    requires HoldsAll(deltas, values, cells)
    ensures deltas.Keys == values.Keys
  {}

  lemma HoldsFrozen(deltas: map<nat, SharedDelta>, values: map<nat, Delta>, cells: set<SharedRecord>,
                    reference: nat, d: SharedDelta, value: Delta, published: Option<nat>)
    requires HoldsAll(deltas, values, cells) && Holds(d, value, cells)
    ensures HoldsAll(Superseding(deltas[reference := d], published), Collect(values[reference := value], published), cells)
  {
    hide Survives, Holds;
    assert deltas[reference := d].Keys == values[reference := value].Keys;
  }

  /** An object no frozen delta holds under its own id is held by none. */
  lemma Unshared(deltas: map<nat, SharedDelta>, values: map<nat, Delta>, cells: set<SharedRecord>, id: NodeId, cell: SharedRecord)
    requires HoldsAll(deltas, values, cells) && cell in cells && cell.value.id == id
    requires forall r :: r in deltas && id in deltas[r].records ==> deltas[r].records[id] != cell
    ensures HoldsAll(deltas, values, cells - {cell})
  {}

  ghost function PutRecord(s: Store, record: NodeRecord): Store {
    s.(draft := s.draft.(delta := s.draft.delta.(records := s.draft.delta.records[record.id := record])))
  }

  class MemoryStorage {
    var manifest: Manifest
    var nextSegment: nat
    var segments: map<nat, map<NodeId, NodeRecord>>
    var nextDelta: nat
    var deltas: map<nat, SharedDelta>
    var draft: SharedDelta
    var draftStarts: Option<StartNodes>
    var nextEpoch: nat
    var nextQuantizer: nat
    var quantizers: map<nat, (QuantizerReference, StoredQuantizer)>

    /** The storage as a value. */
    ghost var model: Store
    /** Every record object the storage has created. */
    ghost var cells: set<SharedRecord>

    ghost predicate Valid()
      reads this, cells
    {
      && Holds(draft, model.draft.delta, cells)
      && HoldsAll(deltas, model.deltas, cells)
      && model == Store(manifest, nextSegment, segments, nextDelta, model.deltas, Draft(model.draft.delta, draftStarts),
                        nextEpoch, nextQuantizer, quantizers)
    }

    constructor (initial: Manifest)
      ensures Valid() && model == InitialStore(initial) && cells == {}
    {
      manifest, nextSegment, segments, nextDelta, deltas := initial, 1, map[], 1, map[];
      draft, draftStarts, nextEpoch, nextQuantizer, quantizers := SharedDelta(map[], map[], map[]), None, 1, 1, map[];
      model, cells := InitialStore(initial), {};
    }

    method AppendNode(record: NodeRecord, config: IndexConfig) returns (ok: bool)
      requires Valid()
      modifies this
      ensures Valid() && fresh(cells - old(cells))
      ensures ok <==> RecordValid(record, config)
      ensures model == if ok then StorageModel.AppendNode(old(model), record) else old(model)
    {
      hide RecordValid, Holds, HoldsAll, StorageModel.AppendNode;
      ok := ValidateRecord(record, config);
      if ok {
        PutFresh(record);
      }
    }

    /** Puts a new record object into the draft. */
    method PutFresh(record: NodeRecord)
      requires Valid()
      modifies this
      ensures Valid() && fresh(cells - old(cells))
      ensures model == StorageModel.AppendNode(old(model), record)
    {
      hide Holds, HoldsAll;
      var cell := new SharedRecord(record);
      HoldsMore(deltas, model.deltas, cells, cells + {cell});
      HoldsAppended(draft, model.draft.delta, cells, cell);
      cells := cells + {cell};
      model := StorageModel.AppendNode(model, record);
      draft := SharedDelta(draft.records[record.id := cell], draft.rewrites - {record.id}, draft.tombstones - {record.id});
    }

    /**
     * Copy-on-write: a draft record that some frozen delta still holds is replaced by a changed copy;
     * one that nobody else holds is changed in place.
     */
    method RewriteNeighbors(id: NodeId, neighbors: seq<NodeId>, config: IndexConfig) returns (ok: bool)
      requires Valid()
      modifies this, cells
      ensures Valid() && fresh(cells - old(cells))
      ensures ok <==> NeighborsValid(id, neighbors, config.maxNeighbors)
      ensures model == if ok then StorageModel.RewriteNeighbors(old(model), id, neighbors) else old(model)
    {
      hide NeighborsValid, Holds, HoldsAll;
      HoldsKeys(draft, model.draft.delta, cells);
      ok := ValidateNeighbors(id, neighbors, config.maxNeighbors);
      if ok {
        if id in draft.records {
          RewriteShared(id, neighbors);
        } else {
          HoldsRewritten(draft, model.draft.delta, cells, id, neighbors);
          draft := draft.(rewrites := draft.rewrites[id := neighbors]);
          model := StorageModel.RewriteNeighbors(model, id, neighbors);
        }
      }
    }

    method RewriteShared(id: NodeId, neighbors: seq<NodeId>)
      requires Valid() && id in draft.records
      modifies this, cells
      ensures Valid() && fresh(cells - old(cells))
      ensures model == StorageModel.RewriteNeighbors(old(model), id, neighbors)
    {
      var cell := draft.records[id];
      var changed := cell.value.(neighbors := neighbors);
      if exists r :: r in deltas && id in deltas[r].records && deltas[r].records[id] == cell {
        ReplaceByCopy(id, changed);
      } else {
        Unshared(deltas, model.deltas, cells, id, cell);
        ChangeInPlace(id, cell, changed);
      }
    }

    method ReplaceByCopy(id: NodeId, changed: NodeRecord)
      requires Valid() && id in draft.records && changed.id == id
      modifies this
      ensures Valid() && fresh(cells - old(cells))
      ensures model == PutRecord(old(model), changed)
    {
      hide Holds, HoldsAll;
      var copy := new SharedRecord(changed);
      HoldsMore(deltas, model.deltas, cells, cells + {copy});
      HoldsPut(draft, model.draft.delta, cells, copy);
      draft, cells := draft.(records := draft.records[id := copy]), cells + {copy};
      model := PutRecord(model, changed);
    }

    method ChangeInPlace(id: NodeId, cell: SharedRecord, changed: NodeRecord)
      requires Valid() && id in draft.records && draft.records[id] == cell && changed.id == id
      requires HoldsAll(deltas, model.deltas, cells - {cell})
      modifies this, cells
      ensures Valid() && cells == old(cells)
      ensures model == PutRecord(old(model), changed)
    {
      hide Holds, HoldsAll;
      HoldsWithout(draft, model.draft.delta, cells, id);
      ghost var without := draft.(records := draft.records - {id});
      cell.value := changed;
      HoldsMore(deltas, model.deltas, cells - {cell}, cells);
      HoldsPut(without, model.draft.delta.(records := model.draft.delta.records - {id}), cells - {cell}, cell);
      assert without.records[id := cell] == draft.records && cells - {cell} + {cell} == cells;
      assert (model.draft.delta.records - {id})[id := changed] == model.draft.delta.records[id := changed];
      model := PutRecord(model, changed);
    }

    method TombstoneNode(id: NodeId) returns (epoch: nat)
      requires Valid()
      modifies this
      ensures Valid() && cells == old(cells)
      ensures epoch == old(model).nextEpoch && model == StorageModel.TombstoneNode(old(model), id)
    {
      hide Holds, HoldsAll;
      HoldsBuried(draft, model.draft.delta, cells, id, nextEpoch);
      epoch := nextEpoch;
      nextEpoch := nextEpoch + 1;
      draft := SharedDelta(draft.records - {id}, draft.rewrites - {id}, draft.tombstones[id := epoch]);
      model := StorageModel.TombstoneNode(model, id);
    }

    method UpdateStarts(starts: StartNodes)
      requires Valid()
      modifies this
      ensures Valid() && cells == old(cells)
      ensures model == StorageModel.UpdateStarts(old(model), starts)
    {
      hide Holds, HoldsAll;
      draftStarts := Some(starts);
      model := StorageModel.UpdateStarts(model, starts);
    }

    /** Freezes the draft by sharing its record objects, then drops superseded frozen deltas. */
    method PublishHotDelta() returns (published: PublishedDelta)
      requires Valid()
      modifies this
      ensures Valid() && cells == old(cells)
      ensures published == Frozen(old(model)) && model == FreezeDelta(old(model), true)
    {
      hide Holds, HoldsAll, Superseding, Collect, Survives;
      HoldsKeys(draft, model.draft.delta, cells);
      published := PublishedDelta(nextDelta, draftStarts, MaxOrZero(draft.tombstones.Values));
      HoldsFrozen(deltas, model.deltas, cells, nextDelta, draft, model.draft.delta, manifest.hotDelta);
      deltas := Superseding(deltas[nextDelta := draft], manifest.hotDelta);
      nextDelta := nextDelta + 1;
      model := FreezeDelta(model, true);
    }

    method CompareAndPublish(expected: nat, replacement: Manifest) returns (r: Result<Manifest>)
      requires Valid()
      modifies this
      ensures Valid() && cells == old(cells)
      ensures r.Err? <==> PublishError(old(model), expected, replacement).Some?
      ensures r.Err? ==> Some(r.error) == PublishError(old(model), expected, replacement) && model == old(model)
      ensures r.Ok? ==> model == Publish(old(model), replacement) && r.value == model.manifest
    {
      hide ManifestValid, Holds, HoldsAll;
      HoldsAllKeys(deltas, model.deltas, cells);
      if ManifestError(replacement).Some? {
        return Err(ManifestError(replacement).value);
      }
      if manifest.version != expected {
        return Err(VersionMismatch);
      }
      if !(forall i :: 0 <= i < |replacement.segments| ==> replacement.segments[i].reference in segments)
         || (replacement.hotDelta.Some? && replacement.hotDelta.value !in deltas)
         || !(forall i :: 0 <= i < |replacement.quantizers| ==>
                replacement.quantizers[i].reference in quantizers
                && quantizers[replacement.quantizers[i].reference].0 == replacement.quantizers[i]) {
        return Err(StorageNotFound);
      }
      manifest := replacement.(version := expected + 1);
      model := Publish(model, replacement);
      r := Ok(manifest);
    }

    /** Stores records as one immutable segment; rejects invalid records and repeated ids. */
    method InsertSegment(records: seq<NodeRecord>, config: IndexConfig) returns (r: Result<Segment>)
      requires Valid()
      modifies this
      ensures Valid() && cells == old(cells)
      ensures r.Ok? <==> Insertable(records, config)
      ensures r.Ok? ==> r.value == Segment(old(model).nextSegment, |records|)
      ensures model == if r.Ok? then StorageModel.InsertSegment(old(model), SegmentNodes(records)) else old(model)
    {
      hide Insertable, Holds, HoldsAll;
      var collected := CollectSegment(records, config);
      if collected.Err? {
        return Err(collected.error);
      }
      r := Ok(Segment(nextSegment, |collected.value|));
      segments, nextSegment := segments[nextSegment := collected.value], nextSegment + 1;
      model := StorageModel.InsertSegment(model, collected.value);
    }

    method StoreQuantizer(scope: QuantizerScope, quantizer: StoredQuantizer) returns (reference: QuantizerReference)
      requires Valid()
      modifies this
      ensures Valid() && cells == old(cells)
      ensures reference == NewQuantizerReference(old(model), scope)
      ensures model == StorageModel.StoreQuantizer(old(model), scope, quantizer)
    {
      hide Holds, HoldsAll;
      var versions := set r | r in quantizers && quantizers[r].0.scope == scope :: quantizers[r].0.version;
      reference := QuantizerReference(nextQuantizer, scope, MaxOrZero(versions) + 1);
      model := StorageModel.StoreQuantizer(model, scope, quantizer);
      quantizers, nextQuantizer := quantizers[nextQuantizer := (reference, quantizer)], nextQuantizer + 1;
    }

    /** One bounded batch read through a pinned snapshot. */
    method ReadNodes(z: Sizes, snapshot: Manifest, ids: seq<NodeId>, budget: QueryBudget) returns (r: Result<seq<NodeRead>>)
      requires Valid()
      ensures r == BatchRead(z, model, snapshot, ids, budget)
    {
      if !budget.Valid() {
        return Err(BudgetExceeded);
      }
      if |ids| > budget.maxReadBatch {
        return Err(BatchTooLarge);
      }
      var rows: seq<NodeRead> := [];
      for i := 0 to |ids|
        invariant RowsOf(Resolver(model, snapshot), ids[..i]) == Ok(rows)
      {
        assert ids[..i + 1][..i] == ids[..i];
        RowsPrefix(Resolver(model, snapshot), ids, i + 1);
        var row := Resolve(snapshot, ids[i]);
        if row.Err? {
          return Err(row.error);
        }
        rows := rows + [row.value];
      }
      assert ids[..|ids|] == ids;
      r := if BatchBytes(z, rows) > budget.maxQueryBytes then Err(BudgetExceeded) else Ok(rows);
    }

    method Resolve(snapshot: Manifest, id: NodeId) returns (r: Result<NodeRead>)
      requires Valid()
      ensures r == ResolveNode(model, snapshot, id)
    {
      var found := FindRecord(snapshot.segments, id);
      if snapshot.hotDelta.None? {
        return ReadImmutable(found, id);
      }
      if snapshot.hotDelta.value !in deltas {
        return Err(StorageNotFound);
      }
      var d := deltas[snapshot.hotDelta.value];
      assert Holds(d, model.deltas[snapshot.hotDelta.value], cells);
      if id in d.tombstones && d.tombstones[id] <= snapshot.tombstoneEpoch {
        return Ok(Tombstoned(id));
      }
      if id in d.records {
        return Ok(Present(RoutingOf(d.records[id].value)));
      }
      if id in d.rewrites && found.Ok? && found.value.Some? {
        return Ok(Present(RoutingOf(found.value.value).(neighbors := d.rewrites[id])));
      }
      return ReadImmutable(found, id);
    }

    /** One bounded batch of full vectors; the byte budget is checked before anything is read. */
    method ReadFullVectors(z: Sizes, snapshot: Manifest, ids: seq<NodeId>, budget: QueryBudget) returns (r: Result<seq<VectorRead>>)
      requires Valid()
      ensures r == VectorBatchRead(z, model, snapshot, ids, budget)
    {
      if !budget.Valid() {
        return Err(BudgetExceeded);
      }
      if |ids| > budget.maxRescore {
        return Err(BatchTooLarge);
      }
      if |ids| * VectorBytesOf(z, snapshot) > budget.maxFullVectorBytes {
        return Err(BudgetExceeded);
      }
      var rows: seq<VectorRead> := [];
      for i := 0 to |ids|
        invariant RowsOf(VectorResolver(model, snapshot), ids[..i]) == Ok(rows)
      {
        assert ids[..i + 1][..i] == ids[..i];
        RowsPrefix(VectorResolver(model, snapshot), ids, i + 1);
        var row := ResolveFull(snapshot, ids[i]);
        if row.Err? {
          return Err(row.error);
        }
        rows := rows + [row.value];
      }
      assert ids[..|ids|] == ids;
      r := if VectorBatchBytes(z, rows) > budget.maxQueryBytes then Err(BudgetExceeded) else Ok(rows);
    }

    method ResolveFull(snapshot: Manifest, id: NodeId) returns (r: Result<VectorRead>)
      requires Valid()
      ensures r == ResolveVector(model, snapshot, id)
    {
      if snapshot.hotDelta.Some? {
        if snapshot.hotDelta.value !in deltas {
          return Err(StorageNotFound);
        }
        var d := deltas[snapshot.hotDelta.value];
        assert Holds(d, model.deltas[snapshot.hotDelta.value], cells);
        if id in d.tombstones && d.tombstones[id] <= snapshot.tombstoneEpoch {
          return Ok(VectorTombstoned(id));
        }
        if id in d.records {
          return Ok(VectorOf(d.records[id].value, id));
        }
      }
      var found := FindRecord(snapshot.segments, id);
      match found {
        case Err(e) => return Err(e);
        case Ok(None) => return Ok(VectorMissing(id));
        case Ok(Some(record)) => return Ok(VectorOf(record, id));
      }
    }

    method FindRecord(listed: seq<Segment>, id: NodeId) returns (r: Result<Option<NodeRecord>>)
      requires Valid()
      ensures r == FindImmutable(model, listed, id)
    {
      for k := 0 to |listed|
        invariant FindImmutable(model, listed, id) == FindImmutable(model, listed[k..], id)
      {
        assert listed[k..][1..] == listed[k + 1..];
        if listed[k].reference !in segments {
          return Err(StorageNotFound);
        }
        if id in segments[listed[k].reference] {
          return Ok(Some(segments[listed[k].reference][id]));
        }
      }
      return Ok(None);
    }
  }

  /** The conditions under which a list of records may become one segment. */
  ghost predicate Insertable(records: seq<NodeRecord>, config: IndexConfig) {
    && config.Valid()
    && (forall i :: 0 <= i < |records| ==> RecordValid(records[i], config))
    && (forall i, j :: 0 <= i < j < |records| ==> records[i].id != records[j].id)
  }

  method CollectSegment(records: seq<NodeRecord>, config: IndexConfig) returns (r: Result<map<NodeId, NodeRecord>>)
    ensures r.Ok? <==> Insertable(records, config)
    ensures r.Ok? ==> r.value == SegmentNodes(records) && |r.value| == |records|
  {
    hide RecordValid, Insertable, Ids;
    InsertableStep(records, 0, config);
    if !config.Valid() {
      return Err(InvalidConfig);
    }
    var nodes: map<NodeId, NodeRecord> := map[];
    for k := 0 to |records|
      invariant nodes == SegmentNodes(records[..k]) && |nodes| == k
      invariant nodes.Keys == Ids(records[..k])
      invariant Insertable(records[..k], config)
    {
      assert records[..k + 1][..k] == records[..k] && records[..k + 1][k] == records[k];
      InsertableStep(records, k, config);
      var valid := ValidateRecord(records[k], config);
      if !valid {
        return Err(InvalidNodeRecord);
      }
      if records[k].id in nodes {
        return Err(InvalidStorageState);
      }
      nodes := nodes[records[k].id := records[k]];
    }
    assert records[..|records|] == records;
    r := Ok(nodes);
  }

  function Ids(records: seq<NodeRecord>): set<NodeId> { set record | record in records :: record.id }

  lemma InsertableStep(records: seq<NodeRecord>, k: nat, config: IndexConfig)
    requires k <= |records|
    ensures Insertable(records[..0], config) <==> config.Valid()
    ensures Insertable(records, config) ==> config.Valid()
    ensures k < |records| ==> Ids(records[..k + 1]) == Ids(records[..k]) + {records[k].id}
    ensures k < |records| && Insertable(records[..k], config) ==>
      (Insertable(records[..k + 1], config) <==> RecordValid(records[k], config) && records[k].id !in Ids(records[..k]))
    ensures k < |records| && Insertable(records, config) ==> Insertable(records[..k + 1], config)
    ensures Ids(records[..0]) == {}
  {
    hide RecordValid;
    if k < |records| {
      var before := records[..k];
      assert records[..k + 1] == before + [records[k]];
      assert forall i :: 0 <= i < k ==> before[i] in before;
    }
  }
}
