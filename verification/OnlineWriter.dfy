/** The write path of the index object: id allocation, staging over the shared storage, publication. */
module OnlineWriter {
  import opened Common
  import opened Labels
  import opened Records
  import opened StorageModel
  import opened StorageRuns
  import opened MemoryBackend
  import opened Reading
  import opened Search
  import opened SearchLoop
  import opened SnapshotSearch
  import opened BulkBuild
  import opened InsertPlanning
  import opened OnlineModel
  import opened OnlineSteps
  import opened OnlineRuns
  import opened OnlineBase
  import opened StartRepair
  import ExactSearch

  class OnlineIndex {
    const config: IndexConfig
    const storage: MemoryStorage
    var nextNodeId: nat
    var log: seq<Mutation>

    constructor (config: IndexConfig, storage: MemoryStorage, nextNodeId: nat, log: seq<Mutation>)
      ensures this.config == config && this.storage == storage && this.nextNodeId == nextNodeId && this.log == log
    {
      this.config, this.storage, this.nextNodeId, this.log := config, storage, nextNodeId, log;
    }

    /** The index as a value. */
    ghost function Model(): Index
      reads this, storage
    {
      Index(storage.model, nextNodeId, log)
    }

    /** Between operations: the index is healthy, and `view` is what reads of the current manifest show. */
    ghost predicate Serves(env: OnlineEnv, view: View)
      reads this, storage, storage.cells
    {
      storage.Valid() && env.config == config && Healthy(env, Model()) && view == CurrentView(storage.model)
    }

    /** Ready for an operation over the current manifest. */
    ghost predicate Ready()
      reads this, storage, storage.cells
    {
      storage.Valid() && Inv(storage.model) && ManifestValid(storage.model.manifest)
    }

    /** Hands out an id; from now on the next one lies above it. */
    method AllocateNodeId() returns (id: NodeId)
      modifies this
      ensures id == old(nextNodeId) && nextNodeId == id + 1 && log == old(log)
    {
      id := nextNodeId;
      nextNodeId := nextNodeId + 1;
    }

    /** Afterwards the next id lies above the given one; it never drops, and moves no further than it has to. */
    method AdvanceNextNodeIdAfter(id: NodeId)
      modifies this
      ensures old(nextNodeId) <= nextNodeId && id < nextNodeId
      ensures nextNodeId > old(nextNodeId) ==> nextNodeId == id + 1
      ensures log == old(log)
    {
      nextNodeId := Max(nextNodeId, id + 1);
    }

    /** Freezes the draft and swaps in a manifest that shows it; with one writer the swap cannot fail. */
    method PublishHotDeltaOver(snapshot: Manifest) returns (r: Result<Manifest>)
      requires Ready() && snapshot == storage.model.manifest
      modifies storage
      ensures Ready() && storage.cells == old(storage.cells)
      ensures storage.model == PublishOver(old(storage.model), snapshot, Highest(nextNodeId))
      ensures r == Ok(storage.model.manifest)
    {
      hide Inv, ManifestValid, FreezeDelta, Frozen;
      ghost var s := storage.model;
      PublishOverFacts(s, Highest(nextNodeId));
      FreezeFields(s);
      var published := storage.PublishHotDelta();
      var highest := if nextNodeId == 0 then 0 else nextNodeId - 1;
      var replacement := snapshot.(
        hotDelta := Some(published.reference),
        tombstoneEpoch := Max(snapshot.tombstoneEpoch, published.tombstoneEpoch));
      if published.starts.Some? {
        replacement := replacement.(starts := published.starts.value);
      }
      replacement := replacement.(
        maxAssigned := Some(if replacement.maxAssigned.Some? then Max(replacement.maxAssigned.value, highest) else highest));
      r := storage.CompareAndPublish(snapshot.version, replacement);
    }

    /** Rewrites the lists of the chosen neighbours that are still readable, one by one. */
    method RewriteBackpointers(z: Sizes, env: OnlineEnv, view: View, record: NodeRecord, ids: seq<NodeId>) returns (error: Option<Error>)
      requires storage.Valid() && env.config == config && env.config.Valid() && Keyed(view.nodes) && record.id !in Live(view)
      modifies storage, storage.cells
      ensures storage.Valid() && fresh(storage.cells - old(storage.cells))
      ensures storage.model.manifest == old(storage.model.manifest)
      ensures error.None? ==> storage.model == ApplyRewrites(old(storage.model), RewritesFor(env, view, record, ids))
      ensures error.Some? ==> !AnyBatchFits(z, view, DEFAULT_BUDGET)
    {
      hide NeighborsValid, Backpointers, Live, AnyBatchFits;
      for i := 0 to |ids|
        invariant storage.Valid() && fresh(storage.cells - old(storage.cells))
        invariant storage.model.manifest == old(storage.model.manifest)
        invariant storage.model == ApplyRewrites(old(storage.model), RewritesFor(env, view, record, ids[..i]))
      {
        var list := RewriteBackpointer(z, env, view, record, ids[i]);
        if list.Err? {
          return Some(list.error);
        }
        NextRewrite(env, old(storage.model), view, record, ids, i);
        if list.value.Some? {
          BackpointersValid(env, view, record, ids[i]);
          var ok := storage.RewriteNeighbors(ids[i], list.value.value, config);
        }
      }
      assert ids[..|ids|] == ids;
      error := None;
    }

    lemma NextRewrite(env: OnlineEnv, s: Store, view: View, record: NodeRecord, ids: seq<NodeId>, i: nat)
      requires i < |ids|
      ensures ApplyRewrites(s, RewritesFor(env, view, record, ids[..i + 1]))
        == var before := ApplyRewrites(s, RewritesFor(env, view, record, ids[..i]));
           if ids[i] in Live(view) then StorageModel.RewriteNeighbors(before, ids[i], Backpointers(env, view, record, ids[i])) else before
    {
      hide Backpointers, Live, StorageModel.RewriteNeighbors;
      assert ids[..i + 1][..i] == ids[..i];
      var front := RewritesFor(env, view, record, ids[..i]);
      if ids[i] in Live(view) {
        assert (front + [(ids[i], Backpointers(env, view, record, ids[i]))])[..|front|] == front;
      }
    }

    /** Plans the record of an insert on the pinned view: its neighbours come from the searches it runs. */
    method PlanRecord(z: Sizes, env: OnlineEnv, view: View, id: NodeId, externalId: nat, vector: Vector, labels: LabelSet,
                      ghost bound: nat) returns (r: Result<NodeRecord>)
      requires Serves(env, view) && Encoding(env) && Accepted(env, vector, labels) && id !in Live(view)
      ensures r.Ok? ==> r.value == RecordFor(env, storage.model, id, externalId, vector, labels) && RecordValid(r.value, env.config)
      ensures AmpleSearches(z, env, view, storage.model.manifest.starts, vector, labels, bound) ==> r.Ok?
    {
      hide AmpleSearches, Healthy, CurrentView, InsertNeighbors, Live, RecordValid, Inv, ManifestValid, ListsNothing;
      HealthyFacts(env, Model());
      EmptyShowsNothing(storage.model);
      var snapshot := storage.manifest;
      var ids := FindInsertNeighbors(z, env, view, snapshot.starts, ListsNothing(snapshot), vector, labels, bound);
      if ids.Err? {
        return Err(ids.error);
      }
      AcceptedValid(env, Model(), id, externalId, vector, labels);
      r := Ok(NodeRecord(id, externalId, env.route(vector), Some(vector), labels, ids.value));
    }

    lemma EmptyShowsNothing(s: Store)
      requires Inv(s)
      ensures ListsNothing(s.manifest) ==> CurrentView(s).nodes == map[]
    {
      if ListsNothing(s.manifest) {
        NothingListed(s, s.manifest);
        CurrentDeltaThere(s);
      }
    }

    /** Plans an insert on the pinned view and stages its writes: the record, the rewritten lists, the start nodes. */
    method StageInsert(z: Sizes, env: OnlineEnv, view: View, id: NodeId, externalId: nat, vector: Vector, labels: LabelSet,
                       ghost bound: nat) returns (error: Option<Error>)
      requires Serves(env, view) && Encoding(env) && Accepted(env, vector, labels) && id !in Live(view)
      modifies storage, storage.cells
      ensures storage.Valid() && fresh(storage.cells - old(storage.cells))
      ensures storage.model.manifest == old(storage.model.manifest)
      ensures error.None? ==>
        storage.model == Stage(old(storage.model), PlanInsert(env, old(storage.model), id, externalId, vector, labels))
      ensures AmpleInsert(z, env, view, old(storage.model.manifest.starts), vector, labels, bound) ==> error.None?
    {
      hide AmpleSearches, AnyBatchFits, Healthy, CurrentView, PlanInsert, RecordFor, Live, RewritesFor, StartsAfterInsert,
           RecordValid, Stage, ApplyRewrites, StorageModel.AppendNode, StorageModel.UpdateStarts, Inv, ManifestValid, Accepted, Encoding;
      ghost var s := storage.model;
      HealthyFacts(env, Model());
      var snapshot := storage.manifest;
      var planned := PlanRecord(z, env, view, id, externalId, vector, labels, bound);
      if planned.Err? {
        return Some(planned.error);
      }
      var record := planned.value;
      PlanUnfolds(env, s, id, externalId, vector, labels);
      StageUnfolds(s, PlanInsert(env, s, id, externalId, vector, labels));
      var ok := storage.AppendNode(record, config);
      error := RewriteBackpointers(z, env, view, record, record.neighbors);
      if error.Some? {
        return;
      }
      var starts := ExtendStartNodes(z, view, snapshot.starts, id, labels);
      if starts.Err? {
        return Some(starts.error);
      }
      if starts.value.Some? {
        UpdateKeepsManifest(storage.model, starts.value.value);
        storage.UpdateStarts(starts.value.value);
      }
    }

    lemma PlanUnfolds(env: OnlineEnv, s: Store, id: NodeId, externalId: nat, vector: Vector, labels: LabelSet)
      ensures var record := RecordFor(env, s, id, externalId, vector, labels);
        && record.id == id
        && PlanInsert(env, s, id, externalId, vector, labels)
           == Staged(record, RewritesFor(env, CurrentView(s), record, record.neighbors),
                     StartsAfterInsert(CurrentView(s), s.manifest.starts, id, labels))
    {
      hide CurrentView, RewritesFor, StartsAfterInsert, InsertNeighbors;
    }

    lemma UpdateKeepsManifest(s: Store, starts: StartNodes)
      ensures StorageModel.UpdateStarts(s, starts).manifest == s.manifest
    {}

    /**
     * Inserts an already normalised row under a given id and publishes it. A failure on the way leaves the published
     * manifest as it was; without a quantizer to encode the row nothing is written at all.
     */
    method ApplyInsert(z: Sizes, env: OnlineEnv, view: View, id: NodeId, externalId: nat, vector: Vector, labels: LabelSet,
                       ghost bound: nat) returns (r: Result<NodeId>)
      requires Serves(env, view) && Encoding(env) && Accepted(env, vector, labels) && id !in Live(view)
      modifies this, storage, storage.cells
      ensures storage.Valid() && fresh(storage.cells - old(storage.cells)) && log == old(log)
      ensures r.Ok? ==> r.value == id && Routable(old(storage.model.manifest))
      ensures r.Ok? ==> Model() == OnlineModel.ApplyInsert(env, old(Model()), id, externalId, vector, labels)
      ensures r.Err? ==> storage.model.manifest == old(storage.model.manifest) && nextNodeId == old(nextNodeId)
      ensures !Routable(old(storage.model.manifest)) ==> r == Err(InvalidStorageState) && storage.model == old(storage.model)
      ensures Routable(old(storage.model.manifest)) && AmpleInsert(z, env, view, old(storage.model.manifest.starts), vector, labels, bound)
        ==> r.Ok?
    {
      hide AmpleInsert, Healthy, CurrentView, PlanInsert, Stage, PublishOver, Routable, Live, Inv, ManifestValid, Extends;
      ghost var s := storage.model;
      HealthyFacts(env, Model());
      var snapshot := storage.manifest;
      if !Routable(snapshot) {
        return Err(InvalidStorageState);
      }
      var failed := StageInsert(z, env, view, id, externalId, vector, labels, bound);
      if failed.Some? {
        return Err(failed.value);
      }
      StageInv(s, PlanInsert(env, s, id, externalId, vector, labels));
      AdvanceNextNodeIdAfter(id);
      var published := PublishHotDeltaOver(snapshot);
      r := Ok(id);
    }

    lemma AcceptedValid(env: OnlineEnv, ix: Index, id: NodeId, externalId: nat, vector: Vector, labels: LabelSet)
      requires Healthy(env, ix) && Encoding(env) && Accepted(env, vector, labels) && id !in Live(CurrentView(ix.store))
      ensures RecordValid(RecordFor(env, ix.store, id, externalId, vector, labels), env.config)
    {
      hide Healthy, CurrentView, InsertNeighbors, Live, NeighborsValid;
      HealthyFacts(env, ix);
      InsertNeighborsValid(env, CurrentView(ix.store), ix.store.manifest.starts, vector, labels, id);
    }

    lemma StageUnfolds(s: Store, staged: Staged)
      ensures Stage(s, staged)
        == var rewritten := ApplyRewrites(StorageModel.AppendNode(s, staged.record), staged.rewrites);
           if staged.starts.Some? then StorageModel.UpdateStarts(rewritten, staged.starts.value) else rewritten
      ensures StorageModel.AppendNode(s, staged.record).manifest == s.manifest
    {}

    /**
     * A live insert. Input that fails the checks costs an id and nothing else; a row that no quantizer can encode
     * costs an id and a log entry; a completed insert is the specified one.
     */
    method Insert(z: Sizes, env: OnlineEnv, view: View, externalId: nat, vector: Vector, labels: LabelSet, ghost bound: nat)
      returns (r: Result<NodeId>)
      requires Serves(env, view) && Encoding(env) && Normalizing(env)
      modifies this, storage, storage.cells
      ensures storage.Valid() && fresh(storage.cells - old(storage.cells))
      ensures r.Ok? ==> r.value == old(nextNodeId) && InsertOp(env, old(storage.model.manifest), externalId, vector, labels).OpInsert?
      ensures r.Ok? || !InsertOp(env, old(storage.model.manifest), externalId, vector, labels).OpInsert? ==>
        Model() == Perform(env, old(Model()), InsertOp(env, old(storage.model.manifest), externalId, vector, labels))
      ensures r.Err? ==> storage.model.manifest == old(storage.model.manifest) && nextNodeId == old(nextNodeId) + 1
      ensures CanInsert(env, old(storage.model.manifest), vector, labels)
          && AmpleInsert(z, env, view, old(storage.model.manifest.starts), env.normalize(vector), labels, bound)
        ==> r.Ok?
      ensures r.Ok? || !InsertOp(env, old(storage.model.manifest), externalId, vector, labels).OpInsert? ==>
        Serves(env, CurrentView(storage.model))
    {
      hide AmpleInsert, Healthy, CurrentView, OnlineModel.ApplyInsert, Routable, Live, Extends;
      ghost var before := Model();
      StepFacts(env, before, InsertOp(env, storage.model.manifest, externalId, vector, labels));
      NextIsFree(env, Model());
      var id := AllocateNodeId();
      if !Accepted(env, vector, labels) {
        return Err(InvalidNodeRecord);
      }
      var normal := env.normalize(vector);
      assert |normal| == |vector|;
      log := log + [InsertRow(id, externalId, normal, labels)];
      HealthyRenamed(env, before, nextNodeId, log);
      r := ApplyInsert(z, env, view, id, externalId, normal, labels, bound);
    }

    /** Repairs the start nodes on the pinned view, logs unless replaying, and publishes; a failed repair changes nothing. */
    method ApplyDelete(z: Sizes, env: OnlineEnv, view: View, id: NodeId, appendLog: bool) returns (r: Result<()>)
      requires Serves(env, view)
      modifies this, storage
      ensures storage.Valid() && storage.cells == old(storage.cells)
      ensures r.Err? ==> Model() == old(Model()) && !AnyBatchFits(z, view, DEFAULT_BUDGET)
      ensures r.Ok? ==> Model() == if appendLog then OnlineModel.Delete(old(Model()), id) else OnlineModel.ApplyDelete(old(Model()), id)
    {
      hide AnyBatchFits, Healthy, CurrentView, PublishOver, RepairAround, Inv, ManifestValid, Extends;
      HealthyFacts(env, Model());
      var snapshot := storage.manifest;
      var starts := RepairStartNodes(z, view, snapshot.starts, id, DEFAULT_BUDGET);
      if starts.Err? {
        return Err(starts.error);
      }
      if appendLog {
        log := log + [DeleteRow(id)];
      }
      WriteDelete(id, starts.value, snapshot);
      r := Ok(());
    }

    /** A live delete. */
    method Delete(z: Sizes, env: OnlineEnv, view: View, id: NodeId) returns (r: Result<()>)
      requires Serves(env, view)
      modifies this, storage
      ensures storage.Valid() && storage.cells == old(storage.cells)
      ensures Model() == if r.Ok? then Perform(env, old(Model()), OpDelete(id)) else old(Model())
      ensures AnyBatchFits(z, view, DEFAULT_BUDGET) ==> r.Ok?
      ensures Serves(env, CurrentView(storage.model))
    {
      hide AnyBatchFits, Healthy, CurrentView, OnlineModel.Delete, Extends;
      StepFacts(env, Model(), OpDelete(id));
      r := ApplyDelete(z, env, view, id, true);
    }

    /** Replays one entry of another log: the same writes, nothing logged. */
    method Replay(z: Sizes, env: OnlineEnv, view: View, entry: Mutation, ghost bound: nat) returns (r: Result<()>)
      requires Serves(env, view) && Encoding(env) && Normalizing(env) && Admits(Model(), OpReplay(entry))
      modifies this, storage, storage.cells
      ensures storage.Valid() && fresh(storage.cells - old(storage.cells))
      ensures r.Ok? ==> Model() == ReplayEntry(env, old(Model()), entry)
      ensures r.Err? ==> storage.model.manifest == old(storage.model.manifest) && nextNodeId == old(nextNodeId) && log == old(log)
      ensures entry.InsertRow? && CanInsert(env, old(storage.model.manifest), entry.vector, entry.labels)
          && AmpleInsert(z, env, view, old(storage.model.manifest.starts), env.normalize(entry.vector), entry.labels, bound)
        ==> r.Ok?
      ensures entry.DeleteRow? && AnyBatchFits(z, view, DEFAULT_BUDGET) ==> r.Ok?
      ensures r.Ok? ==> Serves(env, CurrentView(storage.model))
    {
      hide Extends, AmpleInsert, AnyBatchFits, Healthy, CurrentView, OnlineModel.ApplyInsert, OnlineModel.ApplyDelete, Routable, Live;
      StepFacts(env, Model(), OpReplay(entry));
      match entry {
        case InsertRow(id, externalId, vector, labels) =>
          if !Accepted(env, vector, labels) {
            return Err(InvalidNodeRecord);
          }
          assert |env.normalize(vector)| == |vector|;
          var inserted := ApplyInsert(z, env, view, id, externalId, env.normalize(vector), labels, bound);
          r := if inserted.Ok? then Ok(()) else Err(inserted.error);
        case DeleteRow(id) =>
          r := ApplyDelete(z, env, view, id, false);
      }
    }

    lemma StartsKeep(s: Store, starts: StartNodes)
      requires Inv(s)
      ensures Inv(StorageModel.UpdateStarts(s, starts)) && StorageModel.UpdateStarts(s, starts).manifest == s.manifest
    {
      hide Inv;
      StepInv(s, DoStarts(starts));
    }

    /** Performs a delete: tombstone, repaired starts if there are any, publication. */
    method WriteDelete(id: NodeId, starts: Option<StartNodes>, snapshot: Manifest)
      requires Ready() && snapshot == storage.model.manifest
      modifies storage
      ensures Ready() && storage.cells == old(storage.cells)
      ensures var buried := StorageModel.TombstoneNode(old(storage.model), id);
        storage.model == PublishOver(SetStarts(buried, starts), snapshot, Highest(nextNodeId))
    {
      hide Inv, ManifestValid, PublishOver, StorageModel.TombstoneNode;
      TombstoneKeeps(storage.model, id);
      var epoch := storage.TombstoneNode(id);
      if starts.Some? {
        StartsKeep(storage.model, starts.value);
        storage.UpdateStarts(starts.value);
      }
      var published := PublishHotDeltaOver(snapshot);
    }

    lemma TombstoneKeeps(s: Store, id: NodeId)
      requires Inv(s)
      ensures Inv(StorageModel.TombstoneNode(s, id)) && StorageModel.TombstoneNode(s, id).manifest == s.manifest
    {
      hide Inv;
      StepInv(s, DoTombstone(id));
    }

    /** Searches the current manifest; its own delta is never gone. */
    method Search(z: Sizes, env: OnlineEnv, view: View, query: Vector, options: SearchOptions, ghost bound: nat)
      returns (r: Result<seq<SearchHit>>)
      requires Serves(env, view)
      ensures r.Ok? ==> r.value == Answer(view, storage.model.manifest.starts, env.planFor(env.normalize(query)), options)
      ensures options.Valid() && |query| == config.dimensions && Routable(storage.model.manifest)
          && Ample(z, view, StartIds(storage.model.manifest.starts, options.filter), env.planFor(env.normalize(query)), options, bound)
        ==> r.Ok?
    {
      hide Ample, Routable, Healthy, CurrentView, Answer, Inv, ManifestValid;
      HealthyFacts(env, Model());
      CurrentDeltaThere(storage.model);
      hide DeltaGone;
      r := SearchWithSnapshot(env, z, storage.model, view, false, storage.manifest, query, options, bound);
    }

    lemma CurrentDeltaThere(s: Store)
      requires Inv(s)
      ensures !DeltaGone(s, s.manifest) && CurrentView(s) == ViewOf(s, s.manifest)
    {}

    /** Every row has a vector, a routing vector and labels that fit the configuration. */
    ghost predicate Storable(env: OnlineEnv, rows: seq<ExactSearch.Row>) {
      forall i: nat :: i < |rows| ==> PayloadValid(ExactSearch.RecordsOf(rows, env.route)[i], env.config)
    }

    /** The built records can be stored exactly when the rows fit: wiring never spoils a record. */
    lemma BuiltInsertable(env: OnlineEnv, rows: seq<ExactSearch.Row>)
      requires env.config.Valid()
      ensures Insertable(Built(env, rows), env.config) <==> Storable(env, rows)
    {
      hide BuildGraph, NeighborsValid, PayloadValid, RecordValid;
      var benv := BuildEnv(env.config, env.between, env.config.MaxNeighborsDuringBuild());
      var records := ExactSearch.RecordsOf(rows, env.route);
      ExactSearch.RecordsUnlinked(rows, env.route);
      BuiltFacts(env, rows);
      forall i: nat | i < |rows| ensures RecordValid(Built(env, rows)[i], env.config) <==> PayloadValid(records[i], env.config) {
        BuiltRecordsValid(benv, records, i);
      }
    }

    /** Wires the rows into a graph in place and publishes it; ids restart above the rows. */
    method Build(env: OnlineEnv, rows: seq<ExactSearch.Row>, quantizers: seq<QuantizerReference>) returns (r: Result<Manifest>)
      requires Ready() && env.config == config && env.config.Valid() && QuantizersStored(storage.model, quantizers)
      modifies this, storage
      ensures storage.Valid() && storage.cells == old(storage.cells) && log == old(log)
      ensures r.Ok? ==> storage.model == BulkIndex(env, old(storage.model), rows, quantizers).store
      ensures r.Ok? ==> nextNodeId == BulkIndex(env, old(storage.model), rows, quantizers).next && r.value == storage.model.manifest
      ensures r.Err? ==> storage.model == old(storage.model) && nextNodeId == old(nextNodeId)
      ensures r.Ok? <==> Storable(env, rows)
    {
      hide Inv, ManifestValid, BuildGraph, BulkStore, Insertable, QuantizersStored, NeighborsValid, PayloadValid;
      BuiltInsertable(env, rows);
      var benv := BuildEnv(env.config, env.between, env.config.MaxNeighborsDuringBuild());
      var records := new NodeRecord[|rows|](i requires 0 <= i < |rows| => ExactSearch.RecordFor(rows, env.route, i));
      assert records[..] == ExactSearch.RecordsOf(rows, env.route);
      ExactSearch.RecordsUnlinked(rows, env.route);
      BuiltFacts(env, rows);
      var ok := AssignBulkNeighbors(benv, records);
      if !ok {
        return Err(InvalidNodeRecord);
      }
      r := PublishBuilt(records[..], quantizers);
    }

    /**
     * End to end: on a published build, searching with rescoring and a search list no shorter than the input answers
     * with the brute-force result over the input rows.
     */
    method SearchBuilt(z: Sizes, env: OnlineEnv, ghost s: Store, ghost rows: seq<ExactSearch.Row>,
                       ghost quantizers: seq<QuantizerReference>, view: View, query: Vector, options: SearchOptions, ghost bound: nat)
      returns (r: Result<seq<SearchHit>>)
      requires Untouched(s) && env.config.Valid() && QuantizersStored(s, quantizers) && env.config == config
      requires storage.Valid() && Index(storage.model, nextNodeId, []) == BulkIndex(env, s, rows, quantizers)
      requires view == CurrentView(storage.model)
      requires options.rescore && options.searchListSize >= |rows|
      ensures r.Ok? ==> r.value == ExactSearch.BruteForce(rows, env.planFor(env.normalize(query)), options.filter, options.limit)
      ensures options.Valid() && |query| == config.dimensions && Routable(storage.model.manifest)
          && Ample(z, view, StartIds(storage.model.manifest.starts, options.filter), env.planFor(env.normalize(query)), options, bound)
        ==> r.Ok?
    {
      hide Ample, Routable, Healthy, CurrentView, Answer, ExactSearch.BruteForce, BulkIndex, Untouched, QuantizersStored;
      BulkHealthy(env, s, rows, quantizers);
      NextIsFree(env, BulkIndex(env, s, rows, quantizers));
      HealthyRenamed(env, BulkIndex(env, s, rows, quantizers), nextNodeId, log);
      r := Search(z, env, view, query, options, bound);
      BulkThenSearchIsExact(env, s, rows, quantizers, env.planFor(env.normalize(query)), options);
    }

    /** Publishes a built graph as the whole visible content; ids restart above it. */
    method PublishBuilt(built: seq<NodeRecord>, quantizers: seq<QuantizerReference>) returns (r: Result<Manifest>)
      requires Ready() && QuantizersStored(storage.model, quantizers)
      requires forall i :: 0 <= i < |built| ==> built[i].id == i + 1
      modifies this, storage
      ensures storage.Valid() && storage.cells == old(storage.cells) && log == old(log) && (r.Ok? ==> Ready())
      ensures r.Ok? <==> Insertable(built, config)
      ensures r.Err? ==> storage.model == old(storage.model) && nextNodeId == old(nextNodeId)
      ensures r.Ok? ==> storage.model == BulkStore(old(storage.model), config, built, quantizers) && nextNodeId == |built| + 1
      ensures r.Ok? ==> r.value == storage.model.manifest
    {
      hide Inv, Insertable, SegmentNodes, Elect, ManifestValid;
      ghost var s := storage.model;
      InsertableConfig(built);
      var segments: seq<Segment> := [];
      if built != [] {
        var segment := storage.InsertSegment(built, config);
        if segment.Err? {
          return Err(segment.error);
        }
        segments := [segment.value];
      }
      var starts := ElectStarts(LabelledRecords(built));
      var current := storage.manifest;
      var replacement := current.(config := config, starts := starts, segments := segments, hotDelta := None,
                                  tombstoneEpoch := 0, quantizers := quantizers, maxAssigned := Some(|built|));
      assert replacement == BulkManifest(s, config, built, quantizers);
      BuiltPublishable(s, storage.model, built, replacement, quantizers);
      r := storage.CompareAndPublish(current.version, replacement);
      if r.Ok? {
        nextNodeId := |built| + 1;
      }
    }

    lemma InsertableConfig(built: seq<NodeRecord>)
      ensures Insertable(built, config) ==> config.Valid()
      ensures built == [] && config.Valid() ==> Insertable(built, config)
    {}

    lemma BuiltPublishable(s: Store, stored: Store, built: seq<NodeRecord>, m: Manifest, quantizers: seq<QuantizerReference>)
      requires Inv(s) && QuantizersStored(s, quantizers)
      requires stored == if built == [] then s else StorageModel.InsertSegment(s, SegmentNodes(built))
      requires m == BulkManifest(s, config, built, quantizers)
      requires built != [] ==> Insertable(built, config)
      ensures PublishError(stored, s.manifest.version, m).None? <==> config.Valid()
      ensures config.Valid() ==> Inv(Publish(stored, m)) && ManifestValid(Publish(stored, m).manifest)
    {
      hide Inv, SegmentNodes, Elect;
      if config.Valid() {
        BulkInv(s, stored, built, m, quantizers);
      }
    }
  }
}
