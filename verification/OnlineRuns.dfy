/** Whole runs of online operations: a plain table, start nodes, pinned readers, ids. */
module OnlineRuns {
  import opened Common
  import opened Labels
  import opened Records
  import opened Reading
  import opened StorageModel
  import opened StorageRuns
  import opened StartRepair
  import opened InsertPlanning
  import opened OnlineModel
  import opened OnlineSteps
  import opened NodeIds

  /**
   * A live insert or delete that completes, one entry replayed from another index's log, an insert whose input is
   * rejected after it took an id and before anything was written, an insert that is logged and then refused because
   * no quantizer can encode its vector, or closing and opening the index.
   */
  datatype Op =
    | OpInsert(externalId: nat, vector: Vector, labels: LabelSet)
    | OpDelete(id: NodeId)
    | OpReplay(entry: Mutation)
    | OpRejected
    | OpRefused(externalId: nat, vector: Vector, labels: LabelSet)
    | OpReopen

  /** Applies one log entry without logging it; a logged vector goes through normalisation again. */
  ghost function ReplayEntry(env: OnlineEnv, ix: Index, entry: Mutation): Index {
    match entry
    case InsertRow(id, externalId, vector, labels) => ApplyInsert(env, ix, id, externalId, env.normalize(vector), labels)
    case DeleteRow(id) => ApplyDelete(ix, id)
  }

  /** Where id allocation resumes: above the recorded mark, or above every reachable id when none is recorded. */
  ghost function NextOnOpen(s: Store): nat {
    if s.manifest.maxAssigned.Some? then s.manifest.maxAssigned.value + 1
    else Resumed(CurrentView(s), Roots(s.manifest.starts))
  }

  ghost function Perform(env: OnlineEnv, ix: Index, op: Op): Index {
    match op
    case OpInsert(externalId, vector, labels) => Insert(env, ix, externalId, vector, labels)
    case OpDelete(id) => Delete(ix, id)
    case OpReplay(entry) => ReplayEntry(env, ix, entry)
    case OpRejected => ix.(next := ix.next + 1)
    case OpRefused(externalId, vector, labels) =>
      ix.(next := ix.next + 1, log := ix.log + [InsertRow(ix.next, externalId, env.normalize(vector), labels)])
    case OpReopen => ix.(next := NextOnOpen(ix.store))
  }

  /**
   * What an operation needs: a replayed insert must not name a row that is live, and an index without a recorded
   * mark can only be reopened safely when the scan reaches every live row, or one above it.
   */
  ghost predicate Admits(ix: Index, op: Op) {
    match op
    case OpReplay(InsertRow(id, _, _, _)) => id !in Live(CurrentView(ix.store))
    case OpReopen => ix.store.manifest.maxAssigned.None? ==> ScanCovers(CurrentView(ix.store), Roots(ix.store.manifest.starts))
    case _ => true
  }

  /** Chains of neighbours from the start nodes lead to every live row, or to some id above it. */
  ghost predicate ScanCovers(view: View, roots: set<NodeId>) {
    forall id :: id in Live(view) && id > 0 ==> AtOrBelowReached(view, roots, id)
  }

  ghost predicate AtOrBelowReached(view: View, roots: set<NodeId>, id: NodeId) {
    exists r: NodeId :: Reached(view, roots, r) && id <= r
  }

  /** The scan covers the live rows exactly when they all lie below its result. */
  lemma ScanCoversIff(view: View, roots: set<NodeId>)
    ensures ScanCovers(view, roots) <==> forall id :: id in Live(view) ==> id < Resumed(view, roots)
  {
    hide Reached, Resumed;
    var next := Resumed(view, roots);
    ResumedIff(view, roots, next);
    forall id | id in Live(view) && id > 0 ensures AtOrBelowReached(view, roots, id) <==> id < next {
      if id < next {
        assert Reached(view, roots, next - 1);
      }
    }
  }

  ghost predicate Admitted(env: OnlineEnv, ix: Index, ops: seq<Op>) {
    ops == [] || (Admitted(env, ix, ops[..|ops| - 1]) && Admits(RunOps(env, ix, ops[..|ops| - 1]), ops[|ops| - 1]))
  }

  ghost function RunOps(env: OnlineEnv, ix: Index, ops: seq<Op>): Index {
    if ops == [] then ix else Perform(env, RunOps(env, ix, ops[..|ops| - 1]), ops[|ops| - 1])
  }

  predicate Publishes(op: Op) { op.OpInsert? || op.OpDelete? || op.OpReplay? }

  function Publications(ops: seq<Op>): nat {
    if ops == [] then 0 else Publications(ops[..|ops| - 1]) + if Publishes(ops[|ops| - 1]) then 1 else 0
  }

  function Table(ix: Index): map<NodeId, Entry> { TableOf(CurrentView(ix.store)) }

  /** What an operation means for the plain table: an insert adds a row under its id, a delete marks it. */
  ghost function Effect(env: OnlineEnv, table: map<NodeId, Entry>, next: nat, op: Op): map<NodeId, Entry> {
    match op
    case OpInsert(externalId, vector, labels) => table[next := Row(externalId, labels, Some(env.normalize(vector)))]
    case OpReplay(InsertRow(id, externalId, vector, labels)) => table[id := Row(externalId, labels, Some(env.normalize(vector)))]
    case OpDelete(id) => table[id := Dead]
    case OpReplay(DeleteRow(id)) => table[id := Dead]
    case _ => table
  }

  ghost function PlainTable(env: OnlineEnv, ix: Index, ops: seq<Op>): map<NodeId, Entry> {
    if ops == [] then Table(ix)
    else Effect(env, PlainTable(env, ix, ops[..|ops| - 1]), RunOps(env, ix, ops[..|ops| - 1]).next, ops[|ops| - 1])
  }

  /** Changing only the next id and the log keeps an index healthy as long as the next id covers the mark. */
  lemma HealthyRenamed(env: OnlineEnv, ix: Index, next: nat, log: seq<Mutation>)
    requires Healthy(env, ix) && IdBound(ix) <= next
    ensures Healthy(env, Index(ix.store, next, log))
  {
    hide Steady, CurrentView, BaseNodes, RecentDeltas, StartsLive, ListsValid, Keyed, Live;
  }

  lemma NextIsFree(env: OnlineEnv, ix: Index)
    requires Healthy(env, ix)
    ensures IdBound(ix) <= ix.next && ix.next !in Live(CurrentView(ix.store))
  {
    hide Steady, CurrentView, BaseNodes, RecentDeltas, StartsLive, ListsValid, Keyed, Live;
  }

  /** Without a recorded mark, any next id above all live rows keeps an index healthy. */
  lemma HealthyResumed(env: OnlineEnv, ix: Index, next: nat)
    requires Healthy(env, ix) && ix.store.manifest.maxAssigned.None? && 1 <= next
    requires forall id :: id in Live(CurrentView(ix.store)) ==> id < next
    ensures Healthy(env, ix.(next := next))
  {
    hide Steady, CurrentView, BaseNodes, RecentDeltas, StartsLive, ListsValid, Keyed, Live;
  }

  /** One operation of a run. */
  lemma StepFacts(env: OnlineEnv, ix: Index, op: Op)
    requires Healthy(env, ix) && Admits(ix, op)
    ensures var r := Perform(env, ix, op);
      && Healthy(env, r) && Extends(ix.store, r.store)
      && Table(r) == Effect(env, Table(ix), ix.next, op)
      && r.store.nextDelta == ix.store.nextDelta + (if Publishes(op) then 1 else 0)
      && (if Publishes(op) then r.store.manifest.maxAssigned == Some(r.next - 1) && ix.next <= r.next else r.store == ix.store)
  {
    hide Healthy, Extends, ApplyInsert, ApplyDelete, CurrentView, TableOf, Live, Resumed, ScanCovers;
    NextIsFree(env, ix);
    match op {
      case OpInsert(externalId, vector, labels) =>
        var normal, id := env.normalize(vector), ix.next;
        var logged := ix.(next := id + 1, log := ix.log + [InsertRow(id, externalId, normal, labels)]);
        HealthyRenamed(env, ix, logged.next, logged.log);
        InsertFacts(env, logged, id, externalId, normal, labels);
      case OpDelete(id) =>
        var logged := ix.(log := ix.log + [DeleteRow(id)]);
        HealthyRenamed(env, ix, logged.next, logged.log);
        DeleteFacts(env, logged, id);
      case OpReplay(InsertRow(id, externalId, vector, labels)) =>
        InsertFacts(env, ix, id, externalId, env.normalize(vector), labels);
      case OpReplay(DeleteRow(id)) =>
        DeleteFacts(env, ix, id);
      case OpRejected =>
        HealthyRenamed(env, ix, ix.next + 1, ix.log);
        ExtendsSelf(ix.store);
      case OpRefused(externalId, vector, labels) =>
        HealthyRenamed(env, ix, ix.next + 1, ix.log + [InsertRow(ix.next, externalId, env.normalize(vector), labels)]);
        ExtendsSelf(ix.store);
      case OpReopen =>
        ReopenFacts(env, ix);
        ExtendsSelf(ix.store);
    }
  }

  /**
   * Reopening keeps an index healthy exactly when a mark is recorded or the scan for a missing one covers the live rows;
   * LegacyReopenIsUnsafe is an index for which it does not.
   */
  lemma ReopenFacts(env: OnlineEnv, ix: Index)
    requires Healthy(env, ix)
    ensures Healthy(env, Perform(env, ix, OpReopen))
      <==> ix.store.manifest.maxAssigned.Some? || ScanCovers(CurrentView(ix.store), Roots(ix.store.manifest.starts))
  {
    hide Healthy, CurrentView, Live, Resumed, ScanCovers;
    ScanCoversIff(CurrentView(ix.store), Roots(ix.store.manifest.starts));
    ResumedIff(CurrentView(ix.store), Roots(ix.store.manifest.starts), Resumed(CurrentView(ix.store), Roots(ix.store.manifest.starts)));
    if ix.store.manifest.maxAssigned.Some? {
      HealthyRenamed(env, ix, NextOnOpen(ix.store), ix.log);
    } else if ScanCovers(CurrentView(ix.store), Roots(ix.store.manifest.starts)) {
      HealthyResumed(env, ix, NextOnOpen(ix.store));
    } else if Healthy(env, Perform(env, ix, OpReopen)) {
      LiveBounded(env, Perform(env, ix, OpReopen));
    }
  }

  /** An index written before marks were recorded: two unlinked rows in one segment, entered at row 1. */
  function LegacyIndex(config: IndexConfig, a: NodeRecord, b: NodeRecord): Index {
    var m := Manifest(0, config, StartNodes(1, map[]), [Segment(1, 2)], None, 0, [], None);
    Index(InitialStore(m).(nextSegment := 2, segments := map[1 := map[1 := a, 2 := b]]), 3, [])
  }

  /** Reopening it hands out id 2 while row 2 is live: the next insert takes the id of a row that is there. */
  lemma LegacyReopenIsUnsafe(env: OnlineEnv, a: NodeRecord, b: NodeRecord, externalId: nat, vector: Vector, labels: LabelSet)
    requires env.config.Valid() && a.id == 1 && b.id == 2 && a.neighbors == b.neighbors == []
    ensures var ix := LegacyIndex(env.config, a, b);
      var reopened := Perform(env, ix, OpReopen);
      && Healthy(env, ix) && ix.next == 3 && Live(CurrentView(ix.store)) == {1, 2}
      && reopened.next == 2 && !Healthy(env, reopened)
      && Perform(env, reopened, OpInsert(externalId, vector, labels)).log == [InsertRow(2, externalId, env.normalize(vector), labels)]
  {
    hide Healthy, LegacyIndex, CurrentView, Live, Insert, Resumed;
    var ix := LegacyIndex(env.config, a, b);
    LegacyHealthy(env, a, b);
    LegacyNext(env.config, a, b);
    LogOfInsert(env, Perform(env, ix, OpReopen), externalId, vector, labels);
    assert ix.log + [InsertRow(2, externalId, env.normalize(vector), labels)]
      == [InsertRow(2, externalId, env.normalize(vector), labels)];
    if Healthy(env, Perform(env, ix, OpReopen)) {
      LiveBounded(env, Perform(env, ix, OpReopen));
    }
  }

  lemma LegacyNext(config: IndexConfig, a: NodeRecord, b: NodeRecord)
    requires a.neighbors == b.neighbors == []
    ensures var ix := LegacyIndex(config, a, b);
      && ix.next == 3 && ix.log == [] && ix.store.manifest.maxAssigned.None?
      && Live(CurrentView(ix.store)) == {1, 2} && NextOnOpen(ix.store) == 2
  {
    hide CurrentView, Resumed, Roots;
    var ix := LegacyIndex(config, a, b);
    var view, roots := CurrentView(ix.store), Roots(ix.store.manifest.starts);
    LegacyView(config, a, b);
    LegacyReached(view, roots, a, b);
    ResumedIff(view, roots, 2);
  }

  lemma LogOfInsert(env: OnlineEnv, ix: Index, externalId: nat, vector: Vector, labels: LabelSet)
    ensures Insert(env, ix, externalId, vector, labels).log == ix.log + [InsertRow(ix.next, externalId, env.normalize(vector), labels)]
  {
    hide PublishOver, PlanInsert;
  }

  lemma LegacyView(config: IndexConfig, a: NodeRecord, b: NodeRecord)
    ensures var s := LegacyIndex(config, a, b).store;
      && BaseNodes(s) == map[1 := a, 2 := b] && CurrentView(s) == View(map[1 := a, 2 := b], {})
      && Roots(s.manifest.starts) == {1}
  {
    var s := LegacyIndex(config, a, b).store;
    assert s.manifest.segments[1..] == [];
    assert ImmutableNodes(s, []) == map[];
    LegacyRoots();
  }

  lemma LegacyRoots()
    ensures Roots(StartNodes(1, map[])) == {1}
  {
    var starts := StartNodes(1, map[]);
    assert forall n :: n in starts.AllNodes() <==> n == 1;
  }

  lemma LegacyHealthy(env: OnlineEnv, a: NodeRecord, b: NodeRecord)
    requires env.config.Valid() && a.id == 1 && b.id == 2 && a.neighbors == b.neighbors == []
    ensures Healthy(env, LegacyIndex(env.config, a, b))
  {
    var ix := LegacyIndex(env.config, a, b);
    LegacyView(env.config, a, b);
    LegacySteady(env.config, a, b);
    hide CurrentView, BaseNodes, LegacyIndex, Steady, RecentDeltas;
    LegacyNext(env.config, a, b);
    LegacyGood(env, a, b, ix.store.manifest.starts);
  }

  lemma LegacySteady(config: IndexConfig, a: NodeRecord, b: NodeRecord)
    requires config.Valid()
    ensures var ix := LegacyIndex(config, a, b);
      && Steady(ix.store) && RecentDeltas(ix.store)
      && ix.store.manifest.config == config && ix.store.manifest.starts == StartNodes(1, map[])
  {}

  lemma LegacyGood(env: OnlineEnv, a: NodeRecord, b: NodeRecord, starts: StartNodes)
    requires a.id == 1 && b.id == 2 && a.neighbors == b.neighbors == [] && starts == StartNodes(1, map[])
    ensures GoodView(env, View(map[1 := a, 2 := b], {}), starts, 3) && Keyed(map[1 := a, 2 := b])
  {}

  /** From row 1 the scan sees row 1 alone. */
  lemma LegacyReached(view: View, roots: set<NodeId>, a: NodeRecord, b: NodeRecord)
    requires view == View(map[1 := a, 2 := b], {}) && roots == {1} && a.neighbors == b.neighbors == []
    ensures AboveReachable(view, roots, 2)
  {
    RootReached(view, roots, 1);
    assert Closed(view, {1});
    forall id: NodeId | Reached(view, roots, id) ensures id == 1 {
      var path :| Chain(view, roots, path) && path[|path| - 1] == id;
      ClosedHoldsChain(view, roots, {1}, path);
    }
  }

  /** Encoding a vector gives a routing vector of the configured shape. */
  ghost predicate Encoding(env: OnlineEnv) {
    forall v :: |v| == env.config.dimensions ==> RoutingVectorFits(env.route(v), env.config)
  }

  /**
   * What calling insert amounts to. An SBQ index whose manifest lists no index quantizer, such as one that was never
   * built, accepts the input, logs it and only then finds that it cannot encode it.
   */
  predicate CanInsert(env: OnlineEnv, m: Manifest, vector: Vector, labels: LabelSet) {
    Accepted(env, vector, labels) && Routable(m)
  }

  function InsertOp(env: OnlineEnv, m: Manifest, externalId: nat, vector: Vector, labels: LabelSet): Op {
    if CanInsert(env, m, vector, labels) then OpInsert(externalId, vector, labels)
    else if Accepted(env, vector, labels) then OpRefused(externalId, vector, labels)
    else OpRejected
  }

  /**
   * The checks on the input agree with the validation of the finished record, under whatever id: given a routing vector
   * of the configured shape, a record is valid exactly when its input passed and it was not chosen as its own neighbour.
   * Only an id that is live already can be, so a live insert never is; replaying an insert over a live row is refused then.
   */
  lemma ChecksDecide(env: OnlineEnv, ix: Index, id: NodeId, externalId: nat, vector: Vector, labels: LabelSet)
    requires Healthy(env, ix) && Normalizing(env) && Encoding(env)
    ensures var record := RecordFor(env, ix.store, id, externalId, env.normalize(vector), labels);
      && (RecordValid(record, env.config) <==> Accepted(env, vector, labels) && id !in record.neighbors)
      && (id in record.neighbors ==> id in Live(CurrentView(ix.store)))
    ensures ix.next !in Live(CurrentView(ix.store))
  {
    hide Healthy, CurrentView, InsertNeighbors, Live, NeighborsValid;
    HealthyFacts(env, ix);
    NextIsFree(env, ix);
    InsertNeighborsValid(env, CurrentView(ix.store), ix.store.manifest.starts, env.normalize(vector), labels, id);
    assert |env.normalize(vector)| == |vector|;
  }

  /** The input of one insert. */
  datatype Input = Input(externalId: nat, vector: Vector, labels: LabelSet)

  function InsertOps(env: OnlineEnv, m: Manifest, inputs: seq<Input>): seq<Op> {
    if inputs == [] then []
    else
      var last := inputs[|inputs| - 1];
      InsertOps(env, m, inputs[..|inputs| - 1]) + [InsertOp(env, m, last.externalId, last.vector, last.labels)]
  }

  /** The log entries of the inputs that pass the checks, numbered by their place among all of them. */
  function EntriesOf(env: OnlineEnv, next: nat, inputs: seq<Input>): seq<Mutation> {
    if inputs == [] then []
    else
      var rest, last := EntriesOf(env, next, inputs[..|inputs| - 1]), inputs[|inputs| - 1];
      if Accepted(env, last.vector, last.labels)
      then rest + [InsertRow(next + |inputs| - 1, last.externalId, env.normalize(last.vector), last.labels)]
      else rest
  }

  /**
   * The failing inputs: on an SBQ index that lists no index quantizer, whatever is inserted, the storage stays as it
   * was, while every accepted input leaves a log entry and every input takes an id.
   */
  lemma {:induction false} RefusedInsertsAreLogged(env: OnlineEnv, ix: Index, inputs: seq<Input>)
    requires !Routable(ix.store.manifest)
    ensures var r := RunOps(env, ix, InsertOps(env, ix.store.manifest, inputs));
      r.store == ix.store && r.next == ix.next + |inputs| && r.log == ix.log + EntriesOf(env, ix.next, inputs)
  {
    hide Perform, InsertOp, Routable, Accepted;
    var m := ix.store.manifest;
    if inputs != [] {
      var front, last := inputs[..|inputs| - 1], inputs[|inputs| - 1];
      RefusedInsertsAreLogged(env, ix, front);
      var ops := InsertOps(env, m, front);
      assert InsertOps(env, m, inputs)[..|ops|] == ops;
      RefusedInsert(env, RunOps(env, ix, ops), last);
      assert ix.log + EntriesOf(env, ix.next, front) + EntriesOf(env, ix.next, inputs)[|EntriesOf(env, ix.next, front)|..]
        == ix.log + EntriesOf(env, ix.next, inputs);
    }
  }

  lemma RefusedInsert(env: OnlineEnv, ix: Index, input: Input)
    requires !Routable(ix.store.manifest)
    ensures Perform(env, ix, InsertOp(env, ix.store.manifest, input.externalId, input.vector, input.labels))
      == Index(ix.store, ix.next + 1,
               ix.log + if Accepted(env, input.vector, input.labels)
                        then [InsertRow(ix.next, input.externalId, env.normalize(input.vector), input.labels)] else [])
  {
    hide Insert, Delete, ReplayEntry, NextOnOpen, Routable, Accepted;
    assert ix.log + [] == ix.log;
  }

  /**
   * Refinement: after any run, reading through the published manifest is reading the plain table; inserted
   * rows stay as they were put, deleted ones stay deleted. Every published manifest is healthy.
   */
  lemma {:induction false} RunsRefineTable(env: OnlineEnv, ix: Index, ops: seq<Op>)
    requires Healthy(env, ix) && Admitted(env, ix, ops)
    ensures var r := RunOps(env, ix, ops);
      && Healthy(env, r) && Extends(ix.store, r.store)
      && Table(r) == PlainTable(env, ix, ops)
      && r.store.nextDelta == ix.store.nextDelta + Publications(ops)
      && (Publications(ops) == 0 ==> r.store == ix.store)
  {
    hide Healthy, Extends, Perform, Table, Admits;
    if ops == [] {
      ExtendsSelf(ix.store);
    } else {
      var front, last := ops[..|ops| - 1], ops[|ops| - 1];
      RunsRefineTable(env, ix, front);
      StepFacts(env, RunOps(env, ix, front), last);
      ExtendsTrans(ix.store, RunOps(env, ix, front).store, RunOps(env, ix, ops).store);
    }
  }

  /** No entry of another log is replayed, and no insert is refused after it was logged. */
  ghost predicate OwnOnly(ops: seq<Op>) {
    forall i :: 0 <= i < |ops| ==> !ops[i].OpReplay? && !ops[i].OpRefused?
  }

  /** The next id is the one that opening the index would resume with. */
  ghost predicate Aligned(ix: Index) { ix.next == NextOnOpen(ix.store) }

  /** Live operations and reopening are always admitted once a mark is recorded, and from an aligned base before that. */
  lemma {:induction false} OwnRunsAdmitted(env: OnlineEnv, ix: Index, ops: seq<Op>)
    requires Healthy(env, ix) && OwnOnly(ops) && (ix.store.manifest.maxAssigned.Some? || Aligned(ix))
    ensures Admitted(env, ix, ops)
    ensures RunOps(env, ix, ops).store.manifest.maxAssigned.None? ==> RunOps(env, ix, ops).store == ix.store
  {
    hide Healthy, Perform, Table, Extends, CurrentView, Live, Resumed, ScanCovers;
    if ops != [] {
      var front, last := ops[..|ops| - 1], ops[|ops| - 1];
      assert forall i :: 0 <= i < |front| ==> front[i] == ops[i];
      OwnRunsAdmitted(env, ix, front);
      RunsRefineTable(env, ix, front);
      LiveBounded(env, ix);
      ScanCoversIff(CurrentView(ix.store), Roots(ix.store.manifest.starts));
      assert !last.OpReplay?;
      StepFacts(env, RunOps(env, ix, front), last);
    }
  }

  /** How a read of the current manifest shows an entry of the table. */
  ghost predicate Shows(s: Store, id: NodeId, table: map<NodeId, Entry>) {
    match (ResolveNode(s, s.manifest, id), ResolveVector(s, s.manifest, id))
    case (Ok(node), Ok(vector)) =>
      if id !in table then node == Missing(id) && vector == VectorMissing(id)
      else if table[id].Dead? then node == Tombstoned(id) && vector == VectorTombstoned(id)
      else
        && node.Present? && node.record.id == id
        && node.record.externalId == table[id].externalId && node.record.labels == table[id].labels
        && vector == if table[id].full.Some? then VectorPresent(id, table[id].full.value) else VectorMissing(id)
    case (_, _) => false
  }

  /** Every read of a run's published manifest succeeds and shows the plain table. */
  lemma RunsReadTable(env: OnlineEnv, ix: Index, ops: seq<Op>, id: NodeId)
    requires Healthy(env, ix) && Admitted(env, ix, ops)
    ensures Shows(RunOps(env, ix, ops).store, id, PlainTable(env, ix, ops))
  {
    hide RunOps, PlainTable, Steady, ViewOf, ListsValid, StartsLive, RecentDeltas, BaseNodes;
    RunsRefineTable(env, ix, ops);
    var s := RunOps(env, ix, ops).store;
    SteadyResolves(s);
    ResolveReadsView(s, s.manifest, id);
  }

  lemma SteadyResolves(s: Store)
    requires Steady(s)
    ensures Resolves(s, s.manifest)
  {
    hide Kept, Epochs, AllEpochs, ManifestValid;
  }

  /** Every published start is live and carries its label; only the default may be the empty sentinel. */
  lemma RunsKeepStarts(env: OnlineEnv, ix: Index, ops: seq<Op>)
    requires Healthy(env, ix) && Admitted(env, ix, ops)
    ensures var s := RunOps(env, ix, ops).store;
      && StartsLive(CurrentView(s), s.manifest.starts)
      && ListsValid(CurrentView(s), env.config.maxNeighbors)
  {
    hide RunOps, PlainTable, Steady, CurrentView, ListsValid, StartsLive, RecentDeltas, BaseNodes, Keyed, Live;
    RunsRefineTable(env, ix, ops);
  }

  /** No start of the manifest a delete publishes is the deleted node. */
  lemma DeletedIsNoStart(env: OnlineEnv, ix: Index, ops: seq<Op>, id: NodeId)
    requires Healthy(env, ix) && Admitted(env, ix, ops) && ops != []
    requires ops[|ops| - 1] == OpDelete(id) || ops[|ops| - 1] == OpReplay(DeleteRow(id))
    ensures var starts := RunOps(env, ix, ops).store.manifest.starts;
      && (starts.defaultNode == id ==> id == EMPTY_START_NODE)
      && forall l :: l in starts.labeled ==> starts.labeled[l] != id
  {
    hide RunOps, Steady, CurrentView, ListsValid, RecentDeltas, BaseNodes, Keyed;
    RunsRefineTable(env, ix, ops);
    var view := CurrentView(RunOps(env, ix, ops).store);
    assert PlainTable(env, ix, ops)[id] == Dead;
    assert id in TableOf(view) && TableOf(view)[id] == Dead;
    assert id !in Live(view);
  }

  // ----- pinned readers -----

  /**
   * A pinned manifest stays readable, with unchanged answers, for exactly one further publication;
   * after that every read of it reports "not found". A manifest without a delta is readable for ever.
   */
  lemma PinnedReaders(env: OnlineEnv, ix: Index, ops: seq<Op>, id: NodeId)
    requires Healthy(env, ix) && Admitted(env, ix, ops)
    ensures var s, pinned := RunOps(env, ix, ops).store, ix.store.manifest;
      var gone := pinned.hotDelta.Some? && Publications(ops) >= RETAINED;
      && ResolveNode(s, pinned, id) == (if gone then Err(StorageNotFound) else ResolveNode(ix.store, pinned, id))
      && ResolveVector(s, pinned, id) == (if gone then Err(StorageNotFound) else ResolveVector(ix.store, pinned, id))
  {
    hide RunOps, PlainTable, ListsValid, StartsLive, BaseNodes, Keyed, Live, ManifestValid, ResolveNode, ResolveVector, Extends,
         CurrentView, TableOf;
    RunsRefineTable(env, ix, ops);
    var s, pinned := RunOps(env, ix, ops).store, ix.store.manifest;
    SteadyResolves(ix.store);
    IsolationBetween(ix.store, s, pinned, id);
    PinnedDelta(ix.store, s, Publications(ops));
  }

  lemma PinnedDelta(s: Store, later: Store, published: nat)
    requires Inv(s) && Inv(later) && RecentDeltas(s) && RecentDeltas(later)
    requires later.nextDelta == s.nextDelta + published
    ensures s.manifest.hotDelta.Some? ==> (s.manifest.hotDelta.value in later.deltas <==> published < RETAINED)
  {
    hide Epochs, AllEpochs, ReferencesExist;
    if s.manifest.hotDelta.Some? && published < RETAINED {
      assert s.manifest.hotDelta.value in AsSet(s.manifest.hotDelta);
      assert s.manifest.hotDelta.value in Newest(later.nextDelta);
    }
  }

  // ----- id allocation -----

  lemma {:induction false} AdmittedPrefix(env: OnlineEnv, ix: Index, ops: seq<Op>, k: nat)
    requires Admitted(env, ix, ops) && k <= |ops|
    ensures Admitted(env, ix, ops[..k])
    ensures k < |ops| ==> Admits(RunOps(env, ix, ops[..k]), ops[k])
  {
    hide Admits, RunOps;
    if k == |ops| {
      assert ops[..k] == ops;
    } else {
      var front := ops[..|ops| - 1];
      assert front[..k] == ops[..k];
      AdmittedPrefix(env, ix, front, k);
    }
  }

  /**
   * Marks: the high-water mark of a manifest published in a run, once there is one, never drops and stays below
   * the next id, replays and reopening included.
   */
  lemma {:induction false} IdsExceedMarks(env: OnlineEnv, ix: Index, ops: seq<Op>, k: nat)
    requires Healthy(env, ix) && Admitted(env, ix, ops) && k <= |ops|
    ensures var early, late := RunOps(env, ix, ops[..k]), RunOps(env, ix, ops);
      early.store.manifest.maxAssigned.Some? ==>
        && late.store.manifest.maxAssigned.Some?
        && early.store.manifest.maxAssigned.value <= late.store.manifest.maxAssigned.value < late.next
  {
    hide Perform, Steady, CurrentView, GoodView, BaseNodes, RecentDeltas, Keyed, Admits;
    RunsRefineTable(env, ix, ops);
    if k == |ops| {
      assert ops[..k] == ops;
    } else {
      var front := ops[..|ops| - 1];
      assert front[..k] == ops[..k];
      IdsExceedMarks(env, ix, front, k);
      RunsRefineTable(env, ix, front);
      StepFacts(env, RunOps(env, ix, front), ops[|ops| - 1]);
    }
  }

  /** Rows live in any manifest published so far have ids below the bound that the next id respects. */
  lemma {:induction false} RowsStayBelow(env: OnlineEnv, ix: Index, ops: seq<Op>, j: nat)
    requires Healthy(env, ix) && Admitted(env, ix, ops) && j <= |ops|
    ensures var early, late := RunOps(env, ix, ops[..j]), RunOps(env, ix, ops);
      && (late.store.manifest.maxAssigned.None? ==> early.store == late.store)
      && forall id :: id in Live(CurrentView(early.store)) ==> id < IdBound(late)
  {
    hide Healthy, Perform, CurrentView, Live, Table, Extends, Admits;
    RunsRefineTable(env, ix, ops);
    LiveBounded(env, RunOps(env, ix, ops));
    if j == |ops| {
      assert ops[..j] == ops;
    } else {
      var front := ops[..|ops| - 1];
      assert front[..j] == ops[..j];
      RowsStayBelow(env, ix, front, j);
      RunsRefineTable(env, ix, front);
      StepFacts(env, RunOps(env, ix, front), ops[|ops| - 1]);
      LiveBounded(env, RunOps(env, ix, front));
    }
  }

  lemma LiveBounded(env: OnlineEnv, ix: Index)
    requires Healthy(env, ix)
    ensures IdBound(ix) <= ix.next && forall id :: id in Live(CurrentView(ix.store)) ==> id < IdBound(ix)
  {
    hide Steady, CurrentView, BaseNodes, RecentDeltas, StartsLive, ListsValid, Keyed, Live;
  }

  /**
   * The id an insert takes exceeds the id of every row that was live in any manifest published before it in the
   * run, and every mark recorded before; it is the id under which readers find the new row.
   */
  lemma HandedOutIdsAreNew(env: OnlineEnv, ix: Index, ops: seq<Op>, j: nat, k: nat)
    requires Healthy(env, ix) && Admitted(env, ix, ops) && j <= k < |ops| && ops[k].OpInsert?
    ensures var early, taken := RunOps(env, ix, ops[..j]), RunOps(env, ix, ops[..k]).next;
      && (forall id :: id in Live(CurrentView(early.store)) ==> id < taken)
      && (early.store.manifest.maxAssigned.Some? ==> early.store.manifest.maxAssigned.value < taken)
      && Table(RunOps(env, ix, ops[..k + 1])) == Table(RunOps(env, ix, ops[..k]))[
           taken := Row(ops[k].externalId, ops[k].labels, Some(env.normalize(ops[k].vector)))]
  {
    hide Healthy, Perform, CurrentView, Live, Table, Extends, Admits;
    assert ops[..k][..j] == ops[..j] && ops[..k + 1][..k] == ops[..k];
    AdmittedPrefix(env, ix, ops, k);
    RunsRefineTable(env, ix, ops[..k]);
    RowsStayBelow(env, ix, ops[..k], j);
    IdsExceedMarks(env, ix, ops[..k], j);
    LiveBounded(env, RunOps(env, ix, ops[..k]));
    StepFacts(env, RunOps(env, ix, ops[..k]), ops[k]);
  }
}
