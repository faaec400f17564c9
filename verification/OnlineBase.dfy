/**
 * The states an index starts from: an empty storage, or the publication of one bulk build. Both are healthy, and
 * searching the published build exhaustively is brute force.
 */
module OnlineBase {
  import opened Common
  import opened Records
  import opened Reading
  import opened Search
  import opened BulkBuild
  import opened ExactSearch
  import opened StorageModel
  import opened StorageRuns
  import opened StartRepair
  import opened InsertPlanning
  import opened OnlineModel
  import opened OnlineSteps

  function LabelledRecords(records: seq<NodeRecord>): (r: seq<Labelled>)
    ensures |r| == |records| && forall i :: 0 <= i < |r| ==> r[i] == (records[i].id, records[i].labels)
  {
    seq(|records|, i requires 0 <= i < |records| => (records[i].id, records[i].labels))
  }

  function BulkManifest(s: Store, config: IndexConfig, built: seq<NodeRecord>, quantizers: seq<QuantizerReference>): Manifest {
    s.manifest.(
      config := config,
      starts := Elect(LabelledRecords(built)),
      segments := if built == [] then [] else [Segment(s.nextSegment, |built|)],
      hotDelta := None,
      tombstoneEpoch := 0,
      quantizers := quantizers,
      maxAssigned := Some(|built|))
  }

  /** The publication of a bulk build: one segment, no delta, no tombstones, ids restart. */
  function BulkStore(s: Store, config: IndexConfig, built: seq<NodeRecord>, quantizers: seq<QuantizerReference>): Store {
    Publish(if built == [] then s else InsertSegment(s, SegmentNodes(built)), BulkManifest(s, config, built, quantizers))
  }

  /** A storage in which nothing was ever frozen and nothing is staged. */
  ghost predicate Untouched(s: Store) {
    Inv(s) && s.draft == EMPTY_DRAFT && s.deltas == map[]
  }

  ghost predicate QuantizersStored(s: Store, quantizers: seq<QuantizerReference>) {
    && (forall i :: 0 <= i < |quantizers| ==>
          quantizers[i].reference in s.quantizers && s.quantizers[quantizers[i].reference].0 == quantizers[i])
    && forall i, j :: 0 <= i < j < |quantizers| ==> quantizers[i] != quantizers[j]
  }

  lemma {:induction false} NumberedNodes(records: seq<NodeRecord>)
    requires Numbered(records)
    ensures SegmentNodes(records) == BuiltView(records).nodes
  {
    if records != [] {
      var front := records[..|records| - 1];
      NumberedNodes(front);
      assert OneTo(|records|) == OneTo(|front|) + {|records|};
    }
  }

  /** Publishing a bulk build over an untouched storage cannot fail, and shows exactly the built records. */
  lemma BulkPublishes(s: Store, config: IndexConfig, built: seq<NodeRecord>, quantizers: seq<QuantizerReference>)
    requires Untouched(s) && config.Valid() && QuantizersStored(s, quantizers) && Numbered(built)
    ensures var stored := if built == [] then s else InsertSegment(s, SegmentNodes(built));
      PublishError(stored, s.manifest.version, BulkManifest(s, config, built, quantizers)).None?
    ensures var t := BulkStore(s, config, built, quantizers);
      && Inv(t) && Extends(s, t) && Steady(t) && RecentDeltas(t)
      && BaseNodes(t) == BuiltView(built).nodes && CurrentView(t) == BuiltView(built)
  {
    hide Elect, SegmentNodes, BuiltView, Inv, Extends, InsertSegment, ManifestValid, Numbered, QuantizersStored;
    var stored := if built == [] then s else InsertSegment(s, SegmentNodes(built));
    var m, t := BulkManifest(s, config, built, quantizers), BulkStore(s, config, built, quantizers);
    BulkInv(s, stored, built, m, quantizers);
    BulkBase(s, config, built, quantizers);
    StoredFields(s, stored, built);
    BuiltShown(built, t.draft.delta);
    BulkSteady(t, m, s.manifest.version + 1);
    SteadyView(t);
  }

  lemma StoredFields(s: Store, stored: Store, built: seq<NodeRecord>)
    requires stored == if built == [] then s else InsertSegment(s, SegmentNodes(built))
    ensures stored.draft == s.draft && stored.deltas == s.deltas && stored.manifest == s.manifest
  {
    hide SegmentNodes;
  }

  lemma BulkSteady(t: Store, m: Manifest, version: nat)
    requires Inv(t) && ManifestValid(m) && m.hotDelta.None? && t.manifest == m.(version := version)
    requires t.draft == EMPTY_DRAFT && t.deltas == map[]
    ensures Steady(t) && RecentDeltas(t)
  {
    hide Inv;
    SteadyManifest(m, version);
  }

  lemma BulkBase(s: Store, config: IndexConfig, built: seq<NodeRecord>, quantizers: seq<QuantizerReference>)
    requires Numbered(built)
    ensures BaseNodes(BulkStore(s, config, built, quantizers)) == BuiltView(built).nodes
  {
    hide Elect, SegmentNodes, BuiltView, Numbered;
    var m, t := BulkManifest(s, config, built, quantizers), BulkStore(s, config, built, quantizers);
    NumberedNodes(built);
    if built == [] {
      EmptyBuilt();
    } else {
      assert m.segments[1..] == [];
      assert ImmutableNodes(t, m.segments[1..]) == map[];
    }
  }

  lemma EmptyBuilt()
    ensures BuiltView([]).nodes == map[]
  {}

  lemma BuiltShown(built: seq<NodeRecord>, d: Delta)
    requires d == Delta(map[], map[], map[])
    ensures Shown(BuiltView(built).nodes, d) == BuiltView(built)
  {}

  lemma BulkInv(s: Store, stored: Store, built: seq<NodeRecord>, m: Manifest, quantizers: seq<QuantizerReference>)
    requires Inv(s) && QuantizersStored(s, quantizers) && m.config.Valid()
    requires stored == if built == [] then s else InsertSegment(s, SegmentNodes(built))
    requires m == BulkManifest(s, m.config, built, quantizers)
    ensures PublishError(stored, s.manifest.version, m).None?
    ensures Inv(Publish(stored, m)) && Extends(s, Publish(stored, m))
  {
    hide Elect, SegmentNodes, Extends, Inv;
    if built == [] {
      ExtendsSelf(s);
    } else {
      StepInv(s, DoSegment(built));
    }
    BulkRefers(s, stored, built, m, quantizers);
    hide ReferencesExist, ManifestValid;
    var step := DoPublish(s.manifest.version, m);
    assert Succeeds(stored, step);
    StepInv(stored, step);
    ExtendsTrans(s, stored, Publish(stored, m));
  }

  lemma BulkRefers(s: Store, stored: Store, built: seq<NodeRecord>, m: Manifest, quantizers: seq<QuantizerReference>)
    requires QuantizersStored(s, quantizers) && m.config.Valid()
    requires stored == if built == [] then s else InsertSegment(s, SegmentNodes(built))
    requires m == BulkManifest(s, m.config, built, quantizers)
    ensures ReferencesExist(stored, m) && ManifestValid(m)
  {
    hide Elect, SegmentNodes;
  }

  // ----- the built index -----

  ghost function Built(env: OnlineEnv, rows: seq<ExactSearch.Row>): seq<NodeRecord> {
    BuildGraph(BuildEnv(env.config, env.between, env.config.MaxNeighborsDuringBuild()), RecordsOf(rows, env.route))
  }

  /** What a bulk build of the rows leaves behind: storage, allocator, and a fresh log position. */
  ghost function BulkIndex(env: OnlineEnv, s: Store, rows: seq<ExactSearch.Row>, quantizers: seq<QuantizerReference>): Index {
    Index(BulkStore(s, env.config, Built(env, rows), quantizers), |rows| + 1, [])
  }

  /** The built records: numbered in input order, with valid lists and the rows' own labels. */
  lemma BuiltFacts(env: OnlineEnv, rows: seq<ExactSearch.Row>)
    requires env.config.Valid()
    ensures var built := Built(env, rows);
      && |built| == |rows| && Numbered(built)
      && forall i :: 0 <= i < |rows| ==>
           NeighborsValid(i + 1, built[i].neighbors, env.config.maxNeighbors) && built[i].labels == rows[i].labels
  {
    hide BuildGraph, NeighborsValid;
    var benv := BuildEnv(env.config, env.between, env.config.MaxNeighborsDuringBuild());
    RecordsUnlinked(rows, env.route);
    BuildFacts(benv, RecordsOf(rows, env.route));
    forall i | 0 <= i < |rows| ensures NeighborsValid(i + 1, Built(env, rows)[i].neighbors, env.config.maxNeighbors) {
      assert Finished(benv, Built(env, rows), i);
    }
  }

  lemma BuiltViewGood(env: OnlineEnv, built: seq<NodeRecord>)
    requires Numbered(built)
    requires forall i :: 0 <= i < |built| ==> NeighborsValid(i + 1, built[i].neighbors, env.config.maxNeighbors)
    ensures GoodView(env, BuiltView(built), Elect(LabelledRecords(built)), |built| + 1)
    ensures Elect(LabelledRecords(built)).defaultNode == if built == [] then EMPTY_START_NODE else 1
  {
    hide Elect, NeighborsValid, BuiltView, Numbered, StartsLive, ListsValid, Keyed, Live;
    BuiltShape(built);
    BuiltKeyedView(built);
    BuiltStarts(built);
    BuiltLists(env, built);
    ElectDefault(LabelledRecords(built));
    FirstId(built);
  }

  lemma FirstId(built: seq<NodeRecord>)
    requires Numbered(built)
    ensures built != [] ==> LabelledRecords(built)[0].0 == 1
  {}

  lemma BuiltKeyedView(built: seq<NodeRecord>)
    requires Numbered(built)
    ensures Keyed(BuiltView(built).nodes)
  {}

  lemma BuiltStarts(built: seq<NodeRecord>)
    requires Numbered(built)
    ensures StartsLive(BuiltView(built), Elect(LabelledRecords(built)))
  {
    hide Elect, BuiltView, Numbered, Live, OneTo;
    var view, starts := BuiltView(built), Elect(LabelledRecords(built));
    ElectDefault(LabelledRecords(built));
    FirstId(built);
    if built != [] {
      BuiltHas(built, 1);
    }
    forall l | l in starts.labeled
      ensures starts.labeled[l] in view.nodes && starts.labeled[l] in Live(view) && l in view.nodes[starts.labeled[l]].labels
    {
      BuiltEntry(built, l);
      BuiltHas(built, starts.labeled[l]);
    }
  }

  lemma BuiltHas(built: seq<NodeRecord>, id: NodeId)
    requires 1 <= id <= |built|
    ensures id in BuiltView(built).nodes && id in Live(BuiltView(built)) && BuiltView(built).nodes[id] == built[id - 1]
  {
    hide BuiltView, Live;
    BuiltShape(built);
  }

  lemma BuiltLists(env: OnlineEnv, built: seq<NodeRecord>)
    requires forall i :: 0 <= i < |built| ==> NeighborsValid(i + 1, built[i].neighbors, env.config.maxNeighbors)
    ensures ListsValid(BuiltView(built), env.config.maxNeighbors)
  {
    hide BuiltView, NeighborsValid, Live;
    BuiltShape(built);
    forall id | id in Live(BuiltView(built))
      ensures NeighborsValid(id, BuiltView(built).nodes[id].neighbors, env.config.maxNeighbors)
    {
      var i := id - 1;
      assert NeighborsValid(i + 1, built[i].neighbors, env.config.maxNeighbors);
    }
  }

  lemma BuiltEntry(built: seq<NodeRecord>, l: Label)
    requires Numbered(built) && l in Elect(LabelledRecords(built)).labeled
    ensures var id := Elect(LabelledRecords(built)).labeled[l]; 1 <= id <= |built| && l in built[id - 1].labels
  {
    hide Elect;
    var records := LabelledRecords(built);
    ElectEntry(records, l);
    var k: nat :| FirstCarrier(records, l, k) && Elect(records).labeled[l] == records[k].0;
    assert built[k].id == k + 1;
  }

  /** A bulk build over an untouched storage publishes a healthy index. */
  lemma BulkHealthy(env: OnlineEnv, s: Store, rows: seq<ExactSearch.Row>, quantizers: seq<QuantizerReference>)
    requires Untouched(s) && env.config.Valid() && QuantizersStored(s, quantizers)
    ensures Healthy(env, BulkIndex(env, s, rows, quantizers))
    ensures CurrentView(BulkIndex(env, s, rows, quantizers).store) == BuiltView(Built(env, rows))
  {
    hide Built, Elect, Steady, Extends, Inv, GoodView, CurrentView, BuiltView, RecentDeltas, BaseNodes, InsertSegment,
         NeighborsValid, Numbered, Keyed, QuantizersStored;
    var built := Built(env, rows);
    BuiltFacts(env, rows);
    BulkPublishes(s, env.config, built, quantizers);
    BuiltViewGood(env, built);
    BuiltKeyedView(built);
  }

  /** The plain table of a freshly built index is the input, numbered from one. */
  lemma BulkTable(env: OnlineEnv, s: Store, rows: seq<ExactSearch.Row>, quantizers: seq<QuantizerReference>)
    requires Untouched(s) && env.config.Valid() && QuantizersStored(s, quantizers)
    ensures var table := TableOf(CurrentView(BulkIndex(env, s, rows, quantizers).store));
      && table.Keys == OneTo(|rows|)
      && forall id :: id in OneTo(|rows|) ==>
           table[id] == Entry.Row(rows[id - 1].externalId, rows[id - 1].labels, Some(rows[id - 1].vector))
  {
    hide Built, Healthy, CurrentView, BulkIndex, TableOf, OneTo, BuiltView;
    BulkHealthy(env, s, rows, quantizers);
    BuiltTable(env, rows);
  }

  lemma BuiltTable(env: OnlineEnv, rows: seq<ExactSearch.Row>)
    requires env.config.Valid()
    ensures var table := TableOf(BuiltView(Built(env, rows)));
      && table.Keys == OneTo(|rows|)
      && forall id :: id in OneTo(|rows|) ==>
           table[id] == Entry.Row(rows[id - 1].externalId, rows[id - 1].labels, Some(rows[id - 1].vector))
  {
    hide Built, BuiltView, OneTo, TableOf;
    BuiltLength(env, rows);
    BuiltNodes(Built(env, rows));
    LiveTable(BuiltView(Built(env, rows)));
    forall id | id in OneTo(|rows|)
      ensures EntryOf(Built(env, rows)[id - 1]) == Entry.Row(rows[id - 1].externalId, rows[id - 1].labels, Some(rows[id - 1].vector))
    {
      BuiltEntryOf(env, rows, id);
    }
  }

  lemma BuiltLength(env: OnlineEnv, rows: seq<ExactSearch.Row>)
    ensures |Built(env, rows)| == |rows|
  {
    hide BuildGraph;
  }

  lemma BuiltEntryOf(env: OnlineEnv, rows: seq<ExactSearch.Row>, id: NodeId)
    requires env.config.Valid() && 1 <= id <= |rows|
    ensures |Built(env, rows)| == |rows|
    ensures EntryOf(Built(env, rows)[id - 1]) == Entry.Row(rows[id - 1].externalId, rows[id - 1].labels, Some(rows[id - 1].vector))
  {
    hide BuildGraph;
    BuiltPayload(BuildEnv(env.config, env.between, env.config.MaxNeighborsDuringBuild()), rows, env.route, id);
  }

  lemma BulkMark(env: OnlineEnv, s: Store, rows: seq<ExactSearch.Row>, quantizers: seq<QuantizerReference>)
    ensures BulkIndex(env, s, rows, quantizers).store.manifest.maxAssigned == Some(|rows|)
  {
    hide BuildGraph;
    BuiltLength(env, rows);
  }

  lemma LiveTable(view: View)
    requires view.tombstones == {}
    ensures TableOf(view).Keys == view.nodes.Keys
    ensures forall id :: id in view.nodes ==> TableOf(view)[id] == EntryOf(view.nodes[id])
  {}

  /** An empty storage is a healthy index too. */
  lemma InitialHealthy(env: OnlineEnv, m: Manifest)
    requires Bare(m) && ManifestValid(m) && m.config == env.config && m.maxAssigned == Some(0)
    requires m.starts == StartNodes(EMPTY_START_NODE, map[])
    ensures Healthy(env, Index(InitialStore(m), 1, [])) && Untouched(InitialStore(m))
  {
    InitialInv(m);
    hide Inv;
    var s := InitialStore(m);
    assert BaseNodes(s) == map[] && CurrentView(s) == View(map[], {});
  }

  /**
   * End to end: searching the snapshot that a bulk build published, with rescoring and a search list no
   * shorter than the input, gives the brute-force answer over the input rows.
   */
  lemma BulkThenSearchIsExact(env: OnlineEnv, s: Store, rows: seq<ExactSearch.Row>, quantizers: seq<QuantizerReference>,
                              plan: QueryPlan, options: SearchOptions)
    requires Untouched(s) && env.config.Valid() && QuantizersStored(s, quantizers)
    requires options.rescore && options.searchListSize >= |rows|
    ensures var published := BulkIndex(env, s, rows, quantizers).store;
      Answer(CurrentView(published), published.manifest.starts, plan, options)
        == BruteForce(rows, plan, options.filter, options.limit)
  {
    hide Elect, Steady, Extends, Inv, GoodView, CurrentView, BuiltView, RecentDeltas, BaseNodes, InsertSegment, Answer, BruteForce,
         BuildGraph;
    BulkHealthy(env, s, rows, quantizers);
    BuiltFacts(env, rows);
    BuiltViewGood(env, Built(env, rows));
    ExhaustiveSearchIsExact(BuildEnv(env.config, env.between, env.config.MaxNeighborsDuringBuild()), rows, env.route,
                            Elect(LabelledRecords(Built(env, rows))), plan, options);
  }
}
