/** Whole runs of storage operations: snapshot isolation, delta collection, and the publication protocol. */
module StorageRuns {
  import opened Common
  import opened Records
  import opened StorageModel

  datatype Step =
    | DoAppend(record: NodeRecord)
    | DoRewrite(id: NodeId, neighbors: seq<NodeId>)
    | DoTombstone(id: NodeId)
    | DoStarts(starts: StartNodes)
    | DoFreeze
    | DoPublish(expected: nat, replacement: Manifest)
    | DoSegment(records: seq<NodeRecord>)
    | DoQuantizer(scope: QuantizerScope, quantizer: StoredQuantizer)

  /** A successful publication. */
  predicate Succeeds(s: Store, step: Step) {
    step.DoPublish? && PublishError(s, step.expected, step.replacement).None?
  }

  /** One step of the in-memory backend; a rejected publication changes nothing. */
  function Apply(s: Store, step: Step): Store {
    match step
    case DoAppend(record) => AppendNode(s, record)
    case DoRewrite(id, neighbors) => RewriteNeighbors(s, id, neighbors)
    case DoTombstone(id) => TombstoneNode(s, id)
    case DoStarts(starts) => UpdateStarts(s, starts)
    case DoFreeze => FreezeDelta(s, true)
    case DoPublish(_, replacement) => if Succeeds(s, step) then Publish(s, replacement) else s
    case DoSegment(records) => InsertSegment(s, SegmentNodes(records))
    case DoQuantizer(scope, quantizer) => StoreQuantizer(s, scope, quantizer)
  }

  function Run(s: Store, steps: seq<Step>): Store {
    if steps == [] then s else Apply(Run(s, steps[..|steps| - 1]), steps[|steps| - 1])
  }

  /** The references that the two newest freezes used, when the next one will be `n`. */
  function Newest(n: nat): set<nat> {
    if n <= 1 then {} else if n == 2 then {1} else {n - 1, n - 2}
  }

  function AsSet(published: Option<nat>): set<nat> {
    if published.Some? then {published.value} else {}
  }

  /** Which frozen deltas are kept: the newest, the published one, and at most one more. */
  ghost predicate Kept(refs: set<nat>, n: nat, published: Option<nat>) {
    && 1 <= n
    && (forall r :: r in refs ==> 1 <= r < n)
    && Newest(n) <= refs
    && AsSet(published) <= refs
    && |refs - Newest(n)| <= 1
  }

  ghost predicate Epochs(d: Delta, bound: nat) {
    forall id :: id in d.tombstones ==> d.tombstones[id] < bound
  }

  ghost predicate AllEpochs(deltas: map<nat, Delta>, bound: nat) {
    forall r :: r in deltas ==> Epochs(deltas[r], bound)
  }

  ghost predicate Bounded<T>(stored: map<nat, T>, bound: nat) {
    forall r :: r in stored ==> r < bound
  }

  /** What every reachable storage state satisfies. */
  ghost predicate Inv(s: Store) {
    && Kept(s.deltas.Keys, s.nextDelta, s.manifest.hotDelta)
    && Bounded(s.segments, s.nextSegment) && Bounded(s.quantizers, s.nextQuantizer)
    && Epochs(s.draft.delta, s.nextEpoch) && AllEpochs(s.deltas, s.nextEpoch)
    && ReferencesExist(s, s.manifest)
  }

  /** A manifest that refers to nothing yet. */
  predicate Bare(m: Manifest) {
    m.segments == [] && m.hotDelta.None? && m.quantizers == []
  }

  lemma InitialInv(m: Manifest)
    requires Bare(m)
    ensures Inv(InitialStore(m))
  {}

  /** Later contents agree with earlier ones wherever the earlier ones had something. */
  ghost predicate Grows<T(!new)>(stored: map<nat, T>, later: map<nat, T>) {
    forall r :: r in stored ==> r in later && later[r] == stored[r]
  }

  /** Deltas frozen before `n` are never changed and, once gone, never come back. */
  ghost predicate Shrinks(deltas: map<nat, Delta>, later: map<nat, Delta>, n: nat) {
    forall r :: r in later && r < n ==> r in deltas && later[r] == deltas[r]
  }

  /** Nothing a snapshot reads is changed, no reference is reused, and nothing that is gone comes back. */
  ghost predicate Extends(s: Store, later: Store) {
    && s.nextSegment <= later.nextSegment && s.nextDelta <= later.nextDelta
    && s.nextEpoch <= later.nextEpoch && s.nextQuantizer <= later.nextQuantizer
    && Grows(s.segments, later.segments) && Grows(s.quantizers, later.quantizers)
    && Shrinks(s.deltas, later.deltas, s.nextDelta)
  }

  function NewerThan(refs: set<nat>, r: nat): set<nat> { set x | x in refs && x > r }

  lemma FewNewer(refs: set<nat>, n: nat, published: Option<nat>, r: nat)
    requires Kept(refs, n, published) && r in refs + {n}
    ensures |NewerThan(refs + {n}, r)| < RETAINED <==> r in Newest(n + 1)
  {
    var newer := NewerThan(refs + {n}, r);
    if n <= r + 1 {
      assert newer <= {n};
      SubsetSize(newer, {n});
    } else {
      assert n - 1 in Newest(n) && {n, n - 1} <= newer;
      SubsetSize({n, n - 1}, newer);
    }
  }

  /** After a freeze exactly the two newest deltas and the published one remain. */
  lemma CollectKeeps(deltas: map<nat, Delta>, n: nat, published: Option<nat>, d: Delta)
    requires Kept(deltas.Keys, n, published)
    ensures Collect(deltas[n := d], published).Keys == Newest(n + 1) + AsSet(published)
  {
    hide Newest, Kept, AsSet;
    var refs, all := deltas.Keys, deltas[n := d];
    assert refs + {n} == all.Keys;
    NewestWithin(refs, n, published);
    forall r | r in all ensures Survives(all.Keys, r, published) <==> r in Newest(n + 1) + AsSet(published) {
      SurvivesIff(refs, n, published, r);
    }
  }

  lemma SurvivesIff(refs: set<nat>, n: nat, published: Option<nat>, r: nat)
    requires Kept(refs, n, published) && r in refs + {n}
    ensures Survives(refs + {n}, r, published) <==> r in Newest(n + 1) + AsSet(published)
  {
    hide Newest, Kept;
    FewNewer(refs, n, published, r);
    assert NewerThan(refs + {n}, r) == set x | x in refs + {n} && x > r;
  }

  lemma NewestWithin(refs: set<nat>, n: nat, published: Option<nat>)
    requires Kept(refs, n, published)
    ensures Newest(n + 1) + AsSet(published) <= refs + {n}
  {}

  lemma NewestKept(refs: set<nat>, n: nat, published: Option<nat>)
    requires Kept(refs, n, published)
    ensures Kept(Newest(n + 1) + AsSet(published), n + 1, published)
  {
    var kept := Newest(n + 1) + AsSet(published);
    assert kept - Newest(n + 1) <= AsSet(published);
    SubsetSize(kept - Newest(n + 1), AsSet(published));
  }

  lemma FreezeKeepsContents(s: Store)
    requires AllEpochs(s.deltas, s.nextEpoch) && Epochs(s.draft.delta, s.nextEpoch)
    ensures var f := FreezeDelta(s, true);
      AllEpochs(f.deltas, s.nextEpoch) && Shrinks(s.deltas, f.deltas, s.nextDelta)
  {
    hide Survives, Epochs;
  }

  lemma FreezeInv(s: Store)
    requires Inv(s)
    ensures Inv(FreezeDelta(s, true)) && Extends(s, FreezeDelta(s, true))
  {
    hide Collect, Newest, Kept, Epochs, AllEpochs, Shrinks, AsSet;
    FreezeKeepsRefs(s);
    FreezeKeepsContents(s);
  }

  lemma FreezeKeepsRefs(s: Store)
    requires Kept(s.deltas.Keys, s.nextDelta, s.manifest.hotDelta)
    ensures var f := FreezeDelta(s, true);
      && Kept(f.deltas.Keys, f.nextDelta, s.manifest.hotDelta)
      && (s.manifest.hotDelta.Some? ==> s.manifest.hotDelta.value in f.deltas)
  {
    hide Collect, Newest, Kept;
    CollectKeeps(s.deltas, s.nextDelta, s.manifest.hotDelta, s.draft.delta);
    NewestKept(s.deltas.Keys, s.nextDelta, s.manifest.hotDelta);
  }

  /** Draft edits leave everything published alone and hand out increasing tombstone epochs. */
  lemma EditInv(s: Store, step: Step)
    requires Inv(s) && (step.DoAppend? || step.DoRewrite? || step.DoTombstone? || step.DoStarts?)
    ensures Inv(Apply(s, step)) && Extends(s, Apply(s, step))
  {
    hide Kept;
    var t := Apply(s, step);
    assert t.deltas == s.deltas && t.segments == s.segments && t.quantizers == s.quantizers && t.manifest == s.manifest;
    assert Epochs(t.draft.delta, t.nextEpoch);
    assert AllEpochs(t.deltas, t.nextEpoch);
    assert ReferencesExist(t, t.manifest);
  }

  lemma StoreInv(s: Store, step: Step)
    requires Inv(s) && (step.DoSegment? || step.DoQuantizer?)
    ensures Inv(Apply(s, step)) && Extends(s, Apply(s, step))
  {
    hide Kept, Epochs, AllEpochs, SegmentNodes, NextQuantizerVersion;
    var t := Apply(s, step);
    assert t.deltas == s.deltas && t.manifest == s.manifest && t.draft == s.draft;
    assert Grows(s.segments, t.segments) && Grows(s.quantizers, t.quantizers);
    assert ReferencesExist(t, t.manifest);
  }

  lemma PublishInv(s: Store, step: Step)
    requires Inv(s) && step.DoPublish?
    ensures Inv(Apply(s, step)) && Extends(s, Apply(s, step))
  {
    hide Epochs, AllEpochs, ManifestValid;
    if Succeeds(s, step) {
      var t := Apply(s, step);
      assert ReferencesExist(t, t.manifest);
      assert Kept(t.deltas.Keys, t.nextDelta, t.manifest.hotDelta);
    }
  }

  lemma StepInv(s: Store, step: Step)
    requires Inv(s)
    ensures Inv(Apply(s, step)) && Extends(s, Apply(s, step))
  {
    hide Inv, Extends;
    match step {
      case DoFreeze => FreezeInv(s);
      case DoPublish(_, _) => PublishInv(s, step);
      case DoSegment(_) => StoreInv(s, step);
      case DoQuantizer(_, _) => StoreInv(s, step);
      case _ => EditInv(s, step);
    }
  }

  lemma {:induction false} RunInv(s: Store, steps: seq<Step>)
    requires Inv(s)
    ensures Inv(Run(s, steps)) && Extends(s, Run(s, steps))
  {
    hide Inv, Apply;
    if steps == [] {
      assert Extends(s, s);
    } else {
      RunInv(s, steps[..|steps| - 1]);
      StepInv(Run(s, steps[..|steps| - 1]), steps[|steps| - 1]);
    }
  }

  /**
   * Delta collection: at most three frozen deltas are ever retained; the two latest freezes and the
   * published manifest's delta are always among them.
   */
  lemma DeltaRetention(m: Manifest, steps: seq<Step>)
    requires Bare(m)
    ensures var s := Run(InitialStore(m), steps);
      && |s.deltas| <= RETAINED + 1
      && (1 < s.nextDelta ==> s.nextDelta - 1 in s.deltas)
      && (2 < s.nextDelta ==> s.nextDelta - 2 in s.deltas)
      && (s.manifest.hotDelta.Some? ==> s.manifest.hotDelta.value in s.deltas)
  {
    hide Inv;
    InitialInv(m);
    RunInv(InitialStore(m), steps);
    Retention(Run(InitialStore(m), steps));
  }

  lemma Retention(s: Store)
    requires Inv(s)
    ensures |s.deltas| <= RETAINED + 1
    ensures 1 < s.nextDelta ==> s.nextDelta - 1 in s.deltas
    ensures 2 < s.nextDelta ==> s.nextDelta - 2 in s.deltas
    ensures s.manifest.hotDelta.Some? ==> s.manifest.hotDelta.value in s.deltas
  {
    hide Epochs, AllEpochs;
    assert |s.deltas| == |s.deltas.Keys|;
    KeptSize(s.deltas.Keys, s.nextDelta, s.manifest.hotDelta);
    assert s.nextDelta > 1 ==> s.nextDelta - 1 in Newest(s.nextDelta);
    assert s.nextDelta > 2 ==> s.nextDelta - 2 in Newest(s.nextDelta);
  }

  lemma KeptSize(refs: set<nat>, n: nat, published: Option<nat>)
    requires Kept(refs, n, published)
    ensures |refs| <= RETAINED + 1
  {
    assert refs == Newest(n) + (refs - Newest(n));
  }

  /**
   * Snapshot isolation: through a snapshot whose references existed at some point, every later read gives
   * the answer it gave then, except that it fails with "not found" exactly when its delta was collected.
   */
  lemma SnapshotIsolation(s: Store, steps: seq<Step>, snapshot: Manifest, id: NodeId)
    requires Inv(s) && Resolves(s, snapshot)
    ensures var later := Run(s, steps);
      var collected := snapshot.hotDelta.Some? && snapshot.hotDelta.value !in later.deltas;
      && ResolveNode(later, snapshot, id) == (if collected then Err(StorageNotFound) else ResolveNode(s, snapshot, id))
      && ResolveVector(later, snapshot, id) == (if collected then Err(StorageNotFound) else ResolveVector(s, snapshot, id))
  {
    hide Inv, Run, Extends;
    RunInv(s, steps);
    IsolationBetween(s, Run(s, steps), snapshot, id);
  }

  /** The same between any two states of which the later one extends the earlier one. */
  lemma IsolationBetween(s: Store, later: Store, snapshot: Manifest, id: NodeId)
    requires Inv(s) && Extends(s, later) && Resolves(s, snapshot)
    ensures var collected := snapshot.hotDelta.Some? && snapshot.hotDelta.value !in later.deltas;
      && ResolveNode(later, snapshot, id) == (if collected then Err(StorageNotFound) else ResolveNode(s, snapshot, id))
      && ResolveVector(later, snapshot, id) == (if collected then Err(StorageNotFound) else ResolveVector(s, snapshot, id))
  {
    hide Inv;
    SameImmutable(s, later, snapshot.segments, id);
    InvBounds(s);
  }

  lemma InvBounds(s: Store)
    requires Inv(s)
    ensures forall r :: r in s.deltas ==> 1 <= r < s.nextDelta
    ensures Newest(s.nextDelta) <= s.deltas.Keys
  {}

  lemma {:induction false} SameImmutable(s: Store, later: Store, segments: seq<Segment>, id: NodeId)
    requires Grows(s.segments, later.segments) && forall i :: 0 <= i < |segments| ==> segments[i].reference in s.segments
    ensures FindImmutable(later, segments, id) == FindImmutable(s, segments, id)
  {
    if segments != [] {
      assert forall i :: 0 <= i < |segments[1..]| ==> segments[1..][i] == segments[i + 1];
      SameImmutable(s, later, segments[1..], id);
    }
  }

  /** A snapshot over one of the two newest freezes still resolves, and reads what it always read. */
  lemma RecentSnapshotReadable(s: Store, steps: seq<Step>, snapshot: Manifest, id: NodeId)
    requires Inv(s) && Resolves(s, snapshot)
    requires snapshot.hotDelta.Some? ==> Run(s, steps).nextDelta <= snapshot.hotDelta.value + RETAINED
    ensures Resolves(Run(s, steps), snapshot)
    ensures ResolveNode(Run(s, steps), snapshot, id) == ResolveNode(s, snapshot, id)
    ensures ResolveVector(Run(s, steps), snapshot, id) == ResolveVector(s, snapshot, id)
  {
    hide Inv, Run;
    SnapshotIsolation(s, steps, snapshot, id);
    RunInv(s, steps);
    InvBounds(s);
    InvBounds(Run(s, steps));
    if snapshot.hotDelta.Some? {
      assert snapshot.hotDelta.value in Newest(Run(s, steps).nextDelta);
    }
  }

  /** Expected versions of the successful publications of a run, in order. */
  function Won(s: Store, steps: seq<Step>): seq<nat> {
    if steps == [] then []
    else
      var before, step := Run(s, steps[..|steps| - 1]), steps[|steps| - 1];
      Won(s, steps[..|steps| - 1]) + (if Succeeds(before, step) then [step.expected] else [])
  }

  /**
   * The publication protocol: the k-th successful publication expected exactly the k-th version and
   * raised it by one, so of several writers that loaded the same version at most one succeeds.
   */
  lemma {:induction false} VersionsStepByOne(s: Store, steps: seq<Step>)
    ensures Run(s, steps).manifest.version == s.manifest.version + |Won(s, steps)|
    ensures forall k :: 0 <= k < |Won(s, steps)| ==> Won(s, steps)[k] == s.manifest.version + k
  {
    hide Apply, Succeeds;
    if steps != [] {
      VersionsStepByOne(s, steps[..|steps| - 1]);
      StepVersion(Run(s, steps[..|steps| - 1]), steps[|steps| - 1]);
    }
  }

  /** Only a successful publication moves the version, and it starts from the expected one. */
  lemma StepVersion(s: Store, step: Step)
    ensures Apply(s, step).manifest.version == s.manifest.version + (if Succeeds(s, step) then 1 else 0)
    ensures Succeeds(s, step) ==> step.DoPublish? && step.expected == s.manifest.version
  {
    hide ManifestValid, ReferencesExist, SegmentNodes, NextQuantizerVersion, Collect;
  }

  lemma OneWinnerPerVersion(s: Store, steps: seq<Step>)
    ensures Distinct(Won(s, steps))
  {
    VersionsStepByOne(s, steps);
  }

  /** Every successfully published manifest resolves from then on until its delta is collected. */
  lemma PublishedResolves(s: Store, step: Step)
    requires Succeeds(s, step)
    ensures Resolves(Apply(s, step), Apply(s, step).manifest)
    ensures Apply(s, step).manifest == step.replacement.(version := step.expected + 1)
  {}

  /** The part of a manifest that cached rows are keyed by. */
  datatype CacheKey = CacheKey(
    version: nat, config: IndexConfig, segments: seq<Segment>, hotDelta: Option<nat>, tombstoneEpoch: nat,
    quantizers: seq<QuantizerReference>)

  function KeyOf(m: Manifest): CacheKey {
    CacheKey(m.version, m.config, m.segments, m.hotDelta, m.tombstoneEpoch, m.quantizers)
  }

  /** Manifests with the same key read the same rows: start nodes and the id high-water mark do not matter. */
  lemma KeyDeterminesRows(s: Store, a: Manifest, b: Manifest, id: NodeId)
    requires KeyOf(a) == KeyOf(b)
    ensures ResolveNode(s, a, id) == ResolveNode(s, b, id)
    ensures ResolveVector(s, a, id) == ResolveVector(s, b, id)
  {}
}
