/** The file backend: write-through storage over atomically replaced files, crashes, and what opening finds. */
module FileStore {
  import opened Common
  import opened Records
  import opened Reading
  import opened StorageModel
  import opened StorageRuns
  import opened FileDto

  datatype QuantizerFile = QuantizerFile(reference: QuantizerReference, quantizer: StoredQuantizer)

  /** The directory: one manifest file and numbered data files. */
  datatype Disk = Disk(
    manifest: Option<ManifestDto>,
    segments: map<nat, seq<RecordDto>>,
    deltas: map<nat, DeltaDto>,
    quantizers: map<nat, QuantizerFile>)

  /** An open handle: the cached state and the directory under it. */
  datatype Handle = Handle(store: Store, disk: Disk)

  // ----- steps -----

  /** As in memory, but frozen deltas are never collected. */
  function ApplyCached(s: Store, step: Step): Store {
    if step.DoFreeze? then FreezeDelta(s, false) else Apply(s, step)
  }

  /** The one atomic file write a step makes, if it makes any. */
  function Written(d: Disk, s: Store, step: Step): Disk {
    match step
    case DoFreeze => d.(deltas := d.deltas[s.nextDelta := DeltaToDto(s.draft.delta)])
    case DoSegment(records) => d.(segments := d.segments[s.nextSegment := RecordsToDto(SegmentNodes(records))])
    case DoQuantizer(scope, quantizer) =>
      d.(quantizers := d.quantizers[s.nextQuantizer := QuantizerFile(NewQuantizerReference(s, scope), quantizer)])
    case DoPublish(_, replacement) =>
      if Succeeds(s, step) then d.(manifest := Some(ManifestToDto(Publish(s, replacement).manifest))) else d
    case _ => d
  }

  // ----- opening -----

  function NextId(ids: set<nat>): nat { if ids == {} then 1 else MaxOrZero(ids) + 1 }

  function EpochsOf(deltas: map<nat, Delta>): set<nat> {
    set r, id | r in deltas && id in deltas[r].tombstones :: deltas[r].tombstones[id]
  }

  function LoadedSegments(d: Disk): map<nat, map<NodeId, NodeRecord>> {
    map r | r in d.segments :: RecordsFromDto(d.segments[r])
  }

  function LoadedDeltas(d: Disk): map<nat, Delta> {
    map r | r in d.deltas :: DeltaFromDto(d.deltas[r])
  }

  function LoadedQuantizers(d: Disk): map<nat, (QuantizerReference, StoredQuantizer)> {
    map r | r in d.quantizers :: (d.quantizers[r].reference, d.quantizers[r].quantizer)
  }

  /** All cached state from the files; the draft starts empty and ids and epochs resume above everything found. */
  function Cached(d: Disk, m: Manifest): Store {
    var deltas := LoadedDeltas(d);
    Store(m, NextId(d.segments.Keys), LoadedSegments(d), NextId(d.deltas.Keys), deltas, EMPTY_DRAFT,
          Max(m.tombstoneEpoch, MaxOrZero(EpochsOf(deltas))) + 1, NextId(d.quantizers.Keys), LoadedQuantizers(d))
  }

  function Load(d: Disk): Result<Store> {
    if d.manifest.None? then Err(StorageNotFound)
    else
      match ManifestFromDto(d.manifest.value)
      case Err(e) => Err(e)
      case Ok(m) =>
        if ManifestError(m).Some? then Err(ManifestError(m).value)
        else if exists r :: r in d.quantizers && d.quantizers[r].reference.reference != r then Err(InvalidStorageState)
        else if !ReferencesExist(Cached(d, m), m) then Err(StorageNotFound)
        else Ok(Cached(d, m))
  }

  // ----- the invariant -----

  /** Caches and files agree; everything is keyed by its own id; counters lie above what exists. */
  ghost predicate Backed(s: Store, d: Disk) {
    && d.manifest == Some(ManifestToDto(s.manifest))
    && SegmentsBacked(s.segments, d.segments) && DeltasBacked(s.deltas, d.deltas) && QuantizersBacked(s.quantizers, d.quantizers)
    && Bounded(s.segments, s.nextSegment) && Bounded(s.deltas, s.nextDelta) && Bounded(s.quantizers, s.nextQuantizer)
    && Keyed(s.draft.delta.records)
    && Epochs(s.draft.delta, s.nextEpoch) && AllEpochs(s.deltas, s.nextEpoch)
    && ReferencesExist(s, s.manifest) && ManifestValid(s.manifest)
  }

  ghost predicate SegmentFile(nodes: map<NodeId, NodeRecord>, file: seq<RecordDto>) {
    Keyed(nodes) && file == RecordsToDto(nodes)
  }

  ghost predicate SegmentsBacked(cached: map<nat, map<NodeId, NodeRecord>>, files: map<nat, seq<RecordDto>>) {
    cached.Keys == files.Keys && forall r :: r in cached ==> SegmentFile(cached[r], files[r])
  }

  ghost predicate DeltasBacked(cached: map<nat, Delta>, files: map<nat, DeltaDto>) {
    cached.Keys == files.Keys && forall r :: r in cached ==> Keyed(cached[r].records) && files[r] == DeltaToDto(cached[r])
  }

  ghost predicate QuantizersBacked(cached: map<nat, (QuantizerReference, StoredQuantizer)>, files: map<nat, QuantizerFile>) {
    cached.Keys == files.Keys
    && forall r :: r in cached ==> files[r] == QuantizerFile(cached[r].0, cached[r].1) && cached[r].0.reference == r
  }

  lemma SegmentsLoad(s: Store, d: Disk)
    requires SegmentsBacked(s.segments, d.segments)
    ensures LoadedSegments(d) == s.segments
  {
    hide RecordsFromDto, RecordsToDto, Keyed;
    forall r | r in d.segments ensures RecordsFromDto(d.segments[r]) == s.segments[r] {
      RecordsRoundTrip(s.segments[r]);
    }
  }

  lemma DeltasLoad(s: Store, d: Disk)
    requires DeltasBacked(s.deltas, d.deltas)
    ensures LoadedDeltas(d) == s.deltas
  {
    hide DeltaFromDto, DeltaToDto, Keyed;
    forall r | r in d.deltas ensures DeltaFromDto(d.deltas[r]) == s.deltas[r] {
      DeltaRoundTrip(s.deltas[r]);
    }
  }

  lemma QuantizersLoad(s: Store, d: Disk)
    requires QuantizersBacked(s.quantizers, d.quantizers)
    ensures LoadedQuantizers(d) == s.quantizers
  {}

  lemma NextIdAbove(ids: set<nat>)
    ensures forall id :: id in ids ==> id < NextId(ids)
  {}

  /**
   * Crash consistency: a directory that backs some state opens, shows exactly that state's manifest and data
   * with an empty draft, and hands out ids and epochs above everything on disk.
   */
  lemma OpensExactly(s: Store, d: Disk)
    requires Backed(s, d)
    ensures Load(d).Ok?
    ensures var o := Load(d).value;
      && o.manifest == s.manifest && o.segments == s.segments && o.deltas == s.deltas && o.quantizers == s.quantizers
      && o.draft == EMPTY_DRAFT && o.manifest.tombstoneEpoch < o.nextEpoch && Backed(o, d)
  {
    hide RecordsFromDto, RecordsToDto, DeltaFromDto, DeltaToDto, Keyed, ManifestToDto, ManifestFromDto, LoadedSegments, LoadedDeltas,
         LoadedQuantizers, NextId, MaxOrZero, Epochs;
    ManifestRoundTrip(s.manifest);
    SegmentsLoad(s, d);
    DeltasLoad(s, d);
    QuantizersLoad(s, d);
    NextIdAbove(d.segments.Keys);
    NextIdAbove(d.deltas.Keys);
    NextIdAbove(d.quantizers.Keys);
    EpochsAbove(s.deltas, s.manifest.tombstoneEpoch);
    assert ReferencesExist(Cached(d, s.manifest), s.manifest);
    EmptyDraftGood(Cached(d, s.manifest).nextEpoch);
  }

  lemma EmptyDraftGood(bound: nat)
    ensures Keyed(EMPTY_DRAFT.delta.records) && Epochs(EMPTY_DRAFT.delta, bound)
  {}

  lemma EpochsAbove(deltas: map<nat, Delta>, epoch: nat)
    ensures AllEpochs(deltas, Max(epoch, MaxOrZero(EpochsOf(deltas))) + 1)
  {
    forall r, id | r in deltas && id in deltas[r].tombstones
      ensures deltas[r].tombstones[id] <= MaxOrZero(EpochsOf(deltas))
    {
      assert deltas[r].tombstones[id] in EpochsOf(deltas);
    }
  }

  // ----- every step and every crash keeps it -----

  ghost predicate FilesGrow(d: Disk, later: Disk) {
    Grows(d.segments, later.segments) && Grows(d.deltas, later.deltas) && Grows(d.quantizers, later.quantizers)
  }

  lemma {:induction false} SegmentKeyed(records: seq<NodeRecord>)
    ensures Keyed(SegmentNodes(records))
  {
    if records != [] {
      SegmentKeyed(records[..|records| - 1]);
    }
  }

  /** A fresh name adds a file and changes none. */
  lemma PutNew<T(!new)>(stored: map<nat, T>, n: nat, value: T)
    requires n !in stored
    ensures Grows(stored, stored[n := value])
    ensures Bounded(stored, n) ==> Bounded(stored[n := value], n + 1)
  {}

  lemma DeltasPut(s: Store, d: Disk)
    requires DeltasBacked(s.deltas, d.deltas) && Bounded(s.deltas, s.nextDelta) && Keyed(s.draft.delta.records)
    ensures DeltasBacked(s.deltas[s.nextDelta := s.draft.delta], d.deltas[s.nextDelta := DeltaToDto(s.draft.delta)])
    ensures s.nextDelta !in s.deltas && s.nextDelta !in d.deltas
  {
    hide DeltaToDto, Keyed;
    assert s.nextDelta !in d.deltas.Keys;
  }

  lemma SegmentsPut(s: Store, d: Disk, nodes: map<NodeId, NodeRecord>, file: seq<RecordDto>)
    requires SegmentsBacked(s.segments, d.segments) && Bounded(s.segments, s.nextSegment) && SegmentFile(nodes, file)
    ensures SegmentsBacked(s.segments[s.nextSegment := nodes], d.segments[s.nextSegment := file])
    ensures s.nextSegment !in s.segments && s.nextSegment !in d.segments
  {
    hide SegmentFile;
    assert s.nextSegment !in d.segments.Keys;
  }

  lemma QuantizersPut(s: Store, d: Disk, reference: QuantizerReference, quantizer: StoredQuantizer)
    requires QuantizersBacked(s.quantizers, d.quantizers) && Bounded(s.quantizers, s.nextQuantizer)
    requires reference.reference == s.nextQuantizer
    ensures QuantizersBacked(s.quantizers[s.nextQuantizer := (reference, quantizer)],
                             d.quantizers[s.nextQuantizer := QuantizerFile(reference, quantizer)])
    ensures s.nextQuantizer !in s.quantizers && s.nextQuantizer !in d.quantizers
  {
    assert s.nextQuantizer !in d.quantizers.Keys;
  }

  /** Nothing a manifest refers to goes away when something is stored. */
  lemma StillRefers(s: Store, t: Store)
    requires ReferencesExist(s, s.manifest) && t.manifest == s.manifest
    requires Grows(s.segments, t.segments) && Grows(s.deltas, t.deltas) && Grows(s.quantizers, t.quantizers)
    ensures ReferencesExist(t, t.manifest)
  {}

  lemma FreezeBacked(s: Store, d: Disk)
    requires Backed(s, d)
    ensures Backed(FreezeDelta(s, false), Written(d, s, DoFreeze)) && FilesGrow(d, Written(d, s, DoFreeze))
  {
    hide DeltaToDto, RecordsToDto, Keyed, Epochs, ManifestToDto, ManifestValid, ReferencesExist, SegmentsBacked, DeltasBacked,
         QuantizersBacked;
    var f := FreezeDelta(s, false);
    DeltasPut(s, d);
    PutNew(s.deltas, s.nextDelta, s.draft.delta);
    PutNew(d.deltas, s.nextDelta, DeltaToDto(s.draft.delta));
    assert AllEpochs(f.deltas, f.nextEpoch);
    StillRefers(s, f);
  }

  lemma SegmentBacked(s: Store, d: Disk, records: seq<NodeRecord>)
    requires Backed(s, d)
    ensures Backed(Apply(s, DoSegment(records)), Written(d, s, DoSegment(records))) && FilesGrow(d, Written(d, s, DoSegment(records)))
  {
    hide DeltaToDto, RecordsToDto, Keyed, Epochs, AllEpochs, ManifestToDto, ManifestValid, SegmentNodes, ReferencesExist,
         SegmentsBacked, DeltasBacked, QuantizersBacked;
    SegmentKeyed(records);
    SegmentsPut(s, d, SegmentNodes(records), RecordsToDto(SegmentNodes(records)));
    PutNew(s.segments, s.nextSegment, SegmentNodes(records));
    PutNew(d.segments, s.nextSegment, RecordsToDto(SegmentNodes(records)));
    StillRefers(s, Apply(s, DoSegment(records)));
  }

  lemma QuantizerBacked(s: Store, d: Disk, scope: QuantizerScope, quantizer: StoredQuantizer)
    requires Backed(s, d)
    ensures var step := DoQuantizer(scope, quantizer);
      Backed(Apply(s, step), Written(d, s, step)) && FilesGrow(d, Written(d, s, step))
  {
    hide DeltaToDto, RecordsToDto, Keyed, Epochs, AllEpochs, ManifestToDto, ManifestValid, NextQuantizerVersion, ReferencesExist,
         SegmentsBacked, DeltasBacked, QuantizersBacked;
    QuantizersPut(s, d, NewQuantizerReference(s, scope), quantizer);
    PutNew(s.quantizers, s.nextQuantizer, (NewQuantizerReference(s, scope), quantizer));
    PutNew(d.quantizers, s.nextQuantizer, QuantizerFile(NewQuantizerReference(s, scope), quantizer));
    StillRefers(s, Apply(s, DoQuantizer(scope, quantizer)));
  }

  lemma PublishBacked(s: Store, d: Disk, step: Step)
    requires Backed(s, d) && step.DoPublish?
    ensures Backed(Apply(s, step), Written(d, s, step)) && FilesGrow(d, Written(d, s, step))
  {
    hide DeltaToDto, RecordsToDto, Keyed, Epochs, AllEpochs, ManifestToDto, SegmentsBacked, DeltasBacked, QuantizersBacked;
    if Succeeds(s, step) {
      var t := Apply(s, step);
      assert ReferencesExist(t, t.manifest) && ManifestValid(t.manifest);
    }
  }

  lemma EditBacked(s: Store, d: Disk, step: Step)
    requires Backed(s, d) && (step.DoAppend? || step.DoRewrite? || step.DoTombstone? || step.DoStarts?)
    ensures Backed(Apply(s, step), Written(d, s, step)) && Written(d, s, step) == d
  {
    hide DeltaToDto, RecordsToDto, ManifestToDto, ManifestValid, SegmentsBacked, DeltasBacked, QuantizersBacked;
    var t := Apply(s, step);
    assert Epochs(t.draft.delta, t.nextEpoch);
    assert AllEpochs(t.deltas, t.nextEpoch);
    assert ReferencesExist(t, t.manifest);
  }

  lemma StepBacked(s: Store, d: Disk, step: Step)
    requires Backed(s, d)
    ensures Backed(ApplyCached(s, step), Written(d, s, step)) && FilesGrow(d, Written(d, s, step))
  {
    hide Backed, Written, Apply;
    match step {
      case DoFreeze => FreezeBacked(s, d);
      case DoSegment(records) => SegmentBacked(s, d, records);
      case DoQuantizer(scope, quantizer) => QuantizerBacked(s, d, scope, quantizer);
      case DoPublish(_, _) => PublishBacked(s, d, step);
      case _ => EditBacked(s, d, step);
    }
  }

  // ----- runs with crashes -----

  /** A step completes; or the process dies before its file is in place, or right after. */
  datatype Event = Completes(step: Step) | DiesBefore(step: Step) | DiesAfter(step: Step)

  /** What a new process finds; that the directory always loads is proved below. */
  function Reopen(s: Store, d: Disk): Handle {
    Handle(if Load(d).Ok? then Load(d).value else s, d)
  }

  function Happens(h: Handle, e: Event): Handle {
    match e
    case Completes(step) => Handle(ApplyCached(h.store, step), Written(h.disk, h.store, step))
    case DiesBefore(_) => Reopen(h.store, h.disk)
    case DiesAfter(step) => Reopen(h.store, Written(h.disk, h.store, step))
  }

  function Run(h: Handle, events: seq<Event>): Handle {
    if events == [] then h else Happens(Run(h, events[..|events| - 1]), events[|events| - 1])
  }

  function NewDirectory(m: Manifest): Handle {
    Handle(InitialStore(m), Disk(Some(ManifestToDto(m)), map[], map[], map[]))
  }

  lemma CreateBacked(m: Manifest)
    requires Bare(m) && ManifestValid(m)
    ensures Backed(NewDirectory(m).store, NewDirectory(m).disk)
  {
    hide ManifestToDto;
    assert Keyed(EMPTY_DRAFT.delta.records);
  }

  lemma GrowSelf(d: Disk)
    ensures FilesGrow(d, d)
  {}

  lemma GrowTrans(a: Disk, b: Disk, c: Disk)
    requires FilesGrow(a, b) && FilesGrow(b, c)
    ensures FilesGrow(a, c)
  {}

  lemma EventBacked(h: Handle, e: Event)
    requires Backed(h.store, h.disk)
    ensures Backed(Happens(h, e).store, Happens(h, e).disk) && FilesGrow(h.disk, Happens(h, e).disk)
  {
    hide Backed, Written, ApplyCached, Load, FilesGrow;
    StepBacked(h.store, h.disk, e.step);
    match e {
      case Completes(_) =>
      case DiesBefore(_) =>
        OpensExactly(h.store, h.disk);
        GrowSelf(h.disk);
      case DiesAfter(step) =>
        OpensExactly(ApplyCached(h.store, step), Written(h.disk, h.store, step));
    }
  }

  /** Over every run of steps and crashes the directory backs the handle's state, and no data file is overwritten or lost. */
  lemma {:induction false} RunsStayBacked(h: Handle, events: seq<Event>)
    requires Backed(h.store, h.disk)
    ensures var r := Run(h, events); Backed(r.store, r.disk) && FilesGrow(h.disk, r.disk)
  {
    hide Backed, Happens, FilesGrow;
    if events == [] {
      GrowSelf(h.disk);
    } else {
      var front := events[..|events| - 1];
      RunsStayBacked(h, front);
      EventBacked(Run(h, front), events[|events| - 1]);
      GrowTrans(h.disk, Run(h, front).disk, Run(h, events).disk);
    }
  }

  /** The manifests renamed into place, in order. */
  function Renamed(h: Handle, events: seq<Event>): seq<Manifest> {
    if events == [] then [h.store.manifest]
    else
      var before, e := Run(h, events[..|events| - 1]), events[|events| - 1];
      Renamed(h, events[..|events| - 1]) +
        (if !e.DiesBefore? && Succeeds(before.store, e.step) then [Publish(before.store, e.step.replacement).manifest] else [])
  }

  lemma {:induction false} LoadsLastRenamed(h: Handle, events: seq<Event>)
    requires Backed(h.store, h.disk)
    ensures var all := Renamed(h, events); all != [] && Run(h, events).store.manifest == all[|all| - 1]
  {
    hide Backed, Load, Written;
    if events != [] {
      var front, e := events[..|events| - 1], events[|events| - 1];
      LoadsLastRenamed(h, front);
      RunsStayBacked(h, front);
      var before := Run(h, front);
      StepBacked(before.store, before.disk, e.step);
      OpensExactly(before.store, before.disk);
      OpensExactly(ApplyCached(before.store, e.step), Written(before.disk, before.store, e.step));
      ManifestAfter(before.store, e.step);
    }
  }

  /** The next segment, delta and quantizer files get names that are not on disk, and the next epoch is above all on disk. */
  ghost predicate NamesFree(s: Store, d: Disk) {
    && s.nextSegment !in d.segments && s.nextDelta !in d.deltas && s.nextQuantizer !in d.quantizers
    && forall e :: e in EpochsOf(LoadedDeltas(d)) ==> e < s.nextEpoch
  }

  /** Every file the manifest refers to is there. */
  ghost predicate FilesPresent(m: Manifest, d: Disk) {
    && (forall i :: 0 <= i < |m.segments| ==> m.segments[i].reference in d.segments)
    && (m.hotDelta.Some? ==> m.hotDelta.value in d.deltas)
    && (forall i :: 0 <= i < |m.quantizers| ==>
          m.quantizers[i].reference in d.quantizers && d.quantizers[m.quantizers[i].reference].reference == m.quantizers[i])
  }

  lemma BackedNames(s: Store, d: Disk)
    requires Backed(s, d)
    ensures NamesFree(s, d) && FilesPresent(s.manifest, d)
  {
    hide RecordsToDto, DeltaToDto, Keyed, ManifestToDto, ManifestValid, LoadedDeltas;
    DeltasLoad(s, d);
    assert s.nextSegment !in d.segments.Keys && s.nextDelta !in d.deltas.Keys && s.nextQuantizer !in d.quantizers.Keys;
    forall i | 0 <= i < |s.manifest.segments| ensures s.manifest.segments[i].reference in d.segments {
      assert s.manifest.segments[i].reference in d.segments.Keys;
    }
    forall i | 0 <= i < |s.manifest.quantizers|
      ensures var r := s.manifest.quantizers[i].reference; r in d.quantizers && d.quantizers[r].reference == s.manifest.quantizers[i]
    {
      assert s.manifest.quantizers[i].reference in d.quantizers.Keys;
    }
    assert s.manifest.hotDelta.Some? ==> s.manifest.hotDelta.value in d.deltas.Keys;
  }

  /**
   * Crash consistency: after any run of steps and crashes the directory opens, on exactly the manifest last
   * renamed into place; every file that manifest refers to exists; and both the running handle and a freshly
   * opened one put new files under names that are not on disk and hand out an epoch above every epoch on disk.
   */
  lemma NewNamesAreFree(h: Handle, events: seq<Event>)
    requires Backed(h.store, h.disk)
    ensures var r, all := Run(h, events), Renamed(h, events);
      && all != [] && Load(r.disk).Ok?
      && Load(r.disk).value.manifest == all[|all| - 1] == r.store.manifest
      && FilesPresent(all[|all| - 1], r.disk)
      && NamesFree(r.store, r.disk) && NamesFree(Load(r.disk).value, r.disk)
  {
    hide Backed, Run, Renamed, Load, NamesFree, FilesPresent, FilesGrow;
    var r := Run(h, events);
    RunsStayBacked(h, events);
    LoadsLastRenamed(h, events);
    OpensExactly(r.store, r.disk);
    BackedNames(r.store, r.disk);
    BackedNames(Load(r.disk).value, r.disk);
  }

  lemma ManifestAfter(s: Store, step: Step)
    ensures ApplyCached(s, step).manifest == if Succeeds(s, step) then Publish(s, step.replacement).manifest else s.manifest
  {
    hide SegmentNodes, NextQuantizerVersion;
  }

  lemma CachesGrow(s: Store, d: Disk, later: Store, laterDisk: Disk)
    requires Backed(s, d) && Backed(later, laterDisk) && FilesGrow(d, laterDisk)
    ensures Grows(s.segments, later.segments) && Grows(s.deltas, later.deltas)
  {
    hide RecordsFromDto, RecordsToDto, DeltaFromDto, DeltaToDto, ManifestToDto, ManifestValid, ReferencesExist, SegmentsBacked,
         DeltasBacked, QuantizersBacked, Epochs, AllEpochs;
    SegmentsLoad(s, d);
    DeltasLoad(s, d);
    SegmentsLoad(later, laterDisk);
    DeltasLoad(later, laterDisk);
  }

  /** On this backend a pinned snapshot never expires: over steps, crashes and reopening it reads the same for ever. */
  lemma PinnedForEver(h: Handle, events: seq<Event>, snapshot: Manifest, id: NodeId)
    requires Backed(h.store, h.disk) && Resolves(h.store, snapshot)
    ensures ResolveNode(Run(h, events).store, snapshot, id) == ResolveNode(h.store, snapshot, id)
    ensures ResolveVector(Run(h, events).store, snapshot, id) == ResolveVector(h.store, snapshot, id)
  {
    hide Backed, Run, FilesGrow;
    var r := Run(h, events);
    RunsStayBacked(h, events);
    CachesGrow(h.store, h.disk, r.store, r.disk);
    SameImmutable(h.store, r.store, snapshot.segments, id);
  }

  // ----- the object -----

  class FileStorage {
    var store: Store
    var disk: Disk

    ghost predicate Valid()
      reads this
    {
      Backed(store, disk)
    }

    ghost function Model(): Handle
      reads this
    {
      Handle(store, disk)
    }

    constructor Create(initial: Manifest)
      requires Bare(initial) && ManifestValid(initial)
      ensures Valid() && Model() == NewDirectory(initial)
    {
      store, disk := InitialStore(initial), Disk(Some(ManifestToDto(initial)), map[], map[], map[]);
      new;
      CreateBacked(initial);
    }

    /** Opens a directory that an earlier handle left behind: it cannot fail, and shows that handle's manifest. */
    constructor Open(found: Disk, ghost behind: Store)
      requires Backed(behind, found)
      ensures Valid() && disk == found && Load(found) == Ok(store)
      ensures store.manifest == behind.manifest && store.draft == EMPTY_DRAFT
    {
      hide Backed, Load;
      OpensExactly(behind, found);
      var loaded := Load(found);
      store, disk := loaded.value, found;
    }

    /** The frozen draft is on disk before its reference is handed out. */
    method PublishHotDelta() returns (published: PublishedDelta)
      requires Valid()
      modifies this
      ensures Valid() && Model() == Happens(old(Model()), Completes(DoFreeze)) && published == Frozen(old(store))
    {
      hide Backed, MaxOrZero, DeltaToDto;
      FreezeBacked(store, disk);
      published := PublishedDelta(store.nextDelta, store.draft.starts, MaxOrZero(store.draft.delta.tombstones.Values));
      disk := disk.(deltas := disk.deltas[store.nextDelta := DeltaToDto(store.draft.delta)]);
      store := store.(nextDelta := store.nextDelta + 1, deltas := store.deltas[store.nextDelta := store.draft.delta]);
    }

    /** Renaming the manifest into place is the publication. */
    method CompareAndPublish(expected: nat, replacement: Manifest) returns (r: Result<Manifest>)
      requires Valid()
      modifies this
      ensures Valid() && Model() == Happens(old(Model()), Completes(DoPublish(expected, replacement)))
      ensures r.Err? ==> Some(r.error) == PublishError(old(store), expected, replacement) && Model() == old(Model())
      ensures r.Ok? ==> PublishError(old(store), expected, replacement).None? && r.value == store.manifest
    {
      hide Backed, ManifestToDto, ManifestValid, ReferencesExist;
      PublishBacked(store, disk, DoPublish(expected, replacement));
      if ManifestError(replacement).Some? {
        return Err(ManifestError(replacement).value);
      }
      if store.manifest.version != expected {
        return Err(VersionMismatch);
      }
      if !ReferencesExist(store, replacement) {
        return Err(StorageNotFound);
      }
      var published := replacement.(version := expected + 1);
      disk := disk.(manifest := Some(ManifestToDto(published)));
      store := store.(manifest := published);
      r := Ok(published);
    }

    method StoreQuantizer(scope: QuantizerScope, quantizer: StoredQuantizer) returns (reference: QuantizerReference)
      requires Valid()
      modifies this
      ensures Valid() && Model() == Happens(old(Model()), Completes(DoQuantizer(scope, quantizer)))
      ensures reference == NewQuantizerReference(old(store), scope)
    {
      hide Backed, NextQuantizerVersion;
      QuantizerBacked(store, disk, scope, quantizer);
      reference := QuantizerReference(store.nextQuantizer, scope, NextQuantizerVersion(store, scope));
      disk := disk.(quantizers := disk.quantizers[store.nextQuantizer := QuantizerFile(reference, quantizer)]);
      store := store.(nextQuantizer := store.nextQuantizer + 1,
                      quantizers := store.quantizers[store.nextQuantizer := (reference, quantizer)]);
    }
  }
}
