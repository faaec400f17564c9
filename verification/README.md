# Verified model of the StreamingDiskANN index

StreamingDiskANN is a vector index: a proximity graph over a snapshot-versioned store of immutable
segments, a hot-delta overlay and a manifest replaced by compare-and-publish. This project models its
graph algorithms, both storage backends, the mutation log, the quantizer and the binding's id map, and
proves what the code promises about them. `dafny verify dfyconfig.toml` checks everything.

Each part has a specification as functions on values, the loops and objects of the code as methods and
classes proved against it, and lemmas about whole runs of the specification.

- **Graph.** `Prune`, `GraphWalk`, `BulkBuild`: alpha-pruning, best-first walks, incremental construction on
  an array of records. `Reading`, `QueryMemory`, `Search`, `SearchLoop`, `SearchRun`, `SnapshotSearch`: bounded
  reads, the memory account and the query loop. `ExactSearch`, `OnlineBase`: an exhaustive search of a published build
  is brute force.
- **Storage.** `StorageModel` is the versioned store as a value; `MemoryBackend` implements it with record
  objects shared between the draft and frozen deltas, so that copy-on-write matters; `StorageRuns` has snapshot
  isolation, delta collection and the publication protocol; `CachedReader` the cache middleware.
- **Online operations.** `InsertPlanning`, `Maintenance`, `StartRepair`, `NodeIds` decide what an operation
  writes; `OnlineModel`, `OnlineSteps`, `OnlineRuns`, `OnlineWriter` perform it and follow whole runs;
  `LogReplay` compares a live index with a replayed one, `Durability` adds the crashes of the log file and the
  byte format. `Binding` keeps the external-id map.
- **Files.** `Bytes`, `MutationCodec`: the log's byte format. `Wal`, `WalRuns`, `FileLog`: framed log, torn
  appends, recovery. `FileDto`, `FileStore`: atomic files, crashes, reopening.
- **Arithmetic.** `Bits`, `UnaryCodes`, `Sbq`: packed unary codes and running statistics. `Distance`: the lane kernels.

Distances and vectors are real numbers; 1.2 and 1.3 are exact. A distance enters as an arbitrary function of
two routing vectors, a query as an arbitrary pair of distance functions, so the results hold for every metric.
Node ids, versions, epochs and counters are unbounded.

Some promises turned out to need a condition, and are proved in that form. Replay gives the very same storage
exactly when, since the last insert, no delete came right after a rejected insert (`LogReplay.ReplayIsExact`). A log
frame reads back exactly when the payload length fits its 32-bit field, which the append does not check
(`Wal.FrameReadsIff`, and `WalRuns.RecoversIff` for runs). A logged vector decodes exactly when it is finite and its
length fits 32 bits (`MutationCodec.RoundTrip`). Pruning removes only adjacent repetitions, so ids stay distinct when
equal ids are contiguous in the ranked order, for instance when every id has one distance (`Prune.PrunedDistinctIff`,
`Prune.PrunedCount`; `Prune.DuplicateIdsSurvive` is the other case). Opening an index without a recorded id mark is
safe exactly when neighbour chains from the start nodes lead to every live row or to an id above it
(`OnlineRuns.ReopenFacts`; `OnlineRuns.LegacyReopenIsUnsafe` is the other case). An insert is logged before its vector
is encoded: without an index quantizer it is logged and then refused (`OnlineRuns.RefusedInsertsAreLogged`). An insert that
fails after staging its record leaves it in the draft for the next publication (`OnlineSteps.HalfInsertSurfaces`). The
comment on hot-delta retention says that a reader may fall one publish behind; the code retains exactly that
(`OnlineRuns.PinnedReaders`).

## Model

| member | source | states |
|---|---|---|
| Labels.ContainsIntersection | src/labels.rs:61-87 | the three-way merge answers true exactly when every label common to two sets is in the third |
| Labels.Overlaps | src/labels.rs:121-139 | the two-way merge answers true exactly when the sets share a label |
| Labels.FromListCanonical | src/labels.rs:20-26 | building a label set from its own labels gives the same set |
| Records.CapIsCeiling | src/types.rs:185-187 | the build-time cap is the least integer not below 1.3 times the neighbour cap |
| Records.ValidateNeighbors | src/storage.rs:1511-1534 | accepts a list exactly when it is within the cap, free of the node itself and of repetitions |
| Records.ValidateRecord | src/types.rs:396-428 | accepts a record exactly when its configuration, routing vector, full vector, labels and neighbour list are all valid |
| Prune.AlphaPrune | src/index.rs:1093-1161 | sorting, adjacent deduplication and selection together give the specified pruned list |
| Prune.SelectDiverse | src/index.rs:1110-1160 | the escalating loop with running maxima of occlusion factors terminates and picks the greedy selection |
| Prune.SweepOnce | src/index.rs:1113-1145 | one round at a fixed alpha picks what the greedy rule picks, and the factors stay the true maxima |
| Prune.PadNearest | src/index.rs:1149-1158 | short selections are filled with the nearest leftovers in order |
| Prune.MarkPicked | src/index.rs:1121-1144 | after a pick every later candidate carries the maximum of its factors against all picks, exempt pairs left out |
| Prune.PrunedCount | src/index.rs:1093-1161 | with one distance per id: distinct ids, exactly min(cap, number of candidates) of them, all from the candidates |
| Prune.PrunedDistinctIff | src/index.rs:1099-1160 | pruned ids are distinct whenever equal ids are contiguous in the ranked order, and exactly then for a pool that fits the cap |
| Prune.PrunedNearest | src/index.rs:1099-1122 | the nearest candidate is always kept, first |
| Prune.PrunedOcclusion | src/index.rs:1110-1158 | picks follow the greedy order of rounds; padding happens only when nothing is admissible any more, nearest first |
| Prune.PickWithinAlpha | src/index.rs:1113-1147 | no non-exempt nearer earlier pick occludes a pick beyond the alpha of its round, which is at most the configured maximum |
| Prune.RoundsDecrease | src/index.rs:1112-1147 | the number of rounds left strictly decreases as alpha grows by 1.2 |
| Prune.DuplicateIdsSurvive | src/index.rs:1102-1102 | a concrete list in which one id has two distances keeps that id twice: only adjacent repetitions are removed |
| GraphWalk.WalkFacts | src/index.rs:772-807 | a best-first walk visits distinct readable nodes, each the closest discovered one, until its limit or until nothing is left |
| GraphWalk.ExhaustiveWalk | src/index.rs:349-413 | a walk whose limit is not below the number of readable nodes visits exactly the reachable ones |
| BulkBuild.GreedySearch | src/index.rs:772-807 | the heap walk over the half-built graph visits the specified best-first sequence |
| BulkBuild.LinkOne | src/index.rs:726-735 | a reverse edge is added once and the list re-pruned when it outgrows its slack |
| BulkBuild.WireOne | src/index.rs:713-737 | wiring one record sets its pruned list and all its reverse edges, nothing else |
| BulkBuild.FinishOne | src/index.rs:739-761 | a finished list is trimmed to the cap and holds the chain edge; validation fails only for the payload |
| BulkBuild.AssignBulkNeighbors | src/index.rs:698-763 | in place, the array ends as the specified built graph; it fails exactly when some payload is invalid |
| BulkBuild.MidBuildBound | src/index.rs:706-737 | whichever record comes next, every list is simple, within ids seen so far, and at most the build-time cap long |
| BulkBuild.BuiltGraph | src/index.rs:698-763 | after the build every list is simple, within 1..n and the cap, payloads are untouched, node i links to i+1 |
| BulkBuild.WithNeighborSimple | src/index.rs:2126-2137 | forcing the chain neighbour into a simple list leaves a simple list within the cap that contains it |
| BulkBuild.BuiltRecordsValid | src/types.rs:396-428 | final validation rejects a built record exactly when its payload is invalid, never for its neighbour list |
| BulkBuild.BuiltReachable | src/index.rs:744-759 | every built node is reachable from node 1 |
| Reading.ReadPresent | src/index.rs:910-938 | chunked reads return the present records in request order, and fail exactly when some chunk exceeds the byte budget |
| Reading.PresentFacts | src/index.rs:910-938 | the returned records are exactly the live requested ones |
| Reading.SmallRecordsFit | src/storage.rs:902-917 | when a full batch of the largest records fits the budget no batch of any chunked read can exceed it |
| QueryMemory.QueryMemoryAccountant.RecordCandidate | src/index.rs:1487-1494 | the running totals stay equal to the sums over candidates and slots |
| QueryMemory.QueryMemoryAccountant.RecordCached | src/index.rs:1511-1518 | a new slot is counted with its record |
| QueryMemory.QueryMemoryAccountant.ReleaseCached | src/index.rs:1522-1527 | the saturating subtraction never saturates: the total drops by exactly the released record |
| QueryMemory.QueryMemoryAccountant.RebuildCandidates | src/index.rs:1497-1508 | after filtering the totals are again the sums over what was kept |
| SearchLoop.QueueBatch | src/index.rs:334-347 | every fetched record gets its own slot and queue entry |
| SearchLoop.CollectNew | src/index.rs:374-381 | marks exactly the unseen neighbours as seen, lists each once, and fails past the candidate budget |
| SearchLoop.PopTop | src/index.rs:349-371 | a popped slot is never empty and no other queued node uses it |
| SearchLoop.PopRecord | src/index.rs:360-386 | one visit takes the record out of its slot and the account follows |
| SearchLoop.FetchNew | src/index.rs:390-412 | only undiscovered live neighbours are read, each once, and the queue is the frontier again |
| SearchRun.Traverse | src/index.rs:349-413 | the loop ends with the specified walk visited, within the visit and candidate budgets |
| SearchRun.Rescore | src/index.rs:940-998 | exact distances are read in bounded batches and give one hit per candidate with a full vector |
| SearchRun.SearchSnapshot | src/index.rs:307-457 | an Ok answer is exactly the specified one, visits and seen ids are within budget, and budgets no query can exceed never fail it |
| SnapshotSearch.SearchWithSnapshot | src/index.rs:289-457 | an invalid snapshot, invalid options and a query of the wrong width are refused in this order with their own errors, then a query no quantizer can encode; no answer comes from a snapshot whose delta was collected; any answer is the specified one for the normalised query, and ample budgets give one |
| Search.RankingIgnoresOrder | src/index.rs:415-457 | the ranked hits do not depend on the order in which candidates were visited |
| ExactSearch.ExhaustiveSearchIsExact | src/index.rs:289-457 | with rescoring and a search list not shorter than the input, searching a built graph is brute force, for every filter and metric |
| StorageModel.FindInUnion | src/storage.rs:1489-1509 | looking a node up segment by segment finds it in the union of the segments |
| StorageModel.ResolveReadsView | src/storage.rs:1393-1487 | through a snapshot whose references exist, resolution reads the overlay of delta over segments |
| StorageModel.ResolveErrors | src/storage.rs:1393-1509 | a read fails only with "not found", and only when something it needs is gone |
| StorageModel.BatchReadsView | src/storage.rs:902-917 | a bounded batch reads the overlay view under the same budget |
| StorageModel.VectorBatchReadsView | src/storage.rs:920-961 | a bounded batch of full vectors reads the overlay view under the budget of rescoring |
| MemoryBackend.MemoryStorage.AppendNode | src/storage.rs:1011-1021 | an accepted record replaces rewrites and tombstones of its id; an invalid one changes nothing |
| MemoryBackend.MemoryStorage.RewriteNeighbors | src/storage.rs:1023-1042 | copy-on-write over shared record objects changes the draft alone: frozen deltas read as before |
| MemoryBackend.MemoryStorage.ReplaceByCopy | src/storage.rs:1031-1034 | a record some frozen delta holds is replaced by a changed copy |
| MemoryBackend.MemoryStorage.ChangeInPlace | src/storage.rs:1031-1034 | a record nobody else holds is changed in place, with the same outcome |
| MemoryBackend.MemoryStorage.TombstoneNode | src/storage.rs:1044-1052 | hands out the next epoch and drops the record and its rewrite from the draft |
| MemoryBackend.MemoryStorage.UpdateStarts | src/storage.rs:1054-1057 | stages the start nodes to publish next |
| MemoryBackend.MemoryStorage.PublishHotDelta | src/storage.rs:1087-1115 | freezes the draft by sharing its objects and keeps only the surviving frozen deltas |
| MemoryBackend.MemoryStorage.CompareAndPublish | src/storage.rs:881-898 | succeeds exactly when the manifest is valid, the version is the expected one and all references exist |
| MemoryBackend.MemoryStorage.InsertSegment | src/storage.rs:839-867 | stores valid records with distinct ids under a new reference, and nothing otherwise |
| MemoryBackend.CollectSegment | src/storage.rs:847-856 | the insertion loop accepts a list exactly when config and records are valid and ids distinct |
| MemoryBackend.MemoryStorage.StoreQuantizer | src/storage.rs:965-989 | the new quantizer gets the next reference and the next version of its scope |
| MemoryBackend.MemoryStorage.ReadNodes | src/storage.rs:902-917 | the batch loop returns the rows in request order, the first failure, or the budget error |
| MemoryBackend.MemoryStorage.Resolve | src/storage.rs:1393-1436 | resolution over the shared objects is resolution over their values |
| MemoryBackend.MemoryStorage.ReadFullVectors | src/storage.rs:920-961 | the full-vector loop returns the rows in request order, the first failure, or the budget error |
| MemoryBackend.MemoryStorage.ResolveFull | src/storage.rs:1438-1487 | full-vector resolution over the shared objects is resolution over their values |
| StorageRuns.StepInv | src/storage.rs:881-1137 | every storage step keeps the reachable-state invariant, changes nothing a snapshot reads, and reuses no reference |
| StorageRuns.CollectKeeps | src/storage.rs:1123-1137 | after a freeze exactly the two newest deltas and the published one remain |
| StorageRuns.DeltaRetention | src/storage.rs:1064-1137 | over every run: at most three frozen deltas, always with the two latest freezes and the manifest's |
| StorageRuns.SnapshotIsolation | src/storage.rs:1010-1115 | a read through a pinned snapshot gives its old answer in every later state, or "not found" exactly when its delta was collected |
| StorageRuns.RecentSnapshotReadable | src/storage.rs:1075-1137 | a snapshot over one of the two newest freezes still resolves and reads the same |
| StorageRuns.VersionsStepByOne | src/storage.rs:881-898 | the k-th successful publication expected exactly the k-th version and raised it by one |
| StorageRuns.OneWinnerPerVersion | src/storage.rs:887-896 | of all writers that loaded one version at most one ever succeeds |
| StorageRuns.PublishedResolves | src/storage.rs:1358-1391 | a published manifest resolves and carries the expected version plus one |
| StorageRuns.KeyDeterminesRows | src/storage.rs:709-724 | manifests with equal cache keys read equal rows |
| CachedReader.CachedNodeReader.constructor | src/storage.rs:556-574 | a new cache, with or without capacity, is empty and consistent |
| CachedReader.CachedNodeReader.Insert | src/storage.rs:665-696 | a known entry keeps its place, a new one goes last, the oldest leave; the count is the queue length and never above capacity |
| CachedReader.CachedNodeReader.Evict | src/storage.rs:681-695 | eviction keeps exactly the youngest entries and the queue lists each stored entry once |
| CachedReader.CachedNodeReader.Split | src/storage.rs:594-617 | each requested id is served from the cache or listed as missing once, in request order |
| CachedReader.CachedNodeReader.ReadNodes | src/storage.rs:583-652 | every request is answered exactly as the inner reader would, errors included, whatever was cached before |
| CachedReader.MissingDecides | src/storage.rs:619-637 | reading only the missing ids fails exactly when reading all would, the same way, and costs no more bytes |
| Maintenance.CollectReachable | src/index.rs:1265-1308 | the batched walk gives the node-at-a-time first-in-first-out walk |
| Maintenance.FrontierAtOnce | src/index.rs:1281-1306 | draining a frontier and absorbing its records in order equals visiting its nodes one by one |
| Maintenance.ReachFacts | src/index.rs:1265-1308 | the truncated flag is set exactly when some start or discovered neighbour was left unvisited; nodes are visited once, within the budget |
| StartRepair.ElectStarts | src/index.rs:1918-1937 | the loop elects the first record and, per label, its first carrier |
| StartRepair.ElectEntry | src/index.rs:1918-1937 | a label leads to the first record that carries it; a label nobody carries has no entry |
| StartRepair.RepairStartNodes | src/index.rs:1208-1252 | non-start deletes need no repair; otherwise the reachable records elect anew and good old entries are held over after truncation |
| StartRepair.HoldOver | src/index.rs:1227-1249 | exactly the unreplaced entries that still point at a live other node are kept |
| StartRepair.RepairKeepsStarts | src/index.rs:1208-1252 | after the delete every start is live and carries its label |
| StartRepair.ExtendStartNodes | src/index.rs:1163-1192 | an insert becomes the default when none is readable and fills labels without entry |
| StartRepair.InsertKeepsStarts | src/index.rs:1163-1192 | after the insert every start is live and carries its label, and the default is live |
| NodeIds.NextNodeId | src/index.rs:1864-1916 | resumes above the recorded mark; for a manifest without one the scan ends and returns the largest reachable id plus one |
| NodeIds.ResumedIff | src/index.rs:1888-1915 | the resumed id is the one id that exceeds everything reachable and is no larger than needed |
| NodeIds.ScanFrontier | src/index.rs:1890-1913 | one level reads every waiting id and queues exactly the new neighbours |
| InsertPlanning.FindInsertNeighbors | src/index.rs:1000-1033 | merges the plain and the labelled search, ranks by distance and id, keeps the first ones; succeeds under ample budgets |
| InsertPlanning.InsertNeighborsValid | src/index.rs:1000-1033 | the chosen neighbours are live, distinct and within the cap: a valid list for a node exactly when it is not among them |
| InsertPlanning.RewriteBackpointer | src/index.rs:1035-1085 | a readable neighbour gets its readable neighbours and the new node pruned; an unreadable one is skipped |
| InsertPlanning.BackpointersValid | src/index.rs:1035-1085 | a rewritten list is within the cap, without repetitions and without the node itself |
| OnlineModel.ShownAppend | src/storage.rs:1011-1021 | appending a record shows it and clears its tombstone, and changes nothing else a reader sees |
| OnlineModel.ShownRewrite | src/storage.rs:1023-1042 | a rewrite changes the list of that node and nothing else a reader sees |
| OnlineModel.PublishOverFacts | src/index.rs:606-627 | publishing over the current manifest cannot fail and makes exactly the draft visible |
| OnlineSteps.InsertFacts | src/index.rs:527-584 | a completed insert adds exactly one row, keeps starts and lists good, leaves pinned snapshots alone, and raises the mark over its id |
| OnlineSteps.DeleteFacts | src/index.rs:586-604 | a completed delete marks exactly one id as deleted and keeps everything else |
| OnlineSteps.HalfInsertSurfaces | src/index.rs:569-583 | an insert that fails after its record was staged is invisible in the published manifest, and the next publication shows its row |
| OnlineRuns.RunsRefineTable | src/index.rs:466-627 | over every run of inserts, deletes, replayed entries, rejected and refused inserts and reopenings the published state is a plain map from ids to rows or deletions |
| OnlineRuns.RunsReadTable | src/index.rs:466-627 | every read of the published manifest succeeds and shows that map: external id, labels, full vector, deletion |
| OnlineRuns.RunsKeepStarts | src/index.rs:1163-1252 | in every published manifest starts are live and carry their labels, and all lists are valid |
| OnlineRuns.DeletedIsNoStart | src/index.rs:1208-1252 | the node a live or replayed delete removes is no start of the manifest it publishes |
| OnlineRuns.PinnedReaders | src/storage.rs:1075-1137 | a pinned manifest reads the same for exactly one further publication and then reports "not found" |
| OnlineRuns.IdsExceedMarks | src/index.rs:1310-1346 | once recorded, marks never drop and stay below the next id, over replays and reopening |
| OnlineRuns.HandedOutIdsAreNew | src/index.rs:1310-1346 | the id an insert takes exceeds every row live in any manifest published before it in the run and every mark recorded before, and readers find the new row under it |
| OnlineRuns.ReopenFacts | src/index.rs:1864-1916 | reopening keeps an index healthy exactly when a mark is recorded or, for every live row, chains of neighbours from the start nodes lead to it or to some id above it |
| OnlineRuns.LegacyReopenIsUnsafe | src/index.rs:1888-1915 | a failing input: two unlinked rows 1 and 2, entered at row 1, without a mark: reopening hands out id 2, and the next insert takes the id of live row 2 |
| OnlineRuns.OwnRunsAdmitted | src/index.rs:466-497 | live operations and reopening need no guard once a mark is recorded, nor from a base whose next id is the one opening resumes with |
| OnlineRuns.ChecksDecide | src/index.rs:535-567 | given a routing vector of the configured shape, the finished record is valid exactly when its input passed the checks and it was not chosen as its own neighbour; only an id that is live already can be, so no live insert fails this validation |
| OnlineRuns.RefusedInsertsAreLogged | src/index.rs:535-557 | on an SBQ index that lists no index quantizer, whatever is inserted, the storage never changes while every accepted input leaves a log entry and every input takes an id |
| LogReplay.ReplayIsExact | src/index.rs:504-584 | replaying the log into a copy of the base gives the same storage but for the mark, and the very same exactly when, since the last insert, no delete came right after a rejected insert; the next ids agree too exactly when the run does not end with a rejected one |
| LogReplay.BulkReplayIsExact | src/index.rs:504-584 | the same for a copy of the same bulk build as the base |
| LogReplay.ReplayMatches | src/index.rs:504-584 | from any base, replay reproduces everything but possibly the mark |
| LogReplay.CleanReplay | src/index.rs:504-584 | without rejected inserts replay gives the same manifest, deltas and next id |
| LogReplay.BurnedIdIsNotReplayed | src/index.rs:472-479 | a rejected insert followed by a delete leaves a mark that replay does not reproduce |
| OnlineBase.BulkPublishes | src/index.rs:255-270 | publishing a build over an untouched storage cannot fail and shows exactly the built records |
| OnlineBase.BulkHealthy | src/index.rs:209-272 | a bulk build leaves an index every run result applies to |
| OnlineBase.BulkTable | src/index.rs:209-272 | the plain map after a build is the input rows numbered from one |
| OnlineBase.BulkThenSearchIsExact | src/index.rs:209-457 | end to end: searching the published build with rescoring and a long enough list is brute force over the input rows |
| OnlineBase.InitialHealthy | src/storage.rs:809-833 | an empty storage is a healthy index |
| OnlineWriter.OnlineIndex.PublishHotDeltaOver | src/index.rs:606-627 | over the shared storage object the publication always succeeds and gives the specified manifest |
| OnlineWriter.OnlineIndex.RewriteBackpointers | src/index.rs:570-572 | the loop rewrites the list of every chosen neighbour that is still readable, one after the other |
| OnlineWriter.OnlineIndex.StageInsert | src/index.rs:556-576 | searches for neighbours on the pinned view, then stages the record, the rewritten lists and the start nodes: the specified plan, staged; only an exceeded read budget fails it |
| OnlineWriter.OnlineIndex.ApplyInsert | src/index.rs:527-584 | the object ends as the specified insert of its old value; without an index quantizer nothing is written; a failure leaves the published manifest and the next id alone |
| OnlineWriter.OnlineIndex.Insert | src/index.rs:466-480 | takes the next id and is one operation of the specified runs: completed, rejected by its checks, or logged and refused for want of a quantizer; completes under ample budgets, and then serves the next operation |
| OnlineWriter.OnlineIndex.Delete | src/index.rs:495-497 | is one delete of the specified runs, or changes nothing when its repair exceeds the read budget |
| OnlineWriter.OnlineIndex.ApplyDelete | src/index.rs:586-604 | repairs the starts on the pinned view before anything is logged, then buries the id and publishes: the specified delete |
| OnlineWriter.OnlineIndex.Replay | src/index.rs:512-525 | one log entry has the effect of the specified replay and is not logged again |
| OnlineWriter.OnlineIndex.Search | src/index.rs:279-282 | answers with the specified answer over the current manifest, whose own delta is never gone |
| OnlineWriter.OnlineIndex.Build | src/index.rs:209-272 | wires the rows in place and publishes them: the object ends as the specified build, exactly when every row fits the configuration, and is otherwise unchanged |
| OnlineWriter.OnlineIndex.SearchBuilt | src/index.rs:209-457 | the search method on a published build answers with brute force over the input rows, and does answer under ample budgets |
| OnlineWriter.OnlineIndex.PublishBuilt | src/index.rs:241-271 | the segment, the manifest and the allocator after a build over any current manifest, in place; fails exactly when the records cannot be stored, changing nothing |
| OnlineWriter.OnlineIndex.AdvanceNextNodeIdAfter | src/index.rs:1329-1336 | afterwards the next id lies above the given id; it never drops and moves no further than needed |
| MutationCodec.EncodeMutation | src/index.rs:1695-1723 | the byte-pushing encoder writes the specified bytes |
| MutationCodec.DecodeMutation | src/index.rs:1725-1761 | the cursor decoder computes the specified decoding, errors included |
| MutationCodec.RoundTrip | src/index.rs:1690-1848 | decoding an encoding gives the mutation back exactly when its vector is finite and its length fits 32 bits |
| MutationCodec.PrefixFree | src/index.rs:1824-1848 | every proper extension and every strict prefix of a decodable byte string is rejected |
| MutationCodec.MutationCursor.ReadExact | src/index.rs:1835-1847 | reads exactly that many bytes or fails without moving |
| Bytes.LeRoundTrip | src/index.rs:1789-1811 | a little-endian field gives back the number modulo its width |
| Wal.Load | streaming-diskann-file/src/lib.rs:571-635 | opening keeps the entries of whole frames from the floor on, cuts the torn tail, and fails only on a bad header |
| Wal.ScanFrames | streaming-diskann-file/src/lib.rs:586-608 | the cursor loop finds exactly the whole frames before the first bad one |
| Wal.FrameReadsIff | streaming-diskann-file/src/lib.rs:554-561 | a written frame reads back exactly when the payload length fits 32 bits |
| Wal.TornFrame | streaming-diskann-file/src/lib.rs:588-600 | any strict prefix of a frame reads as nothing |
| Wal.FramesRead | streaming-diskann-file/src/lib.rs:586-608 | a log of whole frames and an unreadable tail reads as those frames |
| WalRuns.RunsRecover | streaming-diskann-file/src/lib.rs:554-953 | after any run of appends, checkpoints, truncations and crashes memory and disk agree with the logged history |
| WalRuns.RecoveredEntries | streaming-diskann-file/src/lib.rs:571-635 | the entries are exactly the offsets from the floor to the end with their original bytes, plus at most the append in flight |
| WalRuns.RecoversIff | streaming-diskann-file/src/lib.rs:554-635 | one more append on top of any run survives the next crash exactly when its length fits 32 bits |
| WalRuns.CrashLeavesShort | streaming-diskann-file/src/lib.rs:585-611 | after any crash, from any state, no entry is longer than the 32-bit length field can say |
| WalRuns.TornCrash | streaming-diskann-file/src/lib.rs:855-876 | a crash while appending leaves the whole entry or no trace |
| WalRuns.QuietCrash | streaming-diskann-file/src/lib.rs:929-952 | a crash between publishing the floor and compacting the log loses nothing above the floor |
| WalRuns.NeverReissued | streaming-diskann-file/src/lib.rs:855-876 | offsets returned to callers increase strictly over every crash |
| WalRuns.HistoryGrows | streaming-diskann-file/src/lib.rs:854-953 | the payload logged under an offset never changes |
| FileLog.MutationLog.constructor | streaming-diskann-file/src/lib.rs:571-635 | an opened log is the recovered one over the trimmed file |
| FileLog.MutationLog.Append | streaming-diskann-file/src/lib.rs:855-876 | returns the next offset and adds one frame and one entry |
| FileLog.MutationLog.SetCheckpoint | streaming-diskann-file/src/lib.rs:905-923 | moves the checkpoint within the floor and the end, and changes nothing otherwise |
| FileLog.MutationLog.TruncateBeforeCheckpoint | streaming-diskann-file/src/lib.rs:929-952 | publishes the floor, drops the entries below it and rewrites the file from what is left |
| FileLog.MutationLog.ReplayFrom | streaming-diskann-file/src/lib.rs:878-903 | delivers the entries from the offset on; below the floor it reports them unavailable |
| FileLog.ReplayDelivers | streaming-diskann-file/src/lib.rs:878-903 | after any run replay delivers exactly the logged history from the offset on |
| Durability.RecoveredTail | src/index.rs:504-525 | after any crashes the entries the log delivers from an offset on decode, without error, to the operations logged from there on |
| Durability.CheckpointAndTail | src/index.rs:499-525 | the storage at any point of a run, opened, plus the recovered and decoded log from that point on replays to the live storage but for the mark, and to exactly the live storage unless the rest of the run lost an id |
| Durability.RunFrom | src/index.rs:466-604 | a run continues from any point of it as if it had started there with an empty log |
| FileDto.DeltaRoundTrip | streaming-diskann-file/src/dto.rs:362-419 | a delta survives writing and reading exactly when its records are held under their own ids |
| FileDto.RecordsRoundTrip | streaming-diskann-file/src/dto.rs:300-326 | a node map survives exactly when every record is held under its own id |
| FileDto.StartsRoundTrip | streaming-diskann-file/src/dto.rs:232-254 | start nodes survive writing and reading |
| FileDto.ManifestRoundTrip | streaming-diskann-file/src/dto.rs:117-177 | a manifest survives writing and reading |
| FileStore.OpensExactly | streaming-diskann-file/src/lib.rs:289-364 | a directory that backs a state opens with that state's manifest and data, an empty draft, and ids and epochs above everything on disk |
| FileStore.StepBacked | streaming-diskann-file/src/lib.rs:646-851 | every step writes its file so that the directory backs the new state, and overwrites none |
| FileStore.RunsStayBacked | streaming-diskann-file/src/lib.rs:163-364 | over every run of steps and crashes the directory backs the handle, and no data file is overwritten or lost |
| FileStore.LoadsLastRenamed | streaming-diskann-file/src/lib.rs:646-666 | the handle after any run shows exactly the manifest last renamed into place |
| FileStore.NewNamesAreFree | streaming-diskann-file/src/lib.rs:289-385 | after any run the directory opens on the manifest last renamed, the files it names exist, new segment, delta and quantizer names are free, and the next epoch exceeds every epoch on disk, for the running handle and a reopened one |
| FileStore.PinnedForEver | streaming-diskann-file/src/lib.rs:823-851 | on this backend a pinned snapshot reads the same over every step, crash and reopening |
| FileStore.FileStorage.Create | streaming-diskann-file/src/lib.rs:163-193 | a new directory backs its initial manifest |
| FileStore.FileStorage.Open | streaming-diskann-file/src/lib.rs:200-216 | opening what an earlier handle left cannot fail and shows its manifest |
| FileStore.FileStorage.PublishHotDelta | streaming-diskann-file/src/lib.rs:823-851 | the delta file is written before its reference is handed out |
| FileStore.FileStorage.CompareAndPublish | streaming-diskann-file/src/lib.rs:646-666 | publishes by renaming the manifest, or reports why not and changes nothing |
| FileStore.FileStorage.StoreQuantizer | streaming-diskann-file/src/lib.rs:720-749 | the quantizer file is written before its reference is handed out |
| Bits.BitSet | src/sbq.rs:303-305 | setting a bit of a word sets that bit and no other |
| UnaryCodes.SetBit | src/sbq.rs:303-305 | across all words exactly the addressed bit changes |
| UnaryCodes.EncodeLevel | src/sbq.rs:286-301 | writes a run of ones at the dimension's own place, across word boundaries, and nothing else |
| UnaryCodes.XorIsLevelDistance | src/distance.rs:141-205 | counting differing bits of two packed codes gives the sum of the level differences |
| UnaryCodes.DistanceXor | src/distance.rs:199-205 | the word loop counts the differing bits |
| Sbq.LevelThreshold | src/sbq.rs:286-301 | the k-th bit of a dimension is set exactly from the k-th evenly spaced z-score threshold on |
| Sbq.LevelMonotone | src/sbq.rs:286-301 | a larger z-score never has a lower level, and no level exceeds the bit count |
| Sbq.Model.LevelFollows | src/sbq.rs:240-260 | under one trained quantizer a larger component never has a lower level |
| Sbq.Quantize | src/sbq.rs:233-269 | the encoder produces exactly the unary codes of the levels in the specified number of words |
| Sbq.RoutingDistanceIsLevelDistance | src/distance.rs:141-205 | for two vectors under one model the routing distance is the sum over dimensions of the level differences |
| Sbq.RunningStep | src/sbq.rs:189-213 | one running update of mean and spread is exact again |
| Sbq.TrainedStatistics | src/sbq.rs:166-230 | after any samples the mean times the count is their sum and the spread is the sum of squared deviations, hence not negative |
| Sbq.SbqQuantizer.StartTraining | src/sbq.rs:166-177 | training starts from no samples |
| Sbq.SbqQuantizer.AddSample | src/sbq.rs:180-221 | an accepted sample joins the trained ones with exact statistics; a rejected one changes nothing |
| Sbq.SbqQuantizer.FinishTraining | src/sbq.rs:224-230 | training ends usable exactly when means are off or at least one sample was seen |
| Sbq.SbqQuantizer.Encode | src/sbq.rs:233-277 | refuses while training, untrained or with the wrong width; otherwise encodes with the trained statistics |
| Distance.DistanceL2 | src/distance.rs:50-68 | eight lanes and a remainder compute the plain sum of squared differences |
| Distance.InnerProduct | src/distance.rs:76-97 | eight lanes and a remainder compute the plain inner product |
| Distance.DistanceInnerProduct | src/distance.rs:101-103 | the negated plain inner product |
| Distance.DistanceCosine | src/distance.rs:107-111 | one minus the inner product, clamped at zero |
| Distance.ZeroIffEqual | src/distance.rs:50-68 | the squared distance is zero exactly between equal vectors |
| Distance.Symmetric | src/distance.rs:50-91 | both kernels are symmetric |
| Binding.CallsKeepMap | streaming-diskann-node/src/lib.rs:1037-1092 | over every run of completed inserts, deletes and reopenings and rejected inserts the map is exactly external id to node id over live nodes |
| Binding.BulkKeepsMap | streaming-diskann-node/src/lib.rs:949-978 | a bulk build of rows with unique external ids leaves that map |
| Binding.CheckUnique | streaming-diskann-node/src/lib.rs:951-960 | the scan finds a repetition exactly when there is one |
| Binding.RebuildNodeIds | streaming-diskann-node/src/lib.rs:768-803 | the chunked scan asks for each id from 1 to the mark exactly once, in order |
| Binding.RebuiltMapIsTheSame | streaming-diskann-node/src/lib.rs:757-803 | the scan rebuilds exactly the map kept beside the index |
| Binding.ReopenAfterCalls | streaming-diskann-node/src/lib.rs:757-803 | after any completed calls a fresh open rebuilds the same map |

## Left out

- IEEE rounding, NaN and signed zeros: distances, means and alphas are reals; `f64::MAX` as an occlusion factor is a value above every alpha, and the build cap is the exact ceiling of 1.3 times the neighbour cap.
- Overflow of 64-bit ids, versions, epochs and offsets, and of `usize` byte sums: numbers are unbounded; a byte sum that would overflow exceeds every budget and reports the same error kind.
- Error messages: error kinds are kept, texts are dropped; several kinds that carry only text share one name.
- Mutex poisoning, I/O errors, directory listing, `destroy`, file locks and fsync: an atomic file replacement is one step and the single-writer lock is taken as given.
- JSON and postcard encodings: files hold the decoded shapes, so only the conversions to and from them are modelled; CRC-32 is an arbitrary 32-bit function of the body.
- Cosine normalisation: an arbitrary function that is idempotent and keeps the length; square roots in z-scores are an arbitrary function.
- Failing reads inside online operations: runs are over completed operations, inserts rejected before anything was written, and inserts refused for want of a quantizer; an operation that exceeds a read budget midway is in the contracts of OnlineWriter, not in the runs.
- Mismatching routing encodings of stored nodes: a query supplies one distance on routing vectors.
- A second bulk build over a non-empty draft: the code does not clear the draft, and nothing is claimed for it.
- Reachability after online inserts and deletes: the code does not promise it.
- Online edits made before reopening a file-backed index and published over again afterwards: reopening starts an empty draft, and only the state right after reopening is claimed.
- The mutation log of the memory backend: it has the offsets, checkpoint and truncation rules of the file log without the bytes, and is not modelled apart from it.
- Persisted quantizer statistics loaded from elsewhere: exact statistics are proved for models trained in place.
- OnlineModel.PublishOverFacts: covers one writer; with several writers the losing publication is StorageRuns.OneWinnerPerVersion.
- CachedReader.CachedNodeReader.ReadNodes: assumes rows that depend only on the snapshot key and the id, which StorageRuns.KeyDeterminesRows and StorageRuns.SnapshotIsolation give while a snapshot's delta is retained.
- OnlineRuns.RunsRefineTable: a replayed insert names an id that is not live; over a live row the code refuses it when the row is chosen as its own neighbour (OnlineRuns.ChecksDecide), and the other case, in which a labelled start may lose its label, is not part of the runs.
- LogReplay.ReplayIsExact: a log that holds a refused insert is not replayed, since a copy of the base refuses that entry again and stops there.
- WalRuns.RunsRecover: payload lengths are below 2^32, which WalRuns.RecoversIff shows to be needed, and fewer than 2^64 events happen.
- Search options built into the bindings, URI parsing, the registry, release scripts and the conformance module.
