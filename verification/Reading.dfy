/** What a pinned snapshot shows, and the bounded batch reads over it. */
module Reading {
  import opened Arithmetic
  import opened Common
  import opened Labels
  import opened Records

  /** The routing payload of a record: everything except the full vector. */
  datatype RoutingRecord = RoutingRecord(
    id: NodeId,
    externalId: nat,
    routing: RoutingVector,
    labels: LabelSet,
    neighbors: seq<NodeId>)

  function RoutingOf(record: NodeRecord): RoutingRecord {
    RoutingRecord(record.id, record.externalId, record.routing, record.labels, record.neighbors)
  }

  datatype NodeRead = Present(record: RoutingRecord) | Missing(id: NodeId) | Tombstoned(id: NodeId)

  function ReadId(nodeRead: NodeRead): NodeId {
    if nodeRead.Present? then nodeRead.record.id else nodeRead.id
  }

  datatype VectorRead = VectorPresent(id: NodeId, vector: Vector) | VectorMissing(id: NodeId) | VectorTombstoned(id: NodeId)

  /** The resolved content of one snapshot. */
  datatype View = View(nodes: map<NodeId, NodeRecord>, tombstones: set<NodeId>)

  ghost predicate Keyed(nodes: map<NodeId, NodeRecord>) {
    forall id :: id in nodes ==> nodes[id].id == id
  }

  function Live(view: View): set<NodeId> { view.nodes.Keys - view.tombstones }

  function ReadNode(view: View, id: NodeId): NodeRead {
    if id in view.tombstones then Tombstoned(id)
    else if id in view.nodes then Present(RoutingOf(view.nodes[id]))
    else Missing(id)
  }

  function ReadVector(view: View, id: NodeId): VectorRead {
    if id in view.tombstones then VectorTombstoned(id)
    else if id in view.nodes && view.nodes[id].full.Some? then VectorPresent(id, view.nodes[id].full.value)
    else VectorMissing(id)
  }

  datatype QueryBudget = QueryBudget(
    maxVisited: nat,
    maxCandidates: nat,
    maxReadBatch: nat,
    maxRescore: nat,
    maxFullVectorBytes: nat,
    maxQueryBytes: nat)
  {
    predicate Valid() {
      0 < maxVisited && 0 < maxCandidates && 0 < maxReadBatch && 0 < maxRescore && 0 < maxFullVectorBytes && 0 < maxQueryBytes
    }
  }

  const DEFAULT_BUDGET: QueryBudget := QueryBudget(10000, 20000, 256, 1000, 64 * 1024 * 1024, 8 * 1024 * 1024)

  /** In-memory sizes of the types that byte estimates are computed from. */
  datatype Sizes = Sizes(
    float: nat, word: nat, nodeId: nat, labelTag: nat,
    vecHeader: nat, record: nat, nodeRead: nat, vectorRead: nat,
    candidate: nat, slot: nat, queued: nat, heapHeader: nat, setHeader: nat, setEntry: nat, hit: nat)

  function RoutingVectorBytes(z: Sizes, vector: RoutingVector): nat {
    match vector
    case Plain(components) => |components| * z.float
    case Sbq(words) => |words| * z.word
  }

  function RecordBytes(z: Sizes, record: RoutingRecord): nat {
    z.record + RoutingVectorBytes(z, record.routing) + |record.labels| * z.labelTag + |record.neighbors| * z.nodeId
  }

  function ReadBytes(z: Sizes, read: NodeRead): nat {
    if read.Present? then RecordBytes(z, read.record) else 0
  }

  function SumReadBytes(z: Sizes, rows: seq<NodeRead>): nat {
    if rows == [] then 0 else SumReadBytes(z, rows[..|rows| - 1]) + ReadBytes(z, rows[|rows| - 1])
  }

  function BatchBytes(z: Sizes, rows: seq<NodeRead>): nat {
    z.vecHeader + |rows| * z.nodeRead + SumReadBytes(z, rows)
  }

  function ReadAll(view: View, ids: seq<NodeId>): (rows: seq<NodeRead>)
    ensures |rows| == |ids|
    ensures forall i :: 0 <= i < |ids| ==> rows[i] == ReadNode(view, ids[i])
  {
    seq(|ids|, i requires 0 <= i < |ids| => ReadNode(view, ids[i]))
  }

  /** One batch read: bounded in request size and in estimated response bytes. */
  function ReadNodes(z: Sizes, view: View, ids: seq<NodeId>, budget: QueryBudget): Result<seq<NodeRead>> {
    if !budget.Valid() then Err(BudgetExceeded)
    else if |ids| > budget.maxReadBatch then Err(BatchTooLarge)
    else if BatchBytes(z, ReadAll(view, ids)) > budget.maxQueryBytes then Err(BudgetExceeded)
    else Ok(ReadAll(view, ids))
  }

  function VectorBytes(z: Sizes, row: VectorRead): nat {
    if row.VectorPresent? then |row.vector| * z.float else 0
  }

  function SumVectorBytes(z: Sizes, rows: seq<VectorRead>): nat {
    if rows == [] then 0 else SumVectorBytes(z, rows[..|rows| - 1]) + VectorBytes(z, rows[|rows| - 1])
  }

  function VectorBatchBytes(z: Sizes, rows: seq<VectorRead>): nat {
    z.vecHeader + |rows| * z.vectorRead + SumVectorBytes(z, rows)
  }

  function ReadAllVectors(view: View, ids: seq<NodeId>): (rows: seq<VectorRead>)
    ensures |rows| == |ids|
    ensures forall i :: 0 <= i < |ids| ==> rows[i] == ReadVector(view, ids[i])
  {
    seq(|ids|, i requires 0 <= i < |ids| => ReadVector(view, ids[i]))
  }

  /** One full-vector batch: bounded in count, in full-vector bytes and in estimated response bytes. */
  function ReadVectors(z: Sizes, view: View, ids: seq<NodeId>, budget: QueryBudget, bytesPerVector: nat): Result<seq<VectorRead>> {
    if !budget.Valid() then Err(BudgetExceeded)
    else if |ids| > budget.maxRescore then Err(BatchTooLarge)
    else if |ids| * bytesPerVector > budget.maxFullVectorBytes then Err(BudgetExceeded)
    else if VectorBatchBytes(z, ReadAllVectors(view, ids)) > budget.maxQueryBytes then Err(BudgetExceeded)
    else Ok(ReadAllVectors(view, ids))
  }

  /** The present records among the requested ids, in request order. */
  function PresentRecords(view: View, ids: seq<NodeId>): seq<RoutingRecord> {
    if ids == [] then []
    else
      var rest, last := PresentRecords(view, ids[..|ids| - 1]), ReadNode(view, ids[|ids| - 1]);
      if last.Present? then rest + [last.record] else rest
  }

  function PresentIn(rows: seq<NodeRead>): seq<RoutingRecord> {
    if rows == [] then []
    else
      var rest, last := PresentIn(rows[..|rows| - 1]), rows[|rows| - 1];
      if last.Present? then rest + [last.record] else rest
  }

  lemma {:induction false} PresentConcat(view: View, a: seq<NodeId>, b: seq<NodeId>)
    ensures PresentRecords(view, a + b) == PresentRecords(view, a) + PresentRecords(view, b)
  {
    if b == [] {
      assert a + b == a;
    } else {
      assert (a + b)[..|a + b| - 1] == a + b[..|b| - 1];
      PresentConcat(view, a, b[..|b| - 1]);
    }
  }

  lemma {:induction false} PresentOfReads(view: View, ids: seq<NodeId>)
    ensures PresentIn(ReadAll(view, ids)) == PresentRecords(view, ids)
  {
    if ids != [] {
      assert ReadAll(view, ids)[..|ids| - 1] == ReadAll(view, ids[..|ids| - 1]);
      PresentOfReads(view, ids[..|ids| - 1]);
    }
  }

  /** Every batch that a chunked read issues fits the budget. */
  ghost predicate BatchesFit(z: Sizes, view: View, ids: seq<NodeId>, budget: QueryBudget)
    decreases |ids|
  {
    if ids == [] || budget.maxReadBatch == 0 then true
    else
      var take := Min(|ids|, budget.maxReadBatch);
      ReadNodes(z, view, ids[..take], budget).Ok? && BatchesFit(z, view, ids[take..], budget)
  }

  /** Reads ids in batches of at most `maxReadBatch` and keeps the present records in request order. */
  method ReadPresent(z: Sizes, view: View, ids: seq<NodeId>, budget: QueryBudget) returns (r: Result<seq<RoutingRecord>>)
    requires budget.Valid()
    ensures r.Ok? <==> BatchesFit(z, view, ids, budget)
    ensures r.Ok? ==> r.value == PresentRecords(view, ids)
    ensures r.Err? ==> r.error == BudgetExceeded
  {
    hide ReadNodes, PresentRecords, BatchesFit;
    var records: seq<RoutingRecord> := [];
    var offset := 0;
    ChunkEnds(z, view, ids, budget);
    while offset < |ids|
      invariant 0 <= offset <= |ids|
      invariant records == PresentRecords(view, ids[..offset])
      invariant BatchesFit(z, view, ids, budget) <==> BatchesFit(z, view, ids[offset..], budget)
    {
      var take := Min(|ids| - offset, budget.maxReadBatch);
      var chunk := ids[offset..offset + take];
      ChunkStep(z, view, ids, offset, budget);
      ReadOutcome(z, view, chunk, budget);
      var rows := ReadNodes(z, view, chunk, budget);
      if rows.Err? {
        return Err(rows.error);
      }
      var present := KeepPresent(rows.value);
      PresentOfReads(view, chunk);
      records := records + present;
      offset := offset + take;
    }
    return Ok(records);
  }

  lemma ChunkStep(z: Sizes, view: View, ids: seq<NodeId>, offset: nat, budget: QueryBudget)
    requires offset < |ids| && budget.Valid()
    ensures var take := Min(|ids| - offset, budget.maxReadBatch);
      var chunk := ids[offset..offset + take];
      && PresentRecords(view, ids[..offset + take]) == PresentRecords(view, ids[..offset]) + PresentRecords(view, chunk)
      && (BatchesFit(z, view, ids[offset..], budget) <==>
            ReadNodes(z, view, chunk, budget).Ok? && BatchesFit(z, view, ids[offset + take..], budget))
  {
    hide ReadNodes;
    var take := Min(|ids| - offset, budget.maxReadBatch);
    var chunk := ids[offset..offset + take];
    assert chunk == ids[offset..][..take] && ids[offset + take..] == ids[offset..][take..];
    PresentConcat(view, ids[..offset], chunk);
    assert ids[..offset] + chunk == ids[..offset + take];
  }

  lemma ReadOutcome(z: Sizes, view: View, ids: seq<NodeId>, budget: QueryBudget)
    requires budget.Valid() && |ids| <= budget.maxReadBatch
    ensures ReadNodes(z, view, ids, budget) == Ok(ReadAll(view, ids)) || ReadNodes(z, view, ids, budget) == Err(BudgetExceeded)
  {}

  lemma ChunkEnds(z: Sizes, view: View, ids: seq<NodeId>, budget: QueryBudget)
    ensures PresentRecords(view, ids[..0]) == [] && BatchesFit(z, view, ids[|ids|..], budget)
    ensures ids[0..] == ids && ids[..|ids|] == ids
  {}

  // ----- budgets that no batch exceeds -----

  ghost predicate RecordsWithin(z: Sizes, view: View, bound: nat) {
    forall id :: id in Live(view) ==> RecordBytes(z, RoutingOf(view.nodes[id])) <= bound
  }

  /** Whatever a chunked read asks for, its batches succeed. */
  ghost predicate AnyBatchFits(z: Sizes, view: View, budget: QueryBudget) {
    forall ids: seq<NodeId> :: |ids| <= budget.maxReadBatch ==> ReadNodes(z, view, ids, budget).Ok?
  }

  lemma {:induction false} ChunksFit(z: Sizes, view: View, ids: seq<NodeId>, budget: QueryBudget)
    requires AnyBatchFits(z, view, budget)
    ensures BatchesFit(z, view, ids, budget)
    decreases |ids|
  {
    hide ReadNodes;
    if ids != [] && budget.maxReadBatch > 0 {
      ChunksFit(z, view, ids[Min(|ids|, budget.maxReadBatch)..], budget);
    }
  }

  lemma SomeBatchFails(z: Sizes, view: View, ids: seq<NodeId>, budget: QueryBudget)
    requires !BatchesFit(z, view, ids, budget)
    ensures !AnyBatchFits(z, view, budget)
  {
    hide AnyBatchFits, BatchesFit;
    if AnyBatchFits(z, view, budget) {
      ChunksFit(z, view, ids, budget);
    }
  }

  lemma {:induction false} ReadSumBound(z: Sizes, view: View, ids: seq<NodeId>, bound: nat)
    requires RecordsWithin(z, view, bound)
    ensures SumReadBytes(z, ReadAll(view, ids)) <= |ids| * bound
  {
    hide RecordBytes;
    if ids != [] {
      ReadSumBound(z, view, ids[..|ids| - 1], bound);
      assert ReadAll(view, ids)[..|ids| - 1] == ReadAll(view, ids[..|ids| - 1]);
      MulPred(|ids|, bound);
    }
  }

  /** A response of the largest batch of the largest records is within the budget. */
  predicate BatchRoom(z: Sizes, bound: nat, budget: QueryBudget) {
    z.vecHeader + budget.maxReadBatch * z.nodeRead + budget.maxReadBatch * bound <= budget.maxQueryBytes
  }

  /** When no record is larger than `bound` and a full batch of such records fits, every batch does. */
  lemma SmallRecordsFit(z: Sizes, view: View, bound: nat, budget: QueryBudget)
    requires budget.Valid() && RecordsWithin(z, view, bound) && BatchRoom(z, bound, budget)
    ensures AnyBatchFits(z, view, budget)
  {
    hide RecordsWithin, SumReadBytes;
    forall ids: seq<NodeId> | |ids| <= budget.maxReadBatch ensures ReadNodes(z, view, ids, budget).Ok? {
      ReadSumBound(z, view, ids, bound);
      MulMono(|ids|, budget.maxReadBatch, z.nodeRead);
      MulMono(|ids|, budget.maxReadBatch, bound);
    }
  }

  method KeepPresent(rows: seq<NodeRead>) returns (records: seq<RoutingRecord>)
    ensures records == PresentIn(rows)
  {
    records := [];
    for i := 0 to |rows|
      invariant records == PresentIn(rows[..i])
    {
      assert rows[..i + 1][..i] == rows[..i];
      if rows[i].Present? {
        records := records + [rows[i].record];
      }
    }
    assert rows[..|rows|] == rows;
  }

  /** The present ids among the requested ones. */
  lemma {:induction false} PresentFacts(view: View, ids: seq<NodeId>)
    requires Keyed(view.nodes)
    ensures forall r :: r in PresentRecords(view, ids) ==> r.id in ids && r.id in Live(view) && r == RoutingOf(view.nodes[r.id])
    ensures forall id :: id in ids && id in Live(view) ==> RoutingOf(view.nodes[id]) in PresentRecords(view, ids)
  {
    if ids != [] {
      var rest, last := ids[..|ids| - 1], ids[|ids| - 1];
      PresentFacts(view, rest);
      assert ids == rest + [last];
    }
  }

  lemma {:induction false} PresentDistinct(view: View, ids: seq<NodeId>)
    requires Keyed(view.nodes) && Distinct(ids)
    ensures Distinct(PresentRecords(view, ids))
  {
    if ids != [] {
      var rest, last := ids[..|ids| - 1], ids[|ids| - 1];
      PresentDistinct(view, rest);
      PresentFacts(view, rest);
      assert last !in rest;
    }
  }

  // ----- readers in general -----

  /** Reads ids one by one in request order; the first failure is the answer. */
  function RowsOf<T>(row: NodeId -> Result<T>, ids: seq<NodeId>): Result<seq<T>> {
    if ids == [] then Ok([])
    else
      match (RowsOf(row, ids[..|ids| - 1]), row(ids[|ids| - 1]))
      case (Err(e), _) => Err(e)
      case (Ok(_), Err(e)) => Err(e)
      case (Ok(rows), Ok(last)) => Ok(rows + [last])
  }

  /** What a bounded reader over these rows answers. */
  function BatchOf(z: Sizes, row: NodeId -> Result<NodeRead>, ids: seq<NodeId>, budget: QueryBudget): Result<seq<NodeRead>> {
    if !budget.Valid() then Err(BudgetExceeded)
    else if |ids| > budget.maxReadBatch then Err(BatchTooLarge)
    else
      match RowsOf(row, ids)
      case Err(e) => Err(e)
      case Ok(rows) => if BatchBytes(z, rows) > budget.maxQueryBytes then Err(BudgetExceeded) else Ok(rows)
  }

  /** What a bounded full-vector reader over these rows answers. */
  function VectorBatchOf(z: Sizes, row: NodeId -> Result<VectorRead>, ids: seq<NodeId>, budget: QueryBudget, bytesPerVector: nat)
    : Result<seq<VectorRead>>
  {
    if !budget.Valid() then Err(BudgetExceeded)
    else if |ids| > budget.maxRescore then Err(BatchTooLarge)
    else if |ids| * bytesPerVector > budget.maxFullVectorBytes then Err(BudgetExceeded)
    else
      match RowsOf(row, ids)
      case Err(e) => Err(e)
      case Ok(rows) => if VectorBatchBytes(z, rows) > budget.maxQueryBytes then Err(BudgetExceeded) else Ok(rows)
  }

  /** A failure on a prefix is the failure of the whole list. */
  lemma {:induction false} RowsPrefix<T>(row: NodeId -> Result<T>, ids: seq<NodeId>, k: nat)
    requires k <= |ids|
    ensures RowsOf(row, ids[..k]).Err? ==> RowsOf(row, ids) == RowsOf(row, ids[..k])
  {
    if k < |ids| {
      RowsPrefix(row, ids[..|ids| - 1], k);
      assert ids[..|ids| - 1][..k] == ids[..k];
    } else {
      assert ids[..k] == ids;
    }
  }

  /** All rows are read exactly when every single one can be. */
  lemma {:induction false} RowsOk<T>(row: NodeId -> Result<T>, ids: seq<NodeId>)
    ensures RowsOf(row, ids).Ok? <==> forall i :: 0 <= i < |ids| ==> row(ids[i]).Ok?
    ensures RowsOf(row, ids).Ok? ==> |RowsOf(row, ids).value| == |ids|
    ensures RowsOf(row, ids).Ok? ==> forall i :: 0 <= i < |ids| ==> Ok(RowsOf(row, ids).value[i]) == row(ids[i])
  {
    if ids != [] {
      RowsOk(row, ids[..|ids| - 1]);
    }
  }
}
