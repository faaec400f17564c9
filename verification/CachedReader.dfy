/** Cache middleware over a node reader: shared entries per snapshot key, evicted first in, first out. */
module CachedReader {
  import opened Common
  import opened Reading
  import opened StorageModel
  import opened StorageRuns

  type Rows = map<NodeId, NodeRead>
  type Entry = (CacheKey, NodeId)

  predicate Stored(snapshots: map<CacheKey, Rows>, entry: Entry) {
    entry.0 in snapshots && entry.1 in snapshots[entry.0]
  }

  /** The queue lists each stored entry exactly once and no snapshot is kept without entries. */
  ghost predicate Listed(snapshots: map<CacheKey, Rows>, order: seq<Entry>) {
    && Distinct(order)
    && (forall entry :: entry in order <==> Stored(snapshots, entry))
    && (forall key :: key in snapshots ==> exists id :: id in snapshots[key])
  }

  /** Every cached row is the row the inner reader gives for that key and id. */
  ghost predicate Coherent(snapshots: map<CacheKey, Rows>, rows: CacheKey -> NodeId -> Result<NodeRead>) {
    forall key, id :: key in snapshots && id in snapshots[key] ==> rows(key)(id) == Ok(snapshots[key][id])
  }

  /** A row carries the id it was asked for. */
  ghost predicate Faithful(rows: CacheKey -> NodeId -> Result<NodeRead>) {
    forall key, id :: rows(key)(id).Ok? ==> ReadId(rows(key)(id).value) == id
  }

  function Put(snapshots: map<CacheKey, Rows>, entry: Entry, row: NodeRead): map<CacheKey, Rows> {
    snapshots[entry.0 := (if entry.0 in snapshots then snapshots[entry.0] else map[])[entry.1 := row]]
  }

  function Drop(snapshots: map<CacheKey, Rows>, entry: Entry): map<CacheKey, Rows> {
    if !Stored(snapshots, entry) then snapshots
    else
      var rest := snapshots[entry.0] - {entry.1};
      if rest == map[] then snapshots - {entry.0} else snapshots[entry.0 := rest]
  }

  lemma PutStored(snapshots: map<CacheKey, Rows>, entry: Entry, row: NodeRead, other: Entry)
    ensures Stored(Put(snapshots, entry, row), other) <==> other == entry || Stored(snapshots, other)
  {}

  lemma DropStored(snapshots: map<CacheKey, Rows>, entry: Entry, other: Entry)
    ensures Stored(Drop(snapshots, entry), other) <==> other != entry && Stored(snapshots, other)
  {
    if Stored(snapshots, entry) && other.0 == entry.0 && other.1 != entry.1 && Stored(snapshots, other) {
      assert other.1 in snapshots[entry.0] - {entry.1};
    }
  }

  lemma PutListed(snapshots: map<CacheKey, Rows>, order: seq<Entry>, entry: Entry, row: NodeRead)
    requires Listed(snapshots, order)
    ensures Listed(Put(snapshots, entry, row), if Stored(snapshots, entry) then order else order + [entry])
  {
    var after, all := Put(snapshots, entry, row), if Stored(snapshots, entry) then order else order + [entry];
    forall other ensures other in all <==> Stored(after, other) {
      PutStored(snapshots, entry, row, other);
    }
    forall key | key in after ensures exists id :: id in after[key] {
      if key == entry.0 { assert entry.1 in after[key]; }
    }
  }

  lemma DropListed(snapshots: map<CacheKey, Rows>, order: seq<Entry>)
    requires Listed(snapshots, order) && order != []
    ensures Listed(Drop(snapshots, order[0]), order[1..])
  {
    var after := Drop(snapshots, order[0]);
    forall other ensures other in order[1..] <==> Stored(after, other) {
      DropStored(snapshots, order[0], other);
      assert other in order <==> other == order[0] || other in order[1..];
      assert other in order[1..] ==> other != order[0];
    }
    forall key | key in after ensures exists id :: id in after[key] {
      if key == order[0].0 {
        var rest := snapshots[key] - {order[0].1};
        assert Stored(snapshots, order[0]) && rest != map[];
        assert exists id :: id in rest;
      }
    }
  }

  class CachedNodeReader {
    const rows: CacheKey -> NodeId -> Result<NodeRead>
    const maxEntries: Option<nat>
    var snapshots: map<CacheKey, Rows>
    var entryCount: nat
    var insertionOrder: seq<Entry>

    ghost predicate Valid()
      reads this
    {
      && entryCount == |insertionOrder|
      && Listed(snapshots, insertionOrder)
      && Coherent(snapshots, rows)
      && (maxEntries.Some? ==> entryCount <= maxEntries.value)
    }

    constructor (rows: CacheKey -> NodeId -> Result<NodeRead>, maxEntries: Option<nat>)
      ensures Valid() && this.rows == rows && this.maxEntries == maxEntries && insertionOrder == []
    {
      this.rows, this.maxEntries := rows, maxEntries;
      snapshots, entryCount, insertionOrder := map[], 0, [];
    }

    /** Adds one row; a full cache forgets its oldest entry. */
    method Insert(key: CacheKey, id: NodeId, row: NodeRead)
      requires Valid() && rows(key)(id) == Ok(row)
      modifies this
      ensures Valid()
      ensures insertionOrder == Queued(old(insertionOrder), (key, id), maxEntries)
    {
      hide Listed, Coherent;
      if maxEntries == Some(0) {
        return;
      }
      var present := Stored(snapshots, (key, id));
      QueueHolds(snapshots, insertionOrder, (key, id));
      PutListed(snapshots, insertionOrder, (key, id), row);
      PutCoherent(snapshots, rows, (key, id), row);
      snapshots := Put(snapshots, (key, id), row);
      if !present {
        entryCount := entryCount + 1;
        insertionOrder := insertionOrder + [(key, id)];
      }
      if maxEntries.Some? {
        Evict(maxEntries.value);
      }
    }

    method Evict(bound: nat)
      requires entryCount == |insertionOrder| && Listed(snapshots, insertionOrder) && Coherent(snapshots, rows)
      modifies this
      ensures entryCount == |insertionOrder| && Listed(snapshots, insertionOrder) && Coherent(snapshots, rows)
      ensures insertionOrder == Youngest(old(insertionOrder), bound)
    {
      hide Listed, Coherent;
      while entryCount > bound
        invariant entryCount == |insertionOrder| && Listed(snapshots, insertionOrder) && Coherent(snapshots, rows)
        invariant Youngest(insertionOrder, bound) == Youngest(old(insertionOrder), bound)
      {
        var evicted := insertionOrder[0];
        QueueHolds(snapshots, insertionOrder, evicted);
        DropListed(snapshots, insertionOrder);
        DropCoherent(snapshots, rows, evicted);
        insertionOrder := insertionOrder[1..];
        if Stored(snapshots, evicted) {
          entryCount := entryCount - 1;
        }
        snapshots := Drop(snapshots, evicted);
      }
    }

    /**
     * Transparency: the cached reader answers every request exactly as the inner reader would,
     * errors included, whatever was requested before and whatever the capacity.
     */
    method ReadNodes(z: Sizes, snapshot: Manifest, ids: seq<NodeId>, budget: QueryBudget) returns (r: Result<seq<NodeRead>>)
      requires Valid() && Faithful(rows)
      modifies this
      ensures Valid()
      ensures r == BatchOf(z, rows(KeyOf(snapshot)), ids, budget)
    {
      hide Listed;
      if !budget.Valid() {
        return Err(BudgetExceeded);
      }
      if |ids| > budget.maxReadBatch {
        return Err(BatchTooLarge);
      }
      var key := KeyOf(snapshot);
      ghost var known := Known(key);
      var cached, missing := Split(key, ids);
      var found := cached;
      if missing != [] {
        var fetched := BatchOf(z, rows(key), missing, budget);
        FetchDecides(z, rows(key), ids, Known(key), budget);
        if fetched.Err? {
          return Err(fetched.error);
        }
        RowsOk(rows(key), missing);
        found := Remember(key, missing, fetched.value, cached);
      }
      FirstUsesElements(ids, known);
      assert found.Keys == cached.Keys + Elements(missing);
      assert Elements(ids) == Elements(ids) * known + (Elements(ids) - known);
      var answer := Assemble(ids, found, rows(key));
      r := if BatchBytes(z, answer) > budget.maxQueryBytes then Err(BudgetExceeded) else Ok(answer);
    }

    /** The ids that have a row under the key. */
    function Known(key: CacheKey): set<NodeId>
      reads this
    {
      if key in snapshots then snapshots[key].Keys else {}
    }

    /** Looks every id up once; ids that are not cached are listed once each, in request order. */
    method Split(key: CacheKey, ids: seq<NodeId>) returns (cached: Rows, missing: seq<NodeId>)
      requires Valid()
      ensures cached.Keys == Elements(ids) * Known(key) && missing == FirstUses(ids, Known(key))
      ensures forall id :: id in cached ==> rows(key)(id) == Ok(cached[id])
    {
      hide Listed;
      cached, missing := map[], [];
      for i := 0 to |ids|
        invariant cached.Keys == Elements(ids[..i]) * Known(key) && missing == FirstUses(ids[..i], Known(key))
        invariant forall id :: id in cached ==> id in Known(key) && cached[id] == snapshots[key][id]
      {
        TakeSnoc(ids, i);
        assert ids[..i + 1][..i] == ids[..i];
        if Stored(snapshots, (key, ids[i])) {
          cached := cached[ids[i] := snapshots[key][ids[i]]];
        } else if ids[i] !in missing {
          missing := missing + [ids[i]];
        }
      }
      assert ids[..|ids|] == ids;
    }

    /** Adds the fetched rows to the answer and to the cache. */
    method Remember(key: CacheKey, missing: seq<NodeId>, fetched: seq<NodeRead>, cached: Rows) returns (found: Rows)
      requires Valid() && Faithful(rows) && |fetched| == |missing|
      requires forall i :: 0 <= i < |missing| ==> rows(key)(missing[i]) == Ok(fetched[i])
      requires forall id :: id in cached ==> rows(key)(id) == Ok(cached[id])
      modifies this
      ensures Valid()
      ensures found.Keys == cached.Keys + Elements(missing)
      ensures forall id :: id in found ==> rows(key)(id) == Ok(found[id])
    {
      hide Listed, Coherent;
      found := cached;
      for i := 0 to |missing|
        invariant Valid()
        invariant found.Keys == cached.Keys + Elements(missing[..i])
        invariant forall id :: id in found ==> rows(key)(id) == Ok(found[id])
      {
        TakeSnoc(missing, i);
        var id := ReadId(fetched[i]);
        assert id == missing[i];
        found := found[id := fetched[i]];
        Insert(key, id, fetched[i]);
      }
      assert missing[..|missing|] == missing;
    }
  }

  /** The last `bound` entries. */
  function Youngest(order: seq<Entry>, bound: nat): seq<Entry> {
    if |order| <= bound then order else order[|order| - bound..]
  }

  /** The queue after one insertion: a known entry keeps its place, a new one goes last, the oldest leave. */
  function Queued(order: seq<Entry>, entry: Entry, maxEntries: Option<nat>): seq<Entry> {
    var all := if entry in order then order else order + [entry];
    if maxEntries == Some(0) then order else if maxEntries.Some? then Youngest(all, maxEntries.value) else all
  }

  lemma QueueHolds(snapshots: map<CacheKey, Rows>, order: seq<Entry>, entry: Entry)
    requires Listed(snapshots, order)
    ensures entry in order <==> Stored(snapshots, entry)
  {}

  lemma PutCoherent(snapshots: map<CacheKey, Rows>, rows: CacheKey -> NodeId -> Result<NodeRead>, entry: Entry, row: NodeRead)
    requires Coherent(snapshots, rows) && rows(entry.0)(entry.1) == Ok(row)
    ensures Coherent(Put(snapshots, entry, row), rows)
  {}

  lemma DropCoherent(snapshots: map<CacheKey, Rows>, rows: CacheKey -> NodeId -> Result<NodeRead>, entry: Entry)
    requires Coherent(snapshots, rows)
    ensures Coherent(Drop(snapshots, entry), rows)
  {}

  /** The first occurrences of the ids outside `known`. */
  function FirstUses(ids: seq<NodeId>, known: set<NodeId>): seq<NodeId> {
    if ids == [] then []
    else
      var rest, last := FirstUses(ids[..|ids| - 1], known), ids[|ids| - 1];
      if last in known || last in rest then rest else rest + [last]
  }

  lemma {:induction false} FirstUsesElements(ids: seq<NodeId>, known: set<NodeId>)
    ensures Elements(FirstUses(ids, known)) == Elements(ids) - known
    ensures |FirstUses(ids, known)| <= |ids|
  {
    if ids != [] {
      var rest, last := ids[..|ids| - 1], ids[|ids| - 1];
      FirstUsesElements(rest, known);
      ElementsSnoc(rest, last);
      ElementsSnoc(FirstUses(rest, known), last);
      assert ids == rest + [last];
      assert last in FirstUses(rest, known) <==> last in Elements(FirstUses(rest, known));
    }
  }

  /** Reading only what is missing fails exactly when reading everything would, the same way, and costs no more. */
  lemma {:induction false} MissingDecides(z: Sizes, row: NodeId -> Result<NodeRead>, ids: seq<NodeId>, known: set<NodeId>)
    requires forall id :: id in known ==> row(id).Ok?
    ensures var few, all := RowsOf(row, FirstUses(ids, known)), RowsOf(row, ids);
      && (few.Err? ==> all == few)
      && (few.Ok? ==> all.Ok? && SumReadBytes(z, few.value) <= SumReadBytes(z, all.value))
  {
    if ids != [] {
      var rest, last := ids[..|ids| - 1], ids[|ids| - 1];
      MissingDecides(z, row, rest, known);
      var before := FirstUses(rest, known);
      RowsOk(row, before);
      if last in known || last in before {
        if RowsOf(row, before).Ok? {
          assert row(last).Ok?;
          assert RowsOf(row, ids) == Ok(RowsOf(row, rest).value + [row(last).value]);
        }
      } else {
        assert (before + [last])[..|before|] == before;
      }
    }
  }

  lemma FetchDecides(z: Sizes, row: NodeId -> Result<NodeRead>, ids: seq<NodeId>, known: set<NodeId>, budget: QueryBudget)
    requires forall id :: id in known ==> row(id).Ok?
    requires budget.Valid() && |ids| <= budget.maxReadBatch
    ensures var missing := FirstUses(ids, known);
      && (BatchOf(z, row, missing, budget).Err? ==> BatchOf(z, row, ids, budget) == BatchOf(z, row, missing, budget))
      && (BatchOf(z, row, missing, budget).Ok? ==> RowsOf(row, missing) == BatchOf(z, row, missing, budget))
  {
    var missing := FirstUses(ids, known);
    MissingDecides(z, row, ids, known);
    FirstUsesElements(ids, known);
    RowsOk(row, missing);
    RowsOk(row, ids);
    if RowsOf(row, missing).Ok? {
      BytesGrow(z, RowsOf(row, missing).value, RowsOf(row, ids).value);
    }
  }

  lemma BytesGrow(z: Sizes, few: seq<NodeRead>, all: seq<NodeRead>)
    requires |few| <= |all| && SumReadBytes(z, few) <= SumReadBytes(z, all)
    ensures BatchBytes(z, few) <= BatchBytes(z, all)
  {
    hide SumReadBytes;
    var more := |all| - |few|;
    assert |all| * z.nodeRead == |few| * z.nodeRead + more * z.nodeRead;
  }

  /** Puts the rows in request order. */
  method Assemble(ids: seq<NodeId>, found: Rows, row: NodeId -> Result<NodeRead>) returns (gathered: seq<NodeRead>)
    requires Elements(ids) <= found.Keys
    requires forall id :: id in found ==> row(id) == Ok(found[id])
    ensures RowsOf(row, ids) == Ok(gathered)
  {
    gathered := [];
    for i := 0 to |ids|
      invariant RowsOf(row, ids[..i]) == Ok(gathered)
    {
      assert ids[..i + 1][..i] == ids[..i];
      assert ids[i] in Elements(ids);
      gathered := gathered + [found[ids[i]]];
    }
    assert ids[..|ids|] == ids;
  }
}
