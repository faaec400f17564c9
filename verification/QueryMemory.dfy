/**
 * The running byte account of one query: records of candidates and records waiting in cache slots, each summed as
 * the loop goes, and the checks of their total against the query budget.
 */
module QueryMemory {
  import opened Common
  import opened Reading

  /** A visited record with its routing distance to the query. */
  datatype Candidate = Candidate(record: RoutingRecord, distance: real)

  function CandidateBytes(z: Sizes, candidates: seq<Candidate>): nat {
    if candidates == [] then 0
    else CandidateBytes(z, candidates[..|candidates| - 1]) + RecordBytes(z, candidates[|candidates| - 1].record)
  }

  function SlotBytes(z: Sizes, slot: Option<RoutingRecord>): nat {
    if slot.Some? then RecordBytes(z, slot.value) else 0
  }

  function CachedBytes(z: Sizes, slots: seq<Option<RoutingRecord>>): nat {
    if slots == [] then 0
    else CachedBytes(z, slots[..|slots| - 1]) + SlotBytes(z, slots[|slots| - 1])
  }

  /** Emptying a slot lowers the sum by exactly that slot's bytes. */
  lemma {:induction false} TakeSlot(z: Sizes, slots: seq<Option<RoutingRecord>>, i: nat)
    requires i < |slots|
    ensures CachedBytes(z, slots[i := None]) + SlotBytes(z, slots[i]) == CachedBytes(z, slots)
  {
    var n := |slots|;
    var after := slots[i := None];
    if i == n - 1 {
      assert after[..n - 1] == slots[..n - 1];
    } else {
      assert after[..n - 1] == slots[..n - 1][i := None];
      TakeSlot(z, slots[..n - 1], i);
    }
  }

  function SaturatingSub(a: nat, b: nat): nat { if a >= b then a - b else 0 }

  lemma CandidateBytesSnoc(z: Sizes, candidates: seq<Candidate>, c: Candidate)
    ensures CandidateBytes(z, candidates + [c]) == CandidateBytes(z, candidates) + RecordBytes(z, c.record)
  {
    assert (candidates + [c])[..|candidates|] == candidates;
  }

  lemma CachedBytesSnoc(z: Sizes, slots: seq<Option<RoutingRecord>>, slot: Option<RoutingRecord>)
    ensures CachedBytes(z, slots + [slot]) == CachedBytes(z, slots) + SlotBytes(z, slot)
  {
    assert (slots + [slot])[..|slots|] == slots;
  }

  function CandidateEstimate(z: Sizes, count: nat, bytes: nat): nat { z.vecHeader + count * z.candidate + bytes }

  function CacheEstimate(z: Sizes, slots: nat, bytes: nat): nat { z.vecHeader + slots * z.slot + bytes }

  /** The heap and the two id sets. */
  function SetEstimate(z: Sizes, heapLen: nat, seenLen: nat, visitedLen: nat): nat {
    z.heapHeader + heapLen * z.queued + z.setHeader + seenLen * z.setEntry + z.setHeader + visitedLen * z.setEntry
  }

  class QueryMemoryAccountant {
    const z: Sizes
    const maxQueryBytes: nat
    const baseQueryBytes: nat
    var candidateCount: nat
    var candidateRecordBytes: nat
    var cachedSlots: nat
    var cachedRecordBytes: nat

    constructor (z: Sizes, maxQueryBytes: nat, baseQueryBytes: nat)
      ensures this.z == z && this.maxQueryBytes == maxQueryBytes && this.baseQueryBytes == baseQueryBytes
      ensures Tracks([], [])
    {
      this.z, this.maxQueryBytes, this.baseQueryBytes := z, maxQueryBytes, baseQueryBytes;
      candidateCount, candidateRecordBytes, cachedSlots, cachedRecordBytes := 0, 0, 0, 0;
    }

    /** The running totals equal the sums over the live candidates and cache slots. */
    ghost predicate Tracks(candidates: seq<Candidate>, slots: seq<Option<RoutingRecord>>)
      reads this
    {
      && candidateCount == |candidates|
      && candidateRecordBytes == CandidateBytes(z, candidates)
      && cachedSlots == |slots|
      && cachedRecordBytes == CachedBytes(z, slots)
    }

    method RecordCandidate(c: Candidate, ghost candidates: seq<Candidate>, ghost slots: seq<Option<RoutingRecord>>)
      requires Tracks(candidates, slots)
      modifies this
      ensures Tracks(candidates + [c], slots)
    {
      CandidateBytesSnoc(z, candidates, c);
      candidateCount := candidateCount + 1;
      candidateRecordBytes := candidateRecordBytes + RecordBytes(z, c.record);
    }

    method RecordCached(record: RoutingRecord, ghost candidates: seq<Candidate>, ghost slots: seq<Option<RoutingRecord>>)
      requires Tracks(candidates, slots)
      modifies this
      ensures Tracks(candidates, slots + [Some(record)])
    {
      CachedBytesSnoc(z, slots, Some(record));
      cachedSlots := cachedSlots + 1;
      cachedRecordBytes := cachedRecordBytes + RecordBytes(z, record);
    }

    /** The subtraction is saturating, yet it never saturates on a record that is in its slot. */
    method ReleaseCached(record: RoutingRecord, ghost slot: nat, ghost candidates: seq<Candidate>,
                         ghost slots: seq<Option<RoutingRecord>>)
      requires Tracks(candidates, slots)
      requires slot < |slots| && slots[slot] == Some(record)
      modifies this
      ensures old(cachedRecordBytes) == cachedRecordBytes + RecordBytes(z, record)
      ensures Tracks(candidates, slots[slot := None])
    {
      TakeSlot(z, slots, slot);
      cachedRecordBytes := SaturatingSub(cachedRecordBytes, RecordBytes(z, record));
    }

    method ReleaseAllCached(ghost candidates: seq<Candidate>, ghost slots: seq<Option<RoutingRecord>>)
      requires Tracks(candidates, slots)
      modifies this
      ensures Tracks(candidates, [])
    {
      cachedSlots, cachedRecordBytes := 0, 0;
    }

    /** Recomputes the candidate totals after the list was filtered. */
    method RebuildCandidates(kept: seq<Candidate>, ghost candidates: seq<Candidate>, ghost slots: seq<Option<RoutingRecord>>)
      requires Tracks(candidates, slots)
      modifies this
      ensures Tracks(kept, slots)
    {
      candidateCount := |kept|;
      var bytes := 0;
      for i := 0 to |kept|
        invariant bytes == CandidateBytes(z, kept[..i])
        invariant candidateCount == |kept| && cachedSlots == |slots| && cachedRecordBytes == CachedBytes(z, slots)
      {
        assert kept[..i + 1][..i] == kept[..i];
        bytes := bytes + RecordBytes(z, kept[i].record);
      }
      assert kept[..|kept|] == kept;
      candidateRecordBytes := bytes;
    }

    function CandidatesEstimate(): nat
      reads this
    {
      CandidateEstimate(z, candidateCount, candidateRecordBytes)
    }

    function GraphStateBytes(heapLen: nat, seenLen: nat, visitedLen: nat, transient: nat): nat
      reads this
    {
      baseQueryBytes + SetEstimate(z, heapLen, seenLen, visitedLen)
      + CandidatesEstimate() + CacheEstimate(z, cachedSlots, cachedRecordBytes) + transient
    }

    predicate FitsGraphState(heapLen: nat, seenLen: nat, visitedLen: nat, transient: nat)
      reads this
    {
      GraphStateBytes(heapLen, seenLen, visitedLen, transient) <= maxQueryBytes
    }

    predicate FitsCandidatesOnly()
      reads this
    {
      baseQueryBytes + CandidatesEstimate() <= maxQueryBytes
    }

    predicate FitsRescore(hitCount: nat, batch: nat)
      reads this
    {
      baseQueryBytes + CandidatesEstimate() + z.vecHeader + hitCount * z.hit + batch <= maxQueryBytes
    }
  }
}
