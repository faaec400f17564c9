/** The mutation log object of the file backend. */
module FileLog {
  import opened Common
  import opened Bytes
  import opened Wal
  import opened WalRuns

  class MutationLog {
    const crc: Checksum
    var disk: Disk
    var entries: seq<Entry>
    var next: nat
    var first: nat
    var checkpoint: nat

    ghost function Model(): Running
      reads this
    {
      Running(Log(entries, next, first, checkpoint), disk)
    }

    /** Opens a log file; the caller has checked that its header is good. */
    constructor (crc: Checksum, found: Disk, log: Log, trimmed: Disk)
      requires GoodHeader(found.log) && log == Recovered(crc, found) && trimmed == Trimmed(crc, found)
      ensures this.crc == crc && Model() == Reopened(crc, found)
    {
      this.crc, disk := crc, trimmed;
      entries, next, first, checkpoint := log.entries, log.next, log.first, log.checkpoint;
    }

    method Append(payload: seq<Byte>) returns (offset: nat)
      modifies this
      ensures offset == old(next) && Model() == Appended(crc, old(Model()), payload)
    {
      offset := next;
      disk := disk.(log := disk.log + Frame(crc, Entry(offset, payload)));
      next := next + 1;
      entries := entries + [Entry(offset, payload)];
    }

    method SetCheckpoint(offset: nat) returns (r: Result<()>)
      modifies this
      ensures Model() == Checkpointed(old(Model()), offset)
      ensures r.Err? <==> offset < old(first) || offset > old(next)
      ensures r.Err? ==> Some(r.error) == CheckpointError(old(Model()), offset)
    {
      if offset < first {
        return Err(OffsetUnavailable);
      }
      if offset > next {
        return Err(InvalidStorageState);
      }
      disk := disk.(mark := Mark(offset, first));
      checkpoint := offset;
      r := Ok(());
    }

    method TruncateBeforeCheckpoint()
      modifies this
      ensures Model() == Truncated(crc, old(Model()))
    {
      hide Frames, Header;
      var newFirst := Max(first, checkpoint);
      disk := disk.(mark := Mark(checkpoint, newFirst));
      first := newFirst;
      while entries != [] && entries[0].offset < checkpoint
        invariant DropBefore(entries, checkpoint) == DropBefore(old(entries), checkpoint)
        invariant next == old(next) && first == newFirst && checkpoint == old(checkpoint)
        invariant disk == Floored(old(Model()))
        decreases |entries|
      {
        entries := entries[1..];
      }
      var bytes := Compacted(crc, entries);
      disk := disk.(log := bytes);
    }

    /** The entries from an offset on; offsets below the floor are reported as unavailable. */
    method ReplayFrom(offset: nat) returns (r: Result<seq<Entry>>)
      ensures r == if offset < first then Err(OffsetUnavailable) else Ok(Kept(entries, offset))
    {
      if offset < first {
        return Err(OffsetUnavailable);
      }
      var kept: seq<Entry> := [];
      for i := 0 to |entries|
        invariant kept == Kept(entries[..i], offset)
      {
        assert entries[..i + 1][..i] == entries[..i];
        if entries[i].offset >= offset {
          kept := kept + [entries[i]];
        }
      }
      assert entries[..|entries|] == entries;
      r := Ok(kept);
    }
  }

  /** A fresh log file over the given entries. */
  method Compacted(crc: Checksum, entries: seq<Entry>) returns (bytes: seq<Byte>)
    ensures bytes == Header() + Frames(crc, entries)
  {
    hide Frame, Header;
    bytes := Header();
    assert bytes + [] == bytes;
    for i := 0 to |entries|
      invariant bytes == Header() + Frames(crc, entries[..i])
    {
      FramesSnoc(crc, entries[..i], entries[i]);
      assert entries[..i + 1] == entries[..i] + [entries[i]];
      Regroup(Header(), Frames(crc, entries[..i]), Frame(crc, entries[i]));
      bytes := bytes + Frame(crc, entries[i]);
    }
    assert entries[..|entries|] == entries;
  }

  /** What replay delivers after any run: the logged history from the offset on, nothing else. */
  lemma ReplayDelivers(crc: Checksum, events: seq<Event>, offset: nat)
    requires Fits32(crc) && Fitting(events)
    requires Run(crc, events).log.first <= offset <= |History(events)|
    ensures Kept(Run(crc, events).log.entries, offset) == Logged(History(events), offset, |History(events)|)
  {
    hide Run, Frames, Header;
    RunsRecover(crc, events);
    KeptSuffix(History(events), Run(crc, events).log.first, offset, |History(events)|);
  }
}
