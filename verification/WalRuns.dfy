/** Appends, checkpoints, truncations and crashes of the mutation log, and what reopening finds. */
module WalRuns {
  import opened Common
  import opened Bytes
  import opened Wal

  /** An open log: what is in memory and what is on disk. */
  datatype Running = Running(log: Log, disk: Disk)

  function Appended(crc: Checksum, s: Running, payload: seq<Byte>): Running {
    var e := Entry(s.log.next, payload);
    Running(s.log.(entries := s.log.entries + [e], next := s.log.next + 1),
            s.disk.(log := s.disk.log + Frame(crc, e)))
  }

  function CheckpointError(s: Running, offset: nat): Option<Error> {
    if offset < s.log.first then Some(OffsetUnavailable)
    else if offset > s.log.next then Some(InvalidStorageState)
    else None
  }

  function Checkpointed(s: Running, offset: nat): Running {
    if CheckpointError(s, offset).Some? then s
    else Running(s.log.(checkpoint := offset), s.disk.(mark := Mark(offset, s.log.first)))
  }

  /** The floor is published before the log is compacted. */
  function Floored(s: Running): Disk {
    s.disk.(mark := Mark(s.log.checkpoint, Max(s.log.first, s.log.checkpoint)))
  }

  function DropBefore(entries: seq<Entry>, offset: nat): seq<Entry> {
    if entries == [] || entries[0].offset >= offset then entries else DropBefore(entries[1..], offset)
  }

  function Truncated(crc: Checksum, s: Running): Running {
    var left := DropBefore(s.log.entries, s.log.checkpoint);
    Running(s.log.(entries := left, first := Max(s.log.first, s.log.checkpoint)),
            Floored(s).(log := Header() + Frames(crc, left)))
  }

  // ----- crashes -----

  datatype Event =
    | DoAppend(payload: seq<Byte>)
    | DoCheckpoint(offset: nat)
    | DoTruncate
    | CrashIdle
    | CrashInAppend(payload: seq<Byte>, written: nat)
    | CrashInTruncate

  /** What a crash leaves on disk: an append may stop after any prefix of its frame. */
  function CrashDisk(crc: Checksum, s: Running, e: Event): Disk {
    match e
    case CrashInAppend(payload, written) =>
      var frame := Frame(crc, Entry(s.log.next, payload));
      s.disk.(log := s.disk.log + frame[..Min(written, |frame|)])
    case CrashInTruncate => Floored(s)
    case _ => s.disk
  }

  predicate Crashes(e: Event) { e.CrashIdle? || e.CrashInAppend? || e.CrashInTruncate? }

  function Reopened(crc: Checksum, disk: Disk): Running {
    if GoodHeader(disk.log) then Running(Recovered(crc, disk), Trimmed(crc, disk)) else Running(Log([], 0, 0, 0), disk)
  }

  function Step(crc: Checksum, s: Running, e: Event): Running {
    match e
    case DoAppend(payload) => Appended(crc, s, payload)
    case DoCheckpoint(offset) => Checkpointed(s, offset)
    case DoTruncate => Truncated(crc, s)
    case _ => Reopened(crc, CrashDisk(crc, s, e))
  }

  function Created(): Running { Running(Log([], 0, 0, 0), Disk(Mark(0, 0), Header())) }

  function Run(crc: Checksum, events: seq<Event>): Running {
    if events == [] then Created() else Step(crc, Run(crc, events[..|events| - 1]), events[|events| - 1])
  }

  /** The payloads ever logged, by offset; an append in flight counts once its whole frame is on disk. */
  function History(events: seq<Event>): seq<seq<Byte>> {
    if events == [] then []
    else
      var before := History(events[..|events| - 1]);
      match events[|events| - 1]
      case DoAppend(payload) => before + [payload]
      case CrashInAppend(payload, written) => if written >= FRAME_HEADER + |payload| then before + [payload] else before
      case _ => before
  }

  /** Payload lengths fit the length field and offsets fit 64 bits. */
  ghost predicate Fitting(events: seq<Event>) {
    && |events| < U64
    && forall i :: 0 <= i < |events| ==> ((events[i].DoAppend? || events[i].CrashInAppend?) ==> |events[i].payload| < U32)
  }

  // ----- the invariant -----

  function Logged(h: seq<seq<Byte>>, from: nat, to: nat): (entries: seq<Entry>)
    requires from <= to <= |h|
    ensures |entries| == to - from
    ensures forall i :: 0 <= i < |entries| ==> entries[i] == Entry(from + i, h[from + i])
  {
    seq(to - from, i requires 0 <= i < to - from => Entry(from + i, h[from + i]))
  }

  ghost predicate Sized(h: seq<seq<Byte>>) {
    |h| < U64 && forall i :: 0 <= i < |h| ==> |h[i]| < U32
  }

  /** Disk and memory both hold the history: memory from `first`, the log file from `base`. */
  ghost predicate Backed(crc: Checksum, h: seq<seq<Byte>>, s: Running, base: nat) {
    && base <= s.log.first <= s.log.checkpoint <= s.log.next == |h|
    && s.log.entries == Logged(h, s.log.first, |h|)
    && s.disk == Disk(Mark(s.log.checkpoint, s.log.first), Header() + Frames(crc, Logged(h, base, |h|)))
  }

  ghost predicate Consistent(crc: Checksum, h: seq<seq<Byte>>, s: Running) {
    exists base: nat :: Backed(crc, h, s, base)
  }

  lemma LoggedSnoc(h: seq<seq<Byte>>, from: nat, payload: seq<Byte>)
    requires from <= |h|
    ensures Logged(h + [payload], from, |h| + 1) == Logged(h, from, |h|) + [Entry(|h|, payload)]
  {}

  lemma LoggedWritable(h: seq<seq<Byte>>, from: nat)
    requires Sized(h) && from <= |h|
    ensures AllWritable(Logged(h, from, |h|))
  {}

  lemma {:induction false} KeptSuffix(h: seq<seq<Byte>>, base: nat, first: nat, to: nat)
    requires base <= first <= to <= |h|
    ensures Kept(Logged(h, base, to), first) == Logged(h, first, to)
  {
    if base < to {
      var all := Logged(h, base, to);
      assert all[..|all| - 1] == Logged(h, base, to - 1);
      if first < to {
        KeptSuffix(h, base, first, to - 1);
        assert Logged(h, first, to) == Logged(h, first, to - 1) + [Entry(to - 1, h[to - 1])];
      } else {
        KeptNone(h, base, to, first);
      }
    }
  }

  lemma {:induction false} KeptNone(h: seq<seq<Byte>>, base: nat, to: nat, first: nat)
    requires base <= to <= |h| && to <= first
    ensures Kept(Logged(h, base, to), first) == []
  {
    if base < to {
      var all := Logged(h, base, to);
      assert all[..|all| - 1] == Logged(h, base, to - 1);
      KeptNone(h, base, to - 1, first);
    }
  }

  lemma HeaderGood(rest: seq<Byte>)
    ensures GoodHeader(Header() + rest) && (Header() + rest)[FILE_HEADER..] == rest
  {
    var bytes := Header() + rest;
    assert bytes[..8] == MAGIC && bytes[8..12] == Le(FORMAT_VERSION, 4);
    Widths();
    LeExact(FORMAT_VERSION, 4);
  }

  /** Reopening a log file that holds a stretch of history and an unreadable tail finds exactly that history. */
  lemma Recovers(crc: Checksum, h: seq<seq<Byte>>, base: nat, mark: Mark, tail: seq<Byte>)
    requires Fits32(crc) && Sized(h) && base <= mark.first <= mark.checkpoint <= |h|
    requires Entries(crc, tail) == [] && GoodLength(crc, tail) == 0
    ensures var disk := Disk(mark, Header() + (Frames(crc, Logged(h, base, |h|)) + tail));
      Backed(crc, h, Reopened(crc, disk), base)
  {
    hide Entries, GoodLength, Frames, GoodHeader;
    var frames := Frames(crc, Logged(h, base, |h|));
    var disk := Disk(mark, Header() + (frames + tail));
    HeaderGood(frames + tail);
    LoggedWritable(h, base);
    FramesRead(crc, Logged(h, base, |h|), tail);
    KeptSuffix(h, base, mark.first, |h|);
    assert disk.log[..FILE_HEADER + |frames|] == Header() + frames;
    NextIsEnd(h, mark);
  }

  lemma NextIsEnd(h: seq<seq<Byte>>, mark: Mark)
    requires mark.first <= mark.checkpoint <= |h|
    ensures NextOffset(mark, Logged(h, mark.first, |h|)) == |h|
  {}

  lemma EmptyTail(crc: Checksum)
    ensures Entries(crc, []) == [] && GoodLength(crc, []) == 0
  {}

  // ----- every event keeps it -----

  lemma AppendKeeps(crc: Checksum, h: seq<seq<Byte>>, s: Running, base: nat, payload: seq<Byte>)
    requires Backed(crc, h, s, base)
    ensures Backed(crc, h + [payload], Appended(crc, s, payload), base)
  {
    hide Frames, Frame, Header;
    LoggedSnoc(h, s.log.first, payload);
    LoggedSnoc(h, base, payload);
    var e := Entry(|h|, payload);
    FramesSnoc(crc, Logged(h, base, |h|), e);
    Regroup(Header(), Frames(crc, Logged(h, base, |h|)), Frame(crc, e));
  }

  lemma CheckpointKeeps(crc: Checksum, h: seq<seq<Byte>>, s: Running, base: nat, offset: nat)
    requires Backed(crc, h, s, base)
    ensures Backed(crc, h, Checkpointed(s, offset), base)
  {}

  lemma {:induction false} DropsPrefix(h: seq<seq<Byte>>, first: nat, checkpoint: nat)
    requires first <= checkpoint <= |h|
    ensures DropBefore(Logged(h, first, |h|), checkpoint) == Logged(h, checkpoint, |h|)
    decreases checkpoint - first
  {
    var all := Logged(h, first, |h|);
    if first < checkpoint {
      assert all[1..] == Logged(h, first + 1, |h|);
      DropsPrefix(h, first + 1, checkpoint);
    } else if first < |h| {
      assert all[0].offset >= checkpoint;
    }
  }

  lemma TruncateKeeps(crc: Checksum, h: seq<seq<Byte>>, s: Running, base: nat)
    requires Backed(crc, h, s, base)
    ensures Backed(crc, h, Truncated(crc, s), s.log.checkpoint)
  {
    DropsPrefix(h, s.log.first, s.log.checkpoint);
  }

  /** A crash with nothing written, or between publishing the floor and compacting the log. */
  lemma QuietCrash(crc: Checksum, h: seq<seq<Byte>>, s: Running, base: nat, e: Event)
    requires Fits32(crc) && Sized(h) && Backed(crc, h, s, base) && (e.CrashIdle? || e.CrashInTruncate?)
    ensures Backed(crc, h, Step(crc, s, e), base)
  {
    hide Frames, Reopened, Header;
    var disk := CrashDisk(crc, s, e);
    EmptyTail(crc);
    assert Frames(crc, Logged(h, base, |h|)) + [] == Frames(crc, Logged(h, base, |h|));
    Recovers(crc, h, base, disk.mark, []);
  }

  /** A crash while appending: the entry is there if its whole frame is, and otherwise leaves no trace. */
  lemma TornCrash(crc: Checksum, h: seq<seq<Byte>>, s: Running, base: nat, payload: seq<Byte>, written: nat)
    requires Fits32(crc) && Backed(crc, h, s, base) && Sized(h + [payload])
    ensures var after := if written >= FRAME_HEADER + |payload| then h + [payload] else h;
      Backed(crc, after, Step(crc, s, CrashInAppend(payload, written)), base)
  {
    hide Frames, Reopened, Header;
    var entry := Entry(s.log.next, payload);
    var frame := Frame(crc, entry);
    var disk := CrashDisk(crc, s, CrashInAppend(payload, written));
    SizedFront(h, payload);
    if written >= |frame| {
      assert frame[..|frame|] == frame;
      AppendKeeps(crc, h, s, base, payload);
      assert disk == Appended(crc, s, payload).disk;
      QuietCrash(crc, h + [payload], Appended(crc, s, payload), base, CrashIdle);
    } else {
      TornFrame(crc, entry, written);
      Regroup(Header(), Frames(crc, Logged(h, base, |h|)), frame[..written]);
      Recovers(crc, h, base, disk.mark, frame[..written]);
    }
  }

  lemma SizedFront(h: seq<seq<Byte>>, payload: seq<Byte>)
    requires Sized(h + [payload])
    ensures Sized(h) && |payload| < U32
  {
    assert (h + [payload])[|h|] == payload;
    assert forall i :: 0 <= i < |h| ==> (h + [payload])[i] == h[i];
  }

  lemma {:induction false} HistorySized(events: seq<Event>)
    requires Fitting(events)
    ensures |History(events)| <= |events| && Sized(History(events))
  {
    if events != [] {
      var front := events[..|events| - 1];
      assert forall i :: 0 <= i < |front| ==> front[i] == events[i];
      HistorySized(front);
    }
  }

  lemma StepKeeps(crc: Checksum, h: seq<seq<Byte>>, s: Running, e: Event, after: seq<seq<Byte>>)
    requires Fits32(crc) && Consistent(crc, h, s) && Sized(h) && Sized(after)
    requires match e
      case DoAppend(payload) => after == h + [payload]
      case CrashInAppend(payload, written) =>
        |payload| < U32 && |h| + 1 < U64 && after == if written >= FRAME_HEADER + |payload| then h + [payload] else h
      case _ => after == h
    ensures Consistent(crc, after, Step(crc, s, e))
  {
    hide Backed, Step;
    var base: nat :| Backed(crc, h, s, base);
    match e {
      case DoAppend(payload) =>
        AppendKeeps(crc, h, s, base, payload);
        assert Backed(crc, after, Step(crc, s, e), base) by { StepUnfolds(crc, s, e); }
      case DoCheckpoint(offset) =>
        CheckpointKeeps(crc, h, s, base, offset);
        assert Backed(crc, after, Step(crc, s, e), base) by { StepUnfolds(crc, s, e); }
      case DoTruncate =>
        TruncateKeeps(crc, h, s, base);
        assert Backed(crc, after, Step(crc, s, e), s.log.checkpoint) by { StepUnfolds(crc, s, e); }
      case CrashInAppend(payload, written) =>
        assert forall i :: 0 <= i < |h| + 1 ==> |(h + [payload])[i]| < U32;
        TornCrash(crc, h, s, base, payload, written);
      case _ =>
        QuietCrash(crc, h, s, base, e);
    }
  }

  lemma StepUnfolds(crc: Checksum, s: Running, e: Event)
    ensures Step(crc, s, e) == match e
      case DoAppend(payload) => Appended(crc, s, payload)
      case DoCheckpoint(offset) => Checkpointed(s, offset)
      case DoTruncate => Truncated(crc, s)
      case _ => Reopened(crc, CrashDisk(crc, s, e))
  {}

  /**
   * Recovery: after any run of appends, checkpoints, truncations and crashes, the open log holds exactly the
   * offsets from the floor up to the next one, each with the bytes it was appended with, and the disk backs it.
   */
  lemma {:induction false} RunsRecover(crc: Checksum, events: seq<Event>)
    requires Fits32(crc) && Fitting(events)
    ensures Consistent(crc, History(events), Run(crc, events))
  {
    hide Step, Backed;
    if events == [] {
      StartConsistent(crc);
    } else {
      var front := events[..|events| - 1];
      assert forall i :: 0 <= i < |front| ==> front[i] == events[i];
      RunsRecover(crc, front);
      HistorySized(front);
      HistorySized(events);
      StepKeeps(crc, History(front), Run(crc, front), events[|events| - 1], History(events));
    }
  }

  lemma StartConsistent(crc: Checksum)
    ensures Consistent(crc, [], Created())
  {
    assert Logged([], 0, 0) == [] && Header() + [] == Header();
    assert Backed(crc, [], Created(), 0);
  }

  /** The same, spelled out. */
  lemma RecoveredEntries(crc: Checksum, events: seq<Event>)
    requires Fits32(crc) && Fitting(events)
    ensures Holds(Run(crc, events).log, History(events))
  {
    hide Run, History, Backed;
    RunsRecover(crc, events);
    var base: nat :| Backed(crc, History(events), Run(crc, events), base);
    BackedHolds(crc, History(events), Run(crc, events), base);
  }

  /** The log has every offset from its floor to its end, with the payload the history gives it. */
  ghost predicate Holds(log: Log, h: seq<seq<Byte>>) {
    && log.first <= log.next == |h| && |log.entries| == log.next - log.first
    && forall i :: 0 <= i < |log.entries| ==> log.entries[i] == Entry(log.first + i, h[log.first + i])
  }

  lemma BackedHolds(crc: Checksum, h: seq<seq<Byte>>, s: Running, base: nat)
    requires Backed(crc, h, s, base)
    ensures Holds(s.log, h)
  {
    hide Frames, Header;
  }

  // ----- payloads beyond the length field -----

  ghost predicate Short(entries: seq<Entry>) {
    forall i :: 0 <= i < |entries| ==> |entries[i].payload| < U32
  }

  /** Whatever the bytes are, no entry read from them is longer than the length field can say. */
  lemma {:induction false} EntriesShort(crc: Checksum, bytes: seq<Byte>)
    ensures Short(Entries(crc, bytes))
    decreases |bytes|
  {
    if WholeFrame(crc, bytes) {
      Widths();
      FromLeBound(bytes[8..12]);
      assert |FirstEntry(bytes).payload| < U32;
      EntriesShort(crc, bytes[FRAME_HEADER + FrameLength(bytes)..]);
    }
  }

  lemma {:induction false} KeptShort(entries: seq<Entry>, first: nat)
    requires Short(entries)
    ensures Short(Kept(entries, first))
  {
    if entries != [] {
      assert forall i :: 0 <= i < |entries| - 1 ==> entries[..|entries| - 1][i] == entries[i];
      KeptShort(entries[..|entries| - 1], first);
    }
  }

  /** After any crash, from any state at all, only short entries are there. */
  lemma CrashLeavesShort(crc: Checksum, s: Running, e: Event)
    requires Crashes(e)
    ensures Short(Step(crc, s, e).log.entries)
  {
    hide Entries, Frame, GoodLength;
    var disk := CrashDisk(crc, s, e);
    if GoodHeader(disk.log) {
      EntriesShort(crc, disk.log[FILE_HEADER..]);
      KeptShort(Entries(crc, disk.log[FILE_HEADER..]), disk.mark.first);
    }
  }

  /** One more append on top of any run survives the next crash exactly when its length fits the length field. */
  lemma RecoversIff(crc: Checksum, events: seq<Event>, payload: seq<Byte>)
    requires Fits32(crc) && Fitting(events) && |events| + 2 < U64
    ensures Holds(Run(crc, events + [DoAppend(payload), CrashIdle]).log, History(events) + [payload]) <==> |payload| < U32
  {
    hide Run, History, Step, Holds, Short;
    var more, h := events + [DoAppend(payload), CrashIdle], History(events) + [payload];
    LastEvents(crc, events, payload);
    if |payload| < U32 {
      RecoveredEntries(crc, more);
    } else {
      FloorWithin(crc, events);
      CrashLeavesShort(crc, Appended(crc, Run(crc, events), payload), CrashIdle);
      var log := Run(crc, more).log;
      if Holds(log, h) {
        ShortHolds(log, h);
      }
    }
  }

  lemma ShortHolds(log: Log, h: seq<seq<Byte>>)
    requires Short(log.entries) && Holds(log, h) && log.first < |h|
    ensures |h[|h| - 1]| < U32
  {
    var i := |log.entries| - 1;
    assert log.entries[i] == Entry(log.first + i, h[log.first + i]);
  }

  lemma FloorWithin(crc: Checksum, events: seq<Event>)
    requires Fits32(crc) && Fitting(events)
    ensures Run(crc, events).disk.mark.first <= |History(events)|
  {
    hide Run, History, Frames, Header;
    RunsRecover(crc, events);
  }

  lemma LastEvents(crc: Checksum, events: seq<Event>, payload: seq<Byte>)
    ensures var more := events + [DoAppend(payload), CrashIdle];
      && History(more) == History(events) + [payload]
      && Run(crc, more) == Step(crc, Appended(crc, Run(crc, events), payload), CrashIdle)
      && Run(crc, more).log.first <= Run(crc, events).disk.mark.first
  {
    hide Frame, Entries, GoodLength, Trimmed, GoodHeader, Kept, NextOffset;
    var more, appended := events + [DoAppend(payload), CrashIdle], events + [DoAppend(payload)];
    assert more[..|more| - 1] == appended && appended[..|appended| - 1] == events;
  }

  /** The offsets that appends returned to their callers. */
  function Returned(crc: Checksum, events: seq<Event>): seq<nat> {
    if events == [] then []
    else
      var front := events[..|events| - 1];
      Returned(crc, front) + (if events[|events| - 1].DoAppend? then [Run(crc, front).log.next] else [])
  }

  /** Offsets handed to callers increase strictly, over every crash: none is ever handed out twice. */
  lemma {:induction false} NeverReissued(crc: Checksum, events: seq<Event>)
    requires Fits32(crc) && Fitting(events)
    ensures StrictlySorted(Returned(crc, events))
    ensures forall i :: 0 <= i < |Returned(crc, events)| ==> Returned(crc, events)[i] < |History(events)|
  {
    hide Run, Backed;
    if events != [] {
      var front := events[..|events| - 1];
      assert forall i :: 0 <= i < |front| ==> front[i] == events[i];
      NeverReissued(crc, front);
      RecoveredEntries(crc, front);
      assert Run(crc, front).log.next == |History(front)|;
    }
  }

  /** Nothing logged is ever changed: the payload of an offset stays what it was. */
  lemma {:induction false} HistoryGrows(events: seq<Event>, k: nat)
    requires k <= |events|
    ensures History(events[..k]) <= History(events)
  {
    if k == |events| {
      assert events[..k] == events;
    } else {
      var front := events[..|events| - 1];
      assert front[..k] == events[..k];
      HistoryGrows(front, k);
    }
  }
}
