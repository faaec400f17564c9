/** The framed mutation log of the file backend: its bytes, its recovery, and its crash protocol. */
module Wal {
  import opened Arithmetic
  import opened Common
  import opened Bytes

  type Checksum = seq<Byte> -> nat

  /** A 32-bit checksum; which one does not matter. */
  ghost predicate Fits32(crc: Checksum) {
    forall body :: crc(body) < U32
  }

  datatype Entry = Entry(offset: nat, payload: seq<Byte>)

  const FRAME_HEADER: nat := 16
  const FILE_HEADER: nat := 12
  const FORMAT_VERSION: nat := 1

  /** "SDAFWAL" and a zero byte. */
  const MAGIC: seq<Byte> := [83, 68, 65, 70, 87, 65, 76, 0]

  function Header(): (h: seq<Byte>)
    ensures |h| == FILE_HEADER
  {
    MAGIC + Le(FORMAT_VERSION, 4)
  }

  /** offset (8 bytes), length (4), checksum (4), payload; a length beyond 32 bits is cut off. */
  function Frame(crc: Checksum, e: Entry): (frame: seq<Byte>)
    ensures |frame| == FRAME_HEADER + |e.payload|
  {
    Le(e.offset, 8) + Le(|e.payload|, 4) + Le(crc(e.payload), 4) + e.payload
  }

  function Frames(crc: Checksum, entries: seq<Entry>): seq<Byte> {
    if entries == [] then [] else Frame(crc, entries[0]) + Frames(crc, entries[1..])
  }

  function FrameOffset(bytes: seq<Byte>): nat
    requires |bytes| >= FRAME_HEADER
  {
    FromLe(bytes[..8])
  }

  function FrameLength(bytes: seq<Byte>): nat
    requires |bytes| >= FRAME_HEADER
  {
    FromLe(bytes[8..12])
  }

  function FrameCrc(bytes: seq<Byte>): nat
    requires |bytes| >= FRAME_HEADER
  {
    FromLe(bytes[12..16])
  }

  /** The bytes begin with a whole frame whose checksum matches. */
  predicate WholeFrame(crc: Checksum, bytes: seq<Byte>) {
    && |bytes| >= FRAME_HEADER
    && FrameLength(bytes) <= |bytes| - FRAME_HEADER
    && crc(bytes[FRAME_HEADER..FRAME_HEADER + FrameLength(bytes)]) == FrameCrc(bytes)
  }

  function FirstEntry(bytes: seq<Byte>): Entry
    requires |bytes| >= FRAME_HEADER && FrameLength(bytes) <= |bytes| - FRAME_HEADER
  {
    Entry(FrameOffset(bytes), bytes[FRAME_HEADER..FRAME_HEADER + FrameLength(bytes)])
  }

  /** The entries up to the first frame that is not whole. */
  function Entries(crc: Checksum, bytes: seq<Byte>): seq<Entry>
    decreases |bytes|
  {
    if !WholeFrame(crc, bytes) then []
    else [FirstEntry(bytes)] + Entries(crc, bytes[FRAME_HEADER + FrameLength(bytes)..])
  }

  /** How many bytes those entries take. */
  function GoodLength(crc: Checksum, bytes: seq<Byte>): (n: nat)
    ensures n <= |bytes|
    decreases |bytes|
  {
    if !WholeFrame(crc, bytes) then 0
    else
      var size := FRAME_HEADER + FrameLength(bytes);
      size + GoodLength(crc, bytes[size..])
  }

  predicate Writable(e: Entry) { e.offset < U64 && |e.payload| < U32 }

  lemma FrameFields(crc: Checksum, e: Entry, rest: seq<Byte>)
    requires Fits32(crc) && e.offset < U64
    ensures var bytes := Frame(crc, e) + rest;
      && FrameOffset(bytes) == e.offset && FrameLength(bytes) == |e.payload| % U32 && FrameCrc(bytes) == crc(e.payload)
      && bytes[FRAME_HEADER..] == e.payload + rest
  {
    var bytes := Frame(crc, e) + rest;
    var a, b, c := Le(e.offset, 8), Le(|e.payload|, 4), Le(crc(e.payload), 4);
    assert bytes == a + b + c + e.payload + rest;
    assert bytes[..8] == a && bytes[8..12] == b && bytes[12..16] == c;
    Widths();
    LeExact(e.offset, 8);
    LeRoundTrip(|e.payload|, 4);
    LeExact(crc(e.payload), 4);
  }

  /** A written frame reads back as its entry, followed by whatever the rest holds. */
  lemma FrameReads(crc: Checksum, e: Entry, rest: seq<Byte>)
    requires Fits32(crc) && Writable(e)
    ensures Entries(crc, Frame(crc, e) + rest) == [e] + Entries(crc, rest)
    ensures GoodLength(crc, Frame(crc, e) + rest) == |Frame(crc, e)| + GoodLength(crc, rest)
  {
    var bytes := Frame(crc, e) + rest;
    FrameFields(crc, e, rest);
    DivUnique(|e.payload|, U32, 0, |e.payload|);
    var size := FRAME_HEADER + |e.payload|;
    assert bytes[FRAME_HEADER..size] == bytes[FRAME_HEADER..][..|e.payload|] == e.payload;
    assert bytes[size..] == rest;
  }

  /**
   * The append does not check the payload length: a frame reads back as its entry exactly when the
   * length fits 32 bits.
   */
  lemma FrameReadsIff(crc: Checksum, e: Entry)
    requires Fits32(crc) && e.offset < U64
    ensures Entries(crc, Frame(crc, e)) == [e] <==> |e.payload| < U32
  {
    assert Frame(crc, e) + [] == Frame(crc, e);
    if |e.payload| < U32 {
      FrameReads(crc, e, []);
      assert Entries(crc, []) == [];
    } else {
      FrameFields(crc, e, []);
      var frame := Frame(crc, e);
      assert FrameLength(frame) < U32;
      assert WholeFrame(crc, frame) ==> Entries(crc, frame)[0] == FirstEntry(frame) && |FirstEntry(frame).payload| < U32;
    }
  }

  /** Any strict prefix of a frame reads as nothing at all. */
  lemma TornFrame(crc: Checksum, e: Entry, k: nat)
    requires Fits32(crc) && Writable(e) && k < |Frame(crc, e)|
    ensures Entries(crc, Frame(crc, e)[..k]) == [] && GoodLength(crc, Frame(crc, e)[..k]) == 0
  {
    var frame, torn := Frame(crc, e), Frame(crc, e)[..k];
    if k >= FRAME_HEADER {
      assert frame + [] == frame;
      FrameFields(crc, e, []);
      DivUnique(|e.payload|, U32, 0, |e.payload|);
      assert torn[8..12] == frame[8..12];
    }
  }

  ghost predicate AllWritable(entries: seq<Entry>) {
    forall i :: 0 <= i < |entries| ==> Writable(entries[i])
  }

  /** What a log of whole frames and a tail that reads as nothing yields. */
  lemma {:induction false} FramesRead(crc: Checksum, entries: seq<Entry>, tail: seq<Byte>)
    requires Fits32(crc) && AllWritable(entries)
    requires Entries(crc, tail) == [] && GoodLength(crc, tail) == 0
    ensures Entries(crc, Frames(crc, entries) + tail) == entries
    ensures GoodLength(crc, Frames(crc, entries) + tail) == |Frames(crc, entries)|
  {
    hide Frame, Entries, GoodLength;
    if entries == [] {
      assert Frames(crc, entries) + tail == tail;
    } else {
      var first, rest := entries[0], entries[1..];
      assert forall i :: 0 <= i < |rest| ==> rest[i] == entries[i + 1];
      FramesRead(crc, rest, tail);
      FrameReads(crc, first, Frames(crc, rest) + tail);
      Regroup(Frame(crc, first), Frames(crc, rest), tail);
      assert [first] + rest == entries;
    }
  }

  lemma Regroup<T>(a: seq<T>, b: seq<T>, c: seq<T>)
    ensures (a + b) + c == a + (b + c)
  {}

  lemma {:induction false} FramesSnoc(crc: Checksum, entries: seq<Entry>, e: Entry)
    ensures Frames(crc, entries + [e]) == Frames(crc, entries) + Frame(crc, e)
  {
    hide Frame;
    var all := entries + [e];
    if entries == [] {
      assert all[1..] == [] && Frames(crc, all[1..]) == [];
      assert Frame(crc, all[0]) + [] == Frame(crc, e);
      assert [] + Frame(crc, e) == Frame(crc, e);
    } else {
      FramesSnoc(crc, entries[1..], e);
      assert all[1..] == entries[1..] + [e] && all[0] == entries[0];
      Regroup(Frame(crc, entries[0]), Frames(crc, entries[1..]), Frame(crc, e));
    }
  }

  // ----- recovery -----

  /** STATE.json: the checkpoint and the first replayable offset. */
  datatype Mark = Mark(checkpoint: nat, first: nat)

  datatype Disk = Disk(mark: Mark, log: seq<Byte>)

  /** The in-memory side of an open log. */
  datatype Log = Log(entries: seq<Entry>, next: nat, first: nat, checkpoint: nat)

  function Kept(entries: seq<Entry>, first: nat): seq<Entry> {
    if entries == [] then []
    else
      var rest, last := Kept(entries[..|entries| - 1], first), entries[|entries| - 1];
      if last.offset >= first then rest + [last] else rest
  }

  function NextOffset(mark: Mark, kept: seq<Entry>): nat {
    Max(Max(mark.first, mark.checkpoint), if kept == [] then 0 else kept[|kept| - 1].offset + 1)
  }

  predicate GoodHeader(bytes: seq<Byte>) {
    |bytes| >= FILE_HEADER && bytes[..8] == MAGIC && FromLe(bytes[8..12]) == FORMAT_VERSION
  }

  function Recovered(crc: Checksum, disk: Disk): Log
    requires GoodHeader(disk.log)
  {
    var kept := Kept(Entries(crc, disk.log[FILE_HEADER..]), disk.mark.first);
    Log(kept, NextOffset(disk.mark, kept), disk.mark.first, disk.mark.checkpoint)
  }

  /** Recovery also cuts the unreadable tail off the file. */
  function Trimmed(crc: Checksum, disk: Disk): Disk
    requires GoodHeader(disk.log)
  {
    disk.(log := disk.log[..FILE_HEADER + GoodLength(crc, disk.log[FILE_HEADER..])])
  }

  /** Opening the log: a cursor over the frames, stopping at the first one that is not whole. */
  method Load(crc: Checksum, disk: Disk) returns (r: Result<Log>, after: Disk)
    ensures r.Ok? <==> GoodHeader(disk.log)
    ensures r.Ok? ==> r.value == Recovered(crc, disk) && after == Trimmed(crc, disk)
    ensures r.Err? ==> r.error == InvalidStorageState && after == disk
  {
    hide WholeFrame;
    after := disk;
    if |disk.log| < FILE_HEADER || disk.log[..8] != MAGIC {
      return Err(InvalidStorageState), after;
    }
    if FromLe(disk.log[8..12]) != FORMAT_VERSION {
      return Err(InvalidStorageState), after;
    }
    var payload := disk.log[FILE_HEADER..];
    var entries, consumed := ScanFrames(crc, payload, disk.mark.first);
    if FILE_HEADER + consumed < |disk.log| {
      after := disk.(log := disk.log[..FILE_HEADER + consumed]);
    }
    r := Ok(Log(entries, NextOffset(disk.mark, entries), disk.mark.first, disk.mark.checkpoint));
    assert disk.log[..|disk.log|] == disk.log;
  }

  /** One turn of the scan: the frame at the cursor, if it is whole, is the next entry. */
  lemma ScanStep(crc: Checksum, payload: seq<Byte>, consumed: nat)
    requires consumed + FRAME_HEADER <= |payload|
    ensures var left := payload[consumed..];
      var len := FromLe(payload[consumed + 8..consumed + 12]);
      var bodyStart := consumed + FRAME_HEADER;
      && (WholeFrame(crc, left) <==>
            |payload| - bodyStart >= len && crc(payload[bodyStart..bodyStart + len]) == FromLe(payload[consumed + 12..consumed + 16]))
      && (WholeFrame(crc, left) ==>
            && Entries(crc, left) == [Entry(FromLe(payload[consumed..consumed + 8]), payload[bodyStart..bodyStart + len])]
                                     + Entries(crc, payload[bodyStart + len..])
            && GoodLength(crc, left) == FRAME_HEADER + len + GoodLength(crc, payload[bodyStart + len..]))
      && (!WholeFrame(crc, left) ==> Entries(crc, left) == [] && GoodLength(crc, left) == 0)
  {
    var left := payload[consumed..];
    var len := FromLe(payload[consumed + 8..consumed + 12]);
    var bodyStart := consumed + FRAME_HEADER;
    assert left[..8] == payload[consumed..consumed + 8];
    assert left[8..12] == payload[consumed + 8..consumed + 12];
    assert left[12..16] == payload[consumed + 12..consumed + 16];
    if |payload| - bodyStart >= len {
      assert left[FRAME_HEADER..FRAME_HEADER + len] == payload[bodyStart..bodyStart + len];
      assert left[FRAME_HEADER + len..] == payload[bodyStart + len..];
    }
  }

  lemma KeptNothing(first: nat)
    ensures Kept([], first) == []
  {}

  lemma KeptSnoc(all: seq<Entry>, e: Entry, first: nat)
    ensures Kept(all + [e], first) == if e.offset >= first then Kept(all, first) + [e] else Kept(all, first)
  {
    assert (all + [e])[..|all|] == all;
  }

  method ScanFrames(crc: Checksum, payload: seq<Byte>, first: nat) returns (entries: seq<Entry>, consumed: nat)
    ensures consumed == GoodLength(crc, payload)
    ensures entries == Kept(Entries(crc, payload), first)
  {
    hide WholeFrame, Entries, GoodLength, Kept, FromLe;
    entries, consumed := [], 0;
    ghost var all: seq<Entry> := [];
    KeptNothing(first);
    assert payload[0..] == payload && [] + Entries(crc, payload) == Entries(crc, payload);
    while |payload| - consumed >= FRAME_HEADER
      invariant consumed <= |payload|
      invariant Entries(crc, payload) == all + Entries(crc, payload[consumed..])
      invariant GoodLength(crc, payload) == consumed + GoodLength(crc, payload[consumed..])
      invariant entries == Kept(all, first)
    {
      ScanStep(crc, payload, consumed);
      var offset, len := FromLe(payload[consumed..consumed + 8]), FromLe(payload[consumed + 8..consumed + 12]);
      var sum, bodyStart := FromLe(payload[consumed + 12..consumed + 16]), consumed + FRAME_HEADER;
      if |payload| - bodyStart < len {
        assert all + [] == all;
        return;
      }
      var body := payload[bodyStart..bodyStart + len];
      if crc(body) != sum {
        assert all + [] == all;
        return;
      }
      ghost var longer := all + [Entry(offset, body)];
      Regroup(all, [Entry(offset, body)], Entries(crc, payload[bodyStart + len..]));
      KeptSnoc(all, Entry(offset, body), first);
      if offset >= first {
        entries := entries + [Entry(offset, body)];
      }
      all, consumed := longer, bodyStart + len;
    }
    ShortTail(crc, payload[consumed..]);
    assert all + [] == all;
  }

  lemma ShortTail(crc: Checksum, bytes: seq<Byte>)
    requires |bytes| < FRAME_HEADER
    ensures Entries(crc, bytes) == [] && GoodLength(crc, bytes) == 0
  {}
}
