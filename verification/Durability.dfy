/** A checkpointed storage and the recovered log tail give back the live storage. */
module Durability {
  import opened Common
  import opened Bytes
  import opened MutationCodec
  import opened InsertPlanning
  import opened StartRepair
  import opened OnlineModel
  import opened OnlineSteps
  import opened OnlineRuns
  import opened LogReplay
  import Wal
  import WalRuns
  import opened FileLog

  /** The bit pattern of a vector component, and the value of a bit pattern. */
  datatype Floats = Floats(bitsOf: real -> nat, valueOf: nat -> real)

  /** A component that is a finite single-precision float. */
  predicate Single(f: Floats, x: real) {
    f.bitsOf(x) < U32 && Finite(f.bitsOf(x)) && f.valueOf(f.bitsOf(x)) == x
  }

  function Written(f: Floats, m: Mutation): LogMutation {
    match m
    case InsertRow(id, externalId, vector, labels) =>
      InsertMutation(id, externalId, seq<nat>(|vector|, i requires 0 <= i < |vector| => f.bitsOf(vector[i])), labels)
    case DeleteRow(id) => DeleteMutation(id)
  }

  function Restored(f: Floats, m: LogMutation): Mutation {
    match m
    case InsertMutation(id, externalId, bits, labels) =>
      InsertRow(id, externalId, seq(|bits|, i requires 0 <= i < |bits| => f.valueOf(bits[i])), labels)
    case DeleteMutation(id) => DeleteRow(id)
  }

  /** The entry fits the format: 64-bit ids, 128-bit external ids, vectors of single-precision floats. */
  predicate Storable(f: Floats, m: Mutation) {
    && m.id < U64
    && (m.InsertRow? ==>
          m.externalId < U128 && |m.vector| < U32 && forall i :: 0 <= i < |m.vector| ==> Single(f, m.vector[i]))
  }

  /** The log file's history is the index's log, entry for entry. */
  ghost predicate Mirrors(f: Floats, h: seq<seq<Byte>>, log: seq<Mutation>) {
    |h| == |log| && forall i :: 0 <= i < |log| ==> Storable(f, log[i]) && h[i] == Encode(Written(f, log[i]))
  }

  /** Decodes what a log delivers, in order, up to the first entry that does not decode. */
  function Restore(f: Floats, entries: seq<Wal.Entry>): Result<seq<Mutation>> {
    if entries == [] then Ok([])
    else
      match Restore(f, entries[..|entries| - 1])
      case Err(e) => Err(e)
      case Ok(before) =>
        match Decode(entries[|entries| - 1].payload)
        case Err(e) => Err(e)
        case Ok(m) => Ok(before + [Restored(f, m)])
  }

  /** What the log delivers from an offset on after a run of events, decoded. */
  function Tail(f: Floats, crc: Wal.Checksum, events: seq<WalRuns.Event>, offset: nat): Result<seq<Mutation>> {
    Restore(f, Wal.Kept(WalRuns.Run(crc, events).log.entries, offset))
  }

  /** A storable entry survives encoding and decoding. */
  lemma EntryRoundTrip(f: Floats, m: Mutation)
    requires Storable(f, m)
    ensures Decode(Encode(Written(f, m))).Ok? && Restored(f, Decode(Encode(Written(f, m))).value) == m
  {
    hide Decode, Encode, Finite;
    RoundTrip(Written(f, m));
  }

  lemma {:induction false} RestoresLog(f: Floats, h: seq<seq<Byte>>, log: seq<Mutation>, from: nat, end: nat)
    requires Mirrors(f, h, log) && from <= end <= |h|
    ensures Restore(f, WalRuns.Logged(h, from, end)) == Ok(log[from..end])
    decreases end
  {
    hide Decode, Encode, Storable, Written, Restored;
    if from < end {
      var entries := WalRuns.Logged(h, from, end);
      assert entries[..|entries| - 1] == WalRuns.Logged(h, from, end - 1);
      RestoresLog(f, h, log, from, end - 1);
      EntryRoundTrip(f, log[end - 1]);
      assert entries[|entries| - 1].payload == Encode(Written(f, log[end - 1]));
      assert log[from..end] == log[from..end - 1] + [log[end - 1]];
    } else {
      assert WalRuns.Logged(h, from, end) == [] && log[from..end] == [];
    }
  }

  /**
   * After any run of appends, checkpoints, truncations and crashes of the log, what it delivers from an offset on
   * decodes to the operations logged from there on.
   */
  lemma RecoveredTail(f: Floats, crc: Wal.Checksum, events: seq<WalRuns.Event>, log: seq<Mutation>, offset: nat)
    requires Wal.Fits32(crc) && WalRuns.Fitting(events) && Mirrors(f, WalRuns.History(events), log)
    requires WalRuns.Run(crc, events).log.first <= offset <= |log|
    ensures Tail(f, crc, events, offset) == Ok(log[offset..])
  {
    hide WalRuns.Run, WalRuns.History, Restore, Storable, Encode, Written;
    ReplayDelivers(crc, events, offset);
    RestoresLog(f, WalRuns.History(events), log, offset, |log|);
    assert log[offset..|log|] == log[offset..];
  }

  // ----- a run from a checkpoint on -----

  /** What was logged earlier does not change what an operation does. */
  lemma EarlierLog(env: OnlineEnv, ix: Index, earlier: seq<Mutation>, op: Op)
    ensures Perform(env, ix.(log := earlier + ix.log), op)
      == var r := Perform(env, ix, op); r.(log := earlier + r.log)
  {
    hide PlanInsert, PublishOver, RepairAround, NextOnOpen;
    match op {
      case OpInsert(externalId, vector, labels) =>
        var entry := InsertRow(ix.next, externalId, env.normalize(vector), labels);
        assert (earlier + ix.log) + [entry] == earlier + (ix.log + [entry]);
      case OpDelete(id) =>
        assert (earlier + ix.log) + [DeleteRow(id)] == earlier + (ix.log + [DeleteRow(id)]);
      case OpRefused(externalId, vector, labels) =>
        var entry := InsertRow(ix.next, externalId, env.normalize(vector), labels);
        assert (earlier + ix.log) + [entry] == earlier + (ix.log + [entry]);
      case _ =>
    }
  }

  /** A run continues from any point of it as if it had started there, with a log of its own. */
  lemma {:induction false} RunFrom(env: OnlineEnv, ix: Index, ops: seq<Op>, j: nat)
    requires j <= |ops|
    ensures var early, late := RunOps(env, ix, ops[..j]), RunOps(env, ix, ops);
      var own := RunOps(env, early.(log := []), ops[j..]);
      late == own.(log := early.log + own.log)
    decreases |ops|
  {
    hide Perform;
    var early := RunOps(env, ix, ops[..j]);
    if j == |ops| {
      assert ops[..j] == ops && ops[j..] == [];
    } else {
      var front, last := ops[..|ops| - 1], ops[|ops| - 1];
      assert front[..j] == ops[..j] && front[j..] == ops[j..][..|ops[j..]| - 1];
      RunFrom(env, ix, front, j);
      EarlierLog(env, RunOps(env, early.(log := []), front[j..]), early.log, last);
    }
  }

  /**
   * Durability: take the storage at any point of a run and the log as recovered after any crashes, with its floor no
   * higher than that point. Opening that storage and replaying the recovered tail decodes without error and gives the
   * live storage back but possibly for the id mark, and exactly unless the rest of the run lost an id. Rejected inserts
   * right before the point write nothing, so they are counted to the rest.
   */
  lemma CheckpointAndTail(f: Floats, crc: Wal.Checksum, events: seq<WalRuns.Event>, env: OnlineEnv, base: Index, ops: seq<Op>, j: nat)
    requires Normalizing(env) && Healthy(env, base) && base.log == [] && Aligned(base) && OwnOnly(ops)
    requires j <= |ops| && !Pending(ops[..j])
    requires Wal.Fits32(crc) && WalRuns.Fitting(events)
    requires Mirrors(f, WalRuns.History(events), RunOps(env, base, ops).log)
    requires WalRuns.Run(crc, events).log.first <= |RunOps(env, base, ops[..j]).log|
    ensures var early, live := RunOps(env, base, ops[..j]), RunOps(env, base, ops);
      var copy := Index(early.store, NextOnOpen(early.store), []);
      var tail := Tail(f, crc, events, |early.log|);
      && tail.Ok? && live.log == early.log + tail.value
      && SameButMark(live.store, Replay(env, copy, tail.value).store)
      && (Replay(env, copy, tail.value).store == live.store <==> !Lost(ops[j..]))
  {
    hide Healthy, RunOps, Replay, Lost, Pending, SameButMark, NextOnOpen, Tail, Mirrors, WalRuns.Run, WalRuns.History;
    var early, live := RunOps(env, base, ops[..j]), RunOps(env, base, ops);
    var copy := Index(early.store, NextOnOpen(early.store), []);
    OpenedCheckpoint(env, base, ops[..j]);
    RunFrom(env, base, ops, j);
    var own := RunOps(env, copy, ops[j..]);
    assert live.log == early.log + own.log && live.log[|early.log|..] == own.log;
    MirroredLength(f, WalRuns.History(events), live.log);
    RecoveredTail(f, crc, events, live.log, |early.log|);
    ReplayIsExact(env, copy, ops[j..]);
  }

  lemma MirroredLength(f: Floats, h: seq<seq<Byte>>, log: seq<Mutation>)
    requires Mirrors(f, h, log)
    ensures |h| == |log|
  {}

  /** When no id is pending, opening the storage of a run gives the index of that run, with a log of its own. */
  lemma OpenedCheckpoint(env: OnlineEnv, base: Index, ops: seq<Op>)
    requires Healthy(env, base) && base.log == [] && Aligned(base) && OwnOnly(ops) && !Pending(ops)
    ensures var early := RunOps(env, base, ops);
      var copy := Index(early.store, NextOnOpen(early.store), []);
      && copy == early.(log := []) && Healthy(env, copy) && Aligned(copy)
  {
    hide Healthy, RunOps, Lost, Pending, NextOnOpen, Admitted;
    OwnRunsAdmitted(env, base, ops);
    RunsRefineTable(env, base, ops);
    RunTracks(env, base, ops);
    var early := RunOps(env, base, ops);
    NextIsFree(env, early);
    HealthyRenamed(env, early, early.next, []);
  }
}
