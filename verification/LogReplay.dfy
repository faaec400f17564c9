/** Replaying a log into a copy of its base; only ids of rejected inserts are lost. */
module LogReplay {
  import opened Common
  import opened Labels
  import opened Records
  import opened Reading
  import opened StorageModel
  import opened StorageRuns
  import opened StartRepair
  import opened InsertPlanning
  import opened OnlineModel
  import opened OnlineSteps
  import opened OnlineRuns
  import opened OnlineBase
  import ExactSearch

  /** Replays a whole log, entry by entry. */
  ghost function Replay(env: OnlineEnv, ix: Index, log: seq<Mutation>): Index {
    if log == [] then ix else ReplayEntry(env, Replay(env, ix, log[..|log| - 1]), log[|log| - 1])
  }

  /** The next id after a log: one past the largest id it inserts, and no lower than before. */
  function NextAfter(next: nat, log: seq<Mutation>): nat {
    if log == [] then next
    else
      var before, last := NextAfter(next, log[..|log| - 1]), log[|log| - 1];
      if last.InsertRow? then Max(before, last.id + 1) else before
  }

  /** Equal but possibly for the id high-water mark. */
  ghost predicate SameButMark(a: Store, b: Store) {
    b == a.(manifest := a.manifest.(maxAssigned := b.manifest.maxAssigned))
  }

  lemma SameView(a: Store, b: Store)
    requires SameButMark(a, b)
    ensures CurrentView(a) == CurrentView(b) && a.manifest.starts == b.manifest.starts
  {
    SameBase(a, b, a.manifest.segments);
  }

  lemma {:induction false} RewritesIgnoreManifest(a: Store, b: Store, rewrites: seq<(NodeId, seq<NodeId>)>)
    requires b == a.(manifest := b.manifest)
    ensures ApplyRewrites(b, rewrites) == ApplyRewrites(a, rewrites).(manifest := b.manifest)
    ensures ApplyRewrites(a, rewrites).manifest == a.manifest
  {
    if rewrites != [] {
      RewritesIgnoreManifest(a, b, rewrites[..|rewrites| - 1]);
    }
  }

  lemma StageIgnoresManifest(a: Store, b: Store, staged: Staged)
    requires b == a.(manifest := b.manifest)
    ensures Stage(b, staged) == Stage(a, staged).(manifest := b.manifest)
    ensures Stage(a, staged).manifest == a.manifest
  {
    RewritesIgnoreManifest(AppendNode(a, staged.record), AppendNode(b, staged.record), staged.rewrites);
  }

  lemma PublishIgnoresMark(a: Store, b: Store, highestA: NodeId, highestB: NodeId)
    requires SameButMark(a, b)
    ensures SameButMark(PublishOver(a, a.manifest, highestA), PublishOver(b, b.manifest, highestB))
  {
    hide Collect, MaxOrZero;
    assert FreezeDelta(b, true) == FreezeDelta(a, true).(manifest := b.manifest);
  }

  lemma InsertIgnoresMark(env: OnlineEnv, a: Index, b: Index, id: NodeId, externalId: nat, vector: Vector, labels: LabelSet)
    requires SameButMark(a.store, b.store)
    ensures SameButMark(ApplyInsert(env, a, id, externalId, vector, labels).store,
                        ApplyInsert(env, b, id, externalId, vector, labels).store)
  {
    hide InsertNeighbors, RewritesFor, StartsAfterInsert, Stage, PublishOver, CurrentView;
    SameView(a.store, b.store);
    var staged := PlanInsert(env, a.store, id, externalId, vector, labels);
    assert PlanInsert(env, b.store, id, externalId, vector, labels) == staged;
    StageIgnoresManifest(a.store, b.store, staged);
    StageIgnoresManifest(b.store, b.store, staged);
    PublishIgnoresMark(Stage(a.store, staged), Stage(b.store, staged),
                       Highest(Max(a.next, id + 1)), Highest(Max(b.next, id + 1)));
  }

  lemma DeleteIgnoresMark(a: Index, b: Index, id: NodeId)
    requires SameButMark(a.store, b.store)
    ensures SameButMark(ApplyDelete(a, id).store, ApplyDelete(b, id).store)
  {
    hide RepairAround, PublishOver, CurrentView;
    SameView(a.store, b.store);
    var starts := RepairAround(CurrentView(a.store), a.store.manifest.starts, id, DEFAULT_BUDGET);
    PublishIgnoresMark(SetStarts(TombstoneNode(a.store, id), starts), SetStarts(TombstoneNode(b.store, id), starts),
                       Highest(a.next), Highest(b.next));
  }

  /** What replay of the log of a run has reached. */
  ghost predicate Follows(env: OnlineEnv, base: Index, live: Index) {
    var replayed := Replay(env, base, live.log);
    && SameButMark(live.store, replayed.store)
    && replayed.next == NextAfter(base.next, live.log)
    && replayed.store.manifest.maxAssigned == (if live.log == [] then base.store.manifest.maxAssigned else Some(replayed.next - 1))
    && Healthy(env, replayed)
  }

  lemma ReplaySnoc(env: OnlineEnv, base: Index, log: seq<Mutation>, entry: Mutation)
    ensures Replay(env, base, log + [entry]) == ReplayEntry(env, Replay(env, base, log), entry)
  {
    hide ReplayEntry;
    assert (log + [entry])[..|log|] == log;
  }

  lemma FollowsInsert(env: OnlineEnv, base: Index, live: Index, externalId: nat, vector: Vector, labels: LabelSet)
    requires Normalizing(env) && Healthy(env, live) && Follows(env, base, live)
    ensures Follows(env, base, Insert(env, live, externalId, vector, labels))
  {
    hide Healthy, ApplyInsert, SameButMark, Live, CurrentView, Replay, NextAfter;
    var normal, id := env.normalize(vector), live.next;
    var logged := live.(next := id + 1, log := live.log + [InsertRow(id, externalId, normal, labels)]);
    ReplaySnoc(env, base, live.log, InsertRow(id, externalId, normal, labels));
    NextAfterSnoc(base.next, live.log, InsertRow(id, externalId, normal, labels));
    var replayed := Replay(env, base, live.log);
    assert env.normalize(normal) == normal;
    assert Replay(env, base, logged.log) == ApplyInsert(env, replayed, id, externalId, normal, labels);
    InsertIgnoresMark(env, logged, replayed, id, externalId, normal, labels);
    NextIsFree(env, live);
    SameLive(live.store, replayed.store);
    InsertFacts(env, replayed, id, externalId, normal, labels);
    HealthyRenamed(env, live, logged.next, logged.log);
    InsertFacts(env, logged, id, externalId, normal, labels);
  }

  lemma SameLive(a: Store, b: Store)
    requires SameButMark(a, b)
    ensures Live(CurrentView(a)) == Live(CurrentView(b))
  {
    SameView(a, b);
  }

  lemma FollowsDelete(env: OnlineEnv, base: Index, live: Index, id: NodeId)
    requires Healthy(env, live) && Follows(env, base, live)
    ensures Follows(env, base, Delete(live, id))
  {
    hide Healthy, ApplyDelete, SameButMark, CurrentView, Replay, NextAfter;
    var logged := live.(log := live.log + [DeleteRow(id)]);
    ReplaySnoc(env, base, live.log, DeleteRow(id));
    NextAfterSnoc(base.next, live.log, DeleteRow(id));
    var replayed := Replay(env, base, live.log);
    assert Replay(env, base, logged.log) == ApplyDelete(replayed, id);
    DeleteIgnoresMark(logged, replayed, id);
    DeleteFacts(env, replayed, id);
    NextIsFree(env, live);
    HealthyRenamed(env, live, logged.next, logged.log);
    DeleteFacts(env, logged, id);
  }

  lemma {:induction false} ReplayFollows(env: OnlineEnv, base: Index, ops: seq<Op>)
    requires Normalizing(env) && Healthy(env, base) && base.log == [] && OwnOnly(ops) && Admitted(env, base, ops)
    ensures Follows(env, base, RunOps(env, base, ops))
  {
    hide Healthy, Insert, Delete, Follows, Admits, NextOnOpen;
    if ops == [] {
      EmptyFollows(env, base);
    } else {
      var front, last := ops[..|ops| - 1], ops[|ops| - 1];
      var live := RunOps(env, base, front);
      assert forall i :: 0 <= i < |front| ==> front[i] == ops[i];
      assert !last.OpReplay? && !last.OpRefused?;
      ReplayFollows(env, base, front);
      RunsRefineTable(env, base, front);
      match last {
        case OpInsert(externalId, vector, labels) => FollowsInsert(env, base, live, externalId, vector, labels);
        case OpDelete(id) => FollowsDelete(env, base, live, id);
        case _ => FollowsRenamed(env, base, live, RunOps(env, base, ops).next);
      }
    }
  }

  lemma EmptyFollows(env: OnlineEnv, base: Index)
    requires Healthy(env, base) && base.log == []
    ensures Follows(env, base, base)
  {
    hide Healthy;
  }

  lemma FollowsRenamed(env: OnlineEnv, base: Index, live: Index, next: nat)
    requires Follows(env, base, live)
    ensures Follows(env, base, live.(next := next))
  {
    hide Healthy, SameButMark, Replay, NextAfter;
  }

  /** The last operation took an id that nothing recorded. */
  predicate Pending(ops: seq<Op>) { ops != [] && ops[|ops| - 1].OpRejected? }

  /** Since the last insert, some delete published a mark that covers an id taken by a rejected insert just before it. */
  predicate Lost(ops: seq<Op>) {
    if ops == [] then false
    else
      var front, last := ops[..|ops| - 1], ops[|ops| - 1];
      if last.OpInsert? then false
      else if last.OpDelete? then Lost(front) || Pending(front)
      else Lost(front)
  }

  /** What the live index knows beyond its log. */
  ghost predicate Tracks(base: Index, ops: seq<Op>, live: Index) {
    var recorded, logged := NextOnOpen(live.store), NextAfter(base.next, live.log);
    && logged <= recorded <= live.next
    && (Pending(ops) <==> live.next > recorded)
    && (Lost(ops) <==> recorded > logged)
    && (if live.log == [] then live.store == base.store else live.store.manifest.maxAssigned.Some?)
  }

  lemma {:induction false} RunTracks(env: OnlineEnv, base: Index, ops: seq<Op>)
    requires Healthy(env, base) && base.log == [] && Aligned(base) && OwnOnly(ops)
    ensures Tracks(base, ops, RunOps(env, base, ops))
  {
    hide Healthy, Perform, Admits, Table, Extends, NextOnOpen;
    if ops == [] {
      StartTracks(base);
    } else {
      hide Tracks;
      var front, last := ops[..|ops| - 1], ops[|ops| - 1];
      assert forall i :: 0 <= i < |front| ==> front[i] == ops[i];
      assert !last.OpReplay? && !last.OpRefused?;
      RunTracks(env, base, front);
      OwnRunsAdmitted(env, base, ops);
      RunsRefineTable(env, base, front);
      StepTracks(env, base, front, last, RunOps(env, base, front));
      assert front + [last] == ops;
    }
  }

  lemma StartTracks(base: Index)
    requires base.log == [] && Aligned(base)
    ensures Tracks(base, [], base)
  {
    hide NextOnOpen;
  }

  lemma StepTracks(env: OnlineEnv, base: Index, front: seq<Op>, last: Op, live: Index)
    requires Tracks(base, front, live) && Healthy(env, live) && Admits(live, last) && !last.OpReplay? && !last.OpRefused?
    ensures Tracks(base, front + [last], Perform(env, live, last))
  {
    hide Healthy, Perform, Admits, Table, Extends, CurrentView, Lost, Pending, NextAfter;
    StepFacts(env, live, last);
    LogGrows(env, live, last);
    LostSnoc(front, last);
    if last.OpInsert? {
      NextAfterSnoc(base.next, live.log, InsertRow(live.next, last.externalId, env.normalize(last.vector), last.labels));
    } else if last.OpDelete? {
      NextAfterSnoc(base.next, live.log, DeleteRow(last.id));
    }
  }

  lemma LostSnoc(front: seq<Op>, last: Op)
    ensures Pending(front + [last]) <==> last.OpRejected?
    ensures Lost(front + [last]) <==> !last.OpInsert? && (Lost(front) || (last.OpDelete? && Pending(front)))
  {
    assert (front + [last])[..|front|] == front;
  }

  lemma NextAfterSnoc(next: nat, log: seq<Mutation>, entry: Mutation)
    ensures NextAfter(next, log + [entry])
      == if entry.InsertRow? then Max(NextAfter(next, log), entry.id + 1) else NextAfter(next, log)
  {
    assert (log + [entry])[..|log|] == log;
  }

  lemma LogGrows(env: OnlineEnv, live: Index, op: Op)
    requires Healthy(env, live) && !op.OpReplay? && !op.OpRefused?
    ensures var r := Perform(env, live, op);
      match op
      case OpInsert(externalId, vector, labels) =>
        r.log == live.log + [InsertRow(live.next, externalId, env.normalize(vector), labels)] && r.next == live.next + 1
      case OpDelete(id) => r.log == live.log + [DeleteRow(id)] && r.next == live.next
      case OpRejected => r == live.(next := live.next + 1)
      case OpReopen => r == live.(next := NextOnOpen(live.store))
      case _ => true
  {
    hide Healthy, PublishOver, PlanInsert;
  }

  /**
   * Replaying the log of any admitted run of live operations into a copy of its base gives the same storage,
   * manifest and deltas included, but possibly for the id high-water mark.
   */
  lemma ReplayMatches(env: OnlineEnv, base: Index, ops: seq<Op>)
    requires Normalizing(env) && Healthy(env, base) && base.log == [] && OwnOnly(ops) && Admitted(env, base, ops)
    ensures var live := RunOps(env, base, ops);
      SameButMark(live.store, Replay(env, base, live.log).store) && Healthy(env, Replay(env, base, live.log))
  {
    hide Healthy, RunOps, Replay, SameButMark;
    ReplayFollows(env, base, ops);
  }

  /**
   * Exact replay: the replayed storage is the live one exactly when no id was lost, that is, unless since the last
   * insert a delete came right after a rejected insert; the next ids agree too exactly when, on top of that, the
   * run does not end with a rejected insert.
   */
  lemma ReplayIsExact(env: OnlineEnv, base: Index, ops: seq<Op>)
    requires Normalizing(env) && Healthy(env, base) && base.log == [] && Aligned(base) && OwnOnly(ops)
    ensures var live := RunOps(env, base, ops);
      var replayed := Replay(env, base, live.log);
      && SameButMark(live.store, replayed.store)
      && (replayed.store == live.store <==> !Lost(ops))
      && (replayed.store == live.store && replayed.next == live.next <==> !Lost(ops) && !Pending(ops))
  {
    hide Healthy, RunOps, Replay, Lost, Pending, Admitted, SameButMark;
    OwnRunsAdmitted(env, base, ops);
    ReplayFollows(env, base, ops);
    RunTracks(env, base, ops);
    NextAfterPositive(env, base, RunOps(env, base, ops).log);
    MarkDecides(RunOps(env, base, ops).store, Replay(env, base, RunOps(env, base, ops).log).store);
  }

  lemma MarkDecides(a: Store, b: Store)
    requires SameButMark(a, b)
    ensures b == a <==> b.manifest.maxAssigned == a.manifest.maxAssigned
  {}

  lemma {:induction false} NextAfterPositive(env: OnlineEnv, base: Index, log: seq<Mutation>)
    requires Healthy(env, base)
    ensures NextAfter(base.next, log) >= 1
  {
    if log != [] {
      NextAfterPositive(env, base, log[..|log| - 1]);
    }
  }

  /** In particular, a run without rejected inserts replays to the same storage and the same next id. */
  lemma CleanReplay(env: OnlineEnv, base: Index, ops: seq<Op>)
    requires Normalizing(env) && Healthy(env, base) && base.log == [] && Aligned(base) && OwnOnly(ops)
    requires forall i :: 0 <= i < |ops| ==> !ops[i].OpRejected?
    ensures Replay(env, base, RunOps(env, base, ops).log).store == RunOps(env, base, ops).store
    ensures Replay(env, base, RunOps(env, base, ops).log).next == RunOps(env, base, ops).next
  {
    hide Healthy, RunOps, Replay;
    ReplayIsExact(env, base, ops);
    NothingLost(ops);
  }

  lemma {:induction false} NothingLost(ops: seq<Op>)
    requires forall i :: 0 <= i < |ops| ==> !ops[i].OpRejected?
    ensures !Lost(ops) && !Pending(ops)
  {
    if ops != [] {
      NothingLost(ops[..|ops| - 1]);
    }
  }

  /** A rejected insert burns an id that only the live index knows about: after a delete the marks differ. */
  lemma BurnedIdIsNotReplayed(env: OnlineEnv, base: Index, id: NodeId)
    requires Normalizing(env) && Healthy(env, base) && base.log == [] && Aligned(base)
    ensures var live := RunOps(env, base, [OpRejected, OpDelete(id)]);
      && live.store.manifest.maxAssigned == Some(base.next)
      && Replay(env, base, live.log).store.manifest.maxAssigned == Some(base.next - 1)
      && Replay(env, base, live.log).store != live.store
  {
    hide Healthy, ApplyDelete, Replay, NextAfter, RunOps, Admitted, NextOnOpen;
    var ops, burned := [OpRejected, OpDelete(id)], base.(next := base.next + 1, log := [DeleteRow(id)]);
    BurnedRun(env, base, id);
    OwnRunsAdmitted(env, base, ops);
    NextIsFree(env, base);
    HealthyRenamed(env, base, burned.next, burned.log);
    DeleteFacts(env, burned, id);
    ReplayFollows(env, base, ops);
    OneDelete(base.next, id);
  }

  lemma BurnedRun(env: OnlineEnv, base: Index, id: NodeId)
    requires base.log == []
    ensures RunOps(env, base, [OpRejected, OpDelete(id)])
      == ApplyDelete(base.(next := base.next + 1, log := [DeleteRow(id)]), id)
  {
    hide ApplyDelete;
    var ops := [OpRejected, OpDelete(id)];
    assert ops[..1] == [OpRejected] && [OpRejected][..0] == [];
    var burned := base.(next := base.next + 1);
    assert RunOps(env, base, [OpRejected]) == burned;
    assert RunOps(env, base, ops) == Delete(burned, id);
    assert burned.log + [DeleteRow(id)] == [DeleteRow(id)];
  }

  lemma OneDelete(next: nat, id: NodeId)
    ensures NextAfter(next, [DeleteRow(id)]) == next
  {
    assert [DeleteRow(id)][..0] == [];
  }

  /** A freshly built index is an aligned base: its log replays into a copy of the same build. */
  lemma BulkReplayIsExact(env: OnlineEnv, s: Store, rows: seq<ExactSearch.Row>, quantizers: seq<QuantizerReference>, ops: seq<Op>)
    requires Normalizing(env) && Untouched(s) && env.config.Valid() && QuantizersStored(s, quantizers) && OwnOnly(ops)
    ensures var base := BulkIndex(env, s, rows, quantizers);
      var live := RunOps(env, base, ops);
      && SameButMark(live.store, Replay(env, base, live.log).store)
      && (Replay(env, base, live.log).store == live.store <==> !Lost(ops))
  {
    hide Healthy, RunOps, Replay, Lost, Pending, BulkStore, Built, CurrentView, SameButMark;
    BulkHealthy(env, s, rows, quantizers);
    BulkMark(env, s, rows, quantizers);
    ReplayIsExact(env, BulkIndex(env, s, rows, quantizers), ops);
  }
}
