/** Every step under the exclusive gate, and clock, sweep, compaction and
    restart, keep the invariant. */
module ExclusiveSteps {
  import opened Types
  import opened Order
  import opened Geometry
  import opened Catalog
  import opened Compaction
  import opened Protocol
  import opened Agreement
  import opened Batches
  import opened Invariant
  import opened Steps
  import opened Exclusive

  ghost predicate Alone(s: State, t: nat) {
    t < |s.threads| && forall u :: 0 <= u < |s.threads| && u != t ==> s.threads[u].Idle?
  }

  /** A thread alone in the gate moves without appending or applying. */
  lemma {:induction false} AloneMoveKeeps(env: Env, s: State, r: State, t: nat)
    requires Inv(env, s) && Moved(s, r, t) && Alone(s, t)
    requires !s.threads[t].Appended? && !s.threads[t].XAppended?
    requires InExclusive(r.threads[t]) || r.threads[t].Idle?
    requires !r.threads[t].XAppended? && ThreadOk(env, r, r.threads[t])
    ensures Inv(env, r)
  {
    hide ThreadOk, ThreadsOk, Corresponds, LogOk, NamesOk;
    MovedKeeps(env, s, r, t);
  }

  lemma {:induction false} StartXKeeps(env: Env, s: State, t: nat)
    requires Inv(env, s) && t < |s.threads| && s.threads[t].Idle? && NoneExclusive(s) && NoneShared(s)
    ensures Inv(env, Goto(s, t, Exclusive))
  {
    assert Alone(s, t) by {
      forall u | 0 <= u < |s.threads| && u != t ensures s.threads[u].Idle? {
        assert !InShared(s.threads[u]) && !InExclusive(s.threads[u]);
      }
    }
    hide Corresponds, LogOk, NamesOk, ThreadsOk;
    AloneMoveKeeps(env, s, Goto(s, t, Exclusive), t);
  }

  lemma {:induction false} LeaveXKeeps(env: Env, s: State, t: nat, pc: Pc)
    requires Inv(env, s) && t < |s.threads| && InExclusive(s.threads[t]) && !s.threads[t].XAppended?
    requires pc.Exclusive? || pc.Idle?
    ensures Inv(env, Goto(s, t, pc))
  {
    InExclusiveAlone(env, s, t);
    hide Corresponds, LogOk, NamesOk, ThreadsOk;
    AloneMoveKeeps(env, s, Goto(s, t, pc), t);
  }

  ghost function DeadlineX(s: State, x: XOp): Option<nat> {
    if x.XLocal? then DeadlineOf(x.op, s.clock) else None
  }

  ghost function AfterReserveX(s: State, t: nat, x: XOp, hooks: nat): State
    requires t < |s.threads|
  {
    var before := Before(View(s), x);
    var count := |Batch(XCommands(x, before, DeadlineX(s, x)), hooks)|;
    Goto(s.(nextSequence := s.nextSequence + count), t,
         XReserved(x, before, DeadlineX(s, x), hooks, s.nextSequence + 1))
  }

  lemma {:induction false} ReserveXKeeps(env: Env, s: State, t: nat, x: XOp, hooks: nat)
    requires Inv(env, s) && t < |s.threads| && s.threads[t].Exclusive?
    requires XProceeds(env, View(s), x) && (x.XLocal? ==> Stores(env, x.op))
    ensures Inv(env, AfterReserveX(s, t, x, hooks))
  {
    InExclusiveAlone(env, s, t);
    var r := AfterReserveX(s, t, x, hooks);
    ReserveXThreadOk(env, s, t, x, hooks);
    hide XCommands, XProceeds, ThreadsOk, Corresponds, NamesOk, Stores, LogOk, ThreadOk, View, Batch;
    AloneMoveKeeps(env, s, r, t);
  }

  lemma {:induction false} ReserveXThreadOk(env: Env, s: State, t: nat, x: XOp, hooks: nat)
    requires LogOk(env, s) && t < |s.threads|
    requires XProceeds(env, View(s), x) && (x.XLocal? ==> Stores(env, x.op))
    ensures var r := AfterReserveX(s, t, x, hooks);
            ThreadOk(env, r, r.threads[t])
  {
    var r := AfterReserveX(s, t, x, hooks);
    assert x.XLocal? ==> !x.op.ExpireOp?;
    hide XCommands, XProceeds, Stores, Replayable, OrderedUpToIndependence, Batch, DeadlineOf, Before;
    assert View(r) == View(s);
    hide View;
  }

  // Appending an exclusive batch.

  ghost function AfterAppendX(s: State, t: nat): State
    requires t < |s.threads| && s.threads[t].XReserved?
  {
    var pc := s.threads[t];
    Goto(s.(log := s.log + Numbered(pc.first, Batch(XCommands(pc.x, pc.before, pc.deadline), pc.hooks))), t,
         XAppended(pc.x, pc.before, pc.deadline))
  }

  ghost predicate XReady(env: Env, s: State, pc: Pc)
    requires pc.XReserved? || pc.XAppended?
  {
    XProceeds(env, View(s), pc.x) && pc.before == Before(View(s), pc.x) &&
    (pc.x.XLocal? ==> Stores(env, pc.x.op)) && (!pc.x.XLocal? ==> pc.deadline == None)
  }

  lemma {:induction false} XFacts(env: Env, s: State, t: nat)
    requires ThreadsOk(env, s) && t < |s.threads| && (s.threads[t].XReserved? || s.threads[t].XAppended?)
    ensures XReady(env, s, s.threads[t]) && NumbersOk(s, s.threads[t]) && RequestOk(env, s.threads[t]) && Alone(s, t)
  {
    assert ThreadOk(env, s, s.threads[t]);
    InExclusiveAlone(env, s, t);
    hide ThreadsOk, XProceeds, Stores, NumbersOk;
  }

  lemma {:induction false} XBatchReplayable(env: Env, x: XOp, before: Option<Object>, deadline: Option<nat>, hooks: nat)
    requires x.XLocal? ==> Stores(env, x.op)
    ensures forall i :: 0 <= i < |Batch(XCommands(x, before, deadline), hooks)| ==>
      Replayable(env, Batch(XCommands(x, before, deadline), hooks)[i])
  {
    if x.XLocal? {
      LocalBatchOf(env, x.op, before, deadline, hooks);
      hide Commands, Replayable;
    }
  }

  lemma {:induction false} AppendAfterAll(log: seq<Entry>, first: nat, batch: seq<Record>)
    requires OrderedUpToIndependence(log) && forall i :: 0 <= i < |log| ==> log[i].number < first
    ensures OrderedUpToIndependence(log + Numbered(first, batch))
  {
    hide Independent;
    var all := log + Numbered(first, batch);
    forall i, j | 0 <= i < j < |all|
      ensures all[i].number < all[j].number ||
              (all[i].number > all[j].number && Independent(all[i].record, all[j].record))
    {
      if j >= |log| {
        assert all[j] == Entry(first + (j - |log|), batch[j - |log|]);
        if i < |log| {
          assert all[i] == log[i];
        } else {
          assert all[i] == Entry(first + (i - |log|), batch[i - |log|]);
        }
      }
    }
  }

  lemma {:induction false} AppendXLogOk(env: Env, s: State, t: nat)
    requires NamesOk(s) && LogOk(env, s) && ThreadsOk(env, s) && t < |s.threads| && s.threads[t].XReserved?
    ensures NamesOk(AfterAppendX(s, t)) && LogOk(env, AfterAppendX(s, t))
  {
    var pc := s.threads[t];
    XFacts(env, s, t);
    XBatchReplayable(env, pc.x, pc.before, pc.deadline, pc.hooks);
    hide Replayable, Batch, XCommands, ThreadsOk, XReady;
    AppendAfterAll(s.log, pc.first, Batch(XCommands(pc.x, pc.before, pc.deadline), pc.hooks));
  }

  /** With every other thread idle, one thread's state decides. */
  lemma {:induction false} AloneThreadsOk(env: Env, r: State, t: nat)
    requires Alone(r, t) && ThreadOk(env, r, r.threads[t])
    ensures ThreadsOk(env, r)
  {
    forall u | 0 <= u < |r.threads| ensures ThreadOk(env, r, r.threads[u]) {
    }
    hide ThreadOk;
  }

  lemma {:induction false} AppendXThreadsOk(env: Env, s: State, t: nat)
    requires ThreadsOk(env, s) && t < |s.threads| && s.threads[t].XReserved?
    ensures ThreadsOk(env, AfterAppendX(s, t))
  {
    var r := AfterAppendX(s, t);
    XFacts(env, s, t);
    hide XCommands, Batch, XProceeds, Stores, ThreadsOk;
    assert View(r) == View(s);
    assert ThreadOk(env, r, r.threads[t]);
    hide ThreadOk;
    AloneThreadsOk(env, r, t);
  }

  lemma {:induction false} AppendXKeeps(env: Env, s: State, t: nat)
    requires Inv(env, s) && t < |s.threads| && s.threads[t].XReserved?
    ensures Inv(env, AfterAppendX(s, t))
  {
    var pc, r := s.threads[t], AfterAppendX(s, t);
    hide *;
    InvParts(env, s);
    XFacts(env, s, t);
    XReadyMeans(env, s, pc);
    AppendXLogOk(env, s, t);
    AppendXThreadsOk(env, s, t);
    AppendXShape(s, t);
    LogicalIsView(env, s);
    LogicalXPending(env, r, t);
    ApplyXSame(env, s, r, pc.x, pc.before, pc.deadline);
    ViewOfApplyX(env, s, pc.x, pc.before, pc.deadline);
    AppliesAsMeans(env, s, pc.x, pc.before, pc.deadline);
    XEffectAgrees(env, pc.x, pc.before, pc.deadline, pc.hooks, View(s), Replay(env, Records(s.log)), BoundOf(s));
    ReplaysAsMeans(env, pc.x, pc.before, pc.deadline, pc.hooks, View(s), Replay(env, Records(s.log)), BoundOf(s));
    ReplayAppended(env, s.log, pc.first, Batch(XCommands(pc.x, pc.before, pc.deadline), pc.hooks));
    PartsInv(env, r);
  }

  lemma XReadyMeans(env: Env, s: State, pc: Pc)
    requires (pc.XReserved? || pc.XAppended?) && XReady(env, s, pc)
    ensures XProceeds(env, View(s), pc.x) && pc.before == Before(View(s), pc.x)
    ensures (pc.x.XLocal? ==> Stores(env, pc.x.op)) && (!pc.x.XLocal? ==> pc.deadline == None)
  {
    hide XProceeds, View, Before, Stores;
  }

  lemma AppendXShape(s: State, t: nat)
    requires Alone(s, t) && s.threads[t].XReserved?
    ensures var r, pc := AfterAppendX(s, t), s.threads[t];
            r.names == s.names && r.cells == s.cells && r.channels == s.channels && r.hooks == s.hooks &&
            |r.threads| == |s.threads| && r.threads[t] == XAppended(pc.x, pc.before, pc.deadline) &&
            BoundOf(r) == BoundOf(s) &&
            r.log == s.log + Numbered(pc.first, Batch(XCommands(pc.x, pc.before, pc.deadline), pc.hooks))
    ensures forall u :: 0 <= u < |s.threads| ==> !s.threads[u].Appended? && !s.threads[u].XAppended?
  {
    hide XCommands, Batch, Numbered;
  }

  lemma AppliesAsMeans(env: Env, s: State, x: XOp, before: Option<Object>, deadline: Option<nat>)
    requires AppliesAs(env, s, x, before, deadline)
    ensures View(ApplyX(env, s, x, before, deadline)) == XEffect(env, View(s), x, before, deadline)
  {
    hide ApplyX, View, XEffect;
  }

  lemma ReplaysAsMeans(
      env: Env, x: XOp, before: Option<Object>, deadline: Option<nat>, hooks: nat, live: Db, replayed: Db, p: Bound)
    requires ReplaysAs(env, x, before, deadline, hooks, live, replayed, p)
    ensures Corresponds(env, p, XEffect(env, live, x, before, deadline),
                        ReplayFrom(env, replayed, Batch(XCommands(x, before, deadline), hooks)))
  {
    hide Corresponds, XEffect, ReplayFrom, Batch, XCommands;
  }

  // Applying it.

  ghost function AfterMutateX(env: Env, s: State, t: nat): State
    requires t < |s.threads| && s.threads[t].XAppended?
  {
    var pc := s.threads[t];
    Goto(ApplyX(env, s, pc.x, pc.before, pc.deadline), t, if pc.x.XFlush? then XFlushed else Exclusive)
  }

  lemma {:induction false} MutateXShape(env: Env, s: State, t: nat)
    requires NamesOk(s) && ThreadsOk(env, s) && t < |s.threads| && s.threads[t].XAppended?
    ensures var r, pc := AfterMutateX(env, s, t), s.threads[t];
            NamesOk(r) && Alone(r, t) && SameLog(s, r.(threads := s.threads)) && InExclusive(r.threads[t]) &&
            !r.threads[t].XAppended? && ThreadOk(env, r, r.threads[t]) &&
            View(r) == View(ApplyX(env, s, pc.x, pc.before, pc.deadline))
  {
    var pc := s.threads[t];
    hide ThreadsOk, ThreadOk, XProceeds, ApplyX, Contents, Stores, XEffect, NumbersOk, View, NamesOk, XReady, RequestOk;
    MutateXView(env, s, t);
    XFacts(env, s, t);
    var r := AfterMutateX(env, s, t);
    ApplyXKeeps(env, s, pc.x, pc.before, pc.deadline);
    NamesOnly(env, r, ApplyX(env, s, pc.x, pc.before, pc.deadline));
    DoneThreadOk(env, r, r.threads[t]);
  }

  lemma ApplyXKeeps(env: Env, s: State, x: XOp, before: Option<Object>, deadline: Option<nat>)
    ensures
      var r := ApplyX(env, s, x, before, deadline);
      r.threads == s.threads && SameLog(s, r)
  {
    hide Committed, Contents;
  }

  lemma DoneThreadOk(env: Env, r: State, pc: Pc)
    requires pc.Exclusive? || (pc.XFlushed? && View(r) == EMPTY)
    ensures ThreadOk(env, r, pc)
  {
    hide View;
  }

  lemma {:induction false} MutateXView(env: Env, s: State, t: nat)
    requires NamesOk(s) && ThreadsOk(env, s) && t < |s.threads| && s.threads[t].XAppended?
    ensures var r, pc := AfterMutateX(env, s, t), s.threads[t];
            NamesOk(ApplyX(env, s, pc.x, pc.before, pc.deadline)) &&
            View(r) == View(ApplyX(env, s, pc.x, pc.before, pc.deadline)) &&
            (pc.x.XFlush? ==> View(r) == EMPTY)
  {
    var pc := s.threads[t];
    assert pc.x.XFlush? ==> XEffect(env, View(s), pc.x, pc.before, pc.deadline) == EMPTY;
    hide ThreadsOk, XProceeds, ApplyX, Contents, Stores, XEffect, NumbersOk;
    XFacts(env, s, t);
    ViewOfApplyX(env, s, pc.x, pc.before, pc.deadline);
    hide NamesOk;
  }

  lemma NamesOnly(env: Env, r: State, q: State)
    requires r.names == q.names && r.cells == q.cells && NamesOk(q)
    ensures NamesOk(r)
  {
  }

  lemma {:induction false} MutateXKeeps(env: Env, s: State, t: nat)
    requires Inv(env, s) && t < |s.threads| && s.threads[t].XAppended?
    ensures Inv(env, AfterMutateX(env, s, t))
  {
    var r := AfterMutateX(env, s, t);
    hide *;
    InvParts(env, s);
    MutateXShape(env, s, t);
    SameLogParts(env, s, r);
    AloneQuiet(r, t);
    LogicalXPending(env, s, t);
    LogicalIsView(env, r);
    AloneThreadsOk(env, r, t);
    PartsInv(env, r);
  }

  lemma InvParts(env: Env, s: State)
    requires Inv(env, s)
    ensures NamesOk(s) && ThreadsOk(env, s) && LogOk(env, s)
    ensures Corresponds(env, BoundOf(s), Logical(env, s), Replay(env, Records(s.log)))
  {
    hide NamesOk, ThreadsOk, LogOk, Corresponds, Logical, Replay, Records, BoundOf;
  }

  lemma PartsInv(env: Env, s: State)
    requires NamesOk(s) && ThreadsOk(env, s) && LogOk(env, s)
    requires Corresponds(env, BoundOf(s), Logical(env, s), Replay(env, Records(s.log)))
    ensures Inv(env, s)
  {
    hide NamesOk, ThreadsOk, LogOk, Corresponds, Logical, Replay, Records, BoundOf;
  }

  lemma SameLogParts(env: Env, s: State, r: State)
    requires SameLog(s, r.(threads := s.threads)) && LogOk(env, s)
    ensures LogOk(env, r) && BoundOf(r) == BoundOf(s) && r.log == s.log
  {
    hide OrderedUpToIndependence, Replayable;
  }

  lemma AloneQuiet(r: State, t: nat)
    requires Alone(r, t) && InExclusive(r.threads[t]) && !r.threads[t].XAppended?
    ensures forall u :: 0 <= u < |r.threads| ==> !r.threads[u].Appended? && !r.threads[u].XAppended?
  {
  }

  lemma {:induction false} EmptyLogCorresponds(env: Env, p: Bound)
    ensures Corresponds(env, p, EMPTY, Replay(env, Records([])))
  {
  }

  lemma {:induction false} ClearLogKeeps(env: Env, s: State, t: nat)
    requires Inv(env, s) && t < |s.threads| && s.threads[t].XFlushed?
    ensures Inv(env, Goto(s.(log := [], drift := Same), t, Exclusive))
  {
    var r := Goto(s.(log := [], drift := Same), t, Exclusive);
    assert ThreadOk(env, s, s.threads[t]);
    InExclusiveAlone(env, s, t);
    hide ThreadsOk, Corresponds, ReplayFrom;
    EmptyLogCorresponds(env, BoundOf(r));
    LogicalIsView(env, r);
    AloneThreadsOk(env, r, t);
    hide Logical;
    assert View(r) == EMPTY;
  }

  // Unlogged sweeping.

  lemma {:induction false} SweptContents(s: State)
    requires NamesOk(s)
    ensures Contents(s.names, SweptCells(s)) == PurgeDb(s.clock, View(s)).colls
  {
    var cells := SweptCells(s);
    hide Purge, SweptCells;
    forall n | n in s.names ensures cells[s.names[n]].objects == Purge(s.clock, s.cells[s.names[n]].objects) {
      assert s.names[n] in s.names.Values;
    }
  }

  function PurgedBound(p: Bound, now: nat): Bound {
    if p.Lossy? then Lossy(now) else Until(now)
  }

  lemma {:induction false} PurgeAgrees(env: Env, p: Bound, live: Objects, replayed: Objects, now: nat)
    requires AgreeObjects(p, live, replayed) && ObjectsOk(env, live) && (!p.Exactly? ==> p.time <= now)
    ensures AgreeObjects(PurgedBound(p, now), Purge(now, live), replayed) && ObjectsOk(env, Purge(now, live))
  {
  }

  lemma {:induction false} PurgeCorresponds(env: Env, p: Bound, live: Db, replayed: Db, now: nat)
    requires Corresponds(env, p, live, replayed) && (!p.Exactly? ==> p.time <= now)
    ensures Corresponds(env, PurgedBound(p, now), PurgeDb(now, live), replayed)
  {
    hide AgreeObjects, ObjectsOk, Purge;
    forall n | n in live.colls
      ensures AgreeObjects(PurgedBound(p, now), Purge(now, live.colls[n]), replayed.colls[n])
      ensures ObjectsOk(env, Purge(now, live.colls[n]))
    {
      PurgeAgrees(env, p, live.colls[n], replayed.colls[n], now);
    }
  }

  ghost function AfterGc(s: State): State {
    s.(cells := SweptCells(s), drift := Drifted(s))
  }

  lemma {:induction false} GcThreadsOk(env: Env, s: State, t: nat)
    requires ThreadsOk(env, s) && t < |s.threads| && s.threads[t].Exclusive?
    ensures ThreadsOk(env, AfterGc(s))
    ensures Logical(env, s) == View(s) && Logical(env, AfterGc(s)) == View(AfterGc(s))
  {
    var r := AfterGc(s);
    InExclusiveAlone(env, s, t);
    hide ThreadsOk, SweptCells, View;
    assert ThreadOk(env, r, r.threads[t]);
    AloneThreadsOk(env, r, t);
    hide ThreadOk;
    LogicalIsView(env, s);
    LogicalIsView(env, r);
  }

  lemma {:induction false} GcCorresponds(env: Env, s: State)
    requires NamesOk(s) && Corresponds(env, BoundOf(s), View(s), Replay(env, Records(s.log)))
    ensures NamesOk(AfterGc(s)) && Corresponds(env, BoundOf(AfterGc(s)), View(AfterGc(s)), Replay(env, Records(s.log)))
  {
    hide *;
    GcShape(s);
    SweptContents(s);
    PurgeViewIs(s, AfterGc(s));
    PurgeCorresponds(env, BoundOf(s), View(s), Replay(env, Records(s.log)), s.clock);
  }

  lemma GcShape(s: State)
    requires NamesOk(s)
    ensures var r, p := AfterGc(s), BoundOf(s);
            NamesOk(r) && r.names == s.names && r.cells == SweptCells(s) && r.channels == s.channels && r.hooks == s.hooks &&
            BoundOf(r) == PurgedBound(p, s.clock) && (!p.Exactly? ==> p.time <= s.clock)
  {
  }

  lemma {:induction false} GcKeeps(env: Env, s: State, t: nat)
    requires Inv(env, s) && t < |s.threads| && s.threads[t].Exclusive?
    ensures Inv(env, AfterGc(s))
  {
    hide ThreadsOk, Corresponds, ReplayFrom, Records, SweptCells, BoundOf, NamesOk, Logical, View, Replayable,
      OrderedUpToIndependence;
    GcThreadsOk(env, s, t);
    GcCorresponds(env, s);
  }

  lemma PurgeViewIs(s: State, r: State)
    requires r.channels == s.channels && r.hooks == s.hooks
    requires Contents(r.names, r.cells) == PurgeDb(s.clock, View(s)).colls
    ensures View(r) == PurgeDb(s.clock, View(s))
  {
  }

  lemma {:induction false} TickKeeps(env: Env, s: State, now: nat)
    requires Inv(env, s) && now >= s.clock
    ensures Inv(env, s.(clock := now))
  {
    var r := s.(clock := now);
    TickThreadsOk(env, s, now);
    assert Weaker(BoundOf(s), BoundOf(r));
    hide ThreadsOk, Corresponds, Logical, ReplayFrom, Replayable, OrderedUpToIndependence, BoundOf, Weaker, NamesOk;
    TickLogical(env, s, now);
    NamesOnly(env, r, s);
    CorrespondsWeaker(env, BoundOf(s), BoundOf(r), Logical(env, s), Replay(env, Records(s.log)));
  }

  lemma {:induction false} TickThreadsOk(env: Env, s: State, now: nat)
    requires ThreadsOk(env, s)
    ensures ThreadsOk(env, s.(clock := now))
  {
    var r := s.(clock := now);
    hide ThreadOk;
    forall u | 0 <= u < |r.threads| ensures ThreadOk(env, r, r.threads[u]) {
      OthersKeep(env, s, r, s.threads[u]);
    }
  }

  lemma {:induction false} TickLogical(env: Env, s: State, now: nat)
    requires ThreadsOk(env, s)
    ensures Logical(env, s.(clock := now)) == Logical(env, s)
  {
    var r := s.(clock := now);
    hide *;
    if u :| 0 <= u < |s.threads| && s.threads[u].XAppended? {
      XPendingSame(env, s, r, u);
    } else {
      LogicalWithoutX(env, s);
      LogicalWithoutX(env, r);
      forall n | n in s.names && s.names[n] < |s.cells|
        ensures LogicalObjects(env, r, s.names[n]) == LogicalObjects(env, s, s.names[n])
      {
        LogicalObjectsSame(env, s, r, s.names[n]);
      }
      LogicalCellsSame(env, s, r);
    }
  }

  // Compaction.

  lemma {:induction false} SnapshotReplayable(env: Env, db: Db, now: nat)
    requires DbOk(env, db)
    ensures forall r :: r in Snapshot(db, now) ==> Replayable(env, r)
  {
    CollectionRecordsReplayable(env, db.colls, now, SortedKeys(db.colls.Keys));
    ChannelRecordsReplayable(env, db.channels, SortedKeys(db.channels.Keys));
    HookRecordsReplayable(env, db.hooks, SortedKeys(db.hooks.Keys));
    hide CollectionRecords, ChannelRecords, HookRecords, Replayable;
  }

  lemma {:induction false} ChannelRecordsReplayable(env: Env, channels: map<string, GeofenceDef>, names: seq<string>)
    requires forall n :: n in names ==> n in channels
    ensures forall r :: r in ChannelRecords(channels, names) ==> Replayable(env, r)
  {
    if names != [] {
      ChannelRecordsReplayable(env, channels, names[..|names| - 1]);
    }
  }

  lemma {:induction false} HookRecordsReplayable(env: Env, hooks: map<string, Hook>, names: seq<string>)
    requires forall n :: n in names ==> n in hooks
    ensures forall r :: r in HookRecords(hooks, names) ==> Replayable(env, r)
  {
    if names != [] {
      HookRecordsReplayable(env, hooks, names[..|names| - 1]);
    }
  }

  lemma {:induction false} NothingPurged(db: Db, now: nat)
    requires NothingDue(db, now)
    ensures PurgeDb(now, db) == db
  {
    forall n | n in db.colls ensures Purge(now, db.colls[n]) == db.colls[n] {
    }
  }

  lemma {:induction false} CorrespondsToItself(env: Env, p: Bound, db: Db)
    requires DbOk(env, db)
    ensures Corresponds(env, p, db, db)
  {
  }

  ghost function AfterShrink(s: State): State {
    var records := Snapshot(View(s), s.clock);
    var last := LastNumber(s.log);
    s.(log := Numbered(FirstNumber(last, |records|), records), nextSequence := NextAfterRewrite(last, |records|),
       drift := if NothingDue(View(s), s.clock) then Same else Swept)
  }

  lemma {:induction false} ShrinkLogOk(env: Env, s: State)
    requires DbOk(env, View(s))
    ensures LogOk(env, AfterShrink(s)) && Records(AfterShrink(s).log) == Snapshot(View(s), s.clock)
  {
    var records := Snapshot(View(s), s.clock);
    var last := LastNumber(s.log);
    SnapshotReplayable(env, View(s), s.clock);
    hide Snapshot, Replayable, DbOk;
    RewriteNumbers(last, records);
  }

  lemma {:induction false} ShrinkThreadsOk(env: Env, s: State, t: nat)
    requires ThreadsOk(env, s) && t < |s.threads| && s.threads[t].Exclusive?
    ensures ThreadsOk(env, AfterShrink(s))
    ensures Logical(env, s) == View(s) && Logical(env, AfterShrink(s)) == View(s)
  {
    InExclusiveAlone(env, s, t);
    assert Alone(s, t);
    hide *;
    var r := AfterShrink(s);
    ShrinkShape(s, t);
    DoneThreadOk(env, r, r.threads[t]);
    AloneThreadsOk(env, r, t);
    LogicalIsView(env, s);
    LogicalIsView(env, r);
  }

  lemma ShrinkShape(s: State, t: nat)
    requires Alone(s, t) && s.threads[t].Exclusive?
    ensures var r := AfterShrink(s);
            r.threads == s.threads && Alone(r, t) && View(r) == View(s) &&
            forall u :: 0 <= u < |s.threads| ==> !s.threads[u].Appended? && !s.threads[u].XAppended?
  {
    hide Snapshot, NothingDue, Numbered, Contents;
  }

  lemma {:induction false} ShrinkKeeps(env: Env, s: State, t: nat)
    requires Inv(env, s) && t < |s.threads| && s.threads[t].Exclusive?
    ensures Inv(env, AfterShrink(s))
  {
    hide ThreadsOk, ReplayFrom, View, Snapshot, DbOk, NothingDue, Corresponds, LogOk, Logical, Records, NamesOk, BoundOf;
    ShrinkThreadsOk(env, s, t);
    ViewOk(env, s);
    ShrinkLogOk(env, s);
    ShrinkReplay(env, s);
    NamesOnly(env, AfterShrink(s), s);
  }

  lemma {:induction false} ViewOk(env: Env, s: State)
    requires Inv(env, s) && Logical(env, s) == View(s)
    ensures DbOk(env, View(s))
  {
    hide ThreadsOk, LogOk, NamesOk, AgreeDb, DbOk, Logical, ReplayFrom;
  }

  lemma {:induction false} ShrinkReplay(env: Env, s: State)
    requires DbOk(env, View(s))
    ensures Corresponds(env, BoundOf(AfterShrink(s)), View(s), Replay(env, Snapshot(View(s), s.clock)))
  {
    assert KeyedDb(View(s));
    hide ReplayFrom, Snapshot, Corresponds, DbOk, PurgeDb, View;
    SnapshotReplay(env, View(s), s.clock);
    if NothingDue(View(s), s.clock) {
      NothingPurged(View(s), s.clock);
      CorrespondsToItself(env, Exactly, View(s));
    } else {
      RewriteCorresponds(env, View(s), s.clock);
    }
  }

  /** A rewrite leaves out what is due; memory keeps it. */
  lemma {:induction false} RewriteCorresponds(env: Env, db: Db, now: nat)
    requires DbOk(env, db)
    ensures Corresponds(env, Until(now), db, PurgeDb(now, db))
  {
    forall n | n in db.colls
      ensures AgreeObjects(Until(now), db.colls[n], Purge(now, db.colls[n])) && ObjectsOk(env, Purge(now, db.colls[n]))
    {
    }
    hide AgreeObjects, ObjectsOk, Purge;
  }

  // Restart.

  ghost function AfterRestart(env: Env, s: State, order: seq<Entry>, names: map<string, nat>, cells: seq<Cell>): State {
    var db := Replay(env, Records(order));
    State(names, cells, db.channels, db.hooks, s.log, LastNumber(order), s.clock, Swept, seq(|s.threads|, _ => Idle))
  }

  lemma {:induction false} HighestBounds(log: seq<Entry>, order: seq<Entry>)
    requires multiset(order) == multiset(log) && LastIsHighest(order)
    ensures forall i :: 0 <= i < |log| ==> log[i].number <= LastNumber(order)
  {
    forall i | 0 <= i < |log| ensures log[i].number <= LastNumber(order) {
      assert log[i] in multiset(order);
      var j :| 0 <= j < |order| && order[j] == log[i];
    }
  }

  lemma {:induction false} RestartOrder(env: Env, s: State, order: seq<Entry>)
    requires LogOk(env, s)
    requires order == s.log || (Ascending(order) && multiset(order) == multiset(s.log))
    ensures Replay(env, Records(order)) == Replay(env, Records(s.log))
  {
    hide ReplayFrom, Replayable;
    if order != s.log {
      SequenceOrderReplay(env, s.log, order);
    }
  }

  lemma {:induction false} IdleThreadsOk(env: Env, r: State)
    requires forall u :: 0 <= u < |r.threads| ==> r.threads[u].Idle?
    ensures ThreadsOk(env, r)
  {
  }

  lemma {:induction false} RestartKeeps(env: Env, s: State, order: seq<Entry>, names: map<string, nat>, cells: seq<Cell>)
    requires Inv(env, s) && EnabledRestart(env, s, order, names, cells)
    ensures Inv(env, AfterRestart(env, s, order, names, cells))
  {
    var r := AfterRestart(env, s, order, names, cells);
    hide ThreadsOk, ReplayFrom, Corresponds, LogOk, Logical, Records, NamesOk, View, EnabledRestart, AfterRestart, BoundOf;
    RestartShape(env, s, order, names, cells);
    RestartLogOk(env, s, order, names, cells);
    IdleThreadsOk(env, r);
    LogicalIsView(env, r);
    RestartCorresponds(env, s, order, names, cells);
  }

  lemma {:induction false} RestartShape(env: Env, s: State, order: seq<Entry>, names: map<string, nat>, cells: seq<Cell>)
    requires EnabledRestart(env, s, order, names, cells)
    ensures var r := AfterRestart(env, s, order, names, cells);
            NamesOk(r) && r.log == s.log && BoundOf(r) == Until(s.clock) &&
            forall u :: 0 <= u < |r.threads| ==> r.threads[u].Idle?
  {
    hide Replay, Records, Contents, PurgeDb, LastIsHighest, Ascending;
  }

  lemma {:induction false} RestartLogOk(env: Env, s: State, order: seq<Entry>, names: map<string, nat>, cells: seq<Cell>)
    requires LogOk(env, s) && EnabledRestart(env, s, order, names, cells)
    ensures LogOk(env, AfterRestart(env, s, order, names, cells))
  {
    HighestBounds(s.log, order);
    hide Replay, Records, Contents, PurgeDb, LastIsHighest, Ascending, OrderedUpToIndependence, Replayable;
  }

  /** The rebuilt database is the replay without what is due. */
  lemma {:induction false} RestartCorresponds(
      env: Env, s: State, order: seq<Entry>, names: map<string, nat>, cells: seq<Cell>)
    requires Inv(env, s) && EnabledRestart(env, s, order, names, cells)
    ensures Corresponds(env, Until(s.clock), View(AfterRestart(env, s, order, names, cells)), Replay(env, Records(s.log)))
  {
    var db := Replay(env, Records(s.log));
    assert DbOk(env, db);
    RestartOrder(env, s, order);
    hide ThreadsOk, ReplayFrom, Contents, LogOk, DbOk, AgreeDb, Logical, Records, LastIsHighest, Ascending, NamesOk, PurgeDb,
      Corresponds;
    CorrespondsToItself(env, Exactly, db);
    PurgeCorresponds(env, Exactly, db, db, s.clock);
    PurgeKeepsFences(s.clock, db);
  }

  lemma PurgeKeepsFences(now: nat, db: Db)
    ensures PurgeDb(now, db).channels == db.channels && PurgeDb(now, db).hooks == db.hooks
  {
  }
}
