/** The main results about the engine: over every interleaving, with crashes,
    failing appends, unlogged sweeps and log rewrites, the log and the live
    catalog mean the same database, and no committed update is lost. */
module Durability {
  import opened Types
  import opened Geometry
  import opened Catalog
  import opened Compaction
  import opened Protocol
  import opened Agreement
  import opened Batches
  import opened Invariant
  import opened Steps
  import opened ExclusiveSteps
  import opened History

  lemma {:induction false} LocalStepKeeps(env: Env, s: State, step: Step, t: nat)
    requires Inv(env, s) && t < |s.threads| && EnabledLocal(env, s, step, s.threads[t])
    ensures Inv(env, ExecLocal(env, s, step, t))
  {
    hide Inv, Commands, Batch, Proceeds, Committed, Unlocked, NoneExclusive;
    match step {
      case Start(_, op) => StartKeeps(env, s, t, op);
      case FindCell(_) => FindCellKeeps(env, s, t);
      case Plan(_, hooks) => PlanKeeps(env, s, t, hooks);
      case Lock(_) => LockKeeps(env, s, t);
      case Reserve(_) => ReserveKeeps(env, s, t);
      case Append(_, ok) =>
        if ok {
          AppendKeeps(env, s, t);
        } else {
          GiveUpKeeps(env, s, t, Finishing);
        }
      case Mutate(_) =>
        RetryFree(env, s, t);
        MutateKeeps(env, s, t);
      case Finish(_) => GiveUpKeeps(env, s, t, Idle);
      case Abort(_) => GiveUpKeeps(env, s, t, Idle);
    }
  }

  lemma {:induction false} RetryFree(env: Env, s: State, t: nat)
    requires Inv(env, s) && t < |s.threads| && s.threads[t].Appended?
    ensures s.threads[t].cell < |s.cells| && !Next(env, s, t).retry && Next(env, s, t).bumped
  {
    hide ThreadsOk, Corresponds, LogOk, Next;
    NeverRetries(env, s, t);
  }

  lemma {:induction false} ExclusiveStepKeeps(env: Env, s: State, step: Step, t: nat)
    requires Inv(env, s) && t < |s.threads| && EnabledExclusive(env, s, step, s.threads[t])
    ensures Inv(env, ExecExclusive(env, s, step, t))
  {
    hide Inv, XCommands, Batch, XProceeds, NothingDue, NoneShared, NoneExclusive, SweptCells, ApplyX, Snapshot, Contents;
    match step {
      case StartX(_) => StartXKeeps(env, s, t);
      case ReserveX(_, x, hooks) => ReserveXKeeps(env, s, t, x, hooks);
      case AppendX(_, ok) =>
        if ok {
          AppendXKeeps(env, s, t);
        } else {
          LeaveXKeeps(env, s, t, Exclusive);
        }
      case MutateX(_) => MutateXKeeps(env, s, t);
      case ClearLog(_, ok) =>
        if ok {
          ClearLogKeeps(env, s, t);
        } else {
          LeaveXKeeps(env, s, t, Exclusive);
        }
      case Gc(_) => GcKeeps(env, s, t);
      case Shrink(_) => ShrinkKeeps(env, s, t);
      case FinishX(_) => LeaveXKeeps(env, s, t, Idle);
    }
  }

  lemma {:induction false} StepKeeps(env: Env, s: State, step: Step)
    requires Inv(env, s) && Enabled(env, s, step)
    ensures Inv(env, Exec(env, s, step))
  {
    hide Inv, EnabledLocal, EnabledExclusive, EnabledRestart, ExecLocal, ExecExclusive;
    match step {
      case Tick(now) => TickKeeps(env, s, now);
      case Restart(order, names, cells) => RestartKeeps(env, s, order, names, cells);
      case _ =>
        if EnabledLocal(env, s, step, s.threads[step.t]) {
          LocalStepKeeps(env, s, step, step.t);
        } else {
          ExclusiveStepKeeps(env, s, step, step.t);
        }
    }
  }

  lemma {:induction false} InitInv(env: Env, s: State)
    requires Init(s)
    ensures Inv(env, s)
  {
    IdleThreadsOk(env, s);
    LogicalIsView(env, s);
    EmptyLogCorresponds(env, BoundOf(s));
    hide ThreadsOk, Corresponds, Logical;
    assert View(s) == EMPTY;
  }

  lemma {:induction false} RunKeeps(env: Env, s: State, steps: seq<Step>)
    requires Inv(env, s) && Run(env, s, steps)
    ensures Inv(env, After(env, s, steps))
    decreases |steps|
  {
    hide Inv, Exec, Enabled;
    if steps != [] {
      StepKeeps(env, s, steps[0]);
      RunKeeps(env, Exec(env, s, steps[0]), steps[1..]);
    }
  }

  // Results.

  /** The rebuilt database `b` invents nothing: its fences and collections are those
      of `a`, and every object it has is in `a` unchanged. */
  ghost predicate Within(b: Db, a: Db) {
    b.colls.Keys == a.colls.Keys && b.channels == a.channels && b.hooks == a.hooks &&
    forall n, id :: n in b.colls && id in b.colls[n] ==> id in a.colls[n] && b.colls[n][id] == a.colls[n][id]
  }

  lemma {:induction false} PurgedWithin(p: Bound, live: Db, replayed: Db, now: nat)
    requires AgreeDb(p, live, replayed) && (!p.Exactly? ==> p.time <= now)
    ensures Within(PurgeDb(now, replayed), PurgeDb(now, live))
  {
    forall n, id | n in replayed.colls && id in Purge(now, replayed.colls[n])
      ensures id in Purge(now, live.colls[n]) && Purge(now, live.colls[n])[id] == Purge(now, replayed.colls[n])[id]
    {
      assert AgreeObjects(p, live.colls[n], replayed.colls[n]);
    }
  }

  /** At every point of every run, rebuilding from the log and dropping what is due
      gives the live database with the same drop, counting a logged but unapplied
      command as done, unless an object was revived since the last rewrite or
      restart; even then nothing is invented or altered, and no record makes the
      rebuild fail. */
  lemma {:induction false} CrashRecovery(env: Env, s0: State, steps: seq<Step>, now: nat)
    requires Init(s0) && Run(env, s0, steps)
    requires now >= After(env, s0, steps).clock
    ensures var s := After(env, s0, steps);
            var live, rebuilt := PurgeDb(now, Logical(env, s)), PurgeDb(now, Replay(env, Records(s.log)));
            (!RevivedSince(env, s0, steps) ==> rebuilt == live) && Within(rebuilt, live) &&
            forall i :: 0 <= i < |s.log| ==> Replayable(env, s.log[i].record)
  {
    var s := After(env, s0, steps);
    InitInv(env, s0);
    hide ThreadsOk, Logical, ReplayFrom, PurgeDb, NamesOk, Replayable, Within;
    RunKeeps(env, s0, steps);
    RevivedIff(env, s0, steps);
    hide Run, After, AgreeDb, RevivedSince;
    PurgedWithin(BoundOf(s), Logical(env, s), Replay(env, Records(s.log)), now);
    if s.drift != Revived {
      AgreePurged(BoundOf(s), Logical(env, s), Replay(env, Records(s.log)), now);
    }
  }

  // Appending.

  lemma AppendIsStep(env: Env, s: State, t: nat)
    requires t < |s.threads| && s.threads[t].Reserved?
    ensures Enabled(env, s, Append(t, true)) && Exec(env, s, Append(t, true)) == AfterAppend(env, s, t)
  {
    hide Commands, Batch, Revives;
  }

  /** Rebuilding from the log is exact, now and at every later time. */
  ghost predicate Recovers(env: Env, s: State) {
    forall now :: now >= s.clock ==> PurgeDb(now, Logical(env, s)) == PurgeDb(now, Replay(env, Records(s.log)))
  }

  lemma {:induction false} InvRecovers(env: Env, s: State)
    requires Inv(env, s) && s.drift != Revived
    ensures Recovers(env, s)
  {
    hide Inv, Logical, ReplayFrom, PurgeDb;
    forall now | now >= s.clock ensures PurgeDb(now, Logical(env, s)) == PurgeDb(now, Replay(env, Records(s.log))) {
      InvPurged(env, s, now);
    }
  }

  lemma NotRecovered(env: Env, s: State)
    requires PurgeDb(s.clock, Logical(env, s)) != PurgeDb(s.clock, Replay(env, Records(s.log)))
    ensures !Recovers(env, s)
  {
    hide PurgeDb, Logical, ReplayFrom;
  }

  /** In a state where memory and log agree, the append of a planned command keeps
      recovery exact for all later times exactly when the command does not revive
      an object that a rewrite dropped from the log. */
  lemma {:induction false} AppendRecoversIff(env: Env, s0: State, steps: seq<Step>, t: nat)
    requires Init(s0) && Run(env, s0, steps) && !RevivedSince(env, s0, steps)
    requires t < |After(env, s0, steps).threads| && After(env, s0, steps).threads[t].Reserved?
    ensures var s := After(env, s0, steps);
            Enabled(env, s, Append(t, true)) &&
            (Recovers(env, Exec(env, s, Append(t, true))) <==> !Revives(env, s, s.threads[t]))
  {
    var s := After(env, s0, steps);
    assert s0.drift == Same;
    hide *;
    RevivedIff(env, s0, steps);
    InitInv(env, s0);
    RunKeeps(env, s0, steps);
    AppendIsStep(env, s, t);
    AppendBookkeeping(env, s, t);
    if Revives(env, s, s.threads[t]) {
      RevivalIsLost(env, s, t);
      NotRecovered(env, AfterAppend(env, s, t));
    } else {
      AppendKeeps(env, s, t);
      InvRecovers(env, AfterAppend(env, s, t));
    }
  }

  lemma AppendBookkeeping(env: Env, s: State, t: nat)
    requires t < |s.threads| && s.threads[t].Reserved?
    ensures var r := AfterAppend(env, s, t);
            r.clock == s.clock && r.drift == if Revives(env, s, s.threads[t]) then Revived else s.drift
  {
    hide Commands, Batch, Revives;
  }

  /** An object alive in memory that the log has lost. */
  ghost predicate Stranded(live: Db, replayed: Db, now: nat, n: string, id: string) {
    n in live.colls && id in live.colls[n] && id !in ObjectsOf(replayed, n) && !Expired(live.colls[n][id], now)
  }

  lemma {:induction false} AgreesUnlessStranded(p: Bound, live: Db, replayed: Db, now: nat)
    requires AgreeDb(p, live, replayed) && (!p.Exactly? ==> p.time == now)
    ensures (forall n, id :: !Stranded(live, replayed, now, n, id)) ==> AgreeDb(Until(now), live, replayed)
    ensures forall n, id :: Stranded(live, replayed, now, n, id) ==> PurgeDb(now, live) != PurgeDb(now, replayed)
  {
    if forall n, id :: !Stranded(live, replayed, now, n, id) {
      forall n | n in live.colls ensures AgreeObjects(Until(now), live.colls[n], replayed.colls[n]) {
        assert forall id :: id in live.colls[n] ==> !Stranded(live, replayed, now, n, id);
      }
    }
    forall n, id | Stranded(live, replayed, now, n, id) ensures PurgeDb(now, live) != PurgeDb(now, replayed) {
      assert id in PurgeDb(now, live).colls[n] && id !in PurgeDb(now, replayed).colls[n];
    }
  }

  /** In every run, whatever was revived, rebuilding from the log is exact from now on
      if and only if no object alive in memory is missing from the log. */
  lemma {:induction false} RecoversIff(env: Env, s0: State, steps: seq<Step>)
    requires Init(s0) && Run(env, s0, steps)
    ensures var s := After(env, s0, steps);
            Recovers(env, s) <==>
              forall n, id :: !Stranded(Logical(env, s), Replay(env, Records(s.log)), s.clock, n, id)
  {
    var s := After(env, s0, steps);
    var live, replayed := Logical(env, s), Replay(env, Records(s.log));
    InitInv(env, s0);
    hide ThreadsOk, Logical, ReplayFrom, PurgeDb, NamesOk, LogOk, Init, AgreeDb, Stranded;
    RunKeeps(env, s0, steps);
    hide Run, After;
    AgreesUnlessStranded(BoundOf(s), live, replayed, s.clock);
    if forall n, id :: !Stranded(live, replayed, s.clock, n, id) {
      forall now | now >= s.clock ensures PurgeDb(now, live) == PurgeDb(now, replayed) {
        AgreePurged(Until(s.clock), live, replayed, now);
      }
    } else {
      NotRecovered(env, s);
    }
  }

  /** Only an object past its deadline can be revived. */
  lemma {:induction false} RevivedWasDue(env: Env, s0: State, steps: seq<Step>, t: nat)
    requires Init(s0) && Run(env, s0, steps) && !RevivedSince(env, s0, steps)
    requires t < |After(env, s0, steps).threads| && After(env, s0, steps).threads[t].Reserved?
    requires Revives(env, After(env, s0, steps), After(env, s0, steps).threads[t])
    ensures Expired(After(env, s0, steps).threads[t].before.value, After(env, s0, steps).clock)
  {
    var s := After(env, s0, steps);
    InitInv(env, s0);
    RevivedIff(env, s0, steps);
    hide Init, Logical, ReplayFrom, ThreadsOk, NamesOk, LogOk, DbOk, Prolongs, RevivedSince;
    RunKeeps(env, s0, steps);
    hide Run, After;
    ReservedFacts(env, s, t);
    LockedIsQuiet(env, s, t);
    var coll := s.threads[t].op.coll;
    assert AgreeObjects(BoundOf(s), Logical(env, s).colls[coll], ObjectsOf(Replay(env, Records(s.log)), coll));
  }

  lemma {:induction false} InvPurged(env: Env, s: State, now: nat)
    requires Inv(env, s) && s.drift != Revived && now >= s.clock
    ensures PurgeDb(now, Logical(env, s)) == PurgeDb(now, Replay(env, Records(s.log)))
  {
    hide ThreadsOk, Logical, ReplayFrom, PurgeDb, NamesOk, LogOk, AgreeDb;
    AgreePurged(BoundOf(s), Logical(env, s), Replay(env, Records(s.log)), now);
  }

  lemma {:induction false} RevivalIsLost(env: Env, s: State, t: nat)
    requires Inv(env, s) && t < |s.threads| && s.threads[t].Reserved?
    requires Revives(env, s, s.threads[t])
    ensures var r := AfterAppend(env, s, t);
            PurgeDb(r.clock, Logical(env, r)) != PurgeDb(r.clock, Replay(env, Records(r.log)))
  {
    var pc, r := s.threads[t], AfterAppend(env, s, t);
    var live, replayed := Logical(env, s), Replay(env, Records(s.log));
    hide ThreadsOk, Corresponds, Logical, ReplayFrom, Commands, Batch, Committed, Ready, LogOk, NamesOk, NumbersOk, Records,
      PurgeDb, Prolongs;
    ReservedFacts(env, s, t);
    AppendThreadsOk(env, s, t);
    LogicalAfterAppend(env, s, t);
    LockedIsQuiet(env, s, t);
    ReplayAppended(env, s.log, pc.first, Batch(Commands(pc.op, pc.before, pc.deadline), pc.hooks));
    CorrespondsKeys(env, BoundOf(s), live, replayed);
    RevivedBatchIsLost(env, pc.op, pc.before, pc.deadline, pc.hooks, live, replayed, s.clock);
  }

  lemma CorrespondsKeys(env: Env, p: Bound, live: Db, replayed: Db)
    requires Corresponds(env, p, live, replayed)
    ensures live.colls.Keys == replayed.colls.Keys
  {
  }

  lemma {:induction false} RevivedBatchIsLost(
      env: Env, op: Op, before: Option<Object>, deadline: Option<nat>, hooks: nat, live: Db, replayed: Db, now: nat)
    requires op.coll in live.colls && op.coll in replayed.colls
    requires Ready(env, op, before, deadline, live.colls[op.coll])
    requires RevivesOn(Until(now), op, before, deadline, replayed.colls[op.coll])
    ensures PurgeDb(now, WithObjects(live, op.coll, Committed(env, op, before, deadline, live.colls[op.coll]).objects))
         != PurgeDb(now, ReplayFrom(env, replayed, Batch(Commands(op, before, deadline), hooks)))
  {
    CommandsLocal(op, before, deadline);
    RevivedObjectIsLost(env, op, before, deadline, live.colls[op.coll], replayed.colls[op.coll], now);
    hide Commands, Committed, Batch, Ready, ReplayFrom, Prolongs;
    ReplayLocalBatch(env, replayed, Commands(op, before, deadline), hooks, op.coll);
    var a := WithObjects(live, op.coll, Committed(env, op, before, deadline, live.colls[op.coll]).objects);
    var b := WithObjects(replayed, op.coll, Fold(env, Commands(op, before, deadline), replayed.colls[op.coll]));
    assert op.id in PurgeDb(now, a).colls[op.coll] && op.id !in PurgeDb(now, b).colls[op.coll];
  }

  /** The revived object is alive in memory and missing on replay. */
  lemma {:induction false} RevivedObjectIsLost(
      env: Env, op: Op, before: Option<Object>, deadline: Option<nat>, live: Objects, replayed: Objects, now: nat)
    requires Ready(env, op, before, deadline, live)
    requires RevivesOn(Until(now), op, before, deadline, replayed)
    ensures LocalTo(Commands(op, before, deadline), op.coll)
    ensures op.id in Purge(now, Committed(env, op, before, deadline, live).objects)
    ensures op.id !in Fold(env, Commands(op, before, deadline), replayed)
  {
    CommandsLocal(op, before, deadline);
    match op {
      case ExpireOp(coll, id, _) =>
        FoldOne(env, ExpireAt(coll, id, deadline.value), replayed);
      case PersistOp(coll, id) =>
        FoldOne(env, Persist(coll, id), replayed);
      case EditOp(coll, id, edit) =>
        EditCommits(env, coll, id, edit, before, live);
        EditFolds(env, coll, id, edit, before.value, replayed);
        hide Committed, Fold, Commands, Edited, LocalTo;
    }
  }

  ghost predicate Quiet(s: State) {
    forall t :: 0 <= t < |s.threads| ==> !s.threads[t].Appended? && !s.threads[t].XAppended?
  }

  /** While nothing was dropped without a log entry since memory and log were last
      rebuilt from one another, and with no writer between append and apply, replaying the log in append order or in sequence order
      gives exactly the live catalog. */
  lemma {:induction false} ReplayIsLive(env: Env, s0: State, steps: seq<Step>, order: seq<Entry>)
    requires Init(s0) && Run(env, s0, steps)
    requires !DroppedSince(env, s0, steps) && Quiet(After(env, s0, steps))
    requires var log := After(env, s0, steps).log;
             order == log || (Ascending(order) && multiset(order) == multiset(log))
    ensures Replay(env, Records(order)) == View(After(env, s0, steps))
  {
    var s := After(env, s0, steps);
    InitInv(env, s0);
    DroppedIff(env, s0, steps);
    hide ThreadsOk, Logical, ReplayFrom, NamesOk, LogOk, Ascending, DroppedSince;
    RunKeeps(env, s0, steps);
    hide Run, After, Init;
    AgreeExactly(Logical(env, s), Replay(env, Records(s.log)));
    LogicalIsView(env, s);
    RestartOrder(env, s, order);
  }

  /** No update is lost: every command that holds its cell's lock was computed
      from the object as it stands, its cell is the one the catalog names, and
      once logged it finds its object. */
  lemma {:induction false} NoLostUpdate(env: Env, s0: State, steps: seq<Step>, t: nat)
    requires Init(s0) && Run(env, s0, steps)
    requires t < |After(env, s0, steps).threads| && HoldsLock(After(env, s0, steps).threads[t])
    ensures var s := After(env, s0, steps);
            var pc := s.threads[t];
            pc.op.coll in s.names && s.names[pc.op.coll] == pc.cell < |s.cells| &&
            pc.before == Lookup(s.cells[pc.cell].objects, pc.op.id) &&
            Proceeds(env, pc.op, pc.before) &&
            (pc.Appended? ==> !Next(env, s, t).retry) &&
            forall u :: 0 <= u < |s.threads| && u != t ==>
              !InExclusive(s.threads[u]) && (HoldsLock(s.threads[u]) ==> s.threads[u].cell != pc.cell)
  {
    var s := After(env, s0, steps);
    InitInv(env, s0);
    hide Logical, ReplayFrom, Corresponds;
    RunKeeps(env, s0, steps);
    hide Run, After, Init;
    assert ThreadOk(env, s, s.threads[t]);
    SharedMeansNoExclusive(env, s, t);
    if s.threads[t].Appended? {
      RetryFree(env, s, t);
    }
    hide Proceeds, Next, LogOk;
    forall u | 0 <= u < |s.threads| && u != t
      ensures !InExclusive(s.threads[u]) && (HoldsLock(s.threads[u]) ==> s.threads[u].cell != s.threads[t].cell)
    {
      assert PairOk(s.threads[t], s.threads[u]);
    }
  }
}
