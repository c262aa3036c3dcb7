/** Every step keeps the invariant. */
module Steps {
  import opened Types
  import opened Fields
  import opened Geometry
  import opened Catalog
  import opened Compaction
  import opened Protocol
  import opened Agreement
  import opened Batches
  import opened Invariant

  // Steps that move one thread and touch nothing another thread depends on.

  ghost predicate Moved(s: State, r: State, t: nat) {
    t < |s.threads| == |r.threads| && r.nextSequence >= s.nextSequence &&
    r == s.(nextSequence := r.nextSequence, threads := s.threads[t := r.threads[t]])
  }

  lemma {:induction false} OthersKeep(env: Env, s: State, r: State, pc: Pc)
    requires r.names == s.names && r.cells == s.cells && r.channels == s.channels && r.hooks == s.hooks
    requires r.log == s.log && r.nextSequence >= s.nextSequence
    requires ThreadOk(env, s, pc)
    ensures ThreadOk(env, r, pc)
  {
    hide Commands, XCommands, Proceeds, XProceeds, Stores, Ready, Foreign;
    assert View(r) == View(s);
  }

  lemma {:induction false} MovedKeeps(env: Env, s: State, r: State, t: nat)
    requires Inv(env, s) && Moved(s, r, t)
    requires !s.threads[t].Appended? && !s.threads[t].XAppended?
    requires !r.threads[t].Appended? && !r.threads[t].XAppended?
    requires ThreadOk(env, r, r.threads[t])
    requires forall u :: 0 <= u < |s.threads| && u != t ==>
      PairOk(r.threads[t], s.threads[u]) && PairOk(s.threads[u], r.threads[t])
    ensures Inv(env, r)
  {
    hide ThreadOk, PairOk, Corresponds, Replayable;
    LogicalSame(env, s, r, t);
    forall u | 0 <= u < |r.threads| ensures ThreadOk(env, r, r.threads[u]) {
      if u != t {
        assert ThreadOk(env, s, s.threads[u]);
        OthersKeep(env, s, r, s.threads[u]);
      }
    }
  }

  lemma {:induction false} StartKeeps(env: Env, s: State, t: nat, op: Op)
    requires Inv(env, s) && t < |s.threads| && EnabledLocal(env, s, Start(t, op), s.threads[t])
    ensures Inv(env, ExecLocal(env, s, Start(t, op), t))
  {
    var r := ExecLocal(env, s, Start(t, op), t);
    assert Moved(s, r, t);
    forall u | 0 <= u < |s.threads| && u != t
      ensures PairOk(r.threads[t], s.threads[u]) && PairOk(s.threads[u], r.threads[t])
    {
      assert !InExclusive(s.threads[u]);
    }
    MovedKeeps(env, s, r, t);
  }

  /** A thread inside the shared gate sees no exclusive holder. */
  lemma SharedMeansNoExclusive(env: Env, s: State, t: nat)
    requires ThreadsOk(env, s) && t < |s.threads| && InShared(s.threads[t])
    ensures forall u :: 0 <= u < |s.threads| ==> !InExclusive(s.threads[u])
  {
    hide ThreadOk;
    forall u | 0 <= u < |s.threads| ensures !InExclusive(s.threads[u]) {
      if u != t {
        assert PairOk(s.threads[u], s.threads[t]);
      }
    }
  }

  /** Moves of a shared thread that neither takes a lock nor reserves. */
  lemma {:induction false} SharedMoveKeeps(env: Env, s: State, r: State, t: nat)
    requires Inv(env, s) && Moved(s, r, t) && r.nextSequence == s.nextSequence
    requires InShared(s.threads[t]) && !s.threads[t].Appended?
    requires r.threads[t].Idle? || (InShared(r.threads[t]) && !HoldsLock(r.threads[t]))
    requires ThreadOk(env, r, r.threads[t])
    ensures Inv(env, r)
  {
    SharedMeansNoExclusive(env, s, t);
    hide ThreadOk, Corresponds, LogOk, NamesOk;
    forall u | 0 <= u < |s.threads| && u != t
      ensures PairOk(r.threads[t], s.threads[u]) && PairOk(s.threads[u], r.threads[t])
    {
    }
    MovedKeeps(env, s, r, t);
  }

  lemma {:induction false} FindCellKeeps(env: Env, s: State, t: nat)
    requires Inv(env, s) && t < |s.threads| && EnabledLocal(env, s, FindCell(t), s.threads[t])
    ensures Inv(env, ExecLocal(env, s, FindCell(t), t))
  {
    FoundThreadOk(env, s, t);
    hide Inv, ThreadOk, Stores;
    SharedMoveKeeps(env, s, ExecLocal(env, s, FindCell(t), t), t);
  }

  lemma {:induction false} FoundThreadOk(env: Env, s: State, t: nat)
    requires NamesOk(s) && ThreadsOk(env, s) && t < |s.threads| && EnabledLocal(env, s, FindCell(t), s.threads[t])
    ensures
      var r := ExecLocal(env, s, FindCell(t), t);
      t < |r.threads| && ThreadOk(env, r, r.threads[t])
  {
    assert ThreadOk(env, s, s.threads[t]);
    hide ThreadsOk, Stores;
  }

  lemma {:induction false} PlanKeeps(env: Env, s: State, t: nat, hooks: nat)
    requires Inv(env, s) && t < |s.threads| && EnabledLocal(env, s, Plan(t, hooks), s.threads[t])
    ensures Inv(env, ExecLocal(env, s, Plan(t, hooks), t))
  {
    PlannedThreadOk(env, s, t, hooks);
    hide Inv, ThreadOk, Proceeds, LosesEnvelope, Unlocked;
    SharedMoveKeeps(env, s, ExecLocal(env, s, Plan(t, hooks), t), t);
  }

  lemma {:induction false} PlannedThreadOk(env: Env, s: State, t: nat, hooks: nat)
    requires ThreadsOk(env, s) && t < |s.threads| && EnabledLocal(env, s, Plan(t, hooks), s.threads[t])
    ensures
      var r := ExecLocal(env, s, Plan(t, hooks), t);
      t < |r.threads| && ThreadOk(env, r, r.threads[t])
  {
    assert ThreadOk(env, s, s.threads[t]);
    hide ThreadsOk, Proceeds, Stores, LosesEnvelope, Unlocked;
  }

  lemma {:induction false} LockKeeps(env: Env, s: State, t: nat)
    requires Inv(env, s) && t < |s.threads| && EnabledLocal(env, s, Lock(t), s.threads[t])
    ensures Inv(env, ExecLocal(env, s, Lock(t), t))
  {
    var r := ExecLocal(env, s, Lock(t), t);
    LockedThreadOk(env, s, t);
    SharedMeansNoExclusive(env, s, t);
    hide ThreadOk, ThreadsOk, Corresponds, LogOk, NamesOk;
    MovedKeeps(env, s, r, t);
  }

  lemma {:induction false} LockedThreadOk(env: Env, s: State, t: nat)
    requires ThreadsOk(env, s) && t < |s.threads| && EnabledLocal(env, s, Lock(t), s.threads[t])
    ensures
      var r := ExecLocal(env, s, Lock(t), t);
      t < |r.threads| && ThreadOk(env, r, r.threads[t])
  {
    assert ThreadOk(env, s, s.threads[t]);
    hide ThreadsOk, Proceeds, Stores, LosesEnvelope;
  }

  lemma {:induction false} ReserveKeeps(env: Env, s: State, t: nat)
    requires Inv(env, s) && t < |s.threads| && EnabledLocal(env, s, Reserve(t), s.threads[t])
    ensures Inv(env, ExecLocal(env, s, Reserve(t), t))
  {
    hide Commands, Batch, ThreadOk, Corresponds, LogOk, NamesOk, PairOk, Ready, Stores, Count, Contents, View;
    var r := ExecLocal(env, s, Reserve(t), t);
    ReserveThreadOk(env, s, t);
    forall u | 0 <= u < |s.threads| && u != t
      ensures PairOk(r.threads[t], s.threads[u]) && PairOk(s.threads[u], r.threads[t])
    {
      ReservePairOk(env, s, t, u);
    }
    MovedKeeps(env, s, r, t);
  }

  lemma {:induction false} ReserveThreadOk(env: Env, s: State, t: nat)
    requires ThreadsOk(env, s) && LogOk(env, s)
    requires t < |s.threads| && EnabledLocal(env, s, Reserve(t), s.threads[t])
    ensures
      var r := ExecLocal(env, s, Reserve(t), t);
      t < |r.threads| && ThreadOk(env, r, r.threads[t])
  {
    assert ThreadOk(env, s, s.threads[t]);
    hide ThreadsOk, Ready, Stores, OrderedUpToIndependence, Replayable;
  }

  lemma {:induction false} ReservePairOk(env: Env, s: State, t: nat, u: nat)
    requires ThreadsOk(env, s) && t < |s.threads| && u < |s.threads| && u != t
    requires EnabledLocal(env, s, Reserve(t), s.threads[t])
    ensures
      var r := ExecLocal(env, s, Reserve(t), t);
      PairOk(r.threads[t], s.threads[u]) && PairOk(s.threads[u], r.threads[t])
  {
    assert PairOk(s.threads[t], s.threads[u]) && PairOk(s.threads[u], s.threads[t]);
    assert ThreadOk(env, s, s.threads[u]);
    hide ThreadsOk, HandleOk, RequestOk, PlanOk, ExclusiveOk, Commands, Batch, Ready, Stores;
  }

  lemma {:induction false} GiveUpKeeps(env: Env, s: State, t: nat, pc: Pc)
    requires Inv(env, s) && t < |s.threads| && InShared(s.threads[t]) && !s.threads[t].Appended?
    requires pc.Idle? || pc.Finishing?
    ensures Inv(env, Goto(s, t, pc))
  {
    SharedMoveKeeps(env, s, Goto(s, t, pc), t);
  }

  // Appending a local batch.

  ghost predicate BatchOf(env: Env, coll: string, batch: seq<Record>) {
    forall i :: 0 <= i < |batch| ==>
      Replayable(env, batch[i]) &&
      (batch[i].Webhook? || (IsLocal(batch[i].command) && batch[i].command.coll == coll))
  }

  lemma {:induction false} LocalBatchOf(env: Env, op: Op, before: Option<Object>, deadline: Option<nat>, hooks: nat)
    requires Stores(env, op)
    ensures BatchOf(env, op.coll, Batch(Commands(op, before, deadline), hooks))
  {
    CommandsLocal(op, before, deadline);
    hide Merged, Envelope;
  }

  lemma {:induction false} AppendOrdered(env: Env, log: seq<Entry>, first: nat, batch: seq<Record>, coll: string)
    requires OrderedUpToIndependence(log) && BatchOf(env, coll, batch)
    requires forall i :: 0 <= i < |log| ==>
      log[i].number < first || (log[i].number >= first + |batch| && Foreign(log[i].record, coll))
    ensures OrderedUpToIndependence(log + Numbered(first, batch))
  {
    hide Replayable;
    var all := log + Numbered(first, batch);
    forall i, j | 0 <= i < j < |all|
      ensures all[i].number < all[j].number ||
              (all[i].number > all[j].number && Independent(all[i].record, all[j].record))
    {
      if j >= |log| {
        assert all[j] == Entry(first + (j - |log|), batch[j - |log|]);
        if i < |log| {
          assert all[i] == log[i];
        } else {
          assert all[i] == Entry(first + (i - |log|), batch[i - |log|]);
        }
      }
    }
  }

  /** What the invariant says of one thread that holds a reservation. */
  lemma {:induction false} ReservedFacts(env: Env, s: State, t: nat)
    requires ThreadsOk(env, s) && t < |s.threads| && s.threads[t].Reserved?
    ensures var pc := s.threads[t];
            HandleOk(s, pc) && NumbersOk(s, pc) && Stores(env, pc.op) &&
            Ready(env, pc.op, pc.before, pc.deadline, s.cells[pc.cell].objects)
    ensures forall u :: 0 <= u < |s.threads| ==> !InExclusive(s.threads[u])
    ensures forall u :: 0 <= u < |s.threads| && u != t && HoldsLock(s.threads[u]) ==>
      s.threads[u].cell != s.threads[t].cell
  {
    assert ThreadOk(env, s, s.threads[t]);
    SharedMeansNoExclusive(env, s, t);
    hide ThreadOk, Ready, NumbersOk, Stores;
    forall u | 0 <= u < |s.threads| && u != t && HoldsLock(s.threads[u])
      ensures s.threads[u].cell != s.threads[t].cell
    {
      assert PairOk(s.threads[u], s.threads[t]);
    }
  }

  lemma {:induction false} OthersKeepNumbers(env: Env, s: State, t: nat, u: nat, batch: seq<Record>)
    requires NamesOk(s) && ThreadsOk(env, s) && t < |s.threads| && u < |s.threads| && u != t
    requires s.threads[t].Reserved? && |batch| == Count(s.threads[t]) && BatchOf(env, s.threads[t].op.coll, batch)
    ensures NumbersOk(s.(log := s.log + Numbered(s.threads[t].first, batch)), s.threads[u])
  {
    ReservedFacts(env, s, t);
    var a, b := s.threads[t], s.threads[u];
    if b.Reserved? {
      ReservedFacts(env, s, u);
      assert PairOk(a, b);
      hide Replayable, Batch, Commands, Ready, ThreadsOk, Stores;
      assert a.op.coll != b.op.coll;
    }
  }

  lemma {:induction false} OthersKeepAppend(env: Env, s: State, r: State, pc: Pc)
    requires r.names == s.names && r.cells == s.cells && r.channels == s.channels && r.hooks == s.hooks
    requires ThreadOk(env, s, pc) && NumbersOk(r, pc)
    ensures ThreadOk(env, r, pc)
  {
    hide Commands, XCommands, Proceeds, XProceeds, Stores, Ready, Foreign;
    assert View(r) == View(s);
  }

  /** The state after a successful append. */
  ghost function AfterAppend(env: Env, s: State, t: nat): State
    requires t < |s.threads| && s.threads[t].Reserved?
  {
    var pc := s.threads[t];
    Goto(s.(log := s.log + Numbered(pc.first, Batch(Commands(pc.op, pc.before, pc.deadline), pc.hooks)),
            drift := if Revives(env, s, pc) then Revived else s.drift), t,
         Appended(pc.op, pc.cell, pc.before, pc.deadline))
  }

  lemma {:induction false} AppendLogOk(env: Env, s: State, t: nat)
    requires NamesOk(s) && LogOk(env, s) && ThreadsOk(env, s) && t < |s.threads| && s.threads[t].Reserved?
    ensures NamesOk(AfterAppend(env, s, t)) && LogOk(env, AfterAppend(env, s, t))
  {
    var pc := s.threads[t];
    ReservedFacts(env, s, t);
    LocalBatchOf(env, pc.op, pc.before, pc.deadline, pc.hooks);
    hide Replayable, Batch, Commands, ThreadsOk, Ready;
    AppendOrdered(env, s.log, pc.first, Batch(Commands(pc.op, pc.before, pc.deadline), pc.hooks), pc.op.coll);
  }

  lemma {:induction false} AppendOther(env: Env, s: State, t: nat, u: nat)
    requires NamesOk(s) && ThreadsOk(env, s) && t < |s.threads| && u < |s.threads| && u != t
    requires s.threads[t].Reserved?
    ensures var r := AfterAppend(env, s, t);
            ThreadOk(env, r, s.threads[u]) && PairOk(r.threads[t], s.threads[u]) && PairOk(s.threads[u], r.threads[t])
  {
    var pc := s.threads[t];
    var r := AfterAppend(env, s, t);
    ReservedFacts(env, s, t);
    assert ThreadOk(env, s, s.threads[u]);
    LocalBatchOf(env, pc.op, pc.before, pc.deadline, pc.hooks);
    hide ThreadOk, Ready, Commands, Batch, ThreadsOk, NamesOk;
    OthersKeepNumbers(env, s, t, u, Batch(Commands(pc.op, pc.before, pc.deadline), pc.hooks));
    OthersKeepAppend(env, s, r, s.threads[u]);
  }

  lemma {:induction false} AppendThreadsOk(env: Env, s: State, t: nat)
    requires NamesOk(s) && ThreadsOk(env, s) && t < |s.threads| && s.threads[t].Reserved?
    ensures ThreadsOk(env, AfterAppend(env, s, t))
  {
    var r := AfterAppend(env, s, t);
    ReservedFacts(env, s, t);
    assert ThreadOk(env, r, r.threads[t]);
    hide ThreadOk, PairOk, Ready, HandleOk, NumbersOk, Stores;
    forall u | 0 <= u < |s.threads| && u != t
      ensures ThreadOk(env, r, r.threads[u]) && PairOk(r.threads[t], r.threads[u]) && PairOk(r.threads[u], r.threads[t])
    {
      AppendOther(env, s, t, u);
    }
  }

  /** A locked cell that is not yet pending is read as it stands. */
  lemma {:induction false} LockedIsQuiet(env: Env, s: State, t: nat)
    requires NamesOk(s) && ThreadsOk(env, s) && t < |s.threads| && s.threads[t].Reserved?
    ensures var pc := s.threads[t];
            var l := Logical(env, s);
            pc.op.coll in l.colls && l.colls[pc.op.coll] == s.cells[pc.cell].objects
  {
    var pc := s.threads[t];
    ReservedFacts(env, s, t);
    hide ThreadsOk, Ready, NumbersOk;
    LogicalQuiet(env, s, pc.cell);
  }

  /** What applying thread `t`'s command to its cell gives. */
  ghost function Next(env: Env, s: State, t: nat): Commit
    requires t < |s.threads| && HoldsLock(s.threads[t]) && s.threads[t].cell < |s.cells|
  {
    var pc := s.threads[t];
    Committed(env, pc.op, pc.before, pc.deadline, s.cells[pc.cell].objects)
  }

  lemma {:induction false} LogicalAfterAppend(env: Env, s: State, t: nat)
    requires NamesOk(s) && ThreadsOk(env, s) && t < |s.threads| && s.threads[t].Reserved?
    requires ThreadsOk(env, AfterAppend(env, s, t))
    ensures s.threads[t].cell < |s.cells|
    ensures Logical(env, AfterAppend(env, s, t))
         == WithObjects(Logical(env, s), s.threads[t].op.coll, Next(env, s, t).objects)
  {
    var pc, r := s.threads[t], AfterAppend(env, s, t);
    ReservedFacts(env, s, t);
    LogicalPending(env, r, t);
    hide ThreadsOk, Committed, Ready, NumbersOk, Stores, Batch, Commands, LogicalCells, LogicalObjects;
    LogicalWithoutX(env, s);
    LogicalWithoutX(env, r);
    hide Logical;
    forall n | n in s.names && n != pc.op.coll
      ensures LogicalObjects(env, r, s.names[n]) == LogicalObjects(env, s, s.names[n])
    {
      OtherCellSame(env, s, r, t, s.names[n]);
    }
    LogicalCellsUpdate(env, s, r, pc.op.coll);
  }

  /** Changing one thread on one cell leaves the other cells' meaning alone. */
  lemma {:induction false} OtherCellSame(env: Env, s: State, r: State, t: nat, c: nat)
    requires ThreadsOk(env, s) && t < |s.threads| == |r.threads| && c < |s.cells| == |r.cells|
    requires r.cells[c] == s.cells[c] && forall u :: 0 <= u < |s.threads| && u != t ==> r.threads[u] == s.threads[u]
    requires !PendingOn(s.threads[t], c) && !PendingOn(r.threads[t], c)
    ensures LogicalObjects(env, r, c) == LogicalObjects(env, s, c)
  {
    hide ThreadOk, Settled;
    if u :| 0 <= u < |s.threads| && PendingOn(s.threads[u], c) {
      LogicalPending(env, s, u);
      assert PendingOn(r.threads[u], c);
      forall v | 0 <= v < |r.threads| && PendingOn(r.threads[v], c) ensures v == u {
        OnePending(env, s, v, u, c);
      }
    } else {
      forall v | 0 <= v < |r.threads| ensures !PendingOn(r.threads[v], c) {
        assert v != t ==> !PendingOn(s.threads[v], c);
      }
    }
  }

  /** The append widens the bound exactly where it needs to. */
  lemma {:induction false} AppendBound(env: Env, s: State, t: nat)
    requires t < |s.threads| && s.threads[t].Reserved?
    ensures var pc, r := s.threads[t], AfterAppend(env, s, t);
            Weaker(BoundOf(s), BoundOf(r)) &&
            !RevivesOn(BoundOf(r), pc.op, pc.before, pc.deadline, ObjectsOf(Replay(env, Records(s.log)), pc.op.coll))
  {
    hide Batch, Commands, Replay, Prolongs, ObjectsOf;
  }

  lemma {:induction false} CorrespondsWeaker(env: Env, p: Bound, q: Bound, live: Db, replayed: Db)
    requires Corresponds(env, p, live, replayed) && Weaker(p, q)
    ensures Corresponds(env, q, live, replayed)
  {
    hide DbOk, AgreeDb;
    AgreeWeaker(p, q, live, replayed);
  }

  lemma {:induction false} AppendKeeps(env: Env, s: State, t: nat)
    requires Inv(env, s) && t < |s.threads| && s.threads[t].Reserved?
    ensures Inv(env, AfterAppend(env, s, t))
  {
    var pc, r := s.threads[t], AfterAppend(env, s, t);
    hide ThreadsOk, Corresponds, Logical, ReplayFrom, Commands, Batch, Committed, Ready, LogOk, NamesOk, NumbersOk, Records,
      Weaker, BoundOf, RevivesOn;
    ReservedFacts(env, s, t);
    AppendLogOk(env, s, t);
    AppendThreadsOk(env, s, t);
    LogicalAfterAppend(env, s, t);
    LockedIsQuiet(env, s, t);
    AppendBound(env, s, t);
    CorrespondsWeaker(env, BoundOf(s), BoundOf(r), Logical(env, s), Replay(env, Records(s.log)));
    LocalBatchAgrees(env, pc.op, pc.before, pc.deadline, pc.hooks, Logical(env, s), Replay(env, Records(s.log)), BoundOf(r));
    ReplayAppended(env, s.log, pc.first, Batch(Commands(pc.op, pc.before, pc.deadline), pc.hooks));
  }

  // Changing the cell.

  /** What the invariant says of one thread that is about to change its cell. */
  lemma {:induction false} AppendedFacts(env: Env, s: State, t: nat)
    requires ThreadsOk(env, s) && t < |s.threads| && s.threads[t].Appended?
    ensures var pc := s.threads[t];
            HandleOk(s, pc) && Ready(env, pc.op, pc.before, pc.deadline, s.cells[pc.cell].objects)
    ensures forall u :: 0 <= u < |s.threads| ==> !InExclusive(s.threads[u])
    ensures forall u :: 0 <= u < |s.threads| && u != t && HoldsLock(s.threads[u]) ==>
      s.threads[u].cell != s.threads[t].cell
  {
    assert ThreadOk(env, s, s.threads[t]);
    SharedMeansNoExclusive(env, s, t);
    hide ThreadOk, Ready;
    forall u | 0 <= u < |s.threads| && u != t && HoldsLock(s.threads[u])
      ensures s.threads[u].cell != s.threads[t].cell
    {
      assert PairOk(s.threads[u], s.threads[t]);
    }
  }

  /** The "logged but object missing" branch is never taken. */
  lemma {:induction false} NeverRetries(env: Env, s: State, t: nat)
    requires ThreadsOk(env, s) && t < |s.threads| && s.threads[t].Appended?
    ensures s.threads[t].cell < |s.cells| && !Next(env, s, t).retry && Next(env, s, t).bumped
  {
    AppendedFacts(env, s, t);
    var pc := s.threads[t];
    var objects := s.cells[pc.cell].objects;
    hide Committed, Ready, Commands, ThreadsOk;
    CommitProceeds(env, pc.op, pc.before, pc.deadline, objects);
  }

  ghost function AfterMutate(env: Env, s: State, t: nat): State
    requires t < |s.threads| && s.threads[t].Appended? && s.threads[t].cell < |s.cells|
  {
    var c := s.threads[t].cell;
    Goto(s.(cells := s.cells[c := Cell(Bumped(s.cells[c].version), Next(env, s, t).objects)]), t, Finishing)
  }

  lemma {:induction false} MutateOther(env: Env, s: State, t: nat, u: nat)
    requires ThreadsOk(env, s) && t < |s.threads| && u < |s.threads| && u != t
    requires s.threads[t].Appended? && s.threads[t].cell < |s.cells|
    ensures ThreadOk(env, AfterMutate(env, s, t), s.threads[u])
  {
    AppendedFacts(env, s, t);
    assert ThreadOk(env, s, s.threads[u]);
    hide ThreadsOk, Proceeds, Commands, Batch, Committed, Stores, Foreign, Next;
  }

  lemma {:induction false} MutateThreadsOk(env: Env, s: State, t: nat)
    requires ThreadsOk(env, s) && t < |s.threads| && s.threads[t].Appended? && s.threads[t].cell < |s.cells|
    ensures ThreadsOk(env, AfterMutate(env, s, t))
  {
    var r := AfterMutate(env, s, t);
    SharedMeansNoExclusive(env, s, t);
    forall u | 0 <= u < |r.threads| ensures ThreadOk(env, r, r.threads[u]) {
      if u != t {
        MutateOther(env, s, t, u);
      }
    }
    hide ThreadOk, Next;
  }

  lemma {:induction false} LogicalAfterMutate(env: Env, s: State, t: nat)
    requires NamesOk(s) && ThreadsOk(env, s) && t < |s.threads|
    requires s.threads[t].Appended? && s.threads[t].cell < |s.cells|
    ensures Logical(env, AfterMutate(env, s, t)) == Logical(env, s)
  {
    var r, pc := AfterMutate(env, s, t), s.threads[t];
    AppendedFacts(env, s, t);
    hide ThreadsOk, Committed, Ready, Logical, LogicalCells, LogicalObjects;
    LogicalWithoutX(env, s);
    LogicalWithoutX(env, r);
    MutatedCellSame(env, s, t);
    forall n | n in s.names && s.names[n] < |s.cells|
      ensures LogicalObjects(env, r, s.names[n]) == LogicalObjects(env, s, s.names[n])
    {
      if s.names[n] != pc.cell {
        OtherCellSame(env, s, r, t, s.names[n]);
      }
    }
    LogicalCellsSame(env, s, r);
  }

  lemma {:induction false} MutatedCellSame(env: Env, s: State, t: nat)
    requires ThreadsOk(env, s) && t < |s.threads| && s.threads[t].Appended? && s.threads[t].cell < |s.cells|
    ensures LogicalObjects(env, AfterMutate(env, s, t), s.threads[t].cell) == LogicalObjects(env, s, s.threads[t].cell)
  {
    AppendedFacts(env, s, t);
    LogicalPending(env, s, t);
    hide ThreadsOk, Committed, Ready, LogicalObjects;
    LogicalQuiet(env, AfterMutate(env, s, t), s.threads[t].cell);
  }

  lemma {:induction false} MutateKeeps(env: Env, s: State, t: nat)
    requires Inv(env, s) && t < |s.threads| && s.threads[t].Appended? && s.threads[t].cell < |s.cells|
    ensures Inv(env, AfterMutate(env, s, t))
  {
    hide ThreadsOk, Corresponds, Logical, Next, ReplayFrom;
    LogicalAfterMutate(env, s, t);
    MutateThreadsOk(env, s, t);
  }
}
