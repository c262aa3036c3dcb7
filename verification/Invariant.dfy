/** What every step of the engine keeps. */
module Invariant {
  import opened Types
  import opened Geometry
  import opened Catalog
  import opened Compaction
  import opened Protocol
  import opened Agreement
  import opened Batches

  /** Every name has a cell of its own. */
  ghost predicate NamesOk(s: State) {
    (forall n :: n in s.names ==> s.names[n] < |s.cells|) &&
    (forall m, n :: m in s.names && n in s.names && m != n ==> s.names[m] != s.names[n])
  }

  ghost function Count(pc: Pc): nat
    requires pc.Reserved? || pc.XReserved?
  {
    if pc.Reserved? then |Batch(Commands(pc.op, pc.before, pc.deadline), pc.hooks)|
    else |Batch(XCommands(pc.x, pc.before, pc.deadline), pc.hooks)|
  }

  /** A handle still leads to the cell the catalog names. */
  ghost predicate HandleOk(s: State, pc: Pc) {
    HasHandle(pc) ==> pc.op.coll in s.names && s.names[pc.op.coll] == pc.cell < |s.cells|
  }

  ghost predicate RequestOk(env: Env, pc: Pc) {
    (pc.Gated? || HasHandle(pc) ==> Stores(env, pc.op)) &&
    (pc.Handled? && pc.op.ExpireOp? ==> pc.deadline.Some?) &&
    (pc.XReserved? || pc.XAppended? ==>
      if pc.x.XLocal? then Stores(env, pc.x.op) && !pc.x.op.ExpireOp? else pc.deadline == None)
  }

  /** A plan whose version is still current was computed from the object as it
      stands; under the lock it always is. */
  ghost predicate PlanOk(env: Env, s: State, pc: Pc)
    requires HandleOk(s, pc)
  {
    (pc.Planned? ==>
      Proceeds(env, pc.op, pc.before) && !LosesEnvelope(env, pc.op, pc.before) &&
      (pc.op.ExpireOp? ==> pc.deadline.Some?) &&
      pc.version <= s.cells[pc.cell].version &&
      (pc.version == s.cells[pc.cell].version && pc.version < U64_MAX ==>
        pc.before == Lookup(s.cells[pc.cell].objects, pc.op.id))) &&
    (HoldsLock(pc) ==> Ready(env, pc.op, pc.before, pc.deadline, s.cells[pc.cell].objects))
  }

  /** Entries already in the log that a later append of `pc` may overtake. */
  ghost predicate NumbersOk(s: State, pc: Pc) {
    (pc.Reserved? ==>
      pc.first + Count(pc) <= s.nextSequence + 1 &&
      forall i :: 0 <= i < |s.log| ==>
        s.log[i].number < pc.first ||
        (s.log[i].number >= pc.first + Count(pc) && Foreign(s.log[i].record, pc.op.coll))) &&
    (pc.XReserved? ==>
      pc.first + Count(pc) <= s.nextSequence + 1 &&
      forall i :: 0 <= i < |s.log| ==> s.log[i].number < pc.first)
  }

  ghost predicate Foreign(r: Record, coll: string) {
    r.Webhook? || (IsLocal(r.command) && r.command.coll != coll)
  }

  ghost predicate ExclusiveOk(env: Env, s: State, pc: Pc) {
    (pc.XReserved? || pc.XAppended? ==> XProceeds(env, View(s), pc.x) && pc.before == Before(View(s), pc.x)) &&
    (pc.XFlushed? ==> View(s) == EMPTY)
  }

  ghost predicate ThreadOk(env: Env, s: State, pc: Pc) {
    HandleOk(s, pc) && RequestOk(env, pc) && PlanOk(env, s, pc) && NumbersOk(s, pc) && ExclusiveOk(env, s, pc)
  }

  /** Mutual exclusion of cell locks and of the gate; disjoint reservations. */
  ghost predicate PairOk(a: Pc, b: Pc) {
    (HoldsLock(a) && HoldsLock(b) ==> a.cell != b.cell) &&
    (InExclusive(a) ==> b.Idle?) &&
    (a.Reserved? && b.Reserved? ==> a.first + Count(a) <= b.first || b.first + Count(b) <= a.first)
  }

  ghost predicate ThreadsOk(env: Env, s: State) {
    (forall t :: 0 <= t < |s.threads| ==> ThreadOk(env, s, s.threads[t])) &&
    (forall t, u :: 0 <= t < |s.threads| && 0 <= u < |s.threads| && t != u ==> PairOk(s.threads[t], s.threads[u]))
  }

  ghost predicate LogOk(env: Env, s: State) {
    OrderedUpToIndependence(s.log) &&
    forall i :: 0 <= i < |s.log| ==> s.log[i].number <= s.nextSequence && Replayable(env, s.log[i].record)
  }

  // The database counting a logged but unapplied command as done.

  ghost predicate PendingOn(pc: Pc, c: nat) {
    pc.Appended? && pc.cell == c
  }

  ghost function Settled(env: Env, pc: Pc, objects: Objects): Objects
    requires pc.Appended?
  {
    Committed(env, pc.op, pc.before, pc.deadline, objects).objects
  }

  ghost function LogicalObjects(env: Env, s: State, c: nat): Objects
    requires c < |s.cells|
  {
    if exists t :: 0 <= t < |s.threads| && PendingOn(s.threads[t], c) then
      var t :| 0 <= t < |s.threads| && PendingOn(s.threads[t], c);
      Settled(env, s.threads[t], s.cells[c].objects)
    else s.cells[c].objects
  }

  ghost function LogicalCells(env: Env, s: State): Db {
    Db(map n | n in s.names && s.names[n] < |s.cells| :: LogicalObjects(env, s, s.names[n]), s.channels, s.hooks)
  }

  ghost function Logical(env: Env, s: State): Db {
    if exists t :: 0 <= t < |s.threads| && s.threads[t].XAppended? then
      var t :| 0 <= t < |s.threads| && s.threads[t].XAppended?;
      View(ApplyX(env, s, s.threads[t].x, s.threads[t].before, s.threads[t].deadline))
    else LogicalCells(env, s)
  }

  function BoundOf(s: State): Bound {
    match s.drift
    case Same => Exactly
    case Swept => Until(s.clock)
    case Revived => Lossy(s.clock)
  }

  ghost predicate Inv(env: Env, s: State) {
    NamesOk(s) && ThreadsOk(env, s) && LogOk(env, s) &&
    Corresponds(env, BoundOf(s), Logical(env, s), Replay(env, Records(s.log)))
  }

  // Reading the logical database.

  /** At most one writer is between append and apply on a cell. */
  lemma OnePending(env: Env, s: State, u: nat, v: nat, c: nat)
    requires ThreadsOk(env, s) && u < |s.threads| && v < |s.threads|
    requires PendingOn(s.threads[u], c) && PendingOn(s.threads[v], c)
    ensures u == v
  {
    hide ThreadOk;
  }

  lemma {:induction false} LogicalPending(env: Env, s: State, t: nat)
    requires ThreadsOk(env, s) && t < |s.threads| && s.threads[t].Appended? && s.threads[t].cell < |s.cells|
    ensures LogicalObjects(env, s, s.threads[t].cell)
         == Settled(env, s.threads[t], s.cells[s.threads[t].cell].objects)
  {
    hide ThreadOk, Settled;
    var c := s.threads[t].cell;
    assert PendingOn(s.threads[t], c);
    forall u | 0 <= u < |s.threads| && PendingOn(s.threads[u], c) ensures u == t {
      OnePending(env, s, u, t, c);
    }
  }

  lemma LogicalQuiet(env: Env, s: State, c: nat)
    requires c < |s.cells| && forall t :: 0 <= t < |s.threads| ==> !PendingOn(s.threads[t], c)
    ensures LogicalObjects(env, s, c) == s.cells[c].objects
  {
  }

  lemma {:induction false} LogicalXPending(env: Env, s: State, t: nat)
    requires ThreadsOk(env, s) && t < |s.threads| && s.threads[t].XAppended?
    ensures Logical(env, s) == View(ApplyX(env, s, s.threads[t].x, s.threads[t].before, s.threads[t].deadline))
  {
    InExclusiveAlone(env, s, t);
    hide ThreadsOk, ApplyX, View;
    forall u | 0 <= u < |s.threads| && s.threads[u].XAppended? ensures u == t {
    }
  }

  /** With nothing pending the logical database is the live one. */
  lemma {:induction false} LogicalIsView(env: Env, s: State)
    requires forall t :: 0 <= t < |s.threads| ==> !s.threads[t].Appended? && !s.threads[t].XAppended?
    ensures Logical(env, s) == View(s)
  {
    forall n | n in s.names && s.names[n] < |s.cells|
      ensures LogicalObjects(env, s, s.names[n]) == s.cells[s.names[n]].objects
    {
      LogicalQuiet(env, s, s.names[n]);
    }
  }

  lemma InExclusiveAlone(env: Env, s: State, t: nat)
    requires ThreadsOk(env, s) && t < |s.threads| && InExclusive(s.threads[t])
    ensures forall u :: 0 <= u < |s.threads| && u != t ==> s.threads[u].Idle?
  {
    hide ThreadOk;
    forall u | 0 <= u < |s.threads| && u != t ensures s.threads[u].Idle? {
      assert PairOk(s.threads[t], s.threads[u]);
    }
  }

  /** Two states that differ only in threads that are not pending, in counters
      or in the log have the same logical database. */
  lemma {:induction false} LogicalSame(env: Env, s: State, r: State, t: nat)
    requires ThreadsOk(env, s) && t < |s.threads| && |r.threads| == |s.threads|
    requires r.names == s.names && r.cells == s.cells && r.channels == s.channels && r.hooks == s.hooks
    requires forall u :: 0 <= u < |s.threads| && u != t ==> r.threads[u] == s.threads[u]
    requires !s.threads[t].Appended? && !s.threads[t].XAppended?
    requires !r.threads[t].Appended? && !r.threads[t].XAppended?
    ensures Logical(env, r) == Logical(env, s)
  {
    hide ThreadOk, Settled;
    if u :| 0 <= u < |s.threads| && s.threads[u].XAppended? {
      LogicalXPending(env, s, u);
      XPendingSame(env, s, r, u);
    } else {
      forall n | n in s.names && s.names[n] < |s.cells|
        ensures LogicalObjects(env, r, s.names[n]) == LogicalObjects(env, s, s.names[n])
      {
        LogicalObjectsSame(env, s, r, s.names[n]);
      }
    }
  }

  lemma {:induction false} XPendingSame(env: Env, s: State, r: State, u: nat)
    requires ThreadsOk(env, s) && u < |s.threads| && s.threads[u].XAppended? && |r.threads| == |s.threads|
    requires r.names == s.names && r.cells == s.cells && r.channels == s.channels && r.hooks == s.hooks
    requires forall v :: 0 <= v < |s.threads| && r.threads[v].XAppended? ==> r.threads[v] == s.threads[v]
    requires r.threads[u] == s.threads[u]
    ensures Logical(env, r) == Logical(env, s)
  {
    LogicalXPending(env, s, u);
    InExclusiveAlone(env, s, u);
    hide ThreadOk, ThreadsOk;
    var pc := s.threads[u];
    ApplyXSame(env, s, r, pc.x, pc.before, pc.deadline);
    hide ApplyX, View;
    forall v | 0 <= v < |r.threads| && r.threads[v].XAppended? ensures v == u {
    }
  }

  lemma ApplyXSame(env: Env, s: State, r: State, x: XOp, before: Option<Object>, deadline: Option<nat>)
    requires r.names == s.names && r.cells == s.cells && r.channels == s.channels && r.hooks == s.hooks
    ensures View(ApplyX(env, r, x, before, deadline)) == View(ApplyX(env, s, x, before, deadline))
  {
    hide Committed, Matching, CellAfter;
    match x {
      case XLocal(_) =>
      case XRename(_, _, _) =>
      case _ =>
    }
  }

  lemma {:induction false} LogicalObjectsSame(env: Env, s: State, r: State, c: nat)
    requires ThreadsOk(env, s) && c < |s.cells| && r.cells == s.cells && |r.threads| == |s.threads|
    requires forall u :: 0 <= u < |s.threads| && (s.threads[u].Appended? || r.threads[u].Appended?) ==> r.threads[u] == s.threads[u]
    ensures LogicalObjects(env, r, c) == LogicalObjects(env, s, c)
  {
    hide ThreadOk, Settled;
    if u :| 0 <= u < |s.threads| && PendingOn(s.threads[u], c) {
      LogicalPending(env, s, u);
      assert PendingOn(r.threads[u], c);
      forall v | 0 <= v < |r.threads| && PendingOn(r.threads[v], c) ensures v == u {
        OnePending(env, s, v, u, c);
      }
    } else {
      forall v | 0 <= v < |r.threads| ensures !PendingOn(r.threads[v], c) {
        assert !PendingOn(s.threads[v], c);
      }
    }
  }

  lemma LogicalCellsSame(env: Env, s: State, r: State)
    requires r.names == s.names && |r.cells| == |s.cells| && r.channels == s.channels && r.hooks == s.hooks
    requires forall n :: n in s.names && s.names[n] < |s.cells| ==>
      LogicalObjects(env, r, s.names[n]) == LogicalObjects(env, s, s.names[n])
    ensures LogicalCells(env, r) == LogicalCells(env, s)
  {
    hide LogicalObjects;
  }

  lemma LogicalWithoutX(env: Env, s: State)
    requires forall t :: 0 <= t < |s.threads| ==> !s.threads[t].XAppended?
    ensures Logical(env, s) == LogicalCells(env, s)
  {
  }

  /** If one cell changes its meaning, one collection changes. */
  lemma {:induction false} LogicalCellsUpdate(env: Env, s: State, r: State, coll: string)
    requires NamesOk(s) && r.names == s.names && |r.cells| == |s.cells|
    requires r.channels == s.channels && r.hooks == s.hooks && coll in s.names
    requires forall n :: n in s.names && n != coll ==>
      LogicalObjects(env, r, s.names[n]) == LogicalObjects(env, s, s.names[n])
    ensures LogicalCells(env, r) == WithObjects(LogicalCells(env, s), coll, LogicalObjects(env, r, s.names[coll]))
  {
    hide LogicalObjects;
    assert LogicalCells(env, r).colls
        == WithObjects(LogicalCells(env, s), coll, LogicalObjects(env, r, s.names[coll])).colls;
  }
}
