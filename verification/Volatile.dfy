/** The shortcut for point sets on a backend without a log
    (crates/latlng-core/src/commands.rs). */
module Volatile {
  import opened Types
  import opened Fields
  import opened Geometry
  import opened Protocol

  /** The commands the shortcut takes: an unconditional point set without a deadline. */
  predicate Plain(op: Op) {
    op.SetOp? && op.geo.Point? && op.ttl.None? && op.condition.Always?
  }

  function Steps(t: nat): seq<Step> {
    [Plan(t, 0), Lock(t), Reserve(t), Append(t, true), Mutate(t)]
  }

  /** The cell as the shortcut leaves it, under one write lock. */
  function Shortcut(op: Op, cell: Cell): Cell
    requires op.SetOp?
  {
    Cell(Bumped(cell.version),
      cell.objects[op.id := Object(op.id, op.geo, Merged(Lookup(cell.objects, op.id), op.updates), None)])
  }

  lemma RunCons(env: Env, s: State, step: Step, rest: seq<Step>)
    requires Enabled(env, s, step) && Run(env, Exec(env, s, step), rest)
    ensures Run(env, s, [step] + rest) && After(env, s, [step] + rest) == After(env, Exec(env, s, step), rest)
  {
    hide Enabled, Exec;
    assert ([step] + rest)[1..] == rest;
  }

  lemma LocalStep(env: Env, s: State, step: Step, t: nat)
    requires t < |s.threads| && EnabledLocal(env, s, step, s.threads[t])
    requires !step.Tick? && !step.Restart? && step.t == t
    ensures Enabled(env, s, step) && Exec(env, s, step) == ExecLocal(env, s, step, t)
  {
    hide ExecLocal, EnabledLocal, ExecExclusive;
  }

  /** Where the writer stands after planning, locking and reserving. */
  function PlannedAt(s: State, t: nat, op: Op, c: nat): State
    requires t < |s.threads| && c < |s.cells|
  {
    Goto(s, t, Planned(op, c, Lookup(s.cells[c].objects, op.id), None, 0, s.cells[c].version))
  }

  function LockedAt(s: State, t: nat, op: Op, c: nat): State
    requires t < |s.threads| && c < |s.cells|
  {
    Goto(s, t, Locked(op, c, Lookup(s.cells[c].objects, op.id), None, 0))
  }

  function ReservedAt(s: State, t: nat, op: Op, c: nat): State
    requires t < |s.threads| && c < |s.cells|
  {
    Goto(s.(nextSequence := s.nextSequence + 1), t,
      Reserved(op, c, Lookup(s.cells[c].objects, op.id), None, 0, s.nextSequence + 1))
  }

  lemma PlanStep(env: Env, s: State, t: nat, op: Op, c: nat)
    requires t < |s.threads| && s.threads[t].Handled? && s.threads[t].op == op && s.threads[t].cell == c && Plain(op) && c < |s.cells| && Unlocked(s, c)
    ensures Enabled(env, s, Plan(t, 0)) && Exec(env, s, Plan(t, 0)) == PlannedAt(s, t, op, c)
    ensures Unlocked(PlannedAt(s, t, op, c), c)
  {
    LocalStep(env, s, Plan(t, 0), t);
    hide Exec, Enabled;
  }

  lemma LockStep(env: Env, s: State, t: nat, op: Op, c: nat)
    requires t < |s.threads| && Plain(op) && c < |s.cells| && s.cells[c].version < U64_MAX
    requires Unlocked(PlannedAt(s, t, op, c), c)
    ensures
      var p := PlannedAt(s, t, op, c);
      Enabled(env, p, Lock(t)) && Exec(env, p, Lock(t)) == LockedAt(s, t, op, c)
  {
    var p := PlannedAt(s, t, op, c);
    LocalStep(env, p, Lock(t), t);
    hide Exec, Enabled;
    assert p.threads[t := LockedAt(s, t, op, c).threads[t]] == LockedAt(s, t, op, c).threads;
  }

  lemma OneCommand(op: Op, before: Option<Object>)
    requires Plain(op)
    ensures |Batch(Commands(op, before, None), 0)| == 1
  {
    hide Batch;
  }

  lemma ReserveStep(env: Env, s: State, t: nat, op: Op, c: nat)
    requires t < |s.threads| && Plain(op) && c < |s.cells|
    ensures
      var p := LockedAt(s, t, op, c);
      Enabled(env, p, Reserve(t)) && Exec(env, p, Reserve(t)) == ReservedAt(s, t, op, c)
  {
    OneCommand(op, Lookup(s.cells[c].objects, op.id));
    hide Batch, Commands, Plain, Exec, Enabled;
    var p := LockedAt(s, t, op, c);
    LocalStep(env, p, Reserve(t), t);
    assert p.threads[t := ReservedAt(s, t, op, c).threads[t]] == ReservedAt(s, t, op, c).threads;
  }

  lemma AppendStep(env: Env, s: State, t: nat, op: Op, c: nat)
    requires t < |s.threads| && Plain(op) && c < |s.cells|
    ensures
      var p := ReservedAt(s, t, op, c);
      Enabled(env, p, Append(t, true)) &&
      var q := Exec(env, p, Append(t, true));
      q.names == s.names && q.cells == s.cells && q.nextSequence == s.nextSequence + 1 &&
      q.threads == s.threads[t := Appended(op, c, Lookup(s.cells[c].objects, op.id), None)]
  {
    var p := ReservedAt(s, t, op, c);
    LocalStep(env, p, Append(t, true), t);
    hide Exec, Enabled, Batch, Commands, Plain;
  }

  lemma MutateStep(env: Env, s: State, q: State, t: nat, op: Op, c: nat)
    requires t < |s.threads| && Plain(op) && c < |s.cells| && q.cells == s.cells
    requires q.threads == s.threads[t := Appended(op, c, Lookup(s.cells[c].objects, op.id), None)]
    ensures
      Enabled(env, q, Mutate(t)) &&
      var r := Exec(env, q, Mutate(t));
      r.names == q.names && r.cells == s.cells[c := Shortcut(op, s.cells[c])] &&
      r.nextSequence == q.nextSequence && r.threads == s.threads[t := Finishing]
  {
    LocalStep(env, q, Mutate(t), t);
    hide Exec, Enabled, Merged;
  }

  /** Logging and applying, from the reservation on. */
  lemma CommitSteps(env: Env, s: State, t: nat, op: Op, c: nat)
    requires t < |s.threads| && Plain(op) && c < |s.cells|
    ensures
      var p := ReservedAt(s, t, op, c);
      Run(env, p, [Append(t, true), Mutate(t)]) &&
      var r := After(env, p, [Append(t, true), Mutate(t)]);
      r.names == s.names && r.cells == s.cells[c := Shortcut(op, s.cells[c])] &&
      r.nextSequence == s.nextSequence + 1 && r.threads == s.threads[t := Finishing]
  {
    var p := ReservedAt(s, t, op, c);
    hide Exec, Enabled, Plain, ReservedAt, Shortcut;
    AppendStep(env, s, t, op, c);
    var q := Exec(env, p, Append(t, true));
    MutateStep(env, s, q, t, op, c);
    RunCons(env, q, Mutate(t), []);
    RunCons(env, p, Append(t, true), [Mutate(t)]);
    assert [Mutate(t)] + [] == [Mutate(t)] && [Append(t, true)] + [Mutate(t)] == [Append(t, true), Mutate(t)];
  }

  /** Taken without interruption, the full path leaves the same cell and reserves the
      same number as the shortcut. */
  lemma ShortcutIsFullSet(env: Env, s: State, t: nat)
    requires t < |s.threads| && s.threads[t].Handled? && Plain(s.threads[t].op)
    requires s.threads[t].cell < |s.cells| && Unlocked(s, s.threads[t].cell)
    requires s.cells[s.threads[t].cell].version < U64_MAX
    ensures
      var pc := s.threads[t];
      Run(env, s, Steps(t)) &&
      var r := After(env, s, Steps(t));
      r.names == s.names && r.cells == s.cells[pc.cell := Shortcut(pc.op, s.cells[pc.cell])] &&
      r.nextSequence == s.nextSequence + 1 && r.threads == s.threads[t := Finishing]
  {
    hide Exec, Enabled, Run, After, Unlocked, Plain, PlannedAt, LockedAt, ReservedAt, Shortcut;
    var op, c := s.threads[t].op, s.threads[t].cell;
    PlanStep(env, s, t, op, c);
    LockStep(env, s, t, op, c);
    ReserveStep(env, s, t, op, c);
    CommitSteps(env, s, t, op, c);
    var two := [Append(t, true), Mutate(t)];
    RunCons(env, LockedAt(s, t, op, c), Reserve(t), two);
    RunCons(env, PlannedAt(s, t, op, c), Lock(t), [Reserve(t)] + two);
    RunCons(env, s, Plan(t, 0), [Lock(t)] + ([Reserve(t)] + two));
    assert [Plan(t, 0)] + ([Lock(t)] + ([Reserve(t)] + two)) == Steps(t);
  }
}
