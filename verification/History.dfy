/** How memory and log drift apart over a run: what drops objects without a log
    entry, what revives an object the log has lost, and what rebuilds one from the
    other. */
module History {
  import opened Geometry
  import opened Catalog
  import opened Compaction
  import opened Protocol
  import opened ExclusiveSteps

  /** Steps that drop objects from memory or from the log without an entry. */
  ghost predicate Drops(s: State, step: Step) {
    step.Gc? || step.Restart? || (step.Shrink? && !NothingDue(View(s), s.clock))
  }

  /** Steps after which memory and log are rebuilt from one another. */
  predicate Rebuilds(step: Step) {
    step.Restart? || step.Shrink? || (step.ClearLog? && step.ok)
  }

  ghost predicate RevivingStep(env: Env, s: State, step: Step) {
    step.Append? && step.ok && step.t < |s.threads| && s.threads[step.t].Reserved? && Revives(env, s, s.threads[step.t])
  }

  /** How a step changes the drift: exactly after a reviving append with no restart,
      rewrite or flush since a state counts as revived, and exactly after a drop or a
      revival as drifted. */
  ghost predicate Drifts(env: Env, s: State, step: Step, r: State) {
    (r.drift == Revived <==> RevivingStep(env, s, step) || (s.drift == Revived && !Rebuilds(step))) &&
    (r.drift != Same <==> Drops(s, step) || RevivingStep(env, s, step) || (s.drift != Same && !Rebuilds(step)))
  }

  lemma {:induction false} LocalDrifts(env: Env, s: State, step: Step, t: nat)
    requires t < |s.threads| && EnabledLocal(env, s, step, s.threads[t]) && !step.Tick? && !step.Restart? && step.t == t
    ensures Drifts(env, s, step, ExecLocal(env, s, step, t))
  {
    hide Commands, Batch, Committed, Revives, NothingDue, Proceeds, Unlocked, NoneExclusive, Stores, DeadlineOf, View;
  }

  lemma {:induction false} ExclusiveDrifts(env: Env, s: State, step: Step, t: nat)
    requires t < |s.threads| && EnabledExclusive(env, s, step, s.threads[t]) && !step.Tick? && !step.Restart? && step.t == t
    ensures Drifts(env, s, step, ExecExclusive(env, s, step, t))
  {
    hide XCommands, Batch, Snapshot, SweptCells, Revives, NothingDue, XProceeds, View, Before, ApplyX, NoneShared,
      NoneExclusive;
    if step.MutateX? {
      ApplyXKeeps(env, s, s.threads[t].x, s.threads[t].before, s.threads[t].deadline);
    }
  }

  lemma {:induction false} DriftExplained(env: Env, s: State, step: Step)
    requires Enabled(env, s, step)
    ensures Drifts(env, s, step, Exec(env, s, step))
  {
    hide EnabledLocal, EnabledExclusive, ExecLocal, ExecExclusive, EnabledRestart, Revives, NothingDue, Replay, View;
    if !step.Tick? && !step.Restart? {
      hide Drifts;
      if EnabledLocal(env, s, step, s.threads[step.t]) {
        LocalDrifts(env, s, step, step.t);
      } else {
        ExclusiveDrifts(env, s, step, step.t);
      }
    }
  }

  // Over runs.

  /** The state before the `i`-th step. */
  ghost function StateAt(env: Env, s: State, steps: seq<Step>, i: nat): State
    requires Run(env, s, steps) && i <= |steps|
    decreases i
  {
    if i == 0 then s else StateAt(env, Exec(env, s, steps[0]), steps[1..], i - 1)
  }

  /** Nothing is rebuilt from the `i`-th step on. */
  ghost predicate Kept(steps: seq<Step>, i: nat) {
    forall j :: i <= j < |steps| ==> !Rebuilds(steps[j])
  }

  datatype Mark = Drop | Revival

  ghost predicate Hits(env: Env, mark: Mark, s: State, step: Step) {
    if mark.Drop? then Drops(s, step) else RevivingStep(env, s, step)
  }

  /** Some step was of the given kind and nothing was rebuilt since. */
  ghost predicate Since(env: Env, mark: Mark, s: State, steps: seq<Step>)
    requires Run(env, s, steps)
  {
    exists i :: 0 <= i < |steps| && Hits(env, mark, StateAt(env, s, steps, i), steps[i]) && Kept(steps, i + 1)
  }

  /** Some append revived an object and nothing was rebuilt since. */
  ghost predicate RevivedSince(env: Env, s: State, steps: seq<Step>)
    requires Run(env, s, steps)
  {
    Since(env, Revival, s, steps)
  }

  /** Some step dropped objects without a log entry and nothing was rebuilt since. */
  ghost predicate DroppedSince(env: Env, s: State, steps: seq<Step>)
    requires Run(env, s, steps)
  {
    Since(env, Drop, s, steps)
  }

  lemma {:induction false} KeptCons(steps: seq<Step>, i: nat)
    requires i < |steps|
    ensures Kept(steps, i + 1) <==> Kept(steps[1..], i)
    ensures Kept(steps, 0) <==> !Rebuilds(steps[0]) && Kept(steps[1..], 0)
  {
    hide Rebuilds;
    forall j | 0 <= j < |steps[1..]| ensures steps[1..][j] == steps[j + 1] {
    }
    if Kept(steps[1..], i) {
      forall j | i + 1 <= j < |steps| ensures !Rebuilds(steps[j]) {
        assert steps[1..][j - 1] == steps[j];
      }
    }
    if !Rebuilds(steps[0]) && Kept(steps[1..], 0) {
      forall j | 0 <= j < |steps| ensures !Rebuilds(steps[j]) {
        assert j > 0 ==> steps[1..][j - 1] == steps[j];
      }
    }
  }

  lemma {:induction false} SinceCons(env: Env, mark: Mark, s: State, steps: seq<Step>)
    requires Run(env, s, steps) && steps != []
    ensures Since(env, mark, s, steps) <==>
      (Hits(env, mark, s, steps[0]) && Kept(steps[1..], 0)) || Since(env, mark, Exec(env, s, steps[0]), steps[1..])
  {
    hide Hits, Kept, Exec, Enabled;
    var rest, r := steps[1..], Exec(env, s, steps[0]);
    KeptCons(steps, 0);
    if Since(env, mark, r, rest) {
      var i :| 0 <= i < |rest| && Hits(env, mark, StateAt(env, r, rest, i), rest[i]) && Kept(rest, i + 1);
      KeptCons(steps, i + 1);
      assert Hits(env, mark, StateAt(env, s, steps, i + 1), steps[i + 1]);
    }
    if Since(env, mark, s, steps) {
      var i :| 0 <= i < |steps| && Hits(env, mark, StateAt(env, s, steps, i), steps[i]) && Kept(steps, i + 1);
      KeptCons(steps, i);
      if i > 0 {
        assert Hits(env, mark, StateAt(env, r, rest, i - 1), rest[i - 1]) && Kept(rest, i - 1 + 1);
      }
    }
    if Hits(env, mark, s, steps[0]) && Kept(rest, 0) {
      assert Hits(env, mark, StateAt(env, s, steps, 0), steps[0]);
    }
  }

  /** The drift after any run, from any state. */
  lemma {:induction false} DriftAfter(env: Env, s: State, steps: seq<Step>)
    requires Run(env, s, steps)
    ensures After(env, s, steps).drift == Revived <==>
      RevivedSince(env, s, steps) || (s.drift == Revived && Kept(steps, 0))
    ensures After(env, s, steps).drift != Same <==>
      DroppedSince(env, s, steps) || (s.drift != Same && Kept(steps, 0))
    decreases |steps|
  {
    if steps != [] {
      var r, rest := Exec(env, s, steps[0]), steps[1..];
      DriftAfter(env, r, rest);
      DriftExplained(env, s, steps[0]);
      if RevivingStep(env, s, steps[0]) {
        RevivalNeedsDrift(env, s, steps[0]);
      }
      SinceCons(env, Revival, s, steps);
      SinceCons(env, Drop, s, steps);
      KeptCons(steps, 0);
      hide Since, Kept, Exec, Enabled, Drops, RevivingStep, Rebuilds;
    }
  }

  lemma RevivalNeedsDrift(env: Env, s: State, step: Step)
    requires RevivingStep(env, s, step)
    ensures s.drift != Same && !Rebuilds(step)
  {
  }

  /** In every run: the state counts as revived exactly if some append revived an object
      and no restart, rewrite or flush came since. */
  lemma RevivedIff(env: Env, s0: State, steps: seq<Step>)
    requires s0.drift == Same && Run(env, s0, steps)
    ensures After(env, s0, steps).drift == Revived <==> RevivedSince(env, s0, steps)
  {
    DriftAfter(env, s0, steps);
  }

  /** In every run: the state counts as drifted exactly if a sweep, a restart or a rewrite
      with due objects dropped some and no rebuild came since. */
  lemma DroppedIff(env: Env, s0: State, steps: seq<Step>)
    requires s0.drift == Same && Run(env, s0, steps)
    ensures After(env, s0, steps).drift != Same <==> DroppedSince(env, s0, steps)
  {
    DriftAfter(env, s0, steps);
  }
}
