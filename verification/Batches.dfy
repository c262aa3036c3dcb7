/** Replaying a whole batch: a local one changes one collection, an exclusive
    one applies its command; webhook records change nothing. */
module Batches {
  import opened Types
  import opened Geometry
  import opened Catalog
  import opened Compaction
  import opened Protocol
  import opened Agreement

  lemma {:induction false} WebhooksDoNothing(env: Env, db: Db, commands: seq<Command>, hooks: nat)
    ensures ReplayFrom(env, db, Batch(commands, hooks)) == ReplayFrom(env, db, Batch(commands, 0))
  {
    if hooks > 0 {
      WebhooksDoNothing(env, db, commands, hooks - 1);
      var b := Batch(commands, hooks);
      assert b[..|b| - 1] == Batch(commands, hooks - 1);
    }
  }

  lemma {:induction false} ReplayCommands(env: Env, db: Db, commands: seq<Command>, coll: string)
    requires LocalTo(commands, coll) && commands != []
    requires coll in db.colls || commands[0].SetPersisted?
    ensures ReplayFrom(env, db, Batch(commands, 0)) == WithObjects(db, coll, Fold(env, commands, ObjectsOf(db, coll)))
  {
    var n := |commands| - 1;
    var init, last := commands[..n], commands[n];
    var b := Batch(commands, 0);
    assert b[..n] == Batch(init, 0);
    assert b[n] == Cmd(last);
    if n == 0 {
      assert ReplayFrom(env, db, Batch(init, 0)) == db;
      assert init == [];
      FoldOne(env, last, ObjectsOf(db, coll));
      assert commands == [last];
      ApplyLocalStores(env, db, last);
    } else {
      ReplayCommands(env, db, init, coll);
      var mid := WithObjects(db, coll, Fold(env, init, ObjectsOf(db, coll)));
      ApplyLocalStores(env, mid, last);
      OverwriteObjects(db, coll, Fold(env, init, ObjectsOf(db, coll)), Fold(env, commands, ObjectsOf(db, coll)));
    }
  }

  lemma ApplyLocalStores(env: Env, db: Db, c: Command)
    requires IsLocal(c) && (c.coll in db.colls || c.SetPersisted?)
    ensures Apply(env, db, Cmd(c)) == WithObjects(db, c.coll, ApplyToObjects(env, c, ObjectsOf(db, c.coll)))
  {
    hide ApplyToObjects;
  }

  lemma OverwriteObjects(db: Db, coll: string, a: Objects, b: Objects)
    ensures WithObjects(WithObjects(db, coll, a), coll, b) == WithObjects(db, coll, b)
    ensures ObjectsOf(WithObjects(db, coll, a), coll) == a
  {
    assert db.colls[coll := a][coll := b] == db.colls[coll := b];
  }

  lemma {:induction false} ReplayLocalBatch(env: Env, db: Db, commands: seq<Command>, hooks: nat, coll: string)
    requires LocalTo(commands, coll) && commands != []
    requires coll in db.colls || commands[0].SetPersisted?
    ensures ReplayFrom(env, db, Batch(commands, hooks)) == WithObjects(db, coll, Fold(env, commands, ObjectsOf(db, coll)))
  {
    hide *;
    WebhooksDoNothing(env, db, commands, hooks);
    ReplayCommands(env, db, commands, coll);
  }

  lemma {:induction false} ReplaySingleBatch(env: Env, db: Db, c: Command, hooks: nat)
    ensures ReplayFrom(env, db, Batch([c], hooks)) == ApplyCommand(env, db, c)
  {
    hide ApplyCommand;
    WebhooksDoNothing(env, db, [c], hooks);
    var b := Batch([c], 0);
    assert b[..0] == [];
  }

  /** Appending a numbered batch to the log replays it on top. */
  lemma {:induction false} ReplayAppended(env: Env, log: seq<Entry>, first: nat, batch: seq<Record>)
    ensures Replay(env, Records(log + Numbered(first, batch))) == ReplayFrom(env, Replay(env, Records(log)), batch)
  {
    assert Records(log + Numbered(first, batch)) == Records(log) + batch;
    ReplayConcat(env, EMPTY, Records(log), batch);
  }

  // A local commit at the level of the database.

  /** The relation every reachable state keeps between memory and log. */
  ghost predicate Corresponds(env: Env, p: Bound, live: Db, replayed: Db) {
    AgreeDb(p, live, replayed) && DbOk(env, live) && DbOk(env, replayed)
  }

  lemma {:induction false} AgreeWithObjects(p: Bound, live: Db, replayed: Db, coll: string, a: Objects, b: Objects)
    requires AgreeDb(p, live, replayed) && AgreeObjects(p, a, b)
    ensures AgreeDb(p, WithObjects(live, coll, a), WithObjects(replayed, coll, b))
  {
    hide AgreeObjects;
  }

  lemma {:induction false} OkWithObjects(env: Env, db: Db, coll: string, a: Objects)
    requires DbOk(env, db) && ObjectsOk(env, a)
    ensures DbOk(env, WithObjects(db, coll, a))
  {
    hide ObjectsOk;
  }

  lemma {:induction false} CorrespondsWithObjects(
      env: Env, p: Bound, live: Db, replayed: Db, coll: string, a: Objects, b: Objects)
    requires Corresponds(env, p, live, replayed)
    requires AgreeObjects(p, a, b) && ObjectsOk(env, a) && ObjectsOk(env, b)
    ensures Corresponds(env, p, WithObjects(live, coll, a), WithObjects(replayed, coll, b))
  {
    hide AgreeObjects, ObjectsOk, WithObjects;
    AgreeWithObjects(p, live, replayed, coll, a, b);
    OkWithObjects(env, live, coll, a);
    OkWithObjects(env, replayed, coll, b);
  }

  lemma {:induction false} LocalBatchAgrees(
      env: Env, op: Op, before: Option<Object>, deadline: Option<nat>, hooks: nat,
      live: Db, replayed: Db, p: Bound)
    requires Ready(env, op, before, deadline, ObjectsOf(live, op.coll))
    requires Corresponds(env, p, live, replayed) && (op.coll in live.colls || op.SetOp?)
    requires !RevivesOn(p, op, before, deadline, ObjectsOf(replayed, op.coll))
    ensures var c := Committed(env, op, before, deadline, ObjectsOf(live, op.coll));
            Corresponds(env, p, WithObjects(live, op.coll, c.objects),
                        ReplayFrom(env, replayed, Batch(Commands(op, before, deadline), hooks)))
  {
    CommandsLocal(op, before, deadline);
    var commands := Commands(op, before, deadline);
    var a, b := ObjectsOf(live, op.coll), ObjectsOf(replayed, op.coll);
    CommitAgreesIff(env, op, before, deadline, a, b, p);
    CommitKeepsOk(env, op, before, deadline, a);
    ReplayKeepsOk(env, op, before, deadline, a, b, p);
    hide Commands, Committed, Fold, Proceeds, WithObjects, Envelope, RevivesOn;
    ReplayLocalBatch(env, replayed, commands, hooks, op.coll);
    CorrespondsWithObjects(env, p, live, replayed, op.coll,
                           Committed(env, op, before, deadline, a).objects, Fold(env, commands, b));
  }
}
