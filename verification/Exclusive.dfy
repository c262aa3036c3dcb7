/** Steps under the exclusive gate, log rewriting, clock and restart keep the invariant. */
module Exclusive {
  import opened Types
  import opened Geometry
  import opened Catalog
  import opened Compaction
  import opened Protocol
  import opened Agreement
  import opened Batches
  import opened Invariant

  // The live effect of an exclusive command on the database.

  ghost predicate OwnCells(names: map<string, nat>, cells: seq<Cell>) {
    (forall n :: n in names ==> names[n] < |cells|) &&
    (forall m, n :: m in names && n in names && m != n ==> names[m] != names[n])
  }

  lemma ContentsUpdated(names: map<string, nat>, cells: seq<Cell>, coll: string, cell: Cell)
    requires OwnCells(names, cells) && coll in names
    ensures Contents(names, cells[names[coll] := cell]) == Contents(names, cells)[coll := cell.objects]
  {
  }

  lemma ContentsCreated(names: map<string, nat>, cells: seq<Cell>, coll: string, cell: Cell)
    requires OwnCells(names, cells) && coll !in names
    ensures OwnCells(names[coll := |cells|], cells + [cell])
    ensures Contents(names[coll := |cells|], cells + [cell]) == Contents(names, cells)[coll := cell.objects]
  {
  }

  lemma ContentsRenamed(names: map<string, nat>, cells: seq<Cell>, coll: string, newName: string, version: nat)
    requires OwnCells(names, cells) && coll in names
    ensures var c := names[coll];
            OwnCells((names - {coll})[newName := c], cells[c := cells[c].(version := version)]) &&
            Contents((names - {coll})[newName := c], cells[c := cells[c].(version := version)])
              == Renamed(Contents(names, cells), coll, newName)
  {
    var c := names[coll];
    var after := Contents((names - {coll})[newName := c], cells[c := cells[c].(version := version)]);
    assert after.Keys == Renamed(Contents(names, cells), coll, newName).Keys;
  }

  lemma ContentsDropped(names: map<string, nat>, cells: seq<Cell>, coll: string)
    requires OwnCells(names, cells)
    ensures OwnCells(names - {coll}, cells)
    ensures Contents(names - {coll}, cells) == Contents(names, cells) - {coll}
  {
  }

  ghost function XEffect(env: Env, db: Db, x: XOp, before: Option<Object>, deadline: Option<nat>): Db {
    match x
    case XLocal(op) => WithObjects(db, op.coll, Committed(env, op, before, deadline, ObjectsOf(db, op.coll)).objects)
    case XCreate(coll) => WithObjects(db, coll, map[])
    case XDrop(coll) => db.(colls := db.colls - {coll})
    case XRename(coll, newName, _) => db.(colls := Renamed(db.colls, coll, newName))
    case XSetChannel(name, def) => db.(channels := db.channels[name := def])
    case XDelChannel(name) => db.(channels := db.channels - {name})
    case XPDelChannel(pattern) => db.(channels := db.channels - Matching(env, pattern, db.channels))
    case XSetHook(name, endpoint, def) => db.(hooks := db.hooks[name := Hook(endpoint, def)])
    case XDelHook(name) => db.(hooks := db.hooks - {name})
    case XPDelHook(pattern) => db.(hooks := db.hooks - Matching(env, pattern, db.hooks))
    case XFlush => EMPTY
  }

  ghost predicate SameLog(s: State, r: State) {
    r.log == s.log && r.nextSequence == s.nextSequence && r.clock == s.clock && r.drift == s.drift &&
    r.threads == s.threads
  }

  ghost predicate AppliesAs(env: Env, s: State, x: XOp, before: Option<Object>, deadline: Option<nat>) {
    var r := ApplyX(env, s, x, before, deadline);
    NamesOk(r) && SameLog(s, r) && View(r) == XEffect(env, View(s), x, before, deadline)
  }

  lemma {:induction false} ViewOfLocal(env: Env, s: State, op: Op, before: Option<Object>, deadline: Option<nat>)
    requires NamesOk(s) && (op.coll in s.names || op.SetOp?)
    ensures AppliesAs(env, s, XLocal(op), before, deadline)
  {
    if op.coll in s.names {
      ViewOfUpdate(env, s, op, before, deadline);
    } else {
      ViewOfFirstSet(env, s, op, before, deadline);
    }
  }

  lemma {:induction false} ViewOfUpdate(env: Env, s: State, op: Op, before: Option<Object>, deadline: Option<nat>)
    requires NamesOk(s) && op.coll in s.names
    ensures AppliesAs(env, s, XLocal(op), before, deadline)
  {
    hide Committed;
    var cell := s.cells[s.names[op.coll]];
    ContentsUpdated(s.names, s.cells, op.coll, CellAfter(cell, Committed(env, op, before, deadline, cell.objects)));
  }

  lemma {:induction false} ViewOfFirstSet(env: Env, s: State, op: Op, before: Option<Object>, deadline: Option<nat>)
    requires NamesOk(s) && op.coll !in s.names && op.SetOp?
    ensures AppliesAs(env, s, XLocal(op), before, deadline)
  {
    hide Committed;
    ContentsCreated(s.names, s.cells, op.coll, CellAfter(Cell(0, map[]), Committed(env, op, before, deadline, map[])));
  }

  lemma {:induction false} ViewOfCreate(env: Env, s: State, coll: string)
    requires NamesOk(s) && coll !in s.names
    ensures AppliesAs(env, s, XCreate(coll), None, None)
  {
    ContentsCreated(s.names, s.cells, coll, Cell(0, map[]));
    hide Contents;
  }

  lemma {:induction false} ViewOfRename(env: Env, s: State, coll: string, newName: string, nxOnly: bool)
    requires NamesOk(s) && coll in s.names
    ensures AppliesAs(env, s, XRename(coll, newName, nxOnly), None, None)
  {
    ContentsRenamed(s.names, s.cells, coll, newName, Bumped(s.cells[s.names[coll]].version));
    hide Contents;
  }

  lemma {:induction false} ViewOfDrop(env: Env, s: State, coll: string)
    requires NamesOk(s)
    ensures AppliesAs(env, s, XDrop(coll), None, None)
  {
    ContentsDropped(s.names, s.cells, coll);
    hide Contents;
  }

  lemma {:induction false} ViewOfFlush(env: Env, s: State)
    ensures AppliesAs(env, s, XFlush, None, None)
  {
    assert Contents(map[], s.cells) == map[];
  }

  predicate IsFence(x: XOp) {
    x.XSetChannel? || x.XDelChannel? || x.XPDelChannel? || x.XSetHook? || x.XDelHook? || x.XPDelHook?
  }

  lemma {:induction false} ViewOfFence(env: Env, s: State, x: XOp)
    requires NamesOk(s) && IsFence(x)
    ensures AppliesAs(env, s, x, None, None)
  {
    hide Committed, Matching;
    hide Contents;
  }

  lemma {:induction false} ViewOfApplyX(env: Env, s: State, x: XOp, before: Option<Object>, deadline: Option<nat>)
    requires NamesOk(s) && XProceeds(env, View(s), x) && before == Before(View(s), x)
    requires !x.XLocal? ==> deadline == None
    ensures AppliesAs(env, s, x, before, deadline)
  {
    hide AppliesAs;
    if x.XLocal? {
      ViewOfLocal(env, s, x.op, before, deadline);
    } else if IsFence(x) {
      ViewOfFence(env, s, x);
    } else {
      match x {
        case XCreate(coll) => ViewOfCreate(env, s, coll);
        case XRename(coll, newName, nxOnly) => ViewOfRename(env, s, coll, newName, nxOnly);
        case XDrop(coll) => ViewOfDrop(env, s, coll);
        case XFlush => ViewOfFlush(env, s);
      }
    }
  }

  ghost predicate ReplaysAs(
      env: Env, x: XOp, before: Option<Object>, deadline: Option<nat>, hooks: nat, live: Db, replayed: Db, p: Bound) {
    Corresponds(env, p, XEffect(env, live, x, before, deadline),
                ReplayFrom(env, replayed, Batch(XCommands(x, before, deadline), hooks)))
  }

  lemma {:induction false} CollectionCommandAgrees(
      env: Env, x: XOp, hooks: nat, live: Db, replayed: Db, p: Bound)
    requires (x.XCreate? && x.coll !in live.colls) || x.XDrop? || (x.XRename? && x.coll in live.colls) || x.XFlush?
    requires Corresponds(env, p, live, replayed)
    ensures ReplaysAs(env, x, None, None, hooks, live, replayed, p)
  {
    assert live.colls.Keys == replayed.colls.Keys;
    hide ObjectsOk, AgreeObjects, Corresponds, ReplayFrom, Batch;
    var c := XCommands(x, None, None)[0];
    ReplaySingleBatch(env, replayed, c, hooks);
    match x {
      case XCreate(coll) =>
        EmptyCorresponds(env, p);
        CorrespondsWithObjects(env, p, live, replayed, coll, map[], map[]);
      case XRename(coll, newName, _) =>
        RenameAgrees(env, p, live, replayed, coll, newName);
      case XDrop(coll) =>
        DropAgrees(env, p, live, replayed, coll);
      case XFlush =>
        FlushAgrees(env, p);
    }
  }

  lemma DropAgrees(env: Env, p: Bound, live: Db, replayed: Db, coll: string)
    requires Corresponds(env, p, live, replayed)
    ensures Corresponds(env, p, live.(colls := live.colls - {coll}), replayed.(colls := replayed.colls - {coll}))
  {
    hide ObjectsOk, AgreeObjects, Evaluable;
  }

  lemma FlushAgrees(env: Env, p: Bound)
    ensures Corresponds(env, p, EMPTY, EMPTY)
  {
  }

  lemma EmptyCorresponds(env: Env, p: Bound)
    ensures AgreeObjects(p, map[], map[]) && ObjectsOk(env, map[])
  {
  }

  lemma {:induction false} FencesCorrespond(
      env: Env, p: Bound, live: Db, replayed: Db, channels: map<string, GeofenceDef>, hooks: map<string, Hook>)
    requires Corresponds(env, p, live, replayed) && FencesEvaluable(Db(map[], channels, hooks))
    ensures Corresponds(env, p, live.(channels := channels, hooks := hooks), replayed.(channels := channels, hooks := hooks))
  {
    hide ObjectsOk, AgreeObjects;
  }

  lemma {:induction false} FenceCommandReplay(env: Env, x: XOp, db: Db)
    requires IsFence(x) && XProceeds(env, db, x) && FencesEvaluable(db)
    ensures var c := XCommands(x, None, None)[0];
            XCommands(x, None, None) == [c] && ApplyCommand(env, db, c) == XEffect(env, db, x, None, None)
    ensures FencesEvaluable(XEffect(env, db, x, None, None)) && XEffect(env, db, x, None, None).colls == db.colls
  {
    hide Evaluable, Matching, FencesEvaluable;
    FenceEffectEvaluable(env, x, db);
  }

  lemma {:induction false} FenceEffectEvaluable(env: Env, x: XOp, db: Db)
    requires IsFence(x) && XProceeds(env, db, x) && FencesEvaluable(db)
    ensures FencesEvaluable(XEffect(env, db, x, None, None))
  {
    hide Evaluable, Matching, Committed;
  }

  lemma FenceProceedsEither(env: Env, x: XOp, live: Db, replayed: Db)
    requires IsFence(x) && XProceeds(env, live, x)
    requires live.channels == replayed.channels && live.hooks == replayed.hooks
    ensures XProceeds(env, replayed, x)
  {
  }

  lemma {:induction false} FenceCommandAgrees(env: Env, x: XOp, hooks: nat, live: Db, replayed: Db, p: Bound)
    requires IsFence(x) && XProceeds(env, live, x) && Corresponds(env, p, live, replayed)
    ensures ReplaysAs(env, x, None, None, hooks, live, replayed, p)
  {
    hide ApplyCommand, ObjectsOk, AgreeObjects, Evaluable, ReplayFrom, Batch;
    var l, r := XEffect(env, live, x, None, None), XEffect(env, replayed, x, None, None);
    assert l.channels == r.channels && l.hooks == r.hooks;
    FenceProceedsEither(env, x, live, replayed);
    hide XEffect, XProceeds;
    FenceCommandReplay(env, x, live);
    FenceCommandReplay(env, x, replayed);
    hide XCommands;
    ReplaySingleBatch(env, replayed, XCommands(x, None, None)[0], hooks);
    FencesCorrespond(env, p, live, replayed, l.channels, l.hooks);
  }

  lemma {:induction false} XEffectAgrees(
      env: Env, x: XOp, before: Option<Object>, deadline: Option<nat>, hooks: nat, live: Db, replayed: Db, p: Bound)
    requires XProceeds(env, live, x) && before == Before(live, x)
    requires x.XLocal? ==> Stores(env, x.op)
    requires !x.XLocal? ==> deadline == None
    requires Corresponds(env, p, live, replayed)
    ensures ReplaysAs(env, x, before, deadline, hooks, live, replayed, p)
  {
    hide Corresponds, ReplayFrom, Batch, Committed, Commands;
    if x.XLocal? {
      LocalBatchAgrees(env, x.op, before, deadline, hooks, live, replayed, p);
    } else if x.XCreate? || x.XDrop? || x.XRename? || x.XFlush? {
      CollectionCommandAgrees(env, x, hooks, live, replayed, p);
    } else {
      FenceCommandAgrees(env, x, hooks, live, replayed, p);
    }
  }

  lemma {:induction false} RenameAgrees(env: Env, p: Bound, live: Db, replayed: Db, coll: string, newName: string)
    requires Corresponds(env, p, live, replayed) && coll in live.colls
    ensures Corresponds(env, p, live.(colls := Renamed(live.colls, coll, newName)),
                        replayed.(colls := Renamed(replayed.colls, coll, newName)))
  {
    hide AgreeObjects, ObjectsOk;
  }
}
