/** Live commands one at a time, on collections that are changed in place
    (crates/latlng-core/src/commands.rs). */
module LiveCommands {
  import opened Types
  import opened Fields
  import opened Geometry
  import opened Catalog
  import opened Compaction
  import opened Protocol
  import opened Agreement
  import opened Batches
  import opened Engine
  import Limits
  import Shrink

  /** Replaying the logged batch is applying the planned command. */
  lemma CommitReplays(env: Env, db: Db, op: Op, before: Option<Object>, deadline: Option<nat>, hooks: nat)
    requires Ready(env, op, before, deadline, ObjectsOf(db, op.coll))
    requires op.coll in db.colls || op.SetOp?
    ensures ReplayFrom(env, db, Batch(Commands(op, before, deadline), hooks))
         == WithObjects(db, op.coll, Committed(env, op, before, deadline, ObjectsOf(db, op.coll)).objects)
  {
    var objects := ObjectsOf(db, op.coll);
    assert AgreeObjects(Exactly, objects, objects);
    CommandsLocal(op, before, deadline);
    CommitAgreesIff(env, op, before, deadline, objects, objects, Exactly);
    hide Commands, Committed, Fold, Ready, WithObjects, Batch, ReplayFrom;
    var commands := Commands(op, before, deadline);
    AgreeMeansEqual(Committed(env, op, before, deadline, objects).objects, Fold(env, commands, objects));
    ReplayLocalBatch(env, db, commands, hooks, op.coll);
  }

  lemma AgreeMeansEqual(a: Objects, b: Objects)
    requires AgreeObjects(Exactly, a, b)
    ensures a == b
  {
  }

  /** Applies a planned set in place. */
  method SetObject(store: Store, name: string, o: Object) returns (ok: bool)
    requires store.Valid()
    modifies store`collections, store.collections.Values
    modifies set cell | cell in store.collections.Values :: cell.spatial
    modifies set cell | cell in store.collections.Values :: cell.fieldIndexes
    ensures store.OldOrNew() && ok == Indexable(store.env, o.geo)
    ensures ok ==>
      store.Valid() &&
      store.View() == WithObjects(old(store.View()), name, ObjectsOf(old(store.View()), name)[o.id := o])
    ensures !ok ==>
      store.View() == WithObjects(old(store.View()), name, ObjectsOf(old(store.View()), name)) &&
      (store.Valid() <==> Unindexed(store.env, ObjectsOf(old(store.View()), name), o.id))
  {
    hide Store.Valid, Store.View, WithObjects, Indexable, Unindexed;
    store.SameNames();
    FirstObject(store.View(), name, o);
    store.EnsureCollection(name);
    ok := store.Upsert(name, o);
  }

  lemma FirstObject(db: Db, name: string, o: Object)
    ensures
      var created := WithObjects(db, name, map[]);
      name in created.colls && created.colls[name] == map[] &&
      (name !in db.colls ==>
         WithObjects(created, name, created.colls[name][o.id := o])
           == WithObjects(db, name, ObjectsOf(db, name)[o.id := o])) &&
      (if name in db.colls then WithObjects(db, name, ObjectsOf(db, name)) == db
       else WithObjects(db, name, ObjectsOf(db, name)) == created)
  {
    assert name in db.colls ==> db.colls[name := db.colls[name]] == db.colls;
    OverwriteObjects(db, name, map[], map[o.id := o]);
    assert map[][o.id := o] == map[o.id := o];
  }

  /** Every command other than a set, on the object it was planned for. */
  method ChangeObject(store: Store, op: Op, before: Option<Object>, deadline: Option<nat>)
    requires store.Valid() && !op.SetOp? && !op.EditOp? && op.coll in store.collections
    requires Ready(store.env, op, before, deadline, ObjectsOf(store.View(), op.coll))
    modifies store.collections[op.coll], store.collections[op.coll].spatial, store.collections[op.coll].fieldIndexes
    ensures store.Valid()
    ensures store.View() == WithObjects(old(store.View()), op.coll,
      Committed(store.env, op, before, deadline, ObjectsOf(old(store.View()), op.coll)).objects)
  {
    store.SameNames();
    hide Store.Valid, Store.View, WithObjects, WithFields, WithExpiry;
    match op {
      case DelOp(coll, id) =>
        var _ := store.Remove(coll, id);
      case FsetOp(coll, id, updates) =>
        store.InsertFields(coll, id, updates);
      case ExpireOp(coll, id, _) =>
        store.SetExpiry(coll, id, deadline);
      case PersistOp(coll, id) =>
        store.SetExpiry(coll, id, None);
    }
  }

  /** The edit as `edit_geojson_local` applies it: replace, then clear the deadline,
      unless the new document cannot be indexed. */
  method EditObject(store: Store, op: Op, before: Option<Object>, geo: Geo) returns (ok: bool)
    requires store.Valid() && op.EditOp? && op.coll in store.collections
    requires before == Lookup(ObjectsOf(store.View(), op.coll), op.id) && Proceeds(store.env, op, before)
    requires geo == GeoJson(Edited(store.env, op.edit, before.value.geo.doc).value)
    modifies store.collections[op.coll], store.collections[op.coll].spatial, store.collections[op.coll].fieldIndexes
    ensures store.Valid() && ok == !LosesEnvelope(store.env, op, before)
    ensures store.View() == WithObjects(old(store.View()), op.coll,
      Committed(store.env, op, before, None, ObjectsOf(old(store.View()), op.coll)).objects)
  {
    store.SameNames();
    ghost var db := store.View();
    EditThenClear(store.env, db, op, before, geo);
    hide Store.Valid, Store.View, WithObjects, WithGeo, WithExpiry, Committed, Edited;
    ok := store.ReplaceGeo(op.coll, op.id, geo);
    if ok && before.value.expiresAt.Some? {
      store.SetExpiry(op.coll, op.id, None);
    }
  }

  lemma EditThenClear(env: Env, db: Db, op: Op, before: Option<Object>, geo: Geo)
    requires op.EditOp? && op.coll in db.colls
    requires before == Lookup(ObjectsOf(db, op.coll), op.id) && Proceeds(env, op, before)
    requires geo == GeoJson(Edited(env, op.edit, before.value.geo.doc).value)
    ensures
      var objects := ObjectsOf(db, op.coll);
      op.id in objects &&
      var edited := WithGeo(objects, op.id, geo);
      var stored := WithObjects(db, op.coll, edited);
      op.coll in stored.colls && stored.colls[op.coll] == edited && op.id in edited &&
      var after := WithObjects(db, op.coll, Committed(env, op, before, None, objects).objects);
      if Indexable(env, geo) && before.value.expiresAt.Some?
      then after == WithObjects(stored, op.coll, WithExpiry(edited, op.id, None))
      else after == stored
  {
    var objects := ObjectsOf(db, op.coll);
    var edited := WithGeo(objects, op.id, geo);
    OverwriteObjects(db, op.coll, edited, WithExpiry(edited, op.id, None));
    hide Edited, Envelope;
  }

  // The batch a command logs.

  method CommandsFor(op: Op, before: Option<Object>, deadline: Option<nat>) returns (commands: seq<Command>)
    ensures commands == Commands(op, before, deadline)
  {
    hide MapToEntries;
    match op {
      case SetOp(coll, id, geo, updates, _, _) =>
        var fields := Shrink.FieldEntries(Merged(before, updates));
        commands := [SetPersisted(coll, id, geo, fields, deadline)];
      case DelOp(coll, id) => commands := [Del(coll, id)];
      case FsetOp(coll, id, updates) => commands := [Fset(coll, id, updates)];
      case ExpireOp(coll, id, _) => commands := [ExpireAt(coll, id, if deadline.Some? then deadline.value else 0)];
      case PersistOp(coll, id) => commands := [Persist(coll, id)];
      case EditOp(coll, id, edit) =>
        match edit {
          case JsetEdit(path, value, raw) => commands := [Jset(coll, id, path, value, raw)];
          case JdelEdit(path) => commands := [Jdel(coll, id, path)];
        }
        if before.Some? && before.value.expiresAt.Some? {
          commands := commands + [Persist(coll, id)];
        }
    }
  }

  /** `build_command_batch_records`: the commands, then the webhook records. */
  method BuildBatch(commands: seq<Command>, hooks: nat) returns (records: seq<Record>)
    ensures records == Batch(commands, hooks)
  {
    records := [];
    for i := 0 to |commands|
      invariant |records| == i && forall j :: 0 <= j < i ==> records[j] == Cmd(commands[j])
    {
      records := records + [Cmd(commands[i])];
    }
    for i := 0 to hooks
      invariant |records| == |commands| + i
      invariant forall j :: 0 <= j < |records| ==>
        records[j] == if j < |commands| then Cmd(commands[j]) else Webhook(j)
    {
      records := records + [Webhook(|records|)];
    }
  }

  /** The command finds its collection, and the object allows it. */
  predicate Accepts(env: Env, db: Db, op: Op) {
    (op.coll in db.colls || op.SetOp?) && Proceeds(env, op, Lookup(ObjectsOf(db, op.coll), op.id))
  }

  datatype Outcome = Refused | NotStored | NotIndexable | Done

  /** The database after an accepted command. */
  function Effect(env: Env, db: Db, op: Op, now: nat): Db {
    var objects := ObjectsOf(db, op.coll);
    WithObjects(db, op.coll, Committed(env, op, Lookup(objects, op.id), DeadlineOf(op, now), objects).objects)
  }

  /** The records it logs. */
  ghost function Logs(db: Db, op: Op, now: nat, hooks: nat): seq<Record> {
    Batch(Commands(op, Lookup(ObjectsOf(db, op.coll), op.id), DeadlineOf(op, now)), hooks)
  }

  /** An accepted edit that leaves a document without an envelope. */
  predicate Unstorable(env: Env, db: Db, op: Op) {
    LosesEnvelope(env, op, Lookup(ObjectsOf(db, op.coll), op.id))
  }

  lemma UnstorableMeans(env: Env, db: Db, op: Op)
    ensures Unstorable(env, db, op) == LosesEnvelope(env, op, Lookup(ObjectsOf(db, op.coll), op.id))
    ensures Unstorable(env, db, op) ==> op.EditOp?
    ensures op.EditOp? ==> Stores(env, op)
  {
  }

  lemma LogsMeans(db: Db, op: Op, now: nat, hooks: nat)
    ensures Logs(db, op, now, hooks)
         == Batch(Commands(op, Lookup(ObjectsOf(db, op.coll), op.id), DeadlineOf(op, now)), hooks)
  {
    hide Batch, Commands, Lookup, ObjectsOf, DeadlineOf;
  }

  lemma EffectMeans(env: Env, db: Db, op: Op, now: nat)
    ensures
      var objects := ObjectsOf(db, op.coll);
      Effect(env, db, op, now)
        == WithObjects(db, op.coll, Committed(env, op, Lookup(objects, op.id), DeadlineOf(op, now), objects).objects)
  {
    hide ObjectsOf, Committed, DeadlineOf, WithObjects, Lookup;
  }

  lemma DeadlineIsSome(op: Op, now: nat)
    ensures (op.ExpireOp? ==> DeadlineOf(op, now).Some?) && (op.EditOp? ==> DeadlineOf(op, now) == None)
  {
  }

  class Database {
    const store: Store
    var log: seq<Record>

    /** Collections in memory have exact indexes and are what the log replays to. */
    ghost predicate Valid()
      reads this, store, store.collections.Values
      reads set cell | cell in store.collections.Values :: cell.spatial
      reads set cell | cell in store.collections.Values :: cell.fieldIndexes
    {
      store.Valid() && store.View() == Replay(store.env, log)
    }

    constructor (env: Env)
      ensures Valid() && fresh(store) && log == [] && store.env == env && store.View() == EMPTY
    {
      store := new Store(env);
      log := [];
    }

    /** Set, del, fset, expire, persist and the JSON edits: plan, log, apply. `stored`
        says whether the append succeeds, `hooks` how many webhook records go with it.
        A geometry that cannot be indexed is noticed after logging: a set leaves the
        objects but not the object's own index entries; an edit is stored, and agrees
        with the log exactly if there was no deadline to clear. */
    method Execute(op: Op, now: nat, hooks: nat, stored: bool) returns (r: Outcome)
      requires Valid()
      modifies this`log, store`collections, store.collections.Values
      modifies set cell | cell in store.collections.Values :: cell.spatial
      modifies set cell | cell in store.collections.Values :: cell.fieldIndexes
      ensures store.OldOrNew()
      ensures
        var db := old(store.View());
        if !Accepts(store.env, db, op) then r == Refused && log == old(log) && Valid()
        else if !stored then r == NotStored && log == old(log) && Valid()
        else if !Stores(store.env, op) then
          r == NotIndexable && log == old(log) + Logs(db, op, now, hooks) &&
          store.View() == WithObjects(db, op.coll, ObjectsOf(db, op.coll)) &&
          (store.Valid() <==> Unindexed(store.env, ObjectsOf(db, op.coll), op.id))
        else if Unstorable(store.env, db, op) then
          r == NotIndexable && log == old(log) + Logs(db, op, now, hooks) &&
          store.Valid() && store.View() == Effect(store.env, db, op, now) &&
          (Valid() <==> ObjectsOf(db, op.coll)[op.id].expiresAt.None?)
        else
          r == Done && log == old(log) + Logs(db, op, now, hooks) && Valid() &&
          store.View() == Effect(store.env, db, op, now)
    {
      hide Valid, Store.Valid, Store.View, Proceeds, Commands, Batch, Replay, Committed, Ready, WithObjects, Accepts,
        Unindexed, LosesEnvelope, Unstorable, Merged, Envelope, DeadlineOf, Logs, Effect, Stores, ObjectsOf;
      ghost var db := store.View();
      ValidMeans();
      var accepted, before := Plan(op);
      if !accepted {
        return Refused;
      }
      if !stored {
        return NotStored;
      }
      var deadline := DeadlineOf(op, now);
      DeadlineIsSome(op, now);
      LogsMeans(db, op, now, hooks);
      EffectMeans(store.env, db, op, now);
      var commands := CommandsFor(op, before, deadline);
      var batch := BuildBatch(commands, hooks);
      log := log + batch;
      UnstorableMeans(store.env, db, op);
      if op.EditOp? {
        UnstorableReplays(store.env, db, old(log), op, now, hooks);
      }
      if Stores(store.env, op) && !Unstorable(store.env, db, op) {
        ExecuteReplays(store.env, db, old(log), op, now, hooks);
      }
      var ok := Apply(op, before, deadline);
      r := if ok then Done else NotIndexable;
      ValidMeans();
    }

    lemma ValidMeans()
      ensures Valid() <==> store.Valid() && store.View() == Replay(store.env, log)
    {
      hide Store.Valid, Store.View, Replay;
    }

    /** The plan half: read the object and decide. */
    method Plan(op: Op) returns (accepted: bool, before: Option<Object>)
      requires store.Valid()
      ensures accepted == Accepts(store.env, store.View(), op)
      ensures before == Lookup(ObjectsOf(store.View(), op.coll), op.id)
      ensures accepted ==> (op.coll in store.collections || op.SetOp?) && Proceeds(store.env, op, before)
    {
      hide Store.Valid, Store.View, Proceeds;
      store.SameNames();
      var objects := if op.coll in store.collections then store.collections[op.coll].objects else map[];
      before := Lookup(objects, op.id);
      accepted := (op.coll in store.collections || op.SetOp?) && Proceeds(store.env, op, before);
    }

    /** `create_collection`. */
    method CreateCollection(name: string, stored: bool) returns (r: Outcome)
      requires Valid()
      modifies this`log, store`collections
      ensures Valid() && store.OldOrNew()
      ensures r == if name in old(store.View()).colls then Refused else if stored then Done else NotStored
      ensures store.View() == if r == Done then WithObjects(old(store.View()), name, map[]) else old(store.View())
      ensures log == if r == Done then old(log) + Batch([Command.CreateCollection(name)], 0) else old(log)
    {
      hide Store.Valid, Store.View, Replay, Batch, WithObjects, ApplyCommand;
      store.SameNames();
      if name in store.collections {
        return Refused;
      }
      if !stored {
        return NotStored;
      }
      OneMoreCommand(store.env, log, Command.CreateCollection(name), 0);
      CreateIsWith(store.env, store.View(), Command.CreateCollection(name));
      var batch := BuildBatch([Command.CreateCollection(name)], 0);
      log := log + batch;
      store.EnsureCollection(name);
      r := Done;
    }

    /** `drop_collection`, as far as the log and the objects go. */
    method DropCollection(name: string, hooks: nat, stored: bool) returns (r: Outcome)
      requires Valid()
      modifies this`log, store`collections
      ensures Valid() && store.OldOrNew()
      ensures r == if name !in old(store.View()).colls then Refused else if stored then Done else NotStored
      ensures store.View() ==
        if r == Done then ApplyCommand(store.env, old(store.View()), Command.DropCollection(name)) else old(store.View())
      ensures log == if r == Done then old(log) + Batch([Command.DropCollection(name)], hooks) else old(log)
    {
      hide Store.Valid, Store.View, Replay, Batch, ApplyCommand;
      store.SameNames();
      if name !in store.collections {
        return Refused;
      }
      if !stored {
        return NotStored;
      }
      OneMoreCommand(store.env, log, Command.DropCollection(name), hooks);
      var batch := BuildBatch([Command.DropCollection(name)], hooks);
      log := log + batch;
      store.DropCollection(name);
      r := Done;
    }

    /** `rename_inner`. */
    method RenameCollection(name: string, newName: string, nxOnly: bool, stored: bool) returns (r: Outcome)
      requires Valid()
      modifies this`log, store`collections
      ensures Valid() && store.OldOrNew()
      ensures
        var colls := old(store.View()).colls;
        r == if (nxOnly && newName in colls) || name !in colls then Refused else if stored then Done else NotStored
      ensures store.View() ==
        if r == Done then ApplyCommand(store.env, old(store.View()), Rename(name, newName)) else old(store.View())
      ensures log == if r == Done then old(log) + Batch([Rename(name, newName)], 0) else old(log)
    {
      hide Store.Valid, Store.View, Replay, Batch, ApplyCommand;
      store.SameNames();
      if (nxOnly && newName in store.collections) || name !in store.collections {
        return Refused;
      }
      if !stored {
        return NotStored;
      }
      OneMoreCommand(store.env, log, Rename(name, newName), 0);
      var batch := BuildBatch([Rename(name, newName)], 0);
      log := log + batch;
      store.RenameCollection(name, newName);
      r := Done;
    }

    /** The apply half; it fails where there is nothing to index. */
    method Apply(op: Op, before: Option<Object>, deadline: Option<nat>) returns (ok: bool)
      requires store.Valid() && (op.coll in store.collections || op.SetOp?)
      requires before == Lookup(ObjectsOf(store.View(), op.coll), op.id) && Proceeds(store.env, op, before)
      requires (op.ExpireOp? ==> deadline.Some?) && (op.EditOp? ==> deadline == None)
      modifies store`collections, store.collections.Values
      modifies set cell | cell in store.collections.Values :: cell.spatial
      modifies set cell | cell in store.collections.Values :: cell.fieldIndexes
      ensures store.OldOrNew() && ok == (Stores(store.env, op) && !LosesEnvelope(store.env, op, before))
      ensures Stores(store.env, op) ==>
        store.Valid() && store.View() == WithObjects(old(store.View()), op.coll,
          Committed(store.env, op, before, deadline, ObjectsOf(old(store.View()), op.coll)).objects)
      ensures !Stores(store.env, op) ==>
        store.View() == WithObjects(old(store.View()), op.coll, ObjectsOf(old(store.View()), op.coll)) &&
        (store.Valid() <==> Unindexed(store.env, ObjectsOf(old(store.View()), op.coll), op.id))
    {
      hide Store.Valid, Store.View, WithObjects, Edited, Merged, Unindexed, Envelope;
      ok := true;
      if op.SetOp? {
        ok := SetObject(store, op.coll, Object(op.id, op.geo, Merged(before, op.updates), deadline));
      } else if op.EditOp? {
        hide Committed;
        ok := EditObject(store, op, before, GeoJson(Edited(store.env, op.edit, before.value.geo.doc).value));
      } else {
        hide Committed;
        ChangeObject(store, op, before, deadline);
      }
    }
  }

  /** Logging one command, with webhook records, extends the replay by it. */
  lemma OneMoreCommand(env: Env, log: seq<Record>, c: Command, hooks: nat)
    ensures Replay(env, log + Batch([c], hooks)) == ApplyCommand(env, Replay(env, log), c)
  {
    hide ReplayFrom, Batch, ApplyCommand;
    ReplayConcat(env, EMPTY, log, Batch([c], hooks));
    ReplaySingleBatch(env, Replay(env, log), c, hooks);
  }

  /** Logging an accepted edit extends the replay by its effect exactly if its document
      has an envelope or there was no deadline to clear. */
  lemma UnstorableReplays(env: Env, db: Db, log: seq<Record>, op: Op, now: nat, hooks: nat)
    requires db == Replay(env, log) && Accepts(env, db, op) && op.EditOp?
    ensures op.id in ObjectsOf(db, op.coll)
    ensures Replay(env, log + Logs(db, op, now, hooks)) == Effect(env, db, op, now) <==>
      !Unstorable(env, db, op) || ObjectsOf(db, op.coll)[op.id].expiresAt.None?
  {
    var objects := ObjectsOf(db, op.coll);
    var before := Lookup(objects, op.id);
    assert op == EditOp(op.coll, op.id, op.edit) && DeadlineOf(op, now) == None;
    Limits.EditAgreesIff(env, op.coll, op.id, op.edit, before, objects);
    CommandsLocal(op, before, None);
    hide ReplayFrom, Committed, Commands, Batch, Fold, LosesEnvelope;
    ReplayLocalBatch(env, db, Commands(op, before, None), hooks, op.coll);
    ReplayConcat(env, EMPTY, log, Logs(db, op, now, hooks));
    SameIffObjects(db, op.coll, Committed(env, op, before, None, objects).objects, Fold(env, Commands(op, before, None), objects));
  }

  lemma SameIffObjects(db: Db, coll: string, a: Objects, b: Objects)
    ensures WithObjects(db, coll, a) == WithObjects(db, coll, b) <==> a == b
  {
    assert WithObjects(db, coll, a).colls[coll] == a && WithObjects(db, coll, b).colls[coll] == b;
  }

  /** Logging an accepted command extends the replay by its effect. */
  lemma ExecuteReplays(env: Env, db: Db, log: seq<Record>, op: Op, now: nat, hooks: nat)
    requires db == Replay(env, log) && Accepts(env, db, op) && Stores(env, op) && !Unstorable(env, db, op)
    ensures Replay(env, log + Logs(db, op, now, hooks)) == Effect(env, db, op, now)
    ensures Ready(env, op, Lookup(ObjectsOf(db, op.coll), op.id), DeadlineOf(op, now), ObjectsOf(db, op.coll))
  {
    var before := Lookup(ObjectsOf(db, op.coll), op.id);
    hide ReplayFrom, Proceeds, Committed, Commands, Batch, WithObjects, Stores;
    CommitReplays(env, db, op, before, DeadlineOf(op, now), hooks);
    ReplayConcat(env, EMPTY, log, Logs(db, op, now, hooks));
  }
}
