/** One committed command has the same effect in memory and on replay. */
module Agreement {
  import opened Types
  import opened Fields
  import opened Geometry
  import opened Catalog
  import opened Compaction
  import opened Protocol

  /** How two sets of objects may differ: not at all, in objects that are past
      their deadline at `time`, or also in live objects that replay lacks. */
  datatype Bound = Exactly | Until(time: nat) | Lossy(time: nat)

  /** Objects on both sides are equal; the others are within the bound. */
  ghost predicate AgreeObjects(p: Bound, live: Objects, replayed: Objects) {
    (forall id :: id in live && id in replayed ==> live[id] == replayed[id]) &&
    (forall id :: id in replayed && id !in live ==> !p.Exactly? && Expired(replayed[id], p.time)) &&
    (forall id :: id in live && id !in replayed ==> !p.Exactly? && (p.Lossy? || Expired(live[id], p.time)))
  }

  ghost predicate AgreeDb(p: Bound, live: Db, replayed: Db) {
    live.colls.Keys == replayed.colls.Keys &&
    (forall n :: n in live.colls ==> AgreeObjects(p, live.colls[n], replayed.colls[n])) &&
    live.channels == replayed.channels && live.hooks == replayed.hooks
  }

  /** Agreement means equality once everything due at a later time is removed. */
  lemma AgreePurged(p: Bound, live: Db, replayed: Db, now: nat)
    requires AgreeDb(p, live, replayed) && !p.Lossy? && (p.Until? ==> p.time <= now)
    ensures PurgeDb(now, live) == PurgeDb(now, replayed)
  {
    forall n | n in live.colls ensures Purge(now, live.colls[n]) == Purge(now, replayed.colls[n]) {
    }
  }

  lemma AgreeExactly(live: Db, replayed: Db)
    requires AgreeDb(Exactly, live, replayed)
    ensures live == replayed
  {
    forall n | n in live.colls ensures live.colls[n] == replayed.colls[n] {
    }
  }

  /** Whatever agrees within `p` agrees within `q`. */
  predicate Weaker(p: Bound, q: Bound) {
    p.Exactly? || p == q || (p.Until? && !q.Exactly? && p.time <= q.time) || (p.Lossy? && q.Lossy? && p.time <= q.time)
  }

  lemma AgreeWeaker(p: Bound, q: Bound, live: Db, replayed: Db)
    requires AgreeDb(p, live, replayed) && Weaker(p, q)
    ensures AgreeDb(q, live, replayed)
  {
    forall n | n in live.colls ensures AgreeObjects(q, live.colls[n], replayed.colls[n]) {
    }
  }

  // The commands of one batch on the objects of their collection.

  ghost function Fold(env: Env, commands: seq<Command>, objects: Objects): Objects
    requires forall i :: 0 <= i < |commands| ==> IsLocal(commands[i])
  {
    if commands == [] then objects
    else ApplyToObjects(env, commands[|commands| - 1], Fold(env, commands[..|commands| - 1], objects))
  }

  ghost predicate LocalTo(commands: seq<Command>, coll: string) {
    forall i :: 0 <= i < |commands| ==> IsLocal(commands[i]) && commands[i].coll == coll
  }

  lemma CommandsLocal(op: Op, before: Option<Object>, deadline: Option<nat>)
    ensures LocalTo(Commands(op, before, deadline), op.coll)
    ensures 1 <= |Commands(op, before, deadline)| <= 2
    ensures Commands(op, before, deadline)[0].SetPersisted? <==> op.SetOp?
  {
  }

  lemma {:induction false} FoldOne(env: Env, c: Command, objects: Objects)
    requires IsLocal(c)
    ensures Fold(env, [c], objects) == ApplyToObjects(env, c, objects)
  {
    assert [c][..0] == [];
  }

  lemma {:induction false} FoldTwo(env: Env, c: Command, d: Command, objects: Objects)
    requires IsLocal(c) && IsLocal(d)
    ensures Fold(env, [c, d], objects) == ApplyToObjects(env, d, ApplyToObjects(env, c, objects))
  {
    hide ApplyToObjects;
    assert [c, d][..1] == [c];
    FoldOne(env, c, objects);
  }

  /** The preconditions under which a planned command is applied. */
  ghost predicate Ready(env: Env, op: Op, before: Option<Object>, deadline: Option<nat>, objects: Objects) {
    before == Lookup(objects, op.id) && Proceeds(env, op, before) && Stores(env, op) &&
    !LosesEnvelope(env, op, before) && (op.ExpireOp? ==> deadline.Some?)
  }

  lemma PutAgrees(p: Bound, live: Objects, replayed: Objects, id: string, o: Object)
    requires AgreeObjects(p, live, replayed)
    ensures AgreeObjects(p, live[id := o], replayed[id := o])
    ensures AgreeObjects(p, live - {id}, replayed - {id})
  {
  }

  /** Changing an object replay does not have. */
  lemma OrphanAgrees(p: Bound, live: Objects, replayed: Objects, id: string, o: Object)
    requires AgreeObjects(p, live, replayed) && id in live && id !in replayed
    requires p.Until? ==> Expired(o, p.time)
    ensures AgreeObjects(p, live[id := o], replayed)
  {
  }

  /** A ready command is never told to retry and always bumps the version. */
  lemma {:induction false} CommitProceeds(env: Env, op: Op, before: Option<Object>, deadline: Option<nat>, live: Objects)
    requires Ready(env, op, before, deadline, live)
    ensures var c := Committed(env, op, before, deadline, live);
            !c.retry && c.bumped
  {
    if op.EditOp? {
      var doc := Edited(env, op.edit, before.value.geo.doc).value;
      assert Indexable(env, GeoJson(doc));
    }
    hide Envelope, Merged;
  }

  /** The command prolongs an object that replay does not have. */
  ghost predicate RevivesOn(p: Bound, op: Op, before: Option<Object>, deadline: Option<nat>, replayed: Objects) {
    p.Until? && before.Some? && op.id !in replayed && Prolongs(op, before.value, deadline, p.time)
  }

  /** Memory and replay still agree after a ready command exactly when it does not
      revive an object replay has already lost. */
  lemma {:induction false} CommitAgreesIff(
      env: Env, op: Op, before: Option<Object>, deadline: Option<nat>,
      live: Objects, replayed: Objects, p: Bound)
    requires Ready(env, op, before, deadline, live)
    requires AgreeObjects(p, live, replayed)
    ensures LocalTo(Commands(op, before, deadline), op.coll)
    ensures AgreeObjects(p, Committed(env, op, before, deadline, live).objects,
                         Fold(env, Commands(op, before, deadline), replayed))
       <==> !RevivesOn(p, op, before, deadline, replayed)
  {
    CommandsLocal(op, before, deadline);
    match op {
      case SetOp(coll, id, geo, updates, _, _) =>
        var fields := Merged(before, updates);
        EntriesRoundTrip(fields);
        FoldOne(env, SetPersisted(coll, id, geo, MapToEntries(fields), deadline), replayed);
        PutAgrees(p, live, replayed, id, Object(id, geo, fields, deadline));
      case DelOp(coll, id) =>
        FoldOne(env, Del(coll, id), replayed);
        PutAgrees(p, live, replayed, id, live[id]);
      case FsetOp(coll, id, updates) =>
        FoldOne(env, Fset(coll, id, updates), replayed);
        UpdateAgreesIff(p, live, replayed, id, WithFields(live, id, updates)[id]);
      case ExpireOp(coll, id, _) =>
        FoldOne(env, ExpireAt(coll, id, deadline.value), replayed);
        UpdateAgreesIff(p, live, replayed, id, WithExpiry(live, id, deadline)[id]);
      case PersistOp(coll, id) =>
        FoldOne(env, Persist(coll, id), replayed);
        UpdateAgreesIff(p, live, replayed, id, WithExpiry(live, id, None)[id]);
      case EditOp(coll, id, edit) =>
        EditCommitAgreesIff(env, coll, id, edit, before, live, replayed, p);
    }
  }

  /** One live object is replaced by `o`; on replay only if it is there. */
  lemma {:induction false} UpdateAgreesIff(p: Bound, live: Objects, replayed: Objects, id: string, o: Object)
    requires AgreeObjects(p, live, replayed) && id in live
    ensures AgreeObjects(p, live[id := o], if id in replayed then replayed[id := o] else replayed)
       <==> !(p.Until? && id !in replayed && !Expired(o, p.time))
  {
    if id in replayed {
      PutAgrees(p, live, replayed, id, o);
    } else if p.Until? && !Expired(o, p.time) {
      assert live[id := o][id] == o;
    } else {
      OrphanAgrees(p, live, replayed, id, o);
    }
  }

  ghost function EditCommand(coll: string, id: string, edit: Edit): Command {
    match edit
    case JsetEdit(path, value, raw) => Jset(coll, id, path, value, raw)
    case JdelEdit(path) => Jdel(coll, id, path)
  }

  /** The object an edit leaves, without its deadline. */
  ghost function EditedObject(env: Env, edit: Edit, o: Object): Object
    requires o.geo.GeoJson? && Edited(env, edit, o.geo.doc).Some?
  {
    o.(geo := GeoJson(Edited(env, edit, o.geo.doc).value), expiresAt := None)
  }

  lemma EditCommands(coll: string, id: string, edit: Edit, o: Object)
    ensures Commands(EditOp(coll, id, edit), Some(o), None)
         == if o.expiresAt.Some? then [EditCommand(coll, id, edit), Persist(coll, id)] else [EditCommand(coll, id, edit)]
  {
  }

  lemma EditApplies(env: Env, coll: string, id: string, edit: Edit, o: Object, objects: Objects)
    requires o.geo.GeoJson? && Edited(env, edit, o.geo.doc).Some?
    requires id in objects ==> objects[id] == o
    ensures ApplyToObjects(env, EditCommand(coll, id, edit), objects)
         == if id in objects then objects[id := o.(geo := EditedObject(env, edit, o).geo)] else objects
  {
  }

  lemma PersistApplies(env: Env, coll: string, id: string, objects: Objects)
    ensures ApplyToObjects(env, Persist(coll, id), objects)
         == if id in objects then objects[id := objects[id].(expiresAt := None)] else objects
  {
  }

  lemma {:induction false} EditFolds(env: Env, coll: string, id: string, edit: Edit, o: Object, objects: Objects)
    requires o.geo.GeoJson? && Edited(env, edit, o.geo.doc).Some?
    requires id in objects ==> objects[id] == o
    ensures LocalTo(Commands(EditOp(coll, id, edit), Some(o), None), coll)
    ensures Fold(env, Commands(EditOp(coll, id, edit), Some(o), None), objects)
         == if id in objects then objects[id := EditedObject(env, edit, o)] else objects
  {
    var command, done := EditCommand(coll, id, edit), EditedObject(env, edit, o);
    CommandsLocal(EditOp(coll, id, edit), Some(o), None);
    hide Commands, Fold, ApplyToObjects, Edited, LocalTo;
    EditCommands(coll, id, edit, o);
    EditApplies(env, coll, id, edit, o, objects);
    if o.expiresAt.Some? {
      FoldTwo(env, command, Persist(coll, id), objects);
      PersistApplies(env, coll, id, ApplyToObjects(env, command, objects));
      assert objects[id := o.(geo := done.geo)][id := done] == objects[id := done];
    } else {
      FoldOne(env, command, objects);
      assert o.(geo := done.geo) == done;
    }
  }

  lemma {:induction false} EditCommits(env: Env, coll: string, id: string, edit: Edit, before: Option<Object>, live: Objects)
    requires Ready(env, EditOp(coll, id, edit), before, None, live)
    ensures Committed(env, EditOp(coll, id, edit), before, None, live).objects
         == live[id := EditedObject(env, edit, before.value)]
  {
    var o := before.value;
    var doc := Edited(env, edit, o.geo.doc).value;
    assert Indexable(env, GeoJson(doc));
    hide Edited, Indexable;
    assert live[id := o.(geo := GeoJson(doc))][id := EditedObject(env, edit, o)] == live[id := EditedObject(env, edit, o)];
  }

  lemma {:induction false} EditCommitAgreesIff(
      env: Env, coll: string, id: string, edit: Edit, before: Option<Object>,
      live: Objects, replayed: Objects, p: Bound)
    requires Ready(env, EditOp(coll, id, edit), before, None, live)
    requires AgreeObjects(p, live, replayed)
    ensures LocalTo(Commands(EditOp(coll, id, edit), before, None), coll)
    ensures AgreeObjects(p, Committed(env, EditOp(coll, id, edit), before, None, live).objects,
                         Fold(env, Commands(EditOp(coll, id, edit), before, None), replayed))
       <==> !RevivesOn(p, EditOp(coll, id, edit), before, None, replayed)
  {
    var o := before.value;
    EditFolds(env, coll, id, edit, o, replayed);
    EditCommits(env, coll, id, edit, before, live);
    hide Committed, Fold, Commands, Edited, LocalTo;
    UpdateAgreesIff(p, live, replayed, id, EditedObject(env, edit, o));
  }

  /** Objects are stored under their own ids and have envelopes. */
  ghost predicate ObjectsOk(env: Env, objects: Objects) {
    forall id :: id in objects ==> objects[id].id == id && Indexable(env, objects[id].geo)
  }

  ghost predicate DbOk(env: Env, db: Db) {
    (forall n :: n in db.colls ==> ObjectsOk(env, db.colls[n])) && FencesEvaluable(db)
  }

  lemma {:induction false} CommitKeepsOk(
      env: Env, op: Op, before: Option<Object>, deadline: Option<nat>, live: Objects)
    requires Ready(env, op, before, deadline, live) && ObjectsOk(env, live)
    ensures ObjectsOk(env, Committed(env, op, before, deadline, live).objects)
  {
    hide Merged, ApplyUpdates;
    if op.EditOp? {
      var doc := Edited(env, op.edit, before.value.geo.doc).value;
      assert Indexable(env, GeoJson(doc));
    }
    hide Envelope;
  }

  lemma {:induction false} FoldTouchesOneObject(
      env: Env, op: Op, before: Option<Object>, deadline: Option<nat>, replayed: Objects)
    ensures LocalTo(Commands(op, before, deadline), op.coll)
    ensures var f := Fold(env, Commands(op, before, deadline), replayed);
            (forall id :: id != op.id && id in f ==> id in replayed && f[id] == replayed[id]) &&
            (op.DelOp? ==> op.id !in f)
  {
    CommandsLocal(op, before, deadline);
    CommandsAreFor(op, before, deadline);
    var commands := Commands(op, before, deadline);
    hide Commands, Fold, ApplyToObjects;
    CommandTouches(env, commands[0], replayed);
    if |commands| == 1 {
      assert commands == [commands[0]];
      FoldOne(env, commands[0], replayed);
    } else {
      assert commands == [commands[0], commands[1]];
      FoldTwo(env, commands[0], commands[1], replayed);
      CommandTouches(env, commands[1], ApplyToObjects(env, commands[0], replayed));
    }
  }

  lemma CommandsAreFor(op: Op, before: Option<Object>, deadline: Option<nat>)
    ensures forall i :: 0 <= i < |Commands(op, before, deadline)| ==>
      IsLocal(Commands(op, before, deadline)[i]) && Commands(op, before, deadline)[i].id == op.id
    ensures op.DelOp? ==> Commands(op, before, deadline) == [Del(op.coll, op.id)]
  {
    hide MapToEntries, Merged;
  }

  lemma CommandTouches(env: Env, c: Command, objects: Objects)
    requires IsLocal(c)
    ensures forall id :: id != c.id ==> Lookup(ApplyToObjects(env, c, objects), id) == Lookup(objects, id)
    ensures c.Del? ==> c.id !in ApplyToObjects(env, c, objects)
    ensures forall id :: id != c.id && id in ApplyToObjects(env, c, objects) ==>
      id in objects && ApplyToObjects(env, c, objects)[id] == objects[id]
  {
    hide ApplyUpdates, EntriesToMap, Payload;
  }

  /** What the replayed side stores stays well formed too. */
  lemma {:induction false} ReplayKeepsOk(
      env: Env, op: Op, before: Option<Object>, deadline: Option<nat>,
      live: Objects, replayed: Objects, p: Bound)
    requires Ready(env, op, before, deadline, live)
    requires AgreeObjects(p, live, replayed) && ObjectsOk(env, live) && ObjectsOk(env, replayed)
    requires !RevivesOn(p, op, before, deadline, replayed)
    ensures LocalTo(Commands(op, before, deadline), op.coll)
    ensures ObjectsOk(env, Fold(env, Commands(op, before, deadline), replayed))
  {
    assert !op.DelOp? ==> op.id in Committed(env, op, before, deadline, live).objects;
    hide *;
    CommitAgreesIff(env, op, before, deadline, live, replayed, p);
    CommitKeepsOk(env, op, before, deadline, live);
    FoldTouchesOneObject(env, op, before, deadline, replayed);
    OkOneObject(env, p, op.id, Committed(env, op, before, deadline, live).objects,
                Fold(env, Commands(op, before, deadline), replayed), replayed);
  }

  lemma {:induction false} OkOneObject(
      env: Env, p: Bound, id: string, live: Objects, after: Objects, replayed: Objects)
    requires ObjectsOk(env, live) && ObjectsOk(env, replayed) && AgreeObjects(p, live, after)
    requires id in after ==> id in live
    requires forall x :: x != id && x in after ==> x in replayed && after[x] == replayed[x]
    ensures ObjectsOk(env, after)
  {
    hide Indexable;
  }
}
