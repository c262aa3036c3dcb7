/** What each command on an object does, told from the request and the object it finds
    (crates/latlng-core/src/commands.rs, crates/latlng-core/src/util.rs). */
module Effects {
  import opened Types
  import opened Fields
  import opened Geometry
  import opened Catalog
  import opened Compaction
  import opened Protocol
  import opened LiveCommands
  import opened Exclusive
  import JsonPath
  import Limits

  const LATEST: nat := 0xFFFF_FFFF_FFFF_FFFF

  /** The time `seconds` from now in milliseconds, as far as 64 bits reach. */
  function After(now: nat, seconds: nat): nat {
    if LATEST - now < 1000 * seconds then LATEST else now + 1000 * seconds
  }

  /** The command finds its object. */
  predicate Finds(db: Db, op: Op) {
    op.coll in db.colls && op.id in db.colls[op.coll]
  }

  function Found(db: Db, op: Op): Object
    requires Finds(db, op)
  {
    db.colls[op.coll][op.id]
  }

  /** Nothing but the object changes; its collection may be new. */
  ghost predicate OnlyTouches(db: Db, op: Op, after: Db) {
    after.channels == db.channels && after.hooks == db.hooks && after.colls.Keys == db.colls.Keys + {op.coll} &&
    (forall n :: n in db.colls && n != op.coll ==> after.colls[n] == db.colls[n]) &&
    (forall id :: id in after.colls[op.coll] && id != op.id ==>
       op.coll in db.colls && id in db.colls[op.coll] && after.colls[op.coll][id] == db.colls[op.coll][id]) &&
    (op.coll in db.colls ==> forall id :: id in db.colls[op.coll] && id != op.id ==> id in after.colls[op.coll])
  }

  lemma {:induction false} ObjectPut(db: Db, op: Op, objects: Objects)
    requires forall id :: id != op.id ==> Lookup(objects, id) == Lookup(ObjectsOf(db, op.coll), id)
    ensures OnlyTouches(db, op, WithObjects(db, op.coll, objects))
    ensures WithObjects(db, op.coll, objects).colls[op.coll] == objects
  {
    var after := WithObjects(db, op.coll, objects);
    assert forall id :: id in objects && id != op.id ==> Lookup(objects, id) == Lookup(ObjectsOf(db, op.coll), id);
    forall id | id in ObjectsOf(db, op.coll) && id != op.id ensures id in objects {
      assert Lookup(objects, id) == Lookup(ObjectsOf(db, op.coll), id);
    }
  }

  /** The fields after updates: one that is not mentioned keeps its value, the last mention
      decides, and the number 0 removes the field. */
  ghost predicate Updated(was: FieldMap, updates: seq<FieldEntry>, now: FieldMap) {
    forall field ::
      ((forall i :: 0 <= i < |updates| ==> updates[i].name != field) ==> Lookup(now, field) == Lookup(was, field)) &&
      forall i :: LastMention(updates, field, i) ==>
        Lookup(now, field) == if updates[i].value == Number(0.0) then None else Some(updates[i].value)
  }

  lemma UpdatedMeans(was: FieldMap, updates: seq<FieldEntry>)
    ensures Updated(was, updates, ApplyUpdates(was, updates))
  {
    forall field
      ensures (forall i :: 0 <= i < |updates| ==> updates[i].name != field) ==>
        Lookup(ApplyUpdates(was, updates), field) == Lookup(was, field)
      ensures forall i :: LastMention(updates, field, i) ==>
        Lookup(ApplyUpdates(was, updates), field) == if updates[i].value == Number(0.0) then None else Some(updates[i].value)
    {
      UpdatesMeaning(was, updates, field);
      hide ApplyUpdates;
    }
  }

  /** SET is refused exactly where NX finds the object or XX does not. */
  lemma SetAcceptedIff(env: Env, db: Db, op: Op)
    requires op.SetOp?
    ensures !Accepts(env, db, op) <==> (op.condition == Nx && Finds(db, op)) || (op.condition == Xx && !Finds(db, op))
  {
  }

  /** After a SET the object has the request's geometry and deadline, and the fields it
      had with the request's on top. */
  lemma {:induction false} SetMeans(env: Env, db: Db, op: Op, now: nat)
    requires op.SetOp? && Indexable(env, op.geo)
    ensures
      var after := Effect(env, db, op, now);
      OnlyTouches(db, op, after) && op.id in after.colls[op.coll] &&
      var o := after.colls[op.coll][op.id];
      o.id == op.id && o.geo == op.geo &&
      o.expiresAt == (if op.ttl.Some? then Some(After(now, op.ttl.value)) else None) &&
      Updated(if Finds(db, op) then Found(db, op).fields else map[], op.updates, o.fields)
  {
    var objects := ObjectsOf(db, op.coll);
    var fields := if Finds(db, op) then Found(db, op).fields else map[];
    UpdatedMeans(fields, op.updates);
    hide Updated, ApplyUpdates, Envelope, OnlyTouches;
    var o := Object(op.id, op.geo, ApplyUpdates(fields, op.updates), DeadlineOf(op, now));
    assert Committed(env, op, Lookup(objects, op.id), DeadlineOf(op, now), objects).objects == objects[op.id := o];
    ObjectPut(db, op, objects[op.id := o]);
  }

  /** The commands that need an object are refused exactly where there is none. */
  lemma UpdateAcceptedIff(env: Env, db: Db, op: Op)
    requires op.DelOp? || op.FsetOp? || op.ExpireOp? || op.PersistOp?
    ensures Accepts(env, db, op) <==> Finds(db, op)
  {
  }

  lemma {:induction false} DelMeans(env: Env, db: Db, op: Op, now: nat)
    requires op.DelOp? && Finds(db, op)
    ensures OnlyTouches(db, op, Effect(env, db, op, now)) && op.id !in Effect(env, db, op, now).colls[op.coll]
  {
    ObjectPut(db, op, db.colls[op.coll] - {op.id});
  }

  /** The object is there afterwards, changed to `o`. */
  ghost predicate Becomes(db: Db, op: Op, after: Db, o: Object) {
    OnlyTouches(db, op, after) && op.id in after.colls[op.coll] && after.colls[op.coll][op.id] == o
  }

  lemma {:induction false} FsetMeans(env: Env, db: Db, op: Op, now: nat)
    requires op.FsetOp? && Finds(db, op)
    ensures
      var after, was := Effect(env, db, op, now), Found(db, op);
      OnlyTouches(db, op, after) && op.id in after.colls[op.coll] &&
      var o := after.colls[op.coll][op.id];
      Becomes(db, op, after, was.(fields := o.fields)) && Updated(was.fields, op.updates, o.fields)
  {
    var was := Found(db, op);
    UpdatedMeans(was.fields, op.updates);
    hide Updated, ApplyUpdates, OnlyTouches;
    ObjectPut(db, op, db.colls[op.coll][op.id := was.(fields := ApplyUpdates(was.fields, op.updates))]);
  }

  lemma {:induction false} ExpireMeans(env: Env, db: Db, op: Op, now: nat)
    requires op.ExpireOp? && Finds(db, op)
    ensures Becomes(db, op, Effect(env, db, op, now), Found(db, op).(expiresAt := Some(After(now, op.seconds))))
  {
    hide OnlyTouches;
    ObjectPut(db, op, db.colls[op.coll][op.id := Found(db, op).(expiresAt := Some(After(now, op.seconds)))]);
  }

  lemma {:induction false} PersistMeans(env: Env, db: Db, op: Op, now: nat)
    requires op.PersistOp? && Finds(db, op)
    ensures Becomes(db, op, Effect(env, db, op, now), Found(db, op).(expiresAt := None))
  {
    hide OnlyTouches;
    ObjectPut(db, op, db.colls[op.coll][op.id := Found(db, op).(expiresAt := None)]);
  }

  /** What JSET stores: the parsed value if asked for and possible, else the text. */
  function Stored(env: Env, value: string, raw: bool): Json {
    if !raw then JString(value)
    else
      match env.parseJson(value)
      case Some(doc) => doc
      case None => JString(value)
  }

  /** The document an edit leaves, if the path allows it. */
  function NewDocument(env: Env, edit: Edit, doc: Json): Option<Json> {
    match edit
    case JsetEdit(path, value, raw) =>
      var r := JsonPath.Set(doc, JsonPath.Segments(path), Stored(env, value, raw));
      if r.ok then Some(r.doc) else None
    case JdelEdit(path) =>
      var r := JsonPath.Delete(doc, JsonPath.Segments(path));
      if r.removal.BadPath? then None else Some(r.doc)
  }

  /** An edit is refused exactly where there is no document, the path does not lead
      anywhere, or the result is no valid geometry. */
  lemma EditAcceptedIff(env: Env, db: Db, op: Op)
    requires op.EditOp?
    ensures Accepts(env, db, op) <==>
      Finds(db, op) && Found(db, op).geo.GeoJson? &&
      NewDocument(env, op.edit, Found(db, op).geo.doc).Some? &&
      env.geometryOk(NewDocument(env, op.edit, Found(db, op).geo.doc).value)
  {
  }

  /** An accepted edit that leaves an envelope replaces the document and clears the
      deadline; one that does not only replaces the document. */
  lemma {:induction false} EditMeans(env: Env, db: Db, op: Op, now: nat)
    requires op.EditOp? && Accepts(env, db, op)
    ensures Finds(db, op) && Found(db, op).geo.GeoJson? && NewDocument(env, op.edit, Found(db, op).geo.doc).Some?
    ensures
      var was := Found(db, op);
      var doc := NewDocument(env, op.edit, was.geo.doc).value;
      Becomes(db, op, Effect(env, db, op, now),
              was.(geo := GeoJson(doc), expiresAt := if env.jsonEnvelope(doc).Some? then None else was.expiresAt))
  {
    EditAcceptedIff(env, db, op);
    var was := Found(db, op);
    var doc := NewDocument(env, op.edit, was.geo.doc).value;
    assert Edited(env, op.edit, was.geo.doc) == Some(doc);
    hide Edited, NewDocument, OnlyTouches;
    var o := was.(geo := GeoJson(doc), expiresAt := if env.jsonEnvelope(doc).Some? then None else was.expiresAt);
    Limits.EditCommitsEither(env, op.coll, op.id, op.edit, Some(was), db.colls[op.coll]);
    hide Committed;
    ObjectPut(db, op, db.colls[op.coll][op.id := o]);
  }

  // How long an object lives.

  /** An object set with a lifetime is there until exactly that much later. */
  lemma {:induction false} SetLivesUntil(env: Env, db: Db, op: Op, now: nat, later: nat)
    requires op.SetOp? && Indexable(env, op.geo)
    ensures
      var after := PurgeDb(later, Effect(env, db, op, now));
      op.coll in after.colls && (op.id in after.colls[op.coll] <==> (op.ttl.Some? ==> later < After(now, op.ttl.value)))
  {
    SetMeans(env, db, op, now);
    hide Effect, After, OnlyTouches, Updated, Indexable;
  }

  /** EXPIRE gives an object that lifetime, PERSIST an unlimited one. */
  lemma {:induction false} ExpireLivesUntil(env: Env, db: Db, op: Op, now: nat, later: nat)
    requires (op.ExpireOp? || op.PersistOp?) && Finds(db, op)
    ensures
      var after := PurgeDb(later, Effect(env, db, op, now));
      op.coll in after.colls && (op.id in after.colls[op.coll] <==> (op.ExpireOp? ==> later < After(now, op.seconds)))
  {
    if op.ExpireOp? {
      ExpireMeans(env, db, op, now);
    } else {
      PersistMeans(env, db, op, now);
    }
    hide Effect, After, OnlyTouches;
  }

  // Commands under the exclusive gate.

  /** Creating is refused where the collection exists, dropping where it does not, renaming
      where there is nothing to rename or, if asked, the name is taken; a fence is refused
      where its area is a reference. */
  lemma ExclusiveAcceptedIff(env: Env, db: Db, x: XOp)
    ensures x.XCreate? ==> (XProceeds(env, db, x) <==> x.coll !in db.colls)
    ensures x.XDrop? ==> (XProceeds(env, db, x) <==> x.coll in db.colls)
    ensures x.XRename? ==> (!XProceeds(env, db, x) <==> x.coll !in db.colls || (x.nxOnly && x.newName in db.colls))
    ensures x.XSetChannel? || x.XSetHook? ==>
      (!XProceeds(env, db, x) <==> (x.def.query.Within? || x.def.query.Intersects?) && x.def.query.area.Reference?)
    ensures x.XLocal? && (x.op.SetOp? || x.op.DelOp? || x.op.FsetOp?) ==>
      (XProceeds(env, db, x) <==> if x.op.SetOp? then Accepts(env, db, x.op) else Finds(db, x.op))
  {
  }

  /** A renamed collection is under the new name with all its objects, in place of what was
      there, and no longer under the old one. */
  lemma {:induction false} RenameMeans(env: Env, db: Db, coll: string, newName: string, nxOnly: bool)
    requires coll in db.colls
    ensures
      var after := XEffect(env, db, XRename(coll, newName, nxOnly), None, None);
      after.channels == db.channels && after.hooks == db.hooks &&
      newName in after.colls && after.colls[newName] == db.colls[coll] && (coll != newName ==> coll !in after.colls) &&
      forall n :: n != coll && n != newName ==> Lookup(after.colls, n) == Lookup(db.colls, n)
  {
  }

  /** Creating adds one empty collection, dropping removes one. */
  lemma {:induction false} CreateDropMean(env: Env, db: Db, coll: string)
    ensures
      var created := XEffect(env, db, XCreate(coll), None, None);
      created.channels == db.channels && created.hooks == db.hooks &&
      Lookup(created.colls, coll) == Some(map[]) &&
      forall n :: n != coll ==> Lookup(created.colls, n) == Lookup(db.colls, n)
    ensures
      var dropped := XEffect(env, db, XDrop(coll), None, None);
      dropped.channels == db.channels && dropped.hooks == db.hooks &&
      coll !in dropped.colls && forall n :: n != coll ==> Lookup(dropped.colls, n) == Lookup(db.colls, n)
  {
  }

  /** Setting, deleting and deleting by pattern touch only the fences they name. */
  lemma {:induction false} FencesMean(env: Env, db: Db, x: XOp)
    requires IsFence(x)
    ensures
      var after := XEffect(env, db, x, None, None);
      after.colls == db.colls &&
      (x.XSetHook? || x.XDelHook? || x.XPDelHook? ==> after.channels == db.channels) &&
      (x.XSetChannel? || x.XDelChannel? || x.XPDelChannel? ==> after.hooks == db.hooks) &&
      (forall n :: Lookup(after.channels, n) ==
         if x.XSetChannel? && x.name == n then Some(x.def)
         else if (x.XDelChannel? && x.name == n) || (x.XPDelChannel? && env.glob(x.pattern, n)) then None
         else Lookup(db.channels, n)) &&
      (forall n :: Lookup(after.hooks, n) ==
         if x.XSetHook? && x.name == n then Some(Hook(x.endpoint, x.def))
         else if (x.XDelHook? && x.name == n) || (x.XPDelHook? && env.glob(x.pattern, n)) then None
         else Lookup(db.hooks, n))
  {
    hide Committed;
  }

  /** EXPIRE counts its seconds from when it finds the collection and a set from its plan;
      once counted, the deadline stays as long as the command holds the collection. */
  predicate Counts(was: Pc, clock: nat, now: Pc) {
    (was.Gated? && now.Handled? && was.op.ExpireOp? ==> now.deadline == Some(After(clock, was.op.seconds))) &&
    (was.Handled? && now.Planned? && was.op.SetOp? ==>
       now.deadline == if was.op.ttl.None? then None else Some(After(clock, was.op.ttl.value))) &&
    (HasHandle(was) && HasHandle(now) ==> now.op == was.op) &&
    (HasHandle(was) && HasHandle(now) && (was.op.ExpireOp? || !was.Handled?) ==> now.deadline == was.deadline)
  }

  lemma {:induction false} LocalCounts(env: Env, s: State, step: Step, t: nat)
    requires t < |s.threads| && EnabledLocal(env, s, step, s.threads[t])
    ensures |ExecLocal(env, s, step, t).threads| == |s.threads|
    ensures Counts(s.threads[t], s.clock, ExecLocal(env, s, step, t).threads[t])
    ensures forall u :: 0 <= u < |s.threads| && u != t ==> ExecLocal(env, s, step, t).threads[u] == s.threads[u]
  {
    hide Committed, Commands, Batch, Revives, Proceeds, Stores, Numbered, Unlocked, NoneExclusive, LosesEnvelope;
  }

  lemma {:induction false} ApplyXKeepsThreads(env: Env, s: State, x: XOp, before: Option<Object>, deadline: Option<nat>)
    ensures ApplyX(env, s, x, before, deadline).threads == s.threads
  {
    hide Committed, Matching;
  }

  lemma {:induction false} ExclusiveCounts(env: Env, s: State, step: Step, t: nat)
    requires t < |s.threads| && EnabledExclusive(env, s, step, s.threads[t])
    ensures |ExecExclusive(env, s, step, t).threads| == |s.threads|
    ensures !HasHandle(s.threads[t]) && !s.threads[t].Gated?
    ensures forall u :: 0 <= u < |s.threads| && u != t ==> ExecExclusive(env, s, step, t).threads[u] == s.threads[u]
  {
    hide XCommands, Batch, XProceeds, Stores, Numbered, NoneShared, NoneExclusive, View, Snapshot, Before, ApplyX,
      SweptCells, DeadlineOf;
    var pc := s.threads[t];
    if step.MutateX? {
      ApplyXKeepsThreads(env, s, pc.x, pc.before, pc.deadline);
    }
  }

  /** No step of any thread moves the deadline a command has counted, however often the
      command tries again. */
  lemma {:induction false} DeadlineIsFixed(env: Env, s: State, step: Step, t: nat)
    requires Enabled(env, s, step) && t < |s.threads|
    ensures |Exec(env, s, step).threads| == |s.threads|
    ensures Counts(s.threads[t], s.clock, Exec(env, s, step).threads[t])
  {
    hide EnabledLocal, EnabledExclusive, ExecLocal, ExecExclusive, EnabledRestart, Replay, Records;
    if !step.Tick? && !step.Restart? {
      if EnabledLocal(env, s, step, s.threads[step.t]) {
        LocalCounts(env, s, step, step.t);
      } else {
        ExclusiveCounts(env, s, step, step.t);
      }
    }
  }
}
