/** Where the engine does not meet the promise, and exactly when. */
module Limits {
  import opened Types
  import opened Fields
  import opened Geometry
  import opened Catalog
  import opened Compaction
  import opened Protocol
  import opened Agreement
  import opened Batches
  import opened Steps
  import JsonPath

  // Compaction leaves expired objects in memory but not in the log.

  /** An expired object that a rewrite dropped can be revived in memory by
      PERSIST; the logged PERSIST finds nothing on replay, so the object is gone
      after a restart, whatever the time. */
  lemma {:induction false} PersistedObjectIsLost(env: Env, db: Db, now: nat, later: nat, n: string, id: string)
    requires KeyedDb(db) && FencesEvaluable(db)
    requires n in db.colls && id in db.colls[n] && Expired(db.colls[n][id], now)
    ensures var op := PersistOp(n, id);
            var before := Some(db.colls[n][id]);
            var live := WithObjects(db, n, Committed(env, op, before, None, db.colls[n]).objects);
            var rebuilt := ReplayFrom(env, Replay(env, Snapshot(db, now)), Batch(Commands(op, before, None), 0));
            Proceeds(env, op, before) &&
            id in PurgeDb(later, live).colls[n] &&
            n in rebuilt.colls && id !in rebuilt.colls[n]
  {
    hide Snapshot, Replay, ReplayFrom;
    SnapshotReplay(env, db, now);
    ReplaySingleBatch(env, PurgeDb(now, db), Persist(n, id), 0);
    PersistOnPurged(env, db, now, n, id);
    assert Committed(env, PersistOp(n, id), Some(db.colls[n][id]), None, db.colls[n]).objects
        == WithExpiry(db.colls[n], id, None);
  }

  lemma {:induction false} PersistOnPurged(env: Env, db: Db, now: nat, n: string, id: string)
    requires n in db.colls && id in db.colls[n] && Expired(db.colls[n][id], now)
    ensures var rebuilt := ApplyCommand(env, PurgeDb(now, db), Persist(n, id));
            n in rebuilt.colls && id !in rebuilt.colls[n]
  {
    assert id !in Purge(now, db.colls[n]);
  }

  // A geometry that cannot be indexed is logged before that is noticed.

  /** A set is replayable exactly when its geometry has an envelope; otherwise the
      live call fails after logging and leaves memory as it was. */
  lemma {:induction false} SetReplayableIff(env: Env, op: Op, before: Option<Object>, deadline: Option<nat>, objects: Objects)
    requires op.SetOp?
    ensures (forall c :: c in Commands(op, before, deadline) ==> Replayable(env, Cmd(c))) <==> Indexable(env, op.geo)
    ensures !Indexable(env, op.geo) ==> Committed(env, op, before, deadline, objects) == Commit(objects, false, false)
  {
    assert Commands(op, before, deadline)[0] in Commands(op, before, deadline);
  }

  /** An edit means the same in memory and on replay exactly when the edited
      document has an envelope or the object had no deadline to clear. */
  lemma {:induction false} EditAgreesIff(
      env: Env, coll: string, id: string, edit: Edit, before: Option<Object>, objects: Objects)
    requires before == Lookup(objects, id) && Proceeds(env, EditOp(coll, id, edit), before)
    ensures LocalTo(Commands(EditOp(coll, id, edit), before, None), coll)
    ensures Committed(env, EditOp(coll, id, edit), before, None, objects).objects
         == Fold(env, Commands(EditOp(coll, id, edit), before, None), objects)
       <==> !LosesEnvelope(env, EditOp(coll, id, edit), before) || before.value.expiresAt.None?
  {
    EditFolds(env, coll, id, edit, before.value, objects);
    EditCommitsEither(env, coll, id, edit, before, objects);
    hide Committed, Fold, Commands, LocalTo, LosesEnvelope, Edited;
    var done := EditedObject(env, edit, before.value);
    assert objects[id := done][id] == done && objects[id := done.(expiresAt := before.value.expiresAt)][id].expiresAt
        == before.value.expiresAt;
  }

  /** What an edit leaves in memory. */
  lemma {:induction false} EditCommitsEither(
      env: Env, coll: string, id: string, edit: Edit, before: Option<Object>, objects: Objects)
    requires before == Lookup(objects, id) && Proceeds(env, EditOp(coll, id, edit), before)
    ensures
      var done := EditedObject(env, edit, before.value);
      Committed(env, EditOp(coll, id, edit), before, None, objects).objects
        == if LosesEnvelope(env, EditOp(coll, id, edit), before)
           then objects[id := done.(expiresAt := before.value.expiresAt)] else objects[id := done]
  {
    var o, done := before.value, EditedObject(env, edit, before.value);
    hide Edited, Indexable;
    assert objects[id := o.(geo := done.geo)][id := done] == objects[id := done];
  }

  // A change that leaves the version as it was.

  /** The version check would accept a plan that is out of date. */
  ghost predicate Stale(s: State, t: nat) {
    t < |s.threads| && s.threads[t].Planned? && s.threads[t].cell < |s.cells| &&
    var pc := s.threads[t];
    s.cells[pc.cell].version == pc.version && pc.before != Lookup(s.cells[pc.cell].objects, pc.op.id)
  }

  lemma MutateIsStep(env: Env, s: State, u: nat)
    requires u < |s.threads| && s.threads[u].Appended? && s.threads[u].cell < |s.cells|
    ensures Enabled(env, s, Mutate(u))
    ensures var r, c := Exec(env, s, Mutate(u)), s.threads[u].cell;
            |r.threads| == |s.threads| && !HoldsLock(r.threads[u]) &&
            (forall t :: 0 <= t < |s.threads| && t != u ==> r.threads[t] == s.threads[t]) &&
            r.cells == s.cells[c := CellAfter(s.cells[c], Next(env, s, u))]
  {
    hide Committed, Revives, Commands, Batch, LosesEnvelope;
  }

  /** A command that changes an object bumps the version unless it is an edit that
      leaves a document without an envelope. */
  lemma {:induction false} ChangeBumpsIff(
      env: Env, op: Op, before: Option<Object>, deadline: Option<nat>, objects: Objects, id: string)
    requires Lookup(Committed(env, op, before, deadline, objects).objects, id) != Lookup(objects, id)
    ensures Committed(env, op, before, deadline, objects).bumped <==> !LosesEnvelope(env, op, before)
  {
    hide Merged, Edited, Indexable;
  }

  /** A plan made from a cell's current version is still accepted after another
      writer changed the planned object exactly when the counter is at its maximum
      or that writer's edit left a document without an envelope. */
  lemma {:induction false} StalePlanAcceptedIff(env: Env, s: State, t: nat, u: nat)
    requires t < |s.threads| && u < |s.threads| && t != u
    requires s.threads[t].Planned? && s.threads[u].Appended? && s.threads[t].cell == s.threads[u].cell < |s.cells|
    requires s.threads[t].version == s.cells[s.threads[t].cell].version <= U64_MAX
    requires s.threads[t].before == Lookup(s.cells[s.threads[t].cell].objects, s.threads[t].op.id)
    requires Lookup(Next(env, s, u).objects, s.threads[t].op.id) != s.threads[t].before
    ensures Enabled(env, s, Mutate(u))
    ensures Stale(Exec(env, s, Mutate(u)), t) <==>
      s.threads[t].version == U64_MAX || LosesEnvelope(env, s.threads[u].op, s.threads[u].before)
  {
    var pc := s.threads[u];
    MutateIsStep(env, s, u);
    ChangeBumpsIff(env, pc.op, pc.before, pc.deadline, s.cells[pc.cell].objects, s.threads[t].op.id);
    hide Committed, Exec, Enabled, LosesEnvelope;
  }

  /** A shape, an edit that takes its points away, and what is left: it passes
      validation but has no bounding rectangle. */
  const SHAPE := JObject(map["type" := JString("MultiPoint"), "coordinates" := JArray([JArray([JNumber(1.0), JNumber(2.0)])])])
  const EMPTIES := EditOp("fleet", "a", JsetEdit("coordinates", "[]", true))
  const EMPTIED := JObject(map["type" := JString("MultiPoint"), "coordinates" := JArray([])])

  /** One writer has planned a field update, the other has logged the edit. */
  const OLD := Object("a", GeoJson(SHAPE), map[], None)
  const TWO_WRITERS := State(
    map["fleet" := 0], [Cell(7, map["a" := OLD])], map[], map[], [], 0, 0, Same,
    [Planned(FsetOp("fleet", "a", []), 0, Some(OLD), None, 0, 7), Appended(EMPTIES, 0, Some(OLD), None)])

  lemma {:induction false} EmptiedIsEdited(env: Env)
    requires env.parseJson("[]") == Some(JArray([])) && env.geometryOk(EMPTIED) && env.jsonEnvelope(EMPTIED).None?
    ensures Edited(env, EMPTIES.edit, SHAPE) == Some(EMPTIED)
  {
    assert "coordinates"[0] == 'c';
    JsonPath.SegmentsOfNames(["coordinates"]);
    SetMember("coordinates", JArray([]));
    hide JsonPath.Segments, JsonPath.Set;
  }

  lemma SetMember(name: string, x: Json)
    ensures JsonPath.Set(SHAPE, [name], x) == JsonPath.SetOutcome(JObject(SHAPE.members[name := x]), true)
    ensures JObject(SHAPE.members["coordinates" := JArray([])]) == EMPTIED
  {
    assert SHAPE.members["coordinates" := JArray([])] == EMPTIED.members;
  }

  /** What the edit does to the cell. */
  lemma {:induction false} EmptiedCommits(env: Env)
    requires env.parseJson("[]") == Some(JArray([])) && env.geometryOk(EMPTIED) && env.jsonEnvelope(EMPTIED).None?
    ensures LosesEnvelope(env, EMPTIES, Some(OLD))
    ensures
      var objects := map["a" := OLD];
      Lookup(Committed(env, EMPTIES, Some(OLD), None, objects).objects, "a") == Some(OLD.(geo := GeoJson(EMPTIED)))
  {
    EmptiedIsEdited(env);
    hide Edited;
    EditCommitsEither(env, "fleet", "a", EMPTIES.edit, Some(OLD), map["a" := OLD]);
    hide Committed;
  }

  lemma EmptiedDiffers()
    ensures OLD.(geo := GeoJson(EMPTIED)) != OLD
  {
    assert SHAPE.members["coordinates"].items != EMPTIED.members["coordinates"].items;
  }

  /** The edit changes the object without a trace in the version, and the plan made
      before it takes the lock. */
  lemma {:induction false} EmptiedShapeIsOverlooked(env: Env)
    requires env.parseJson("[]") == Some(JArray([])) && env.geometryOk(EMPTIED) && env.jsonEnvelope(EMPTIED).None?
    ensures Enabled(env, TWO_WRITERS, Mutate(1))
    ensures var s := Exec(env, TWO_WRITERS, Mutate(1));
            Stale(s, 0) && Enabled(env, s, Lock(0)) && Exec(env, s, Lock(0)).threads[0].Locked?
  {
    hide Committed, LosesEnvelope, Exec, Enabled;
    EmptiedCommits(env);
    EmptiedDiffers();
    MutateIsStep(env, TWO_WRITERS, 1);
    StalePlanAcceptedIff(env, TWO_WRITERS, 0, 1);
    var s := Exec(env, TWO_WRITERS, Mutate(1));
    assert !HoldsLock(s.threads[0]) && !HoldsLock(s.threads[1]);
    LockAccepts(env, s, 0);
  }

  lemma LockAccepts(env: Env, s: State, t: nat)
    requires Stale(s, t) && Unlocked(s, s.threads[t].cell) && s.threads[t].version < U64_MAX
    ensures Enabled(env, s, Lock(t)) && t < |Exec(env, s, Lock(t)).threads| && Exec(env, s, Lock(t)).threads[t].Locked?
  {
  }
}
