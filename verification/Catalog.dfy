/** The logged commands and the interpreter that rebuilds the database from
    them (crates/latlng-core/src/restore.rs). */
module Catalog {
  import opened Types
  import opened Fields
  import opened Geometry
  import JsonPath

  datatype Command =
    | SetPersisted(coll: string, id: string, geo: Geo, fields: seq<FieldEntry>, expiresAt: Option<nat>)
    | Del(coll: string, id: string)
    | Fset(coll: string, id: string, updates: seq<FieldEntry>)
    | ExpireAt(coll: string, id: string, deadline: nat)
    | Persist(coll: string, id: string)
    | Jset(coll: string, id: string, path: string, value: string, raw: bool)
    | Jdel(coll: string, id: string, path: string)
    | CreateCollection(coll: string)
    | DropCollection(coll: string)
    | Rename(coll: string, newName: string)
    | SetChannel(name: string, def: GeofenceDef)
    | DelChannel(name: string)
    | PDelChannel(pattern: string)
    | SetHook(name: string, endpoint: string, def: GeofenceDef)
    | DelHook(name: string)
    | PDelHook(pattern: string)
    | FlushDb

  /** A log record; webhook bookkeeping does not touch the database. */
  datatype Record = Cmd(command: Command) | Webhook(job: nat)

  /** The state that must survive a restart. */
  datatype Db = Db(colls: map<string, Objects>, channels: map<string, GeofenceDef>, hooks: map<string, Hook>)

  const EMPTY: Db := Db(map[], map[], map[])

  /** Every object is stored under its own id. */
  ghost predicate Keyed(objects: Objects) {
    forall id :: id in objects ==> objects[id].id == id
  }

  ghost predicate KeyedDb(db: Db) {
    forall n :: n in db.colls ==> Keyed(db.colls[n])
  }

  // Expiry.

  predicate Expired(o: Object, now: nat) {
    o.expiresAt.Some? && o.expiresAt.value <= now
  }

  function Purge(now: nat, objects: Objects): Objects {
    map id | id in objects && !Expired(objects[id], now) :: objects[id]
  }

  function PurgeDb(now: nat, db: Db): Db {
    db.(colls := map n | n in db.colls :: Purge(now, db.colls[n]))
  }

  /** No stored object is past its deadline. */
  ghost predicate NothingDue(db: Db, now: nat) {
    forall n, id :: n in db.colls && id in db.colls[n] ==> !Expired(db.colls[n][id], now)
  }

  // Commands on one collection.

  predicate IsLocal(c: Command) {
    c.SetPersisted? || c.Del? || c.Fset? || c.ExpireAt? || c.Persist? || c.Jset? || c.Jdel?
  }

  function Payload(env: Env, value: string, raw: bool): Json {
    if raw && env.parseJson(value).Some? then env.parseJson(value).value else JString(value)
  }

  function WithGeo(objects: Objects, id: string, geo: Geo): Objects
    requires id in objects
  {
    objects[id := objects[id].(geo := geo)]
  }

  function WithExpiry(objects: Objects, id: string, expiresAt: Option<nat>): Objects
    requires id in objects
  {
    objects[id := objects[id].(expiresAt := expiresAt)]
  }

  function WithFields(objects: Objects, id: string, updates: seq<FieldEntry>): Objects
    requires id in objects
  {
    objects[id := objects[id].(fields := ApplyUpdates(objects[id].fields, updates))]
  }

  function ApplyToObjects(env: Env, c: Command, objects: Objects): Objects
    requires IsLocal(c)
  {
    match c
    case SetPersisted(_, id, geo, fields, expiresAt) =>
      objects[id := Object(id, geo, EntriesToMap(fields), expiresAt)]
    case Del(_, id) => objects - {id}
    case Fset(_, id, updates) => if id in objects then WithFields(objects, id, updates) else objects
    case ExpireAt(_, id, deadline) => if id in objects then WithExpiry(objects, id, Some(deadline)) else objects
    case Persist(_, id) => if id in objects then WithExpiry(objects, id, None) else objects
    case Jset(_, id, path, value, raw) =>
      if id in objects && objects[id].geo.GeoJson? then
        var edited := JsonPath.Set(objects[id].geo.doc, JsonPath.Segments(path), Payload(env, value, raw));
        WithGeo(objects, id, GeoJson(edited.doc))
      else objects
    case Jdel(_, id, path) =>
      if id in objects && objects[id].geo.GeoJson? then
        var edited := JsonPath.Delete(objects[id].geo.doc, JsonPath.Segments(path));
        WithGeo(objects, id, GeoJson(edited.doc))
      else objects
  }

  function ObjectsOf(db: Db, coll: string): Objects {
    if coll in db.colls then db.colls[coll] else map[]
  }

  function Stored(db: Db, coll: string, create: bool, objects: Objects): Db {
    if coll in db.colls || create then db.(colls := db.colls[coll := objects]) else db
  }

  /** Only a set creates the collection it names. */
  function ApplyLocal(env: Env, db: Db, c: Command): Db
    requires IsLocal(c)
  {
    Stored(db, c.coll, c.SetPersisted?, ApplyToObjects(env, c, ObjectsOf(db, c.coll)))
  }

  /** `ensure_geofence_evaluable`: a fence cannot use a reference area. */
  predicate Evaluable(def: GeofenceDef) {
    match def.query
    case Within(area, _) => !area.Reference?
    case Intersects(area, _) => !area.Reference?
    case _ => true
  }

  function Matching<V>(env: Env, pattern: string, m: map<string, V>): set<string> {
    set k | k in m && env.glob(pattern, k)
  }

  function Renamed(colls: map<string, Objects>, from: string, to: string): map<string, Objects> {
    if from in colls then (colls - {from})[to := colls[from]] else colls
  }

  function ApplyCommand(env: Env, db: Db, c: Command): Db {
    if IsLocal(c) then ApplyLocal(env, db, c)
    else
      match c
      case CreateCollection(coll) =>
        if coll in db.colls then db else db.(colls := db.colls[coll := map[]])
      case DropCollection(coll) => db.(colls := db.colls - {coll})
      case Rename(coll, newName) => db.(colls := Renamed(db.colls, coll, newName))
      case SetChannel(name, def) =>
        if Evaluable(def) then db.(channels := db.channels[name := def]) else db
      case DelChannel(name) => db.(channels := db.channels - {name})
      case PDelChannel(pattern) => db.(channels := db.channels - Matching(env, pattern, db.channels))
      case SetHook(name, endpoint, def) =>
        if Evaluable(def) then db.(hooks := db.hooks[name := Hook(endpoint, def)]) else db
      case DelHook(name) => db.(hooks := db.hooks - {name})
      case PDelHook(pattern) => db.(hooks := db.hooks - Matching(env, pattern, db.hooks))
      case FlushDb => EMPTY
  }

  function Apply(env: Env, db: Db, r: Record): Db {
    match r
    case Cmd(command) => ApplyCommand(env, db, command)
    case Webhook(_) => db
  }

  /** All records, oldest first. */
  function ReplayFrom(env: Env, db: Db, records: seq<Record>): Db {
    if records == [] then db
    else Apply(env, ReplayFrom(env, db, records[..|records| - 1]), records[|records| - 1])
  }

  function Replay(env: Env, records: seq<Record>): Db {
    ReplayFrom(env, EMPTY, records)
  }

  lemma {:induction false} ReplayConcat(env: Env, db: Db, a: seq<Record>, b: seq<Record>)
    ensures ReplayFrom(env, db, a + b) == ReplayFrom(env, ReplayFrom(env, db, a), b)
  {
    if b == [] {
      assert a + b == a;
    } else {
      ReplayConcat(env, db, a, b[..|b| - 1]);
      assert (a + b)[..|a + b| - 1] == a + b[..|b| - 1];
    }
  }

  /** Replaying a record fails exactly when it stores a geometry without an envelope. */
  predicate Replayable(env: Env, r: Record) {
    r.Cmd? && r.command.SetPersisted? ==> Indexable(env, r.command.geo)
  }

  // Records that commute: webhook bookkeeping with anything, commands on
  // different collections with each other.

  predicate Independent(a: Record, b: Record) {
    a.Webhook? || b.Webhook? ||
    (IsLocal(a.command) && IsLocal(b.command) && a.command.coll != b.command.coll)
  }

  lemma {:induction false} StoredCommute(
      db: Db, a: string, createA: bool, x: Objects, b: string, createB: bool, y: Objects)
    requires a != b
    ensures Stored(Stored(db, a, createA, x), b, createB, y) == Stored(Stored(db, b, createB, y), a, createA, x)
    ensures ObjectsOf(Stored(db, a, createA, x), b) == ObjectsOf(db, b)
    ensures ObjectsOf(Stored(db, b, createB, y), a) == ObjectsOf(db, a)
  {
    assert db.colls[a := x][b := y] == db.colls[b := y][a := x];
  }

  lemma {:induction false} IndependentCommute(env: Env, db: Db, a: Record, b: Record)
    requires Independent(a, b)
    ensures Apply(env, Apply(env, db, a), b) == Apply(env, Apply(env, db, b), a)
  {
    if a.Cmd? && b.Cmd? {
      var c, d := a.command, b.command;
      var x := ApplyToObjects(env, c, ObjectsOf(db, c.coll));
      var y := ApplyToObjects(env, d, ObjectsOf(db, d.coll));
      StoredCommute(db, c.coll, c.SetPersisted?, x, d.coll, d.SetPersisted?, y);
    }
  }

  // Sequence order. An entry carries the number it reserved before it was appended.

  datatype Entry = Entry(number: nat, record: Record)

  function Records(log: seq<Entry>): (r: seq<Record>)
    ensures |r| == |log|
    ensures forall i :: 0 <= i < |log| ==> r[i] == log[i].record
  {
    seq(|log|, i requires 0 <= i < |log| => log[i].record)
  }

  predicate Ascending(log: seq<Entry>) {
    forall i, j :: 0 <= i < j < |log| ==> log[i].number < log[j].number
  }

  /** Entries whose numbers are out of order are independent. */
  predicate OrderedUpToIndependence(log: seq<Entry>) {
    forall i, j :: 0 <= i < j < |log| ==>
      log[i].number < log[j].number ||
      (log[i].number > log[j].number && Independent(log[i].record, log[j].record))
  }

  lemma {:induction false} MoveToEnd(env: Env, db: Db, r: Record, later: seq<Record>)
    requires forall i :: 0 <= i < |later| ==> Independent(r, later[i])
    ensures ReplayFrom(env, db, [r] + later) == ReplayFrom(env, db, later + [r])
  {
    if later == [] {
      assert [r] + later == later + [r];
    } else {
      var init, last := later[..|later| - 1], later[|later| - 1];
      MoveToEnd(env, db, r, init);
      assert ([r] + later)[..|later|] == [r] + init;
      assert (later + [r])[..|later|] == later;
      assert (init + [r])[..|init|] == init;
      IndependentCommute(env, ReplayFrom(env, db, init), r, last);
    }
  }

  lemma RemoveAt(log: seq<Entry>, k: nat)
    requires k < |log| && OrderedUpToIndependence(log)
    ensures OrderedUpToIndependence(log[..k] + log[k + 1..])
  {
  }

  lemma {:induction false} ReplayMoved(env: Env, before: seq<Entry>, top: Entry, after: seq<Entry>)
    requires forall i :: 0 <= i < |after| ==> Independent(top.record, after[i].record)
    ensures Replay(env, Records(before + [top] + after))
         == Apply(env, Replay(env, Records(before + after)), top.record)
  {
    var b, t, a := Records(before), top.record, Records(after);
    assert Records(before + [top] + after) == b + ([t] + a);
    assert Records(before + after) == b + a;
    ReplayConcat(env, EMPTY, b, [t] + a);
    ReplayConcat(env, EMPTY, b, a);
    MoveToEnd(env, Replay(env, b), t, a);
    assert (a + [t])[..|a|] == a;
  }

  lemma {:induction false} ReplayWithout(env: Env, log: seq<Entry>, k: nat)
    requires k < |log| && forall i :: k < i < |log| ==> Independent(log[k].record, log[i].record)
    ensures Replay(env, Records(log))
         == Apply(env, Replay(env, Records(log[..k] + log[k + 1..])), log[k].record)
  {
    assert log == log[..k] + [log[k]] + log[k + 1..];
    ReplayMoved(env, log[..k], log[k], log[k + 1..]);
  }

  lemma {:induction false} MultisetRemove(log: seq<Entry>, k: nat, rest: seq<Entry>, top: Entry)
    requires k < |log| && log[k] == top && multiset(log) == multiset(rest + [top])
    ensures multiset(log[..k] + log[k + 1..]) == multiset(rest)
  {
    assert log == log[..k] + [top] + log[k + 1..];
    assert multiset(log) == multiset(log[..k] + log[k + 1..]) + multiset{top};
    assert multiset(rest + [top]) == multiset(rest) + multiset{top};
    assert multiset(rest) == multiset(rest + [top]) - multiset{top};
    assert multiset(log[..k] + log[k + 1..]) == multiset(log) - multiset{top};
  }

  /** The highest-numbered entry is independent of everything appended after it. */
  lemma {:induction false} HighestIsMovable(log: seq<Entry>, k: nat, sorted: seq<Entry>)
    requires OrderedUpToIndependence(log) && Ascending(sorted) && multiset(log) == multiset(sorted)
    requires k < |log| && sorted != [] && log[k] == sorted[|sorted| - 1]
    ensures forall i :: k < i < |log| ==> Independent(log[k].record, log[i].record)
  {
    forall i | k < i < |log| ensures Independent(log[k].record, log[i].record) {
      assert log[i] in multiset(sorted);
      var j :| 0 <= j < |sorted| && sorted[j] == log[i];
    }
  }

  ghost predicate SameEntries(log: seq<Entry>, sorted: seq<Entry>) {
    OrderedUpToIndependence(log) && Ascending(sorted) && multiset(log) == multiset(sorted)
  }

  lemma {:induction false} RemoveHighest(env: Env, log: seq<Entry>, sorted: seq<Entry>) returns (k: nat)
    requires SameEntries(log, sorted) && sorted != []
    ensures k < |log| && SameEntries(log[..k] + log[k + 1..], sorted[..|sorted| - 1])
    ensures Replay(env, Records(log))
         == Apply(env, Replay(env, Records(log[..k] + log[k + 1..])), sorted[|sorted| - 1].record)
  {
    var n := |sorted| - 1;
    assert sorted == sorted[..n] + [sorted[n]];
    assert Ascending(sorted[..n]);
    assert sorted[n] in multiset(log);
    k :| 0 <= k < |log| && log[k] == sorted[n];
    hide OrderedUpToIndependence, Ascending, Independent, Replay, Apply;
    HighestIsMovable(log, k, sorted);
    ReplayWithout(env, log, k);
    MultisetRemove(log, k, sorted[..n], sorted[n]);
    RemoveAt(log, k);
  }

  lemma ReplayLast(env: Env, log: seq<Entry>)
    requires log != []
    ensures Replay(env, Records(log))
         == Apply(env, Replay(env, Records(log[..|log| - 1])), log[|log| - 1].record)
  {
    assert Records(log)[..|log| - 1] == Records(log[..|log| - 1]);
  }

  /** Replay does not depend on whether entries are read in the order they were
      appended or in the order of their numbers. */
  lemma {:induction false} SequenceOrderReplay(env: Env, log: seq<Entry>, sorted: seq<Entry>)
    requires SameEntries(log, sorted)
    ensures Replay(env, Records(log)) == Replay(env, Records(sorted))
    decreases |log|
  {
    if sorted == [] {
      assert |multiset(log)| == 0;
    } else {
      var k := RemoveHighest(env, log, sorted);
      SequenceOrderReplay(env, log[..k] + log[k + 1..], sorted[..|sorted| - 1]);
      ReplayLast(env, sorted);
    }
  }
}
