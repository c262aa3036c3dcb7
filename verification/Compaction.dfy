/** The snapshot a log rewrite stores and what replaying it rebuilds
    (crates/latlng-core/src/persistence.rs). */
module Compaction {
  import opened Types
  import opened Order
  import opened Fields
  import opened Geometry
  import opened Catalog

  ghost function ObjectRecord(coll: string, id: string, o: Object): Record {
    Cmd(SetPersisted(coll, id, o.geo, MapToEntries(o.fields), o.expiresAt))
  }

  /** One record per unexpired object, in the order of `ids`. */
  ghost function ObjectRecords(coll: string, objects: Objects, now: nat, ids: seq<string>): seq<Record>
    requires forall id :: id in ids ==> id in objects
  {
    if ids == [] then []
    else
      var id := ids[|ids| - 1];
      ObjectRecords(coll, objects, now, ids[..|ids| - 1]) +
      if Expired(objects[id], now) then [] else [ObjectRecord(coll, id, objects[id])]
  }

  ghost function OneCollection(coll: string, objects: Objects, now: nat): seq<Record> {
    [Cmd(CreateCollection(coll))] + ObjectRecords(coll, objects, now, SortedKeys(objects.Keys))
  }

  ghost function CollectionRecords(colls: map<string, Objects>, now: nat, names: seq<string>): seq<Record>
    requires forall n :: n in names ==> n in colls
  {
    if names == [] then []
    else
      var n := names[|names| - 1];
      CollectionRecords(colls, now, names[..|names| - 1]) + OneCollection(n, colls[n], now)
  }

  ghost function ChannelRecords(channels: map<string, GeofenceDef>, names: seq<string>): seq<Record>
    requires forall n :: n in names ==> n in channels
  {
    if names == [] then []
    else
      var n := names[|names| - 1];
      ChannelRecords(channels, names[..|names| - 1]) + [Cmd(SetChannel(n, channels[n]))]
  }

  ghost function HookRecords(hooks: map<string, Hook>, names: seq<string>): seq<Record>
    requires forall n :: n in names ==> n in hooks
  {
    if names == [] then []
    else
      var n := names[|names| - 1];
      HookRecords(hooks, names[..|names| - 1]) + [Cmd(SetHook(n, hooks[n].endpoint, hooks[n].def))]
  }

  /** `snapshot_base_log_records`. */
  ghost function Snapshot(db: Db, now: nat): seq<Record> {
    CollectionRecords(db.colls, now, SortedKeys(db.colls.Keys)) +
    ChannelRecords(db.channels, SortedKeys(db.channels.Keys)) +
    HookRecords(db.hooks, SortedKeys(db.hooks.Keys))
  }

  ghost predicate FencesEvaluable(db: Db) {
    (forall n :: n in db.channels ==> Evaluable(db.channels[n])) &&
    (forall n :: n in db.hooks ==> Evaluable(db.hooks[n].def))
  }

  ghost function PurgedOnly(objects: Objects, now: nat, ids: seq<string>): Objects {
    map id | id in ids && id in objects && !Expired(objects[id], now) :: objects[id]
  }

  lemma {:induction false} ReplayOne(env: Env, db: Db, records: seq<Record>, r: Record)
    ensures ReplayFrom(env, db, records + [r]) == Apply(env, ReplayFrom(env, db, records), r)
  {
    assert (records + [r])[..|records|] == records;
  }

  function WithObjects(db: Db, coll: string, objects: Objects): Db {
    db.(colls := db.colls[coll := objects])
  }

  lemma {:induction false} ApplyObjectRecord(env: Env, db: Db, coll: string, objects: Objects, id: string, o: Object)
    requires o.id == id
    ensures Apply(env, WithObjects(db, coll, objects), ObjectRecord(coll, id, o))
         == WithObjects(db, coll, objects[id := o])
  {
    EntriesRoundTrip(o.fields);
    hide EntriesToMap, MapToEntries;
    assert db.colls[coll := objects][coll := objects[id := o]] == db.colls[coll := objects[id := o]];
  }

  lemma PurgedOnlyPush(objects: Objects, now: nat, ids: seq<string>, id: string)
    requires id in objects
    ensures PurgedOnly(objects, now, ids + [id])
         == if Expired(objects[id], now) then PurgedOnly(objects, now, ids) else PurgedOnly(objects, now, ids)[id := objects[id]]
  {
  }

  lemma {:induction false} ReplayObjects(env: Env, db: Db, coll: string, objects: Objects, now: nat, ids: seq<string>)
    requires Keyed(objects) && forall id :: id in ids ==> id in objects
    ensures ReplayFrom(env, WithObjects(db, coll, map[]), ObjectRecords(coll, objects, now, ids))
         == WithObjects(db, coll, PurgedOnly(objects, now, ids))
  {
    hide Apply;
    hide WithObjects;
    if ids == [] {
      assert PurgedOnly(objects, now, ids) == map[];
    } else {
      var init, id := ids[..|ids| - 1], ids[|ids| - 1];
      assert ids == init + [id];
      ReplayObjects(env, db, coll, objects, now, init);
      PurgedOnlyPush(objects, now, init, id);
      var records := ObjectRecords(coll, objects, now, init);
      if Expired(objects[id], now) {
        assert records + [] == records;
      } else {
        ReplayOne(env, WithObjects(db, coll, map[]), records, ObjectRecord(coll, id, objects[id]));
        ApplyObjectRecord(env, db, coll, PurgedOnly(objects, now, init), id, objects[id]);
      }
    }
  }

  lemma {:induction false} ReplayCollection(env: Env, db: Db, coll: string, objects: Objects, now: nat)
    requires coll !in db.colls && Keyed(objects)
    ensures ReplayFrom(env, db, OneCollection(coll, objects, now)) == WithObjects(db, coll, Purge(now, objects))
  {
    var create := Cmd(CreateCollection(coll));
    assert Apply(env, db, create) == WithObjects(db, coll, map[]);
    hide Apply;
    hide WithObjects;
    var ids := SortedKeys(objects.Keys);
    ReplayConcat(env, db, [create], ObjectRecords(coll, objects, now, ids));
    ReplayOne(env, db, [], create);
    assert [] + [create] == [create];
    ReplayObjects(env, db, coll, objects, now, ids);
    assert PurgedOnly(objects, now, ids) == Purge(now, objects);
  }

  ghost function PurgedColls(colls: map<string, Objects>, now: nat, names: seq<string>): map<string, Objects>
    requires forall n :: n in names ==> n in colls
  {
    map n | n in names :: Purge(now, colls[n])
  }

  lemma PurgedCollsPush(colls: map<string, Objects>, now: nat, names: seq<string>, n: string)
    requires n in colls && forall x :: x in names ==> x in colls
    ensures PurgedColls(colls, now, names + [n]) == PurgedColls(colls, now, names)[n := Purge(now, colls[n])]
  {
  }

  lemma {:induction false} ReplayCollections(env: Env, colls: map<string, Objects>, now: nat, names: seq<string>)
    requires forall n :: n in names ==> n in colls && Keyed(colls[n])
    requires Distinct(names)
    ensures Replay(env, CollectionRecords(colls, now, names))
         == EMPTY.(colls := PurgedColls(colls, now, names))
  {
    if names != [] {
      var init, n := names[..|names| - 1], names[|names| - 1];
      assert names == init + [n] && n !in init;
      ReplayCollections(env, colls, now, init);
      var before := CollectionRecords(colls, now, init);
      ReplayConcat(env, EMPTY, before, OneCollection(n, colls[n], now));
      ReplayCollection(env, Replay(env, before), n, colls[n], now);
      PurgedCollsPush(colls, now, init, n);
    }
  }

  lemma ApplyFence(env: Env, db: Db, name: string, def: GeofenceDef, endpoint: string)
    requires Evaluable(def)
    ensures Apply(env, db, Cmd(SetChannel(name, def))) == db.(channels := db.channels[name := def])
    ensures Apply(env, db, Cmd(SetHook(name, endpoint, def))) == db.(hooks := db.hooks[name := Hook(endpoint, def)])
  {
  }

  lemma {:induction false} ReplayChannels(env: Env, db: Db, channels: map<string, GeofenceDef>, names: seq<string>)
    requires forall n :: n in names ==> n in channels && Evaluable(channels[n])
    requires db.channels == map[]
    ensures ReplayFrom(env, db, ChannelRecords(channels, names))
         == db.(channels := map n | n in names :: channels[n])
  {
    hide Apply;
    if names != [] {
      var init, n := names[..|names| - 1], names[|names| - 1];
      ReplayChannels(env, db, channels, init);
      assert forall x :: x in names <==> x in init || x == n;
      ReplayOne(env, db, ChannelRecords(channels, init), Cmd(SetChannel(n, channels[n])));
      ApplyFence(env, ReplayFrom(env, db, ChannelRecords(channels, init)), n, channels[n], "");
      assert (map x | x in init :: channels[x])[n := channels[n]] == map x | x in names :: channels[x];
    }
  }

  lemma {:induction false} ReplayHooks(env: Env, db: Db, hooks: map<string, Hook>, names: seq<string>)
    requires forall n :: n in names ==> n in hooks && Evaluable(hooks[n].def)
    requires db.hooks == map[]
    ensures ReplayFrom(env, db, HookRecords(hooks, names)) == db.(hooks := map n | n in names :: hooks[n])
  {
    hide Apply;
    if names != [] {
      var init, n := names[..|names| - 1], names[|names| - 1];
      ReplayHooks(env, db, hooks, init);
      assert forall x :: x in names <==> x in init || x == n;
      ReplayOne(env, db, HookRecords(hooks, init), Cmd(SetHook(n, hooks[n].endpoint, hooks[n].def)));
      ApplyFence(env, ReplayFrom(env, db, HookRecords(hooks, init)), n, hooks[n].def, hooks[n].endpoint);
      assert (map x | x in init :: hooks[x])[n := hooks[n]] == map x | x in names :: hooks[x];
    }
  }

  /** Compaction preserves meaning: replaying the snapshot rebuilds the
      database without its expired objects, empty collections, channels and
      hooks included. */
  lemma {:induction false} SnapshotReplay(env: Env, db: Db, now: nat)
    requires KeyedDb(db) && FencesEvaluable(db)
    ensures Replay(env, Snapshot(db, now)) == PurgeDb(now, db)
  {
    hide *;
    var names := SortedKeys(db.colls.Keys);
    var records := CollectionRecords(db.colls, now, names);
    ReplayAllCollections(env, db, now);
    ReplayAllChannels(env, records, db.channels);
    ReplayAllHooks(env, records + ChannelRecords(db.channels, SortedKeys(db.channels.Keys)), db.hooks);
    SnapshotParts(db, now);
  }

  lemma SnapshotParts(db: Db, now: nat)
    requires FencesEvaluable(db)
    ensures Snapshot(db, now) ==
      CollectionRecords(db.colls, now, SortedKeys(db.colls.Keys)) +
      ChannelRecords(db.channels, SortedKeys(db.channels.Keys)) +
      HookRecords(db.hooks, SortedKeys(db.hooks.Keys))
    ensures PurgeDb(now, db).channels == db.channels && PurgeDb(now, db).hooks == db.hooks
    ensures PurgeDb(now, db) == Db(PurgeDb(now, db).colls, db.channels, db.hooks)
  {
  }

  lemma {:induction false} ReplayAllCollections(env: Env, db: Db, now: nat)
    requires KeyedDb(db) && FencesEvaluable(db)
    ensures Replay(env, CollectionRecords(db.colls, now, SortedKeys(db.colls.Keys)))
         == Db(PurgeDb(now, db).colls, map[], map[])
    ensures (forall n :: n in db.channels ==> Evaluable(db.channels[n]))
    ensures (forall n :: n in db.hooks ==> Evaluable(db.hooks[n].def))
  {
    hide Less, Apply, Evaluable;
    var names := SortedKeys(db.colls.Keys);
    assert PurgedColls(db.colls, now, names) == PurgeDb(now, db).colls;
    hide PurgedColls, PurgeDb, CollectionRecords;
    SortedKeysDistinct(db.colls.Keys);
    ReplayCollections(env, db.colls, now, names);
  }

  lemma FencesStayEvaluable(env: Env, db: Db, r: Record)
    requires FencesEvaluable(db)
    ensures FencesEvaluable(Apply(env, db, r))
  {
    hide ApplyToObjects, Evaluable;
  }

  /** Nothing that replay registers is skipped by a snapshot. */
  lemma {:induction false} ReplayedFencesEvaluable(env: Env, db: Db, records: seq<Record>)
    requires FencesEvaluable(db)
    ensures FencesEvaluable(ReplayFrom(env, db, records))
  {
    hide FencesEvaluable, Apply;
    if records != [] {
      ReplayedFencesEvaluable(env, db, records[..|records| - 1]);
      FencesStayEvaluable(env, ReplayFrom(env, db, records[..|records| - 1]), records[|records| - 1]);
    }
  }

  lemma {:induction false} ReplayAllChannels(env: Env, records: seq<Record>, channels: map<string, GeofenceDef>)
    requires forall n :: n in channels ==> Evaluable(channels[n])
    requires Replay(env, records).channels == map[]
    ensures Replay(env, records + ChannelRecords(channels, SortedKeys(channels.Keys)))
         == Replay(env, records).(channels := channels)
  {
    hide Apply, Less;
    var names := SortedKeys(channels.Keys);
    ReplayConcat(env, EMPTY, records, ChannelRecords(channels, names));
    ReplayChannels(env, Replay(env, records), channels, names);
    assert (map n | n in names :: channels[n]) == channels;
  }

  lemma {:induction false} ReplayAllHooks(env: Env, records: seq<Record>, hooks: map<string, Hook>)
    requires forall n :: n in hooks ==> Evaluable(hooks[n].def)
    requires Replay(env, records).hooks == map[]
    ensures Replay(env, records + HookRecords(hooks, SortedKeys(hooks.Keys)))
         == Replay(env, records).(hooks := hooks)
  {
    hide Apply, Less;
    var names := SortedKeys(hooks.Keys);
    ReplayConcat(env, EMPTY, records, HookRecords(hooks, names));
    ReplayHooks(env, Replay(env, records), hooks, names);
    assert (map n | n in names :: hooks[n]) == hooks;
  }

  lemma {:induction false} ObjectRecordsReplayable(env: Env, coll: string, objects: Objects, now: nat, ids: seq<string>)
    requires forall id :: id in ids ==> id in objects
    requires forall id :: id in objects ==> Indexable(env, objects[id].geo)
    ensures forall r :: r in ObjectRecords(coll, objects, now, ids) ==> Replayable(env, r)
  {
    if ids != [] {
      ObjectRecordsReplayable(env, coll, objects, now, ids[..|ids| - 1]);
    }
  }

  lemma {:induction false} CollectionRecordsReplayable(env: Env, colls: map<string, Objects>, now: nat, names: seq<string>)
    requires forall n :: n in names ==> n in colls
    requires forall n, id :: n in colls && id in colls[n] ==> Indexable(env, colls[n][id].geo)
    ensures forall r :: r in CollectionRecords(colls, now, names) ==> Replayable(env, r)
  {
    if names != [] {
      var n := names[|names| - 1];
      CollectionRecordsReplayable(env, colls, now, names[..|names| - 1]);
      ObjectRecordsReplayable(env, n, colls[n], now, SortedKeys(colls[n].Keys));
    }
  }

  // Numbering of the rewritten log.

  /** `rewrite_log_snapshot` numbers the records so that the last one keeps the
      stored last sequence whenever there is room for that. */
  function FirstNumber(currentLast: nat, count: nat): nat {
    if count == 0 then 0
    else if currentLast >= count then currentLast - count + 1
    else 1
  }

  function NextAfterRewrite(currentLast: nat, count: nat): nat {
    if count == 0 then currentLast else FirstNumber(currentLast, count) + count - 1
  }

  function Numbered(first: nat, records: seq<Record>): (log: seq<Entry>)
    ensures |log| == |records|
    ensures forall i :: 0 <= i < |log| ==> log[i] == Entry(first + i, records[i])
  {
    seq(|records|, i requires 0 <= i < |records| => Entry(first + i, records[i]))
  }

  /** The rewritten log is contiguous, starts at 1 or later and ends at the
      larger of the stored last sequence and the record count, which is where
      the sequence counter is left. */
  lemma RewriteNumbers(currentLast: nat, records: seq<Record>)
    ensures NextAfterRewrite(currentLast, |records|) == if currentLast > |records| then currentLast else |records|
    ensures records != [] ==>
      var log := Numbered(FirstNumber(currentLast, |records|), records);
      log[0].number >= 1 && log[|log| - 1].number == NextAfterRewrite(currentLast, |records|) &&
      forall i :: 0 < i < |log| ==> log[i].number == log[i - 1].number + 1
    ensures Ascending(Numbered(FirstNumber(currentLast, |records|), records))
    ensures Records(Numbered(FirstNumber(currentLast, |records|), records)) == records
  {
  }
}
