/** Sweeping expired objects, on the log and off it
    (crates/latlng-core/src/admin.rs, crates/latlng-core/src/util.rs). */
module Maintenance {
  import opened Types
  import opened Order
  import opened Geometry
  import opened Catalog
  import opened Compaction
  import opened Collections
  import opened Engine
  import Batches

  ghost function Ids(ids: seq<string>): set<string> {
    set id | id in ids
  }

  // The ids a sweep takes from one collection.

  lemma PrefixDistinct(objects: Objects, now: nat, max: nat, ids: seq<string>)
    requires DuePrefix(objects, now, max, ids)
    ensures Distinct(ids) && Ids(ids) <= Due(objects, now)
  {
    forall i, j | 0 <= i < j < |ids| ensures ids[i] != ids[j] {
      EarlierIsTotal(Place(objects, ids[i]), Place(objects, ids[j]));
    }
  }

  /** A sweep with room for all takes all. */
  lemma PrefixIsAll(objects: Objects, now: nat, max: nat, ids: seq<string>)
    requires DuePrefix(objects, now, max, ids) && |ids| == |Due(objects, now)|
    ensures Ids(ids) == Due(objects, now)
  {
    PrefixDistinct(objects, now, max, ids);
    DistinctSize(ids);
    SameSize(Ids(ids), Due(objects, now));
  }

  lemma MinusDueIsPurge(objects: Objects, now: nat)
    ensures objects - Due(objects, now) == Purge(now, objects)
  {
  }

  // `gc`: every collection, nothing logged.

  /** Removes the given objects of one collection. */
  method RemoveAll(store: Store, name: string, ids: seq<string>)
    requires store.Valid() && name in store.collections
    modifies store.collections[name], store.collections[name].spatial, store.collections[name].fieldIndexes
    ensures store.Valid()
    ensures store.View() == WithObjects(old(store.View()), name, old(store.View()).colls[name] - Ids(ids))
  {
    hide *;
    ghost var before := store.View();
    store.SameNames();
    NothingGone(before, name);
    var i := 0;
    assert ids[..i] == [];
    while i < |ids|
      invariant i <= |ids| && store.Valid()
      invariant store.View() == WithObjects(before, name, before.colls[name] - Ids(ids[..i]))
    {
      WithHas(before, name, before.colls[name] - Ids(ids[..i]));
      var _ := store.Remove(name, ids[i]);
      OneMoreGone(before, name, ids, i);
      i := i + 1;
    }
    assert ids[..i] == ids;
  }

  lemma NothingGone(db: Db, name: string)
    requires name in db.colls
    ensures WithObjects(db, name, db.colls[name] - Ids([])) == db
  {
    assert db.colls[name] - Ids([]) == db.colls[name];
    WithSame(db, name);
  }

  lemma WithHas(db: Db, name: string, objects: Objects)
    ensures name in WithObjects(db, name, objects).colls && WithObjects(db, name, objects).colls[name] == objects
  {
  }

  lemma OneMoreGone(db: Db, name: string, ids: seq<string>, i: nat)
    requires name in db.colls && i < |ids|
    ensures
      var objects := db.colls[name];
      WithObjects(WithObjects(db, name, objects - Ids(ids[..i])), name, objects - Ids(ids[..i]) - {ids[i]})
        == WithObjects(db, name, objects - Ids(ids[..i + 1]))
  {
    var objects := db.colls[name];
    assert Ids(ids[..i + 1]) == Ids(ids[..i]) + {ids[i]};
    assert objects - Ids(ids[..i]) - {ids[i]} == objects - Ids(ids[..i + 1]);
    Batches.OverwriteObjects(db, name, objects - Ids(ids[..i]), objects - Ids(ids[..i + 1]));
  }

  /** The database with the collections in `done` purged. */
  ghost function PurgedIn(db: Db, now: nat, done: seq<string>): Db {
    db.(colls := map n | n in db.colls :: if n in done then Purge(now, db.colls[n]) else db.colls[n])
  }

  /** `gc_collections_locked`, over the collections in any order. */
  method Gc(store: Store, now: nat)
    requires store.Valid()
    modifies store.collections.Values
    modifies set cell | cell in store.collections.Values :: cell.spatial
    modifies set cell | cell in store.collections.Values :: cell.fieldIndexes
    ensures store.Valid() && store.View() == PurgeDb(now, old(store.View()))
  {
    hide *;
    ghost var before := store.View();
    store.SameNames();
    var names := Listed(store.collections.Keys);
    PurgedStart(before, now);
    var i := 0;
    assert names[..i] == [];
    while i < |names|
      invariant i <= |names| && store.Valid()
      invariant store.View() == PurgedIn(before, now, names[..i])
    {
      assert names[i] in names;
      PurgedStep(before, now, names, i);
      PurgeOne(store, names[i], now);
      i := i + 1;
    }
    assert names[..i] == names;
    PurgedEnd(before, now, names);
  }

  method PurgeOne(store: Store, name: string, now: nat)
    requires store.Valid() && name in store.collections
    modifies store.collections[name], store.collections[name].spatial, store.collections[name].fieldIndexes
    ensures store.Valid() && name in old(store.View()).colls
    ensures store.View() == WithObjects(old(store.View()), name, Purge(now, old(store.View()).colls[name]))
  {
    hide *;
    var ids := AllDue(store, name, now);
    RemoveAll(store, name, ids);
  }

  method AllDue(store: Store, name: string, now: nat) returns (ids: seq<string>)
    requires store.Valid() && name in store.collections
    ensures name in store.View().colls
    ensures store.View().colls[name] - Ids(ids) == Purge(now, store.View().colls[name])
  {
    var cell := store.collections[name];
    store.SameNames();
    store.CellIsValid(name);
    hide Store.Valid, Store.View, Collection.Valid, Purge;
    ids := cell.DueExpirations(now, |cell.objects|);
    DueFits(cell.objects, now);
    PrefixIsAll(cell.objects, now, |cell.objects|, ids);
    MinusDueIsPurge(cell.objects, now);
  }

  lemma DueFits(objects: Objects, now: nat)
    ensures |Due(objects, now)| <= |objects|
  {
    SubsetSize(Due(objects, now), objects.Keys);
  }

  lemma PurgedStart(db: Db, now: nat)
    ensures PurgedIn(db, now, []) == db
  {
    assert (map n | n in db.colls :: if n in [] then Purge(now, db.colls[n]) else db.colls[n]) == db.colls;
  }

  lemma PurgedStep(db: Db, now: nat, names: seq<string>, i: nat)
    requires Distinct(names) && i < |names| && names[i] in db.colls
    ensures names[i] in PurgedIn(db, now, names[..i]).colls
    ensures PurgedIn(db, now, names[..i]).colls[names[i]] == db.colls[names[i]]
    ensures PurgedIn(db, now, names[..i + 1])
         == WithObjects(PurgedIn(db, now, names[..i]), names[i], Purge(now, db.colls[names[i]]))
  {
    hide Purge;
    assert names[..i + 1] == names[..i] + [names[i]];
    assert names[i] !in names[..i];
    assert PurgedIn(db, now, names[..i + 1]).colls
        == PurgedIn(db, now, names[..i]).colls[names[i] := Purge(now, db.colls[names[i]])];
  }

  lemma PurgedEnd(db: Db, now: nat, names: seq<string>)
    requires forall n :: n in db.colls ==> n in names
    ensures PurgedIn(db, now, names) == PurgeDb(now, db)
  {
    hide Purge;
  }

  /** `LatLngBuilder::build`: replay, sweep, and continue after the last sequence. */
  method Build(env: Env, log: seq<Entry>, now: nat) returns (r: Option<(Store, nat)>)
    ensures r.Some? <==> forall i :: 0 <= i < |log| ==> Replayable(env, log[i].record)
    ensures r.Some? ==>
      r.value.0.Valid() && fresh(r.value.0) && r.value.0.env == env &&
      r.value.0.View() == PurgeDb(now, Replay(env, Records(log))) &&
      r.value.1 == if log == [] then 0 else log[|log| - 1].number
  {
    hide PurgeDb, Replayable, Store.Valid, Store.View;
    var store := new Store(env);
    var records := Records(log);
    var ok := store.Restore(records);
    if !ok {
      assert exists i :: 0 <= i < |records| && !Replayable(env, records[i]);
      return None;
    }
    assert forall i :: 0 <= i < |log| ==> records[i] == log[i].record;
    Gc(store, now);
    r := Some((store, if log == [] then 0 else log[|log| - 1].number));
  }
}
