/** The engine's catalog as the source keeps it: collections that are updated in
    place, rebuilt from the log by the replay interpreter
    (crates/latlng-core/src/restore.rs, crates/latlng-core/src/lib.rs). */
module Engine {
  import opened Types
  import opened Fields
  import opened Geometry
  import opened Catalog
  import opened Compaction
  import opened Collections
  import JsonPath

  /** The heap objects that make up one collection. */
  predicate Apart(c: Collection, d: Collection) {
    c != d && c.spatial != d.spatial && c.fieldIndexes != d.fieldIndexes
  }

  ghost predicate AllApart(collections: map<string, Collection>) {
    forall a, b :: a in collections && b in collections && a != b ==> Apart(collections[a], collections[b])
  }

  ghost predicate CellsValid(env: Env, collections: map<string, Collection>)
    reads collections.Values
    reads set c | c in collections.Values :: c.spatial
    reads set c | c in collections.Values :: c.fieldIndexes
  {
    forall n :: n in collections ==> collections[n].Valid() && collections[n].env == env
  }

  lemma AddValid(env: Env, collections: map<string, Collection>, name: string, cell: Collection)
    requires CellsValid(env, collections) && cell.Valid() && cell.env == env
    ensures CellsValid(env, collections[name := cell])
  {
    hide Collection.Valid;
  }

  /** No index mentions the id. */
  ghost predicate Unindexed(env: Env, objects: Objects, id: string) {
    id !in objects || Bare(env, objects[id])
  }

  class Store {
    const env: Env
    var collections: map<string, Collection>
    var channels: map<string, GeofenceDef>
    var hooks: map<string, Hook>

    /** Collections share nothing, and each one's indexes are exact. */
    ghost predicate Valid()
      reads this, collections.Values
      reads set c | c in collections.Values :: c.spatial
      reads set c | c in collections.Values :: c.fieldIndexes
    {
      AllApart(collections) && CellsValid(env, collections)
    }

    ghost function View(): Db
      reads this, collections.Values
    {
      Db(map n | n in collections :: collections[n].objects, channels, hooks)
    }

    constructor (env: Env)
      ensures Valid() && View() == EMPTY && this.env == env && collections == map[]
    {
      this.env := env;
      collections, channels, hooks := map[], map[], map[];
    }

    /** Every collection was there before or is new, with all its parts. */
    twostate predicate OldOrNew()
      reads this
    {
      forall n :: n in collections ==>
        collections[n] in old(collections).Values ||
        (fresh(collections[n]) && fresh(collections[n].spatial) && fresh(collections[n].fieldIndexes))
    }

    // One collection is changed in place; the others are not touched.

    method Upsert(name: string, o: Object) returns (ok: bool)
      requires Valid() && name in collections
      modifies collections[name], collections[name].spatial, collections[name].fieldIndexes
      ensures ok == Indexable(env, o.geo)
      ensures ok ==> Valid() && View() == WithObjects(old(View()), name, old(View()).colls[name][o.id := o])
      ensures !ok ==> View() == old(View()) && (Valid() <==> Unindexed(env, old(View()).colls[name], o.id))
    {
      hide Collection.Valid, Indexable, Bare, AllApart;
      ghost var before := View();
      Others(collections, name);
      ok := collections[name].Upsert(o);
      if ok {
        Changed(before.colls, View().colls, name, before.colls[name][o.id := o]);
      } else {
        Changed(before.colls, View().colls, name, before.colls[name]);
      }
    }

    method Remove(name: string, id: string) returns (removed: bool)
      requires Valid() && name in collections
      modifies collections[name], collections[name].spatial, collections[name].fieldIndexes
      ensures Valid() && removed == (id in old(View()).colls[name])
      ensures View() == WithObjects(old(View()), name, old(View()).colls[name] - {id})
    {
      hide Collection.Valid, AllApart;
      ghost var before := View();
      Others(collections, name);
      var gone := collections[name].Remove(id);
      removed := gone.Some?;
      Changed(before.colls, View().colls, name, before.colls[name] - {id});
    }

    method SetExpiry(name: string, id: string, expiresAt: Option<nat>)
      requires Valid() && name in collections
      modifies collections[name]
      ensures Valid()
      ensures
        var was := old(View()).colls[name];
        View() == WithObjects(old(View()), name, if id in was then WithExpiry(was, id, expiresAt) else was)
    {
      hide Collection.Valid, AllApart;
      ghost var before := View();
      Others(collections, name);
      var _ := collections[name].SetExpiry(id, expiresAt);
      Changed(before.colls, View().colls, name, collections[name].objects);
    }

    method InsertFields(name: string, id: string, updates: seq<FieldEntry>)
      requires Valid() && name in collections
      modifies collections[name], collections[name].fieldIndexes
      ensures Valid()
      ensures
        var was := old(View()).colls[name];
        View() == WithObjects(old(View()), name, if id in was then WithFields(was, id, updates) else was)
    {
      hide Collection.Valid, AllApart, ApplyUpdates;
      ghost var before := View();
      Others(collections, name);
      var _ := collections[name].InsertFields(id, updates);
      Changed(before.colls, View().colls, name, collections[name].objects);
    }

    method ReplaceGeo(name: string, id: string, geo: Geo) returns (ok: bool)
      requires Valid() && name in collections && id in collections[name].objects
      modifies collections[name], collections[name].spatial
      ensures ok == Indexable(env, geo)
      ensures Valid() && View() == WithObjects(old(View()), name, WithGeo(old(View()).colls[name], id, geo))
    {
      hide Collection.Valid, AllApart, Indexable;
      ghost var before := View();
      CellIsValid(name);
      Others(collections, name);
      var r := collections[name].ReplaceGeo(id, geo);
      ok := r.Some?;
      Changed(before.colls, View().colls, name, collections[name].objects);
    }

    method EditGeo(name: string, id: string, geo: Geo)
      requires Valid() && name in collections && id in collections[name].objects
      modifies collections[name], collections[name].spatial
      ensures Valid() && View() == WithObjects(old(View()), name, WithGeo(old(View()).colls[name], id, geo))
    {
      hide Collection.Valid, AllApart;
      ghost var before := View();
      Others(collections, name);
      collections[name].EditGeo(id, geo);
      Changed(before.colls, View().colls, name, collections[name].objects);
    }

    method AddCell(name: string, cell: Collection)
      requires Valid() && name !in collections && cell.Valid() && cell.env == env && cell.objects == map[]
      requires forall n :: n in collections ==> Apart(collections[n], cell) && Apart(cell, collections[n])
      modifies this`collections
      ensures Valid() && collections == old(collections)[name := cell]
      ensures View() == WithObjects(old(View()), name, map[])
    {
      hide Collection.Valid, AllApart, CellsValid;
      ghost var before := View();
      AddApart(collections, name, cell);
      AddValid(env, collections, name, cell);
      collections := collections[name := cell];
      Added(before.colls, View().colls, name);
    }

    /** A new, empty collection under a name that is free. */
    method CreateCell(name: string)
      requires Valid() && name !in collections
      modifies this`collections
      ensures Valid() && name in collections && OldOrNew()
      ensures View() == WithObjects(old(View()), name, map[])
    {
      hide Valid, View, WithObjects, AllApart, CellsValid, Apart, Collection.Valid;
      ghost var before := View();
      var cell := new Collection(env);
      assert View() == before;
      NewIsApart(collections, cell);
      AddCell(name, cell);
    }

    /** `ensure_collection_cell`. */
    method EnsureCollection(name: string)
      requires Valid()
      modifies this`collections
      ensures Valid() && name in collections && OldOrNew()
      ensures name in old(collections) ==> View() == old(View())
      ensures name !in old(collections) ==> View() == WithObjects(old(View()), name, map[])
    {
      hide Valid, View, WithObjects;
      if name !in collections {
        CreateCell(name);
      }
    }

    // The replay interpreter.

    lemma SameNames()
      ensures View().colls.Keys == collections.Keys
      ensures forall n :: n in collections ==> View().colls[n] == collections[n].objects
    {
    }

    lemma CellIsValid(name: string)
      requires Valid() && name in collections
      ensures collections[name].Valid() && collections[name].env == env
    {
      hide Collection.Valid;
    }

    lemma KeyedView()
      requires Valid()
      ensures KeyedDb(View())
    {
      forall n | n in collections ensures Keyed(collections[n].objects) {
        CellIsValid(n);
      }
      hide Collection.Valid, Keyed;
    }

    method ApplySet(c: Command) returns (ok: bool)
      requires Valid() && c.SetPersisted?
      modifies this`collections
      modifies collections.Values
      modifies set cell | cell in collections.Values :: cell.spatial
      modifies set cell | cell in collections.Values :: cell.fieldIndexes
      ensures OldOrNew() && ok == Indexable(env, c.geo)
      ensures ok ==> Valid() && View() == ApplyLocal(env, old(View()), c)
    {
      hide Valid, View, WithObjects, ApplyLocal, Indexable;
      SameNames();
      SetIsUpsert(env, View(), c);
      var fields := FieldEntriesToMap(c.fields);
      EnsureCollection(c.coll);
      ok := Upsert(c.coll, Object(c.id, c.geo, fields, c.expiresAt));
    }

    method EditDocument(c: Command)
      requires Valid() && (c.Jset? || c.Jdel?) && c.coll in collections
      modifies collections[c.coll], collections[c.coll].spatial
      ensures Valid()
      ensures View() == WithObjects(old(View()), c.coll, ApplyToObjects(env, c, old(View()).colls[c.coll]))
    {
      hide Valid, View, WithObjects, WithGeo, JsonPath.Set, JsonPath.Delete, Payload;
      SameNames();
      WithSame(View(), c.coll);
      var cell := collections[c.coll];
      if c.id in cell.objects && cell.objects[c.id].geo.GeoJson? {
        var doc, edited := cell.objects[c.id].geo.doc, JNull;
        if c.Jset? {
          var next, _ := JsonPath.SetJsonPath(doc, c.path, Payload(env, c.value, c.raw));
          edited := next;
        } else {
          var next, _ := JsonPath.DeleteJsonPath(doc, c.path);
          edited := next;
        }
        EditGeo(c.coll, c.id, GeoJson(edited));
      }
    }

    method UpdateObjects(c: Command)
      requires Valid() && (c.Del? || c.Fset? || c.ExpireAt? || c.Persist?) && c.coll in collections
      modifies collections[c.coll], collections[c.coll].spatial, collections[c.coll].fieldIndexes
      ensures Valid()
      ensures View() == WithObjects(old(View()), c.coll, ApplyToObjects(env, c, old(View()).colls[c.coll]))
    {
      hide Valid, View, WithObjects, WithFields, WithExpiry;
      SameNames();
      match c {
        case Del(_, id) =>
          var _ := Remove(c.coll, id);
        case Fset(_, id, updates) =>
          InsertFields(c.coll, id, updates);
        case ExpireAt(_, id, deadline) =>
          SetExpiry(c.coll, id, Some(deadline));
        case Persist(_, id) =>
          SetExpiry(c.coll, id, None);
      }
    }

    /** Every other command on objects changes an existing collection or nothing. */
    method ApplyUpdate(c: Command)
      requires Valid() && IsLocal(c) && !c.SetPersisted?
      modifies collections.Values
      modifies set cell | cell in collections.Values :: cell.spatial
      modifies set cell | cell in collections.Values :: cell.fieldIndexes
      ensures Valid() && View() == ApplyLocal(env, old(View()), c)
    {
      hide Valid, View, WithObjects, ApplyLocal, ApplyToObjects;
      SameNames();
      UpdateIsStored(env, View(), c);
      if c.coll in collections {
        if c.Jset? || c.Jdel? {
          EditDocument(c);
        } else {
          UpdateObjects(c);
        }
      }
    }

    method DropCollection(name: string)
      requires Valid()
      modifies this`collections
      ensures Valid() && OldOrNew() && View() == ApplyCommand(env, old(View()), Command.DropCollection(name))
    {
      hide Collection.Valid, AllApart, CellsValid;
      ghost var before := View();
      SubsetValid(env, collections, collections - {name});
      collections := collections - {name};
      Dropped(before.colls, View().colls, name);
      DropIsMinus(env, before, name);
      hide ApplyCommand;
    }

    method RenameCollection(name: string, newName: string)
      requires Valid()
      modifies this`collections
      ensures Valid() && OldOrNew() && View() == ApplyCommand(env, old(View()), Rename(name, newName))
    {
      hide Collection.Valid, AllApart, CellsValid, ApplyCommand;
      ghost var before := View();
      if name in collections {
        var cell := collections[name];
        RenameValid(env, collections, name, newName);
        collections := (collections - {name})[newName := cell];
        RenamedContents(before.colls, View().colls, name, newName);
      }
      RenameIsRenamed(env, before, name, newName);
    }

    method SetFences(channels: map<string, GeofenceDef>, hooks: map<string, Hook>)
      requires Valid()
      modifies this`channels, this`hooks
      ensures Valid() && View() == old(View()).(channels := channels, hooks := hooks)
    {
      hide AllApart, CellsValid;
      this.channels, this.hooks := channels, hooks;
    }

    method ApplyFence(c: Command)
      requires Valid()
      requires c.SetChannel? || c.DelChannel? || c.PDelChannel? || c.SetHook? || c.DelHook? || c.PDelHook?
      modifies this`channels, this`hooks
      ensures Valid() && View() == ApplyCommand(env, old(View()), c)
    {
      SameFences();
      hide Valid, View, Evaluable, Matching;
      var channels, hooks := channels, hooks;
      match c {
        case SetChannel(name, def) =>
          if Evaluable(def) {
            channels := channels[name := def];
          }
        case DelChannel(name) => channels := channels - {name};
        case PDelChannel(pattern) => channels := channels - Matching(env, pattern, channels);
        case SetHook(name, endpoint, def) =>
          if Evaluable(def) {
            hooks := hooks[name := Hook(endpoint, def)];
          }
        case DelHook(name) => hooks := hooks - {name};
        case PDelHook(pattern) => hooks := hooks - Matching(env, pattern, hooks);
      }
      SetFences(channels, hooks);
    }

    lemma SameFences()
      ensures View().channels == channels && View().hooks == hooks
    {
    }

    method Flush()
      requires Valid()
      modifies this
      ensures Valid() && OldOrNew() && View() == EMPTY
    {
      hide AllApart, CellsValid;
      collections, channels, hooks := map[], map[], map[];
      NothingValid(env);
    }

    /** `apply_persisted_command_to_state` and `apply_persisted_entry_to_state`: in place, the
        interpreter is `Apply`, every index stays exact, and it fails only on a geometry
        without an envelope. */
    method ApplyRecord(r: Record) returns (ok: bool)
      requires Valid()
      modifies this, collections.Values
      modifies set cell | cell in collections.Values :: cell.spatial
      modifies set cell | cell in collections.Values :: cell.fieldIndexes
      ensures OldOrNew() && ok == Replayable(env, r)
      ensures ok ==> Valid() && View() == Apply(env, old(View()), r)
    {
      hide Valid, View, WithObjects, ApplyLocal, Indexable;
      ok := true;
      if r.Cmd? {
        var c := r.command;
        if c.SetPersisted? {
          ok := ApplySet(c);
        } else if IsLocal(c) {
          ApplyUpdate(c);
        } else if c.CreateCollection? {
          SameNames();
          EnsureCollection(c.coll);
          CreateIsWith(env, old(View()), c);
        } else if c.DropCollection? {
          DropCollection(c.coll);
        } else if c.Rename? {
          RenameCollection(c.coll, c.newName);
        } else if c.FlushDb? {
          Flush();
        } else {
          ApplyFence(c);
        }
      }
    }

    /** `LatLngBuilder::build` before its sweep: the whole log, oldest first. */
    method Restore(records: seq<Record>) returns (ok: bool)
      requires Valid()
      modifies this, collections.Values
      modifies set cell | cell in collections.Values :: cell.spatial
      modifies set cell | cell in collections.Values :: cell.fieldIndexes
      ensures ok <==> forall i :: 0 <= i < |records| ==> Replayable(env, records[i])
      ensures OldOrNew()
      ensures ok ==> Valid() && View() == ReplayFrom(env, old(View()), records)
    {
      hide Valid, View, Apply, Replayable;
      assert records[..0] == [];
      for i := 0 to |records|
        invariant Valid() && OldOrNew()
        invariant View() == ReplayFrom(env, old(View()), records[..i])
        invariant forall j :: 0 <= j < i ==> Replayable(env, records[j])
      {
        assert records[..i + 1][..i] == records[..i];
        ok := ApplyRecord(records[i]);
        if !ok {
          return;
        }
      }
      assert records[..|records|] == records;
      ok := true;
    }
  }

  lemma Dropped(before: map<string, Objects>, after: map<string, Objects>, name: string)
    requires after.Keys == before.Keys - {name} && forall n :: n in after ==> after[n] == before[n]
    ensures after == before - {name}
  {
  }

  lemma RenamedContents(before: map<string, Objects>, after: map<string, Objects>, name: string, newName: string)
    requires name in before && after.Keys == before.Keys - {name} + {newName} && after[newName] == before[name]
    requires forall n :: n in after && n != newName ==> n in before && after[n] == before[n]
    ensures after == Renamed(before, name, newName)
  {
  }

  lemma DropIsMinus(env: Env, db: Db, name: string)
    ensures ApplyCommand(env, db, DropCollection(name)) == db.(colls := db.colls - {name})
  {
  }

  lemma RenameIsRenamed(env: Env, db: Db, name: string, newName: string)
    ensures ApplyCommand(env, db, Rename(name, newName)) == db.(colls := Renamed(db.colls, name, newName))
  {
  }

  lemma CreateIsWith(env: Env, db: Db, c: Command)
    requires c.CreateCollection?
    ensures ApplyCommand(env, db, c) == if c.coll in db.colls then db else WithObjects(db, c.coll, map[])
  {
  }

  lemma NothingValid(env: Env)
    ensures AllApart(map[]) && CellsValid(env, map[])
  {
  }

  lemma SubsetValid(env: Env, collections: map<string, Collection>, fewer: map<string, Collection>)
    requires AllApart(collections) && CellsValid(env, collections)
    requires forall n :: n in fewer ==> n in collections && fewer[n] == collections[n]
    ensures AllApart(fewer) && CellsValid(env, fewer)
  {
    hide Collection.Valid, Apart;
  }

  lemma RenameValid(env: Env, collections: map<string, Collection>, name: string, newName: string)
    requires AllApart(collections) && CellsValid(env, collections) && name in collections
    ensures
      var renamed := (collections - {name})[newName := collections[name]];
      AllApart(renamed) && CellsValid(env, renamed)
  {
    hide Collection.Valid, Apart;
  }

  lemma WithSame(db: Db, coll: string)
    requires coll in db.colls
    ensures WithObjects(db, coll, db.colls[coll]) == db
  {
    assert db.colls[coll := db.colls[coll]] == db.colls;
  }

  lemma SetIsUpsert(env: Env, db: Db, c: Command)
    requires c.SetPersisted?
    ensures
      var o := Object(c.id, c.geo, EntriesToMap(c.fields), c.expiresAt);
      var ready := if c.coll in db.colls then db else WithObjects(db, c.coll, map[]);
      c.coll in ready.colls && ApplyLocal(env, db, c) == WithObjects(ready, c.coll, ready.colls[c.coll][c.id := o])
  {
    hide EntriesToMap;
    var o := Object(c.id, c.geo, EntriesToMap(c.fields), c.expiresAt);
    assert db.colls[c.coll := map[]][c.coll := map[][c.id := o]] == db.colls[c.coll := map[][c.id := o]];
  }

  lemma UpdateIsStored(env: Env, db: Db, c: Command)
    requires IsLocal(c) && !c.SetPersisted?
    ensures ApplyLocal(env, db, c) ==
      if c.coll in db.colls then WithObjects(db, c.coll, ApplyToObjects(env, c, db.colls[c.coll])) else db
  {
    hide ApplyToObjects;
  }

  twostate lemma NewIsApart(collections: map<string, Collection>, new cell: Collection)
    requires fresh(cell) && fresh(cell.spatial) && fresh(cell.fieldIndexes)
    ensures forall n :: n in collections ==> Apart(collections[n], cell) && Apart(cell, collections[n])
  {
  }

  lemma AddApart(collections: map<string, Collection>, name: string, cell: Collection)
    requires AllApart(collections)
    requires forall n :: n in collections ==> Apart(collections[n], cell) && Apart(cell, collections[n])
    ensures AllApart(collections[name := cell])
  {
  }

  lemma Added(before: map<string, Objects>, after: map<string, Objects>, name: string)
    requires after.Keys == before.Keys + {name} && name !in before && after[name] == map[]
    requires forall n :: n in before ==> after[n] == before[n]
    ensures after == before[name := map[]]
  {
  }

  lemma Others(collections: map<string, Collection>, name: string)
    requires AllApart(collections) && name in collections
    ensures forall n :: n in collections && n != name ==> Apart(collections[n], collections[name])
  {
  }

  lemma Changed(before: map<string, Objects>, after: map<string, Objects>, name: string, objects: Objects)
    requires after.Keys == before.Keys && name in before && after[name] == objects
    requires forall n :: n in before && n != name ==> after[n] == before[n]
    ensures after == before[name := objects]
  {
  }
}
