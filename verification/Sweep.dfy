/** The logged expiry sweep and the next deadline
    (crates/latlng-core/src/admin.rs, crates/latlng-core/src/commands.rs). */
module Sweep {
  import opened Types
  import opened Order
  import opened Geometry
  import opened Catalog
  import opened Compaction
  import opened Collections
  import opened Engine
  import opened Maintenance
  import FieldIndexing
  import Protocol
  import Batches
  import LiveCommands

  /** Per collection, the ids a sweep deleted, in the order it did. */
  type Taken = map<string, seq<string>>

  ghost function DueIn(db: Db, now: nat, name: string): nat {
    if name in db.colls then |Due(db.colls[name], now)| else 0
  }

  /** The number of objects due in the given collections. */
  ghost function TotalDue(db: Db, now: nat, names: seq<string>): nat {
    if names == [] then 0
    else TotalDue(db, now, names[..|names| - 1]) + DueIn(db, now, names[|names| - 1])
  }

  function TakenFrom(taken: Taken, name: string): seq<string> {
    if name in taken then taken[name] else []
  }

  function TotalTaken(taken: Taken, names: seq<string>): nat {
    if names == [] then 0
    else TotalTaken(taken, names[..|names| - 1]) + |TakenFrom(taken, names[|names| - 1])|
  }

  /** How many webhook records go with the delete of an object. */
  type Hooks = (string, string) -> nat

  ghost function Dels(hooks: Hooks, name: string, ids: seq<string>): seq<Record> {
    if ids == [] then []
    else
      var last := ids[|ids| - 1];
      Dels(hooks, name, ids[..|ids| - 1]) + Protocol.Batch([Del(name, last)], hooks(name, last))
  }

  /** One delete, with its webhook records, is logged for every deleted object. */
  ghost function Logged(hooks: Hooks, taken: Taken, names: seq<string>): seq<Record> {
    if names == [] then []
    else Logged(hooks, taken, names[..|names| - 1]) + Dels(hooks, names[|names| - 1], TakenFrom(taken, names[|names| - 1]))
  }

  /** The database without the taken objects. */
  ghost function Swept(db: Db, taken: Taken): Db {
    db.(colls := map n | n in db.colls :: db.colls[n] - Ids(TakenFrom(taken, n)))
  }

  /** What was taken was due, and taken in deadline order from the earliest. */
  ghost predicate EarliestFirst(db: Db, now: nat, taken: Taken) {
    forall n :: n in taken ==> n in db.colls && DuePrefix(db.colls[n], now, |taken[n]|, taken[n])
  }

  lemma PrefixOfPrefix(objects: Objects, now: nat, max: nat, ids: seq<string>, n: nat)
    requires DuePrefix(objects, now, max, ids) && n <= |ids|
    ensures DuePrefix(objects, now, n, ids[..n])
  {
    PrefixDistinct(objects, now, max, ids);
    DistinctSize(ids);
    SubsetSize(Ids(ids), Due(objects, now));
    hide Due;
    assert forall k :: 0 <= k < n ==> ids[..n][k] == ids[k];
    forall i, id | 0 <= i < n && id in Due(objects, now) && id !in ids[..n]
      ensures Earlier(Place(objects, ids[i]), Place(objects, id))
    {
      if id in ids {
        var j :| 0 <= j < |ids| && ids[j] == id;
      }
    }
  }

  // One delete.

  datatype SweepError = StorageFailed

  /** `del_exclusive`, as far as the log and the objects go. `stored` says whether the
      append succeeds. */
  method DelExclusive(store: Store, log: seq<Record>, name: string, id: string, hooks: nat, stored: bool)
    returns (r: Result<bool, SweepError>, next: seq<Record>)
    requires store.Valid()
    modifies store.collections.Values
    modifies set cell | cell in store.collections.Values :: cell.spatial
    modifies set cell | cell in store.collections.Values :: cell.fieldIndexes
    ensures store.Valid()
    ensures
      var found := name in old(store.View()).colls && id in old(store.View()).colls[name];
      if !found then r == Ok(false) && next == log && store.View() == old(store.View())
      else if !stored then r == Err(StorageFailed) && next == log && store.View() == old(store.View())
      else
        r == Ok(true) && next == log + Protocol.Batch([Del(name, id)], hooks) &&
        store.View() == WithObjects(old(store.View()), name, old(store.View()).colls[name] - {id})
  {
    hide *;
    store.SameNames();
    next := log;
    if name !in store.collections || id !in store.collections[name].objects {
      return Ok(false), log;
    }
    if !stored {
      return Err(StorageFailed), log;
    }
    var batch := LiveCommands.BuildBatch([Del(name, id)], hooks);
    var removed := store.Remove(name, id);
    r, next := Ok(removed), log + batch;
  }

  /** Deletes the given due objects of one collection, until an append fails. */
  method DeleteDue(hooks: Hooks, store: Store, log: seq<Record>, name: string, ids: seq<string>, stored: string -> bool)
    returns (done: nat, next: seq<Record>)
    requires store.Valid() && name in store.collections && Distinct(ids)
    requires forall id :: id in ids ==> id in store.collections[name].objects
    modifies store.collections.Values
    modifies set cell | cell in store.collections.Values :: cell.spatial
    modifies set cell | cell in store.collections.Values :: cell.fieldIndexes
    ensures store.Valid() && name in old(store.View()).colls
    ensures done <= |ids| && (done < |ids| ==> !stored(ids[done]))
    ensures next == log + Dels(hooks, name, ids[..done])
    ensures store.View() == WithObjects(old(store.View()), name, old(store.View()).colls[name] - Ids(ids[..done]))
  {
    hide *;
    ghost var before := store.View();
    store.SameNames();
    NothingGone(before, name);
    NoDels(hooks, name);
    done, next := 0, log;
    assert ids[..done] == [];
    while done < |ids|
      invariant done <= |ids| && store.Valid()
      invariant next == log + Dels(hooks, name, ids[..done])
      invariant store.View() == WithObjects(before, name, before.colls[name] - Ids(ids[..done]))
    {
      var id := ids[done];
      assert id in ids;
      StillThere(before, name, ids, done);
      OneMoreGone(before, name, ids, done);
      DelsGrow(hooks, name, ids, done);
      var r;
      r, next := DelExclusive(store, next, name, id, hooks(name, id), stored(id));
      if r.Err? {
        return;
      }
      done := done + 1;
    }
  }

  lemma NoDels(hooks: Hooks, name: string)
    ensures Dels(hooks, name, []) == []
  {
  }

  lemma DelsGrow(hooks: Hooks, name: string, ids: seq<string>, i: nat)
    requires i < |ids|
    ensures Dels(hooks, name, ids[..i + 1]) == Dels(hooks, name, ids[..i]) + Protocol.Batch([Del(name, ids[i])], hooks(name, ids[i]))
  {
    assert ids[..i + 1][..i] == ids[..i];
  }

  lemma StillThere(db: Db, name: string, ids: seq<string>, i: nat)
    requires name in db.colls && i < |ids| && Distinct(ids) && ids[i] in db.colls[name]
    ensures
      var now := WithObjects(db, name, db.colls[name] - Ids(ids[..i]));
      name in now.colls && now.colls[name] == db.colls[name] - Ids(ids[..i]) && ids[i] in now.colls[name]
  {
    assert ids[i] !in ids[..i];
  }

  // The sweep.

  /** After the collections in `names`: what was taken, and how many. */
  ghost predicate Progress(db: Db, now: nat, max: nat, names: seq<string>, taken: Taken, expired: nat) {
    EarliestFirst(db, now, taken) && (forall n :: n in taken ==> n in names) &&
    expired == TotalTaken(taken, names) && expired == Min(max, TotalDue(db, now, names)) &&
    (expired < max ==> AllTaken(db, now, names, taken))
  }

  lemma ProgressStart(hooks: Hooks, db: Db, now: nat, max: nat)
    ensures Progress(db, now, max, [], map[], 0) && Swept(db, map[]) == db && Logged(hooks, map[], []) == []
  {
    assert forall n :: n in db.colls ==> db.colls[n] - Ids([]) == db.colls[n];
    assert Swept(db, map[]).colls == db.colls;
  }

  lemma {:induction false} LaterTakenElsewhere(hooks: Hooks, taken: Taken, names: seq<string>, name: string, ids: seq<string>)
    requires name !in names
    ensures TotalTaken(taken[name := ids], names) == TotalTaken(taken, names)
    ensures Logged(hooks, taken[name := ids], names) == Logged(hooks, taken, names)
  {
    if names != [] {
      assert names[|names| - 1] in names;
      LaterTakenElsewhere(hooks, taken, names[..|names| - 1], name, ids);
    }
  }

  lemma TakenWithOneMore(hooks: Hooks, db: Db, now: nat, taken: Taken, names: seq<string>, name: string, ids: seq<string>)
    requires name !in names
    ensures TotalTaken(taken[name := ids], names + [name]) == TotalTaken(taken, names) + |ids|
    ensures Logged(hooks, taken[name := ids], names + [name]) == Logged(hooks, taken, names) + Dels(hooks, name, ids)
    ensures TotalDue(db, now, names + [name]) == TotalDue(db, now, names) + DueIn(db, now, name)
  {
    LaterTakenElsewhere(hooks, taken, names, name, ids);
    assert (names + [name])[..|names|] == names;
  }

  lemma EarliestGrows(db: Db, now: nat, taken: Taken, name: string, ids: seq<string>)
    requires EarliestFirst(db, now, taken) && name in db.colls && DuePrefix(db.colls[name], now, |ids|, ids)
    ensures EarliestFirst(db, now, taken[name := ids])
  {
    hide DuePrefix;
  }

  /** Every reached collection was swept in full. */
  ghost predicate AllTaken(db: Db, now: nat, names: seq<string>, taken: Taken) {
    forall n :: n in names ==> |TakenFrom(taken, n)| == DueIn(db, now, n)
  }

  lemma AllTakenGrows(db: Db, now: nat, names: seq<string>, taken: Taken, name: string, ids: seq<string>)
    requires AllTaken(db, now, names, taken) && name !in names && |ids| == DueIn(db, now, name)
    ensures AllTaken(db, now, names + [name], taken[name := ids])
  {
    hide DueIn;
  }

  lemma ProgressStep(hooks: Hooks,
      db: Db, now: nat, max: nat, names: seq<string>, taken: Taken, expired: nat, name: string, ids: seq<string>)
    requires Progress(db, now, max, names, taken, expired) && expired < max
    requires name !in names && name in db.colls && DuePrefix(db.colls[name], now, max - expired, ids)
    ensures Progress(db, now, max, names + [name], taken[name := ids], expired + |ids|)
  {
    PrefixSizes(db.colls[name], now, max - expired, ids);
    assert DueIn(db, now, name) == |Due(db.colls[name], now)|;
    hide DuePrefix, TotalTaken, TotalDue, Due, DueIn, EarliestFirst, AllTaken, TakenFrom;
    TakenWithOneMore(hooks, db, now, taken, names, name, ids);
    EarliestGrows(db, now, taken, name, ids);
    if expired + |ids| < max {
      AllTakenGrows(db, now, names, taken, name, ids);
    }
  }

  lemma PrefixSizes(objects: Objects, now: nat, max: nat, ids: seq<string>)
    requires DuePrefix(objects, now, max, ids)
    ensures |ids| == Min(max, |Due(objects, now)|) && DuePrefix(objects, now, |ids|, ids)
  {
    PrefixOfPrefix(objects, now, max, ids, |ids|);
    assert ids[..|ids|] == ids;
  }

  lemma SweptStep(db: Db, taken: Taken, name: string, ids: seq<string>)
    requires name in db.colls && name !in taken
    ensures name in Swept(db, taken).colls && Swept(db, taken).colls[name] == db.colls[name]
    ensures Swept(db, taken[name := ids]) == WithObjects(Swept(db, taken), name, db.colls[name] - Ids(ids))
  {
    assert db.colls[name] - Ids([]) == db.colls[name];
    var more := taken[name := ids];
    assert forall n :: n != name ==> TakenFrom(more, n) == TakenFrom(taken, n);
    hide Ids;
    assert Swept(db, more).colls == Swept(db, taken).colls[name := db.colls[name] - Ids(ids)];
  }

  /** Collections the sweep did not reach contribute nothing. */
  lemma {:induction false} UnreachedAddNothing(hooks: Hooks, db: Db, now: nat, taken: Taken, names: seq<string>, i: nat)
    requires i <= |names| && Distinct(names) && forall n :: n in taken ==> n in names[..i]
    ensures TotalTaken(taken, names) == TotalTaken(taken, names[..i])
    ensures Logged(hooks, taken, names) == Logged(hooks, taken, names[..i])
    ensures TotalDue(db, now, names) >= TotalDue(db, now, names[..i])
  {
    if i == |names| {
      assert names[..i] == names;
    } else {
      var init, last := names[..|names| - 1], names[|names| - 1];
      assert init[..i] == names[..i] && last !in names[..i];
      UnreachedAddNothing(hooks, db, now, taken, init, i);
    }
  }

  /** A sweep that is not cut short leaves nothing due. */
  lemma NothingLeft(db: Db, now: nat, names: seq<string>, taken: Taken)
    requires EarliestFirst(db, now, taken) && forall n :: n in db.colls ==> n in names
    requires AllTaken(db, now, names, taken)
    ensures NothingDue(Swept(db, taken), now)
  {
    forall n, id | n in db.colls && id in Swept(db, taken).colls[n]
      ensures !Expired(Swept(db, taken).colls[n][id], now)
    {
      var ids := TakenFrom(taken, n);
      if n in taken {
        PrefixIsAll(db.colls[n], now, |ids|, ids);
      } else {
        EmptySet(Due(db.colls[n], now));
      }
      assert id !in Due(db.colls[n], now);
    }
  }

  lemma EmptySet(s: set<string>)
    requires |s| == 0
    ensures s == {}
  {
  }

  /** What any sweep leaves behind, finished or stopped by a failing append: it has
      deleted only due objects, the earliest of each collection, and logged each. */
  ghost predicate SweptState(hooks: Hooks,
      db: Db, now: nat, log: seq<Record>, names: seq<string>, taken: Taken, after: Db, next: seq<Record>)
  {
    EarliestFirst(db, now, taken) && after == Swept(db, taken) && next == log + Logged(hooks, taken, names)
  }

  /** `expire_due`. */
  method ExpireDue(hooks: Hooks, store: Store, log: seq<Record>, readOnly: bool, now: nat, max: nat, stored: (string, string) -> bool)
    returns (r: Result<nat, SweepError>, next: seq<Record>, ghost names: seq<string>, ghost taken: Taken)
    requires store.Valid()
    modifies store.collections.Values
    modifies set cell | cell in store.collections.Values :: cell.spatial
    modifies set cell | cell in store.collections.Values :: cell.fieldIndexes
    ensures store.Valid() && Distinct(names) && forall n :: n in names <==> n in old(store.View()).colls
    ensures SweptState(hooks, old(store.View()), now, log, names, taken, store.View(), next)
    ensures readOnly ==> r == Ok(0) && taken == map[]
    ensures r.Ok? ==> r.value == TotalTaken(taken, names)
    ensures r.Ok? && !readOnly ==> r.value == Min(max, TotalDue(old(store.View()), now, names))
    ensures r.Ok? && !readOnly && r.value < max ==> NothingDue(store.View(), now)
  {
    hide *;
    ghost var before := store.View();
    store.SameNames();
    var order := Listed(store.collections.Keys);
    names, taken, next := order, map[], log;
    ProgressStart(hooks, before, now, max);
    var i: nat, expired: nat := 0, 0;
    assert order[..i] == [];
    if readOnly {
      SweptAt(hooks, before, now, max, log, names, i, taken, expired);
      assert log + [] == log;
      return Ok(0), log, names, taken;
    }
    while i < |order| && expired < max
      invariant i <= |order| && store.Valid()
      invariant Progress(before, now, max, order[..i], taken, expired)
      invariant store.View() == Swept(before, taken) && next == log + Logged(hooks, taken, order[..i])
    {
      var name := order[i];
      assert name in order;
      var ids, done;
      ids, done, next := SweepCollection(hooks, store, next, name, now, max - expired, stored);
      CollectionSwept(hooks, before, now, max, log, order, i, taken, expired, ids, done);
      taken := taken[name := ids[..done]];
      if done < |ids| {
        return Err(StorageFailed), next, names, taken;
      }
      expired := expired + |ids|;
      i := i + 1;
    }
    SweptAt(hooks, before, now, max, log, names, i, taken, expired);
    r := Ok(expired);
  }

  /** The due objects of one collection, up to `max`, until an append fails. */
  method SweepCollection(hooks: Hooks,
      store: Store, log: seq<Record>, name: string, now: nat, max: nat, stored: (string, string) -> bool)
    returns (ids: seq<string>, done: nat, next: seq<Record>)
    requires store.Valid() && name in store.collections
    modifies store.collections.Values
    modifies set cell | cell in store.collections.Values :: cell.spatial
    modifies set cell | cell in store.collections.Values :: cell.fieldIndexes
    ensures store.Valid() && name in old(store.View()).colls
    ensures DuePrefix(old(store.View()).colls[name], now, max, ids)
    ensures done <= |ids| && (done < |ids| ==> !stored(name, ids[done]))
    ensures next == log + Dels(hooks, name, ids[..done])
    ensures store.View() == WithObjects(old(store.View()), name, old(store.View()).colls[name] - Ids(ids[..done]))
  {
    hide *;
    store.SameNames();
    ids := DueIds(store, name, now, max);
    DueAreThere(store.View().colls[name], now, max, ids);
    done, next := DeleteDue(hooks, store, log, name, ids, id => stored(name, id));
  }

  method DueIds(store: Store, name: string, now: nat, max: nat) returns (ids: seq<string>)
    requires store.Valid() && name in store.collections
    ensures name in store.View().colls && DuePrefix(store.View().colls[name], now, max, ids)
  {
    store.SameNames();
    store.CellIsValid(name);
    hide *;
    ids := store.collections[name].DueExpirations(now, max);
  }

  lemma DueAreThere(objects: Objects, now: nat, max: nat, ids: seq<string>)
    requires DuePrefix(objects, now, max, ids)
    ensures Distinct(ids) && forall id :: id in ids ==> id in objects
  {
    PrefixDistinct(objects, now, max, ids);
  }

  lemma NotYetTaken(db: Db, now: nat, max: nat, names: seq<string>, i: nat, taken: Taken, expired: nat)
    requires Distinct(names) && i < |names| && Progress(db, now, max, names[..i], taken, expired)
    ensures names[i] !in names[..i] && names[i] !in taken
  {
  }

  lemma StoppedAt(hooks: Hooks,
      db: Db, now: nat, max: nat, names: seq<string>, i: nat, taken: Taken, expired: nat,
      name: string, ids: seq<string>, done: nat)
    requires Distinct(names) && i < |names| && names[i] == name && expired < max
    requires Progress(db, now, max, names[..i], taken, expired)
    requires name in db.colls && DuePrefix(db.colls[name], now, max - expired, ids) && done <= |ids|
    ensures EarliestFirst(db, now, taken[name := ids[..done]])
    ensures Logged(hooks, taken[name := ids[..done]], names) == Logged(hooks, taken[name := ids[..done]], names[..i + 1])
  {
    hide *;
    PrefixOfPrefix(db.colls[name], now, max - expired, ids, done);
    ProgressMeans(db, now, max, names[..i], taken, expired);
    assert |ids[..done]| == done;
    EarliestGrows(db, now, taken, name, ids[..done]);
    assert names[..i + 1] == names[..i] + [name];
    UnreachedAddNothing(hooks, db, now, taken[name := ids[..done]], names, i + 1);
  }

  lemma ProgressMeans(db: Db, now: nat, max: nat, names: seq<string>, taken: Taken, expired: nat)
    requires Progress(db, now, max, names, taken, expired)
    ensures EarliestFirst(db, now, taken) && forall n :: n in taken ==> n in names
  {
  }

  /** One round of the sweep. */
  lemma CollectionSwept(hooks: Hooks,
      db: Db, now: nat, max: nat, log: seq<Record>, names: seq<string>, i: nat, taken: Taken, expired: nat,
      ids: seq<string>, done: nat)
    requires Distinct(names) && i < |names| && names[i] in db.colls && expired < max
    requires Progress(db, now, max, names[..i], taken, expired)
    requires names[i] in Swept(db, taken).colls
    requires DuePrefix(Swept(db, taken).colls[names[i]], now, max - expired, ids) && done <= |ids|
    ensures
      var more := taken[names[i] := ids[..done]];
      var after := WithObjects(Swept(db, taken), names[i], Swept(db, taken).colls[names[i]] - Ids(ids[..done]));
      var next := log + Logged(hooks, taken, names[..i]) + Dels(hooks, names[i], ids[..done]);
      after == Swept(db, more) && next == log + Logged(hooks, more, names[..i + 1]) &&
      (done == |ids| ==> Progress(db, now, max, names[..i + 1], more, expired + |ids|)) &&
      (done < |ids| ==> SweptState(hooks, db, now, log, names, more, after, next))
  {
    hide *;
    var name := names[i];
    NotYetTaken(db, now, max, names, i, taken, expired);
    SweptStep(db, taken, name, ids[..done]);
    TakenWithOneMore(hooks, db, now, taken, names[..i], name, ids[..done]);
    assert names[..i + 1] == names[..i] + [name];
    var more := taken[name := ids[..done]];
    var after := Swept(db, more);
    var next := log + Logged(hooks, taken, names[..i]) + Dels(hooks, name, ids[..done]);
    assert next == log + (Logged(hooks, taken, names[..i]) + Dels(hooks, name, ids[..done]));
    if done < |ids| {
      StoppedAt(hooks, db, now, max, names, i, taken, expired, name, ids, done);
      SweptMeans(hooks, db, now, log, names, more, after, next);
    } else {
      assert ids[..done] == ids;
      ProgressStep(hooks, db, now, max, names[..i], taken, expired, name, ids);
    }
  }

  lemma SweptMeans(hooks: Hooks,
      db: Db, now: nat, log: seq<Record>, names: seq<string>, taken: Taken, after: Db, next: seq<Record>)
    requires EarliestFirst(db, now, taken) && after == Swept(db, taken) && next == log + Logged(hooks, taken, names)
    ensures SweptState(hooks, db, now, log, names, taken, after, next)
  {
  }

  /** Where the loop ended, the totals over the first names are the totals over all. */
  lemma SweptAt(hooks: Hooks,
      db: Db, now: nat, max: nat, log: seq<Record>, names: seq<string>, i: nat, taken: Taken, expired: nat)
    requires Distinct(names) && i <= |names| && (forall n :: n in names <==> n in db.colls)
    requires Progress(db, now, max, names[..i], taken, expired)
    ensures SweptState(hooks, db, now, log, names, taken, Swept(db, taken), log + Logged(hooks, taken, names[..i]))
    ensures expired == TotalTaken(taken, names)
    ensures (i == |names| || expired >= max) ==> expired == Min(max, TotalDue(db, now, names))
    ensures (i == |names| || expired >= max) && expired < max ==> NothingDue(Swept(db, taken), now)
  {
    hide TotalTaken, TotalDue, Logged, Swept, EarliestFirst, AllTaken, NothingDue, Distinct;
    UnreachedAddNothing(hooks, db, now, taken, names, i);
    if i == |names| {
      assert names[..i] == names;
      if expired < max {
        NothingLeft(db, now, names, taken);
      }
    }
  }

  // The log means what the sweep did.

  lemma {:induction false} DelsReplay(hooks: Hooks, env: Env, db: Db, name: string, ids: seq<string>)
    requires name in db.colls
    ensures ReplayFrom(env, db, Dels(hooks, name, ids)) == WithObjects(db, name, db.colls[name] - Ids(ids))
  {
    if ids == [] {
      NothingGone(db, name);
    } else {
      var n := |ids| - 1;
      var init := ids[..n];
      DelsReplay(hooks, env, db, name, init);
      var gone := WithObjects(db, name, db.colls[name] - Ids(init));
      var batch := Protocol.Batch([Del(name, ids[n])], hooks(name, ids[n]));
      ReplayConcat(env, db, Dels(hooks, name, init), batch);
      Batches.ReplaySingleBatch(env, gone, Del(name, ids[n]), hooks(name, ids[n]));
      OneMoreGone(db, name, ids, n);
      assert ids[..n + 1] == ids;
      assert ApplyCommand(env, gone, Del(name, ids[n])) == WithObjects(gone, name, gone.colls[name] - {ids[n]});
      hide WithObjects, ApplyCommand, Ids, ReplayFrom, Protocol.Batch;
    }
  }

  /** Replaying the logged deletes gives the database the sweep left in memory. */
  lemma {:induction false} SweepReplays(hooks: Hooks, env: Env, db: Db, names: seq<string>, taken: Taken)
    requires Distinct(names) && forall n :: n in names ==> n in db.colls
    ensures ReplayFrom(env, db, Logged(hooks, taken, names)) == Swept(db, Only(taken, names))
  {
    if names == [] {
      assert Only(taken, names) == map[];
      ProgressStart(hooks, db, 0, 0);
    } else {
      var init, last := names[..|names| - 1], names[|names| - 1];
      assert names == init + [last] && last !in init;
      SweepReplays(hooks, env, db, init, taken);
      ReplayConcat(env, db, Logged(hooks, taken, init), Dels(hooks, last, TakenFrom(taken, last)));
      var some := Only(taken, init);
      SweptStep(db, some, last, TakenFrom(taken, last));
      DelsReplay(hooks, env, Swept(db, some), last, TakenFrom(taken, last));
      OnlyGrows(db, taken, init, last);
      hide Swept, ReplayFrom, Ids, Only;
    }
  }

  /** The log a sweep leaves, finished or not, replays to the database it leaves. */
  lemma SweepIsLogged(hooks: Hooks,
      env: Env, db: Db, now: nat, log: seq<Record>, names: seq<string>, taken: Taken, after: Db, next: seq<Record>)
    requires Distinct(names) && (forall n :: n in names <==> n in db.colls)
    requires SweptState(hooks, db, now, log, names, taken, after, next)
    ensures log <= next && ReplayFrom(env, db, next[|log|..]) == after
  {
    hide Swept, Logged, DuePrefix, ReplayFrom;
    SweepReplays(hooks, env, db, names, taken);
    assert Only(taken, names) == taken;
    assert next[|log|..] == Logged(hooks, taken, names);
  }

  function Only(taken: Taken, names: seq<string>): Taken {
    map n | n in taken && n in names :: taken[n]
  }

  lemma OnlyGrows(db: Db, taken: Taken, init: seq<string>, last: string)
    ensures Swept(db, Only(taken, init + [last])) == Swept(db, Only(taken, init)[last := TakenFrom(taken, last)])
  {
    var a, b := Only(taken, init + [last]), Only(taken, init)[last := TakenFrom(taken, last)];
    forall n ensures TakenFrom(a, n) == TakenFrom(b, n) {
    }
    assert Swept(db, a).colls == Swept(db, b).colls;
  }

  // The next deadline.

  ghost predicate DeadlineIn(objects: Objects, d: nat) {
    exists id :: id in objects && objects[id].expiresAt == Some(d)
  }

  ghost predicate Deadline(db: Db, d: nat) {
    exists n :: n in db.colls && DeadlineIn(db.colls[n], d)
  }

  ghost predicate EarliestIn(objects: Objects, r: Option<nat>) {
    (r.Some? ==> DeadlineIn(objects, r.value)) &&
    forall id :: id in objects && objects[id].expiresAt.Some? ==> r.Some? && r.value <= objects[id].expiresAt.value
  }

  /** The first entry of one collection's expiry index is its earliest deadline. */
  method FirstDeadline(cell: Collection) returns (r: Option<nat>)
    requires cell.Valid()
    ensures EarliestIn(cell.objects, r)
  {
    hide SpatialEntries, FieldIndexing.Exact;
    var entries := cell.expirations;
    assert forall id :: id in cell.objects && cell.objects[id].expiresAt.Some? ==> Place(cell.objects, id) in entries;
    if entries == {} {
      return None;
    }
    FirstExists(entries);
    var p: (nat, string) :| IsFirst(p, entries);
    assert cell.objects[p.1].expiresAt == Some(p.0);
    r := Some(p.0);
  }

  ghost predicate EarliestOf(db: Db, done: seq<string>, r: Option<nat>) {
    (r.Some? ==> Deadline(db, r.value)) &&
    forall n, id :: n in done && n in db.colls && id in db.colls[n] && db.colls[n][id].expiresAt.Some? ==>
      r.Some? && r.value <= db.colls[n][id].expiresAt.value
  }

  lemma EarlierOfTwo(db: Db, done: seq<string>, r: Option<nat>, name: string, first: Option<nat>)
    requires EarliestOf(db, done, r) && name in db.colls && EarliestIn(db.colls[name], first)
    ensures EarliestOf(db, done + [name], if first.Some? && (r.None? || first.value < r.value) then first else r)
  {
    hide DeadlineIn;
  }

  lemma NoneYet(db: Db)
    ensures EarliestOf(db, [], None)
  {
  }

  /** The earliest deadline of any object. */
  ghost predicate EarliestDeadline(db: Db, r: Option<nat>) {
    (r.Some? ==> Deadline(db, r.value)) &&
    forall n, id :: n in db.colls && id in db.colls[n] && db.colls[n][id].expiresAt.Some? ==>
      r.Some? && r.value <= db.colls[n][id].expiresAt.value
  }

  lemma EarliestOfAll(db: Db, names: seq<string>, r: Option<nat>)
    requires EarliestOf(db, names, r) && forall n :: n in db.colls ==> n in names
    ensures EarliestDeadline(db, r)
  {
    hide Deadline;
  }

  /** `next_expiry_ms`. */
  method NextExpiry(store: Store) returns (r: Option<nat>)
    requires store.Valid()
    ensures EarliestDeadline(store.View(), r)
  {
    hide *;
    store.SameNames();
    NoneYet(store.View());
    var names := Listed(store.collections.Keys);
    r := None;
    var i: nat := 0;
    assert names[..i] == [];
    while i < |names|
      invariant i <= |names| && EarliestOf(store.View(), names[..i], r)
    {
      assert names[i] in names;
      store.CellIsValid(names[i]);
      var first := FirstDeadline(store.collections[names[i]]);
      EarlierOfTwo(store.View(), names[..i], r, names[i], first);
      if first.Some? && (r.None? || first.value < r.value) {
        r := first;
      }
      assert names[..i + 1] == names[..i] + [names[i]];
      i := i + 1;
    }
    assert names[..i] == names;
    EarliestOfAll(store.View(), names, r);
  }
}
