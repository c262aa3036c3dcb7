/** Rewriting the log as a snapshot (crates/latlng-core/src/persistence.rs). */
module Shrink {
  import opened Types
  import opened Order
  import opened Fields
  import opened Catalog
  import opened Compaction
  import opened Engine

  method EntriesFor(fields: FieldMap, keys: seq<string>) returns (entries: seq<FieldEntry>)
    requires forall k :: k in keys ==> k in fields
    ensures entries == Entries(fields, keys)
  {
    entries := [];
    for i := 0 to |keys|
      invariant |entries| == i
      invariant forall j :: 0 <= j < i ==> entries[j] == FieldEntry(keys[j], fields[keys[j]])
    {
      entries := entries + [FieldEntry(keys[i], fields[keys[i]])];
    }
  }

  method FieldEntries(fields: FieldMap) returns (entries: seq<FieldEntry>)
    ensures entries == MapToEntries(fields)
  {
    hide Less, SortedKeys;
    var keys := Sort(fields.Keys);
    entries := EntriesFor(fields, keys);
  }

  method ObjectsSnapshot(coll: string, objects: Objects, now: nat) returns (records: seq<Record>)
    ensures records == OneCollection(coll, objects, now)
  {
    hide MapToEntries, SortedKeys, Less;
    var ids := Sort(objects.Keys);
    assert forall id :: id in ids ==> id in objects;
    records := [Cmd(CreateCollection(coll))];
    assert ids[..0] == [];
    for i := 0 to |ids|
      invariant records == [Cmd(CreateCollection(coll))] + ObjectRecords(coll, objects, now, ids[..i])
    {
      assert ids[i] in ids;
      assert ids[..i + 1][..i] == ids[..i];
      var o := objects[ids[i]];
      if !Expired(o, now) {
        var fields := FieldEntries(o.fields);
        records := records + [Cmd(SetPersisted(coll, ids[i], o.geo, fields, o.expiresAt))];
      }
    }
    assert ids[..|ids|] == ids;
  }

  lemma OneMoreCollection(colls: map<string, Objects>, now: nat, names: seq<string>, i: nat)
    requires i < |names| && forall n :: n in names ==> n in colls
    ensures names[i] in colls && (forall n :: n in names[..i] ==> n in colls)
    ensures forall n :: n in names[..i + 1] ==> n in colls
    ensures CollectionRecords(colls, now, names[..i + 1])
         == CollectionRecords(colls, now, names[..i]) + OneCollection(names[i], colls[names[i]], now)
  {
    hide OneCollection;
    assert names[i] in names;
    assert names[..i + 1][..i] == names[..i];
  }

  lemma NoCollections(colls: map<string, Objects>, now: nat)
    ensures CollectionRecords(colls, now, []) == []
  {
  }

  method CollectionsSnapshot(store: Store, now: nat) returns (records: seq<Record>)
    requires store.Valid()
    ensures
      var colls := store.View().colls;
      records == CollectionRecords(colls, now, SortedKeys(colls.Keys))
  {
    hide *;
    store.SameNames();
    ghost var colls := store.View().colls;
    var names := Sort(store.collections.Keys);
    assert forall n :: n in names ==> n in colls;
    assert names[..0] == [];
    NoCollections(colls, now);
    records := [];
    var i := 0;
    while i < |names|
      invariant 0 <= i <= |names|
      invariant forall n :: n in names[..i] ==> n in colls
      invariant records == CollectionRecords(colls, now, names[..i])
    {
      OneMoreCollection(colls, now, names, i);
      var one := ObjectsSnapshot(names[i], store.collections[names[i]].objects, now);
      records := records + one;
      i := i + 1;
    }
    assert names[..i] == names;
  }

  method ChannelsSnapshot(channels: map<string, GeofenceDef>, names: seq<string>) returns (records: seq<Record>)
    requires forall n :: n in names ==> n in channels
    ensures records == ChannelRecords(channels, names)
  {
    records := [];
    assert names[..0] == [];
    for i := 0 to |names|
      invariant records == ChannelRecords(channels, names[..i])
    {
      assert names[..i + 1][..i] == names[..i];
      records := records + [Cmd(SetChannel(names[i], channels[names[i]]))];
    }
    assert names[..|names|] == names;
  }

  method HooksSnapshot(hooks: map<string, Hook>, names: seq<string>) returns (records: seq<Record>)
    requires forall n :: n in names ==> n in hooks
    ensures records == HookRecords(hooks, names)
  {
    records := [];
    assert names[..0] == [];
    for i := 0 to |names|
      invariant records == HookRecords(hooks, names[..i])
    {
      assert names[..i + 1][..i] == names[..i];
      var hook := hooks[names[i]];
      records := records + [Cmd(SetHook(names[i], hook.endpoint, hook.def))];
    }
    assert names[..|names|] == names;
  }

  /** `snapshot_base_log_records`. */
  method SnapshotBaseLogRecords(store: Store, now: nat) returns (records: seq<Record>)
    requires store.Valid()
    ensures records == Snapshot(store.View(), now)
  {
    hide Store.Valid, Store.View, CollectionRecords, ChannelRecords, HookRecords, SortedKeys, Less;
    store.SameFences();
    records := CollectionsSnapshot(store, now);
    var channelNames := Sort(store.channels.Keys);
    var channels := ChannelsSnapshot(store.channels, channelNames);
    var hookNames := Sort(store.hooks.Keys);
    var hooks := HooksSnapshot(store.hooks, hookNames);
    records := records + channels + hooks;
  }

  /** `rewrite_log_snapshot`: the entries of the new log and the sequence counter.
      `currentLast` is the backend's last sequence. */
  method RewriteLogSnapshot(records: seq<Record>, currentLast: nat) returns (log: seq<Entry>, next: nat)
    ensures Records(log) == records && Ascending(log)
    ensures next == if currentLast > |records| then currentLast else |records|
    ensures log != [] ==> log[0].number >= 1 && log[|log| - 1].number == next
    ensures forall i :: 0 < i < |log| ==> log[i].number == log[i - 1].number + 1
  {
    var first := 0;
    if records != [] {
      first := if currentLast >= |records| then currentLast - |records| + 1 else 1;
    }
    log := [];
    for i := 0 to |records|
      invariant |log| == i && forall j :: 0 <= j < i ==> log[j] == Entry(first + j, records[j])
    {
      log := log + [Entry(first + i, records[i])];
    }
    next := if log == [] then currentLast else first + |log| - 1;
  }

  /** `aofshrink`: what the rewritten log replays to is the database without its expired
      objects, and the counter never falls behind the log it replaces. */
  method Aofshrink(store: Store, now: nat, currentLast: nat) returns (log: seq<Entry>, next: nat)
    requires store.Valid() && FencesEvaluable(store.View())
    ensures Replay(store.env, Records(log)) == PurgeDb(now, store.View())
    ensures next >= currentLast && next >= |log| && Ascending(log)
    ensures log != [] ==> log[|log| - 1].number == next
  {
    hide *;
    store.KeyedView();
    SnapshotReplay(store.env, store.View(), now);
    var records := SnapshotBaseLogRecords(store, now);
    log, next := RewriteLogSnapshot(records, currentLast);
  }
}
