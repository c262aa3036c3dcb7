/** Field updates and the entry-list form fields take in the log
    (crates/latlng-core/src/util.rs). */
module Fields {
  import opened Types
  import opened Order

  /** A numeric zero means "no value". */
  predicate IsZero(v: FieldValue) {
    v.Number? && v.number == 0.0
  }

  function Update(fields: FieldMap, e: FieldEntry): FieldMap {
    if IsZero(e.value) then fields - {e.name} else fields[e.name := e.value]
  }

  /** All updates, first to last. */
  function ApplyUpdates(fields: FieldMap, updates: seq<FieldEntry>): FieldMap {
    if updates == [] then fields
    else Update(ApplyUpdates(fields, updates[..|updates| - 1]), updates[|updates| - 1])
  }

  /** The in-place update loop. */
  method ApplyFieldUpdates(fields: FieldMap, updates: seq<FieldEntry>) returns (result: FieldMap)
    ensures result == ApplyUpdates(fields, updates)
  {
    result := fields;
    for i := 0 to |updates|
      invariant result == ApplyUpdates(fields, updates[..i])
    {
      if IsZero(updates[i].value) {
        result := result - {updates[i].name};
      } else {
        result := result[updates[i].name := updates[i].value];
      }
      assert updates[..i + 1][..i] == updates[..i];
    }
    assert updates[..|updates|] == updates;
  }

  /** The last entry of the list that names `field`, if there is one. */
  ghost predicate LastMention(updates: seq<FieldEntry>, field: string, i: int) {
    0 <= i < |updates| && updates[i].name == field &&
    forall j :: i < j < |updates| ==> updates[j].name != field
  }

  /** What the updates mean: the last mention of a field decides it, a zero
      deletes it, an unmentioned field keeps its value. */
  lemma {:induction false} UpdatesMeaning(fields: FieldMap, updates: seq<FieldEntry>, field: string)
    ensures forall i :: LastMention(updates, field, i) ==>
      Lookup(ApplyUpdates(fields, updates), field)
        == if IsZero(updates[i].value) then None else Some(updates[i].value)
    ensures (forall e :: e in updates ==> e.name != field) ==>
      Lookup(ApplyUpdates(fields, updates), field) == Lookup(fields, field)
  {
    if updates != [] {
      var init := updates[..|updates| - 1];
      UpdatesMeaning(fields, init, field);
      forall i | LastMention(updates, field, i)
        ensures Lookup(ApplyUpdates(fields, updates), field)
          == if IsZero(updates[i].value) then None else Some(updates[i].value)
      {
        if i < |init| {
          assert updates[|updates| - 1].name != field;
          assert LastMention(init, field, i);
        }
      }
    }
  }

  /** The fields after a SET: the existing fields with the request on top. */
  function Merged(existing: Option<Object>, updates: seq<FieldEntry>): FieldMap {
    ApplyUpdates(if existing.Some? then existing.value.fields else map[], updates)
  }

  function EntriesToMap(entries: seq<FieldEntry>): FieldMap {
    if entries == [] then map[]
    else
      var e := entries[|entries| - 1];
      EntriesToMap(entries[..|entries| - 1])[e.name := e.value]
  }

  /** The insertion loop of `field_entries_to_map`. */
  method FieldEntriesToMap(entries: seq<FieldEntry>) returns (result: FieldMap)
    ensures result == EntriesToMap(entries)
  {
    result := map[];
    for i := 0 to |entries|
      invariant result == EntriesToMap(entries[..i])
    {
      result := result[entries[i].name := entries[i].value];
      assert entries[..i + 1][..i] == entries[..i];
    }
    assert entries[..|entries|] == entries;
  }

  ghost function Entries(fields: FieldMap, keys: seq<string>): (s: seq<FieldEntry>)
    requires forall k :: k in keys ==> k in fields
    ensures |s| == |keys|
    ensures forall i :: 0 <= i < |s| ==> s[i] == FieldEntry(keys[i], fields[keys[i]])
  {
    seq(|keys|, i requires 0 <= i < |keys| => FieldEntry(keys[i], fields[keys[i]]))
  }

  /** `field_map_to_entries`: one entry per field in key order. */
  ghost function MapToEntries(fields: FieldMap): seq<FieldEntry> {
    Entries(fields, SortedKeys(fields.Keys))
  }

  ghost function Restricted(fields: FieldMap, keys: seq<string>): FieldMap {
    map k | k in keys && k in fields :: fields[k]
  }

  lemma {:induction false} RestrictedPush(fields: FieldMap, keys: seq<string>, k: string)
    requires k in fields
    ensures Restricted(fields, keys + [k]) == Restricted(fields, keys)[k := fields[k]]
  {
  }

  lemma {:induction false} EntriesToMapKeys(fields: FieldMap, keys: seq<string>)
    requires forall k :: k in keys ==> k in fields
    ensures EntriesToMap(Entries(fields, keys)) == Restricted(fields, keys)
  {
    if keys == [] {
      assert Entries(fields, keys) == [];
    } else {
      var init, k := keys[..|keys| - 1], keys[|keys| - 1];
      assert keys == init + [k];
      EntriesToMapKeys(fields, init);
      RestrictedPush(fields, init, k);
      hide Restricted;
      var es := Entries(fields, keys);
      assert es[..|es| - 1] == Entries(fields, init);
    }
  }

  /** Logging a field map and reading it back is the identity. */
  lemma EntriesRoundTrip(fields: FieldMap)
    ensures EntriesToMap(MapToEntries(fields)) == fields
  {
    EntriesToMapKeys(fields, SortedKeys(fields.Keys));
  }
}
