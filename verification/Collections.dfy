/** A collection and its derived indexes (crates/latlng-core/src/lib.rs). */
module Collections {
  import opened Types
  import opened Order
  import opened Fields
  import opened Geometry
  import opened Catalog
  import opened FieldIndexing
  import opened Spatial

  /** What the spatial index must hold. */
  function SpatialEntries(env: Env, objects: Objects): map<string, SpatialEntry> {
    map id | id in objects && Envelope(env, objects[id].geo).Ok? && Envelope(env, objects[id].geo).value.Some?
      :: SpatialEntry(id, Envelope(env, objects[id].geo).value.value)
  }

  /** What the expiry index must hold. */
  function Expirations(objects: Objects): set<(nat, string)> {
    set id | id in objects && objects[id].expiresAt.Some? :: (objects[id].expiresAt.value, id)
  }

  /** An object that leaves no trace in any index. */
  predicate Bare(env: Env, o: Object) {
    o.fields == map[] && o.expiresAt.None? && !(Envelope(env, o.geo).Ok? && Envelope(env, o.geo).value.Some?)
  }

  lemma ExpirationsPut(objects: Objects, id: string, o: Object)
    ensures Expirations(objects[id := o]) ==
      Expirations(objects - {id}) + if o.expiresAt.Some? then {(o.expiresAt.value, id)} else {}
  {
    var put, without := objects[id := o], objects - {id};
    forall p | p in Expirations(put)
      ensures p in Expirations(without) + if o.expiresAt.Some? then {(o.expiresAt.value, id)} else {}
    {
      if p.1 != id {
        assert p.1 in without;
      }
    }
    forall p | p in Expirations(without) ensures p in Expirations(put) {
      assert p.1 in put;
    }
    if o.expiresAt.Some? {
      assert id in put;
    }
  }

  lemma ExpirationsDrop(objects: Objects, id: string)
    ensures Expirations(objects - {id}) ==
      if id in objects && objects[id].expiresAt.Some? then Expirations(objects) - {(objects[id].expiresAt.value, id)}
      else Expirations(objects)
  {
    var without := objects - {id};
    forall p | p in Expirations(objects) && p.1 != id ensures p in Expirations(without) {
      assert p.1 in without;
    }
    forall p | p in Expirations(without) ensures p in Expirations(objects) {
      assert p.1 in objects;
    }
  }

  lemma ExactPut(objects: Objects, id: string, o: Object, numeric: Index<real>, text: Index<string>,
                 numeric': Index<real>, text': Index<string>)
    requires Exact(objects - {id}, numeric, text) && o.id == id
    requires forall f, v, i :: Holds(numeric', f, v, i) <==> Holds(numeric, f, v, i) || (i == id && HasNumber(o, f, v))
    requires forall f, v, i :: Holds(text', f, v, i) <==> Holds(text, f, v, i) || (i == id && HasText(o, f, v))
    requires NoEmptyBuckets(numeric) ==> NoEmptyBuckets(numeric')
    requires NoEmptyBuckets(text) ==> NoEmptyBuckets(text')
    ensures Exact(objects[id := o], numeric', text')
  {
  }

  lemma ExactDrop(objects: Objects, id: string, numeric: Index<real>, text: Index<string>,
                  numeric': Index<real>, text': Index<string>)
    requires Exact(objects, numeric, text) && id in objects && objects[id].id == id
    requires forall f, v, i :: Holds(numeric', f, v, i) <==> Holds(numeric, f, v, i) && !(i == id && HasNumber(objects[id], f, v))
    requires forall f, v, i :: Holds(text', f, v, i) <==> Holds(text, f, v, i) && !(i == id && HasText(objects[id], f, v))
    requires NoEmptyBuckets(numeric) ==> NoEmptyBuckets(numeric')
    requires NoEmptyBuckets(text) ==> NoEmptyBuckets(text')
    ensures Exact(objects - {id}, numeric', text')
  {
  }

  lemma SpatialPut(env: Env, objects: Objects, id: string, o: Object)
    ensures SpatialEntries(env, objects[id := o]) ==
      match Envelope(env, o.geo)
      case Ok(Some(box)) => SpatialEntries(env, objects - {id})[id := SpatialEntry(id, box)]
      case _ => SpatialEntries(env, objects - {id})
  {
    hide Envelope;
  }

  lemma SpatialDrop(env: Env, objects: Objects, id: string)
    ensures SpatialEntries(env, objects - {id}) == SpatialEntries(env, objects) - {id}
  {
    hide Envelope;
  }

  /** Indexes do not see a part of the object they do not index. */
  lemma {:induction false} SameGeoSameSpatial(env: Env, objects: Objects, id: string, o: Object)
    requires id in objects && o.geo == objects[id].geo
    ensures SpatialEntries(env, objects[id := o]) == SpatialEntries(env, objects)
  {
    hide Envelope;
  }

  lemma {:induction false} SameFieldsSameExact(objects: Objects, id: string, o: Object, numeric: Index<real>, text: Index<string>)
    requires Exact(objects, numeric, text) && id in objects && o.fields == objects[id].fields
    ensures Exact(objects[id := o], numeric, text)
  {
  }

  lemma {:induction false} SameDeadlineSameExpirations(objects: Objects, id: string, o: Object)
    requires id in objects && o.expiresAt == objects[id].expiresAt
    ensures Expirations(objects[id := o]) == Expirations(objects)
  {
    ExpirationsPut(objects, id, o);
    ExpirationsDrop(objects, id);
    if o.expiresAt.Some? {
      assert (o.expiresAt.value, id) in Expirations(objects);
    }
  }

  // Distances.

  /** `candidate_distance`: from the point itself or from the envelope's center. */
  function CandidateDistance(env: Env, o: Object, lat: real, lon: real): Option<real> {
    match o.geo
    case Point(plat, plon, _) => Some(env.distance(lat, lon, plat, plon))
    case _ =>
      match Envelope(env, o.geo)
      case Ok(Some(box)) => Some(env.distance(lat, lon, CenterLat(box), CenterLon(box)))
      case _ => None
  }

  predicate WithinDistance(env: Env, o: Object, lat: real, lon: real, meters: real) {
    CandidateDistance(env, o, lat, lon).Some? && CandidateDistance(env, o, lat, lon).value <= meters
  }

  /** Near means: a point within the distance, or another geometry whose envelope has its
      centre there; a string is near nothing. */
  lemma WithinDistanceMeans(env: Env, o: Object, lat: real, lon: real, meters: real)
    ensures WithinDistance(env, o, lat, lon, meters) <==>
      match o.geo
      case Point(pointLat, pointLon, _) => env.distance(lat, lon, pointLat, pointLon) <= meters
      case Str(_) => false
      case _ =>
        Envelope(env, o.geo).Ok? &&
        var box := Envelope(env, o.geo).value.value;
        env.distance(lat, lon, (box.minLat + box.maxLat) / 2.0, (box.minLon + box.maxLon) / 2.0) <= meters
  {
  }

  // Deadlines.

  predicate Earlier(a: (nat, string), b: (nat, string)) {
    a.0 < b.0 || (a.0 == b.0 && Less(a.1, b.1))
  }

  lemma EarlierIsTotal(a: (nat, string), b: (nat, string))
    ensures a == b || Earlier(a, b) || Earlier(b, a)
    ensures !(Earlier(a, b) && Earlier(b, a))
  {
    LessIsTotal(a.1, b.1);
    LessIsStrict(a.1, b.1);
  }

  lemma EarlierIsTransitive(a: (nat, string), b: (nat, string), c: (nat, string))
    requires Earlier(a, b) && Earlier(b, c)
    ensures Earlier(a, c)
  {
    if a.0 == b.0 == c.0 {
      LessIsTransitive(a.1, b.1, c.1);
    }
  }

  predicate IsFirst(p: (nat, string), pairs: set<(nat, string)>) {
    p in pairs && forall q :: q in pairs && q != p ==> Earlier(p, q)
  }

  lemma {:induction false} FirstExists(pairs: set<(nat, string)>)
    requires pairs != {}
    ensures exists p :: IsFirst(p, pairs)
  {
    var k :| k in pairs;
    var rest := pairs - {k};
    if rest == {} {
      assert pairs == {k};
      assert IsFirst(k, pairs);
    } else {
      FirstExists(rest);
      var m :| IsFirst(m, rest);
      EarlierIsTotal(k, m);
      if Earlier(k, m) {
        forall q | q in pairs && q != k ensures Earlier(k, q) {
          if q != m { EarlierIsTransitive(k, m, q); }
        }
        assert IsFirst(k, pairs);
      } else {
        assert IsFirst(m, pairs);
      }
    }
  }

  function Due(objects: Objects, now: nat): set<string> {
    set id | id in objects && Expired(objects[id], now)
  }

  /** The place of an expired object in the expiry order. */
  function Place(objects: Objects, id: string): (nat, string)
    requires id in objects && objects[id].expiresAt.Some?
  {
    (objects[id].expiresAt.value, id)
  }

  /** The first `max` due ids, oldest first: as many as there are, in deadline
      order, and none that is left out comes before one that is taken. */
  ghost predicate DuePrefix(objects: Objects, now: nat, max: nat, ids: seq<string>) {
    (forall i :: 0 <= i < |ids| ==> ids[i] in Due(objects, now)) &&
    (forall i, j :: 0 <= i < j < |ids| ==> Earlier(Place(objects, ids[i]), Place(objects, ids[j]))) &&
    (forall i, id :: 0 <= i < |ids| && id in Due(objects, now) && id !in ids ==>
      Earlier(Place(objects, ids[i]), Place(objects, id))) &&
    |ids| == if max < |Due(objects, now)| then max else |Due(objects, now)|
  }

  /** What that says of deadlines: all taken are at most `now` and in ascending order, ties
      by id; what is left out is not due, or `max` were taken that are no later. */
  lemma {:induction false} DuePrefixMeans(objects: Objects, now: nat, max: nat, ids: seq<string>)
    requires DuePrefix(objects, now, max, ids)
    ensures forall i :: 0 <= i < |ids| ==>
      ids[i] in objects && objects[ids[i]].expiresAt.Some? && objects[ids[i]].expiresAt.value <= now
    ensures forall i, j :: 0 <= i < j < |ids| ==>
      objects[ids[i]].expiresAt.value < objects[ids[j]].expiresAt.value ||
      (objects[ids[i]].expiresAt == objects[ids[j]].expiresAt && Less(ids[i], ids[j]))
    ensures forall id :: id in objects && objects[id].expiresAt.Some? && id !in ids ==>
      objects[id].expiresAt.value > now ||
      (|ids| == max && forall i :: 0 <= i < |ids| ==> objects[ids[i]].expiresAt.value <= objects[id].expiresAt.value)
  {
    if |ids| < max {
      forall i, j | 0 <= i < j < |ids| ensures ids[i] != ids[j] {
        EarlierIsTotal(Place(objects, ids[i]), Place(objects, ids[j]));
      }
      DistinctSize(ids);
      var taken := set id | id in ids;
      assert taken <= Due(objects, now);
      SameSize(taken, Due(objects, now));
      assert forall id :: id in Due(objects, now) ==> id in taken;
    }
    assert forall id :: id in objects && objects[id].expiresAt.Some? && objects[id].expiresAt.value <= now ==>
      id in Due(objects, now);
  }

  lemma {:induction false} DistinctSize(ids: seq<string>)
    requires Distinct(ids)
    ensures |set id | id in ids| == |ids|
  {
    if ids != [] {
      var init, last := ids[..|ids| - 1], ids[|ids| - 1];
      DistinctSize(init);
      assert (set id | id in ids) == (set id | id in init) + {last};
      assert last !in init;
    }
  }

  lemma {:induction false} PrefixSize(objects: Objects, now: nat, max: nat, ids: seq<string>)
    requires Distinct(ids) && forall id :: id in ids ==> id in Due(objects, now)
    requires |ids| <= max && (|ids| == max || forall id :: id in Due(objects, now) ==> id in ids)
    ensures |ids| == if max < |Due(objects, now)| then max else |Due(objects, now)|
  {
    DistinctSize(ids);
    var taken := set id | id in ids;
    SubsetSize(taken, Due(objects, now));
    if forall id :: id in Due(objects, now) ==> id in ids {
      assert taken == Due(objects, now);
    }
  }

  class Collection {
    const env: Env
    var objects: Objects
    var expirations: set<(nat, string)>
    const spatial: SpatialIndex
    const fieldIndexes: FieldIndexes

    /** Every derived structure is the function of `objects` it should be. */
    ghost predicate Valid()
      reads this, spatial, fieldIndexes
    {
      Keyed(objects) && spatial.Valid() && spatial.env == env &&
      Exact(objects, fieldIndexes.numeric, fieldIndexes.text) &&
      expirations == Expirations(objects) &&
      spatial.entriesById == SpatialEntries(env, objects)
    }

    constructor (env: Env)
      ensures Valid() && objects == map[] && this.env == env
      ensures fresh(spatial) && fresh(fieldIndexes)
    {
      this.env := env;
      spatial := new SpatialIndex(env);
      fieldIndexes := new FieldIndexes();
      objects, expirations := map[], {};
    }

    /** The indexes describe the objects other than `id`. */
    ghost predicate Detached(id: string)
      reads this, spatial, fieldIndexes
    {
      Keyed(objects) && spatial.Valid() && spatial.env == env &&
      Exact(objects - {id}, fieldIndexes.numeric, fieldIndexes.text) &&
      expirations == Expirations(objects - {id}) &&
      spatial.entriesById == SpatialEntries(env, objects - {id})
    }

    /** The first half of an upsert: take the previous object's entries out. */
    method Detach(id: string)
      requires Valid()
      modifies this`expirations, spatial, fieldIndexes
      ensures Detached(id)
    {
      hide Exact, Expirations, SpatialEntries, Envelope, Holds, NoEmptyBuckets, HasNumber, HasText;
      ExpirationsDrop(objects, id);
      SpatialDrop(env, objects, id);
      if id in objects {
        var previous := objects[id];
        fieldIndexes.RemoveObject(previous);
        if previous.expiresAt.Some? {
          expirations := expirations - {(previous.expiresAt.value, id)};
        }
        ExactDrop(objects, id, old(fieldIndexes.numeric), old(fieldIndexes.text), fieldIndexes.numeric, fieldIndexes.text);
      } else {
        assert objects - {id} == objects;
      }
      var _ := spatial.Remove(id);
    }

    /** The error exit comes after the old entries are gone: it keeps the
        invariant exactly when there was nothing to lose. */
    method Upsert(o: Object) returns (ok: bool)
      requires Valid()
      modifies this, spatial, fieldIndexes
      ensures ok == Indexable(env, o.geo)
      ensures ok ==> Valid() && objects == old(objects)[o.id := o]
      ensures !ok ==> objects == old(objects)
      ensures !ok ==> (Valid() <==> o.id !in objects || Bare(env, objects[o.id]))
    {
      hide Exact, Expirations, SpatialEntries, Envelope, Holds, NoEmptyBuckets, HasNumber, HasText, Bare;
      Detach(o.id);
      ok := spatial.Insert(o.id, o.geo);
      if !ok {
        WithoutEntries(env, objects, o.id, fieldIndexes.numeric, fieldIndexes.text);
        return;
      }
      ghost var numeric, text := fieldIndexes.numeric, fieldIndexes.text;
      fieldIndexes.InsertObject(o);
      ExactPut(objects, o.id, o, numeric, text, fieldIndexes.numeric, fieldIndexes.text);
      ExpirationsPut(objects, o.id, o);
      SpatialPut(env, objects, o.id, o);
      if o.expiresAt.Some? {
        expirations := expirations + {(o.expiresAt.value, o.id)};
      }
      objects := objects[o.id := o];
    }

    method Remove(id: string) returns (removed: Option<Object>)
      requires Valid()
      modifies this, spatial, fieldIndexes
      ensures Valid() && objects == old(objects) - {id} && removed == Lookup(old(objects), id)
    {
      hide Exact, Expirations, SpatialEntries, Envelope, Holds, NoEmptyBuckets, HasNumber, HasText;
      ghost var was := objects;
      var _ := spatial.Remove(id);
      ExpirationsDrop(was, id);
      SpatialDrop(env, was, id);
      removed := Lookup(objects, id);
      objects := objects - {id};
      if removed.Some? {
        fieldIndexes.RemoveObject(removed.value);
        ExactDrop(was, id, old(fieldIndexes.numeric), old(fieldIndexes.text), fieldIndexes.numeric, fieldIndexes.text);
        if removed.value.expiresAt.Some? {
          expirations := expirations - {(removed.value.expiresAt.value, id)};
        }
      } else {
        assert was - {id} == was;
      }
    }

    method SetExpiry(id: string, expiresAt: Option<nat>) returns (found: bool)
      requires Valid()
      modifies this
      ensures Valid() && found == (id in old(objects))
      ensures objects == if found then WithExpiry(old(objects), id, expiresAt) else old(objects)
    {
      if id !in objects {
        return false;
      }
      hide Exact, Expirations, SpatialEntries, Envelope, Holds, NoEmptyBuckets, HasNumber, HasText;
      ghost var was := objects;
      ExpirationsDrop(was, id);
      if objects[id].expiresAt.Some? {
        expirations := expirations - {(objects[id].expiresAt.value, id)};
      }
      objects := objects[id := objects[id].(expiresAt := expiresAt)];
      if expiresAt.Some? {
        expirations := expirations + {(expiresAt.value, id)};
      }
      ExpirationsPut(was, id, objects[id]);
      SameGeoSameSpatial(env, was, id, objects[id]);
      SameFieldsSameExact(was, id, objects[id], fieldIndexes.numeric, fieldIndexes.text);
      found := true;
    }

    method InsertFields(id: string, updates: seq<FieldEntry>) returns (found: bool)
      requires Valid()
      modifies this, fieldIndexes
      ensures Valid() && found == (id in old(objects))
      ensures objects == if found then WithFields(old(objects), id, updates) else old(objects)
    {
      if id !in objects {
        return false;
      }
      hide Exact, Expirations, SpatialEntries, Envelope, Holds, NoEmptyBuckets, HasNumber, HasText;
      ghost var was := objects;
      fieldIndexes.RemoveObject(objects[id]);
      ExactDrop(was, id, old(fieldIndexes.numeric), old(fieldIndexes.text), fieldIndexes.numeric, fieldIndexes.text);
      var fields := ApplyFieldUpdates(objects[id].fields, updates);
      var updated := objects[id].(fields := fields);
      objects := objects[id := updated];
      ghost var numeric, text := fieldIndexes.numeric, fieldIndexes.text;
      fieldIndexes.InsertObject(updated);
      ExactPut(was, id, updated, numeric, text, fieldIndexes.numeric, fieldIndexes.text);
      SameGeoSameSpatial(env, was, id, updated);
      SameDeadlineSameExpirations(was, id, updated);
      found := true;
    }

    /** The geometry is replaced even when it turns out not to be indexable. */
    method ReplaceGeo(id: string, geo: Geo) returns (r: Option<bool>)
      requires Valid()
      modifies this, spatial
      ensures Valid()
      ensures r == if id !in old(objects) then Some(false) else if Indexable(env, geo) then Some(true) else None
      ensures objects == if id in old(objects) then WithGeo(old(objects), id, geo) else old(objects)
    {
      if id !in objects {
        return Some(false);
      }
      hide Exact, Expirations, SpatialEntries, Envelope;
      ghost var was := objects;
      objects := objects[id := objects[id].(geo := geo)];
      var _ := spatial.Remove(id);
      var ok := spatial.Insert(id, geo);
      SpatialDrop(env, was, id);
      SpatialPut(env, was, id, objects[id]);
      SameDeadlineSameExpirations(was, id, objects[id]);
      SameFieldsSameExact(was, id, objects[id], fieldIndexes.numeric, fieldIndexes.text);
      return if ok then Some(true) else None;
    }

    /** `nearby_ids` agrees with a brute-force distance filter over all objects. */
    method NearbyIds(lat: real, lon: real, meters: real, order: seq<SpatialEntry>) returns (ids: seq<string>)
      requires Valid() && multiset(order) == spatial.tree
      ensures forall id :: id in ids <==> id in objects && WithinDistance(env, objects[id], lat, lon, meters)
      ensures forall i, j :: 0 <= i < j < |ids| ==> ids[i] != ids[j]
    {
      ids := spatial.NearbyIds(lat, lon, meters, order);
    }

    /** `due_expirations`: walks the ordered expiry index up to `now`. */
    method DueExpirations(now: nat, max: nat) returns (ids: seq<string>)
      requires Valid()
      ensures DuePrefix(objects, now, max, ids)
    {
      ids := [];
      var rest := expirations;
      ghost var seen: seq<(nat, string)> := [];
      while |ids| < max && rest != {}
        invariant rest <= expirations && |seen| == |ids| <= max
        invariant forall i :: 0 <= i < |ids| ==> ids[i] in Due(objects, now) && seen[i] == Place(objects, ids[i])
        invariant forall p :: p in expirations ==> p in rest || p in seen
        invariant forall i, j :: 0 <= i < j < |seen| ==> Earlier(seen[i], seen[j])
        invariant forall i, p :: 0 <= i < |seen| && p in rest ==> Earlier(seen[i], p)
      {
        FirstExists(rest);
        var p: (nat, string) :| IsFirst(p, rest);
        if p.0 > now {
          break;
        }
        assert p.1 in objects && p == Place(objects, p.1);
        ids, seen := ids + [p.1], seen + [p];
        rest := rest - {p};
      }
      TakenIsPrefix(objects, now, max, ids, seen, rest);
    }

    /** The replay form of an edit: the document is changed where it is stored, then
        its entry is refreshed if it has one. */
    method EditGeo(id: string, geo: Geo)
      requires Valid() && id in objects
      modifies this, spatial
      ensures Valid() && objects == WithGeo(old(objects), id, geo)
    {
      hide Exact, Expirations, SpatialEntries, Envelope;
      ghost var was := objects;
      objects := objects[id := objects[id].(geo := geo)];
      SpatialElsewhere(env, was, id, objects[id]);
      SameDeadlineSameExpirations(was, id, objects[id]);
      SameFieldsSameExact(was, id, objects[id], fieldIndexes.numeric, fieldIndexes.text);
      ReindexSpatial(id);
    }

    /** `reindex_spatial`: refreshes one object's entry. */
    method ReindexSpatial(id: string)
      requires Keyed(objects) && spatial.Valid() && spatial.env == env
      requires spatial.entriesById - {id} == SpatialEntries(env, objects) - {id}
      modifies spatial
      ensures spatial.Valid() && spatial.entriesById == SpatialEntries(env, objects)
    {
      hide SpatialEntries, Envelope;
      SpatialDrop(env, objects, id);
      var _ := spatial.Remove(id);
      if id in objects {
        SpatialPut(env, objects, id, objects[id]);
        assert objects[id := objects[id]] == objects;
        var _ := spatial.Insert(id, objects[id].geo);
      } else {
        assert objects - {id} == objects;
      }
    }
  }

  lemma SpatialElsewhere(env: Env, objects: Objects, id: string, o: Object)
    ensures SpatialEntries(env, objects[id := o]) - {id} == SpatialEntries(env, objects) - {id}
  {
    hide Envelope;
  }

  lemma {:induction false} TakenIsPrefix(
      objects: Objects, now: nat, max: nat, ids: seq<string>, seen: seq<(nat, string)>, rest: set<(nat, string)>)
    requires |seen| == |ids| <= max && rest <= Expirations(objects)
    requires forall i :: 0 <= i < |ids| ==> ids[i] in Due(objects, now) && seen[i] == Place(objects, ids[i])
    requires forall p :: p in Expirations(objects) ==> p in rest || p in seen
    requires forall i, j :: 0 <= i < j < |seen| ==> Earlier(seen[i], seen[j])
    requires forall i, p :: 0 <= i < |seen| && p in rest ==> Earlier(seen[i], p)
    requires |ids| == max || rest == {} || exists p: (nat, string) :: IsFirst(p, rest) && p.0 > now
    ensures DuePrefix(objects, now, max, ids)
  {
    forall i, j | 0 <= i < j < |ids| ensures ids[i] != ids[j] {
      EarlierIsTotal(seen[i], seen[j]);
    }
    forall id | id in Due(objects, now) && id !in ids ensures Place(objects, id) in rest {
      assert Place(objects, id) in Expirations(objects);
    }
    if |ids| < max && rest != {} {
      var p: (nat, string) :| IsFirst(p, rest) && p.0 > now;
      assert forall id :: id in Due(objects, now) && id !in ids ==> IsFirst(p, rest) && Place(objects, id) in rest;
    }
    PrefixSize(objects, now, max, ids);
  }

  /** After an object's entries were taken out while it stays stored, the
      indexes are right exactly when it had none. */
  lemma {:induction false} WithoutEntries(env: Env, objects: Objects, id: string, numeric: Index<real>, text: Index<string>)
    requires Exact(objects - {id}, numeric, text)
    ensures (Exact(objects, numeric, text) && Expirations(objects - {id}) == Expirations(objects) &&
             SpatialEntries(env, objects - {id}) == SpatialEntries(env, objects))
       <==> id !in objects || Bare(env, objects[id])
  {
    hide Exact, Envelope;
    if id !in objects {
      assert objects - {id} == objects;
    } else {
      var o := objects[id];
      if o.fields != map[] {
        FieldsNeedEntries(objects, id, numeric, text);
      } else if o.expiresAt.Some? {
        assert (o.expiresAt.value, id) in Expirations(objects);
        assert (o.expiresAt.value, id) !in Expirations(objects - {id});
      } else if !Bare(env, o) {
        assert id in SpatialEntries(env, objects);
        assert id !in SpatialEntries(env, objects - {id});
      } else {
        NoFieldsNoEntries(objects, id, numeric, text);
        ExpirationsDrop(objects, id);
        assert SpatialEntries(env, objects - {id}) == SpatialEntries(env, objects);
      }
    }
  }

  lemma FieldsNeedEntries(objects: Objects, id: string, numeric: Index<real>, text: Index<string>)
    requires Exact(objects - {id}, numeric, text) && id in objects && objects[id].fields != map[]
    ensures !Exact(objects, numeric, text)
  {
    var o := objects[id];
    var f :| f in o.fields;
    match o.fields[f] {
      case Number(n) => assert HasNumber(o, f, n) && !Holds(numeric, f, n, id);
      case Text(s) => assert HasText(o, f, s) && !Holds(text, f, s, id);
      case JsonText(s) => assert HasText(o, f, s) && !Holds(text, f, s, id);
    }
  }

  lemma NoFieldsNoEntries(objects: Objects, id: string, numeric: Index<real>, text: Index<string>)
    requires Exact(objects - {id}, numeric, text) && id in objects && objects[id].fields == map[]
    ensures Exact(objects, numeric, text)
  {
    hide Holds, NoEmptyBuckets;
  }
}
