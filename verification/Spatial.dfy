/** The spatial index of a collection (crates/latlng-index/src/lib.rs). The tree
    is a bag of entries; its search order is a parameter. */
module Spatial {
  import opened Types
  import opened Geometry

  datatype SpatialEntry = SpatialEntry(id: string, box: BoundingBox)

  class SpatialIndex {
    const env: Env
    var tree: multiset<SpatialEntry>
    var entriesById: map<string, SpatialEntry>

    /** The tree holds exactly the registered entries, each once. */
    ghost predicate Valid()
      reads this
    {
      (forall id :: id in entriesById ==> entriesById[id].id == id) &&
      forall e :: tree[e] == if e.id in entriesById && entriesById[e.id] == e then 1 else 0
    }

    constructor (env: Env)
      ensures Valid() && this.env == env && entriesById == map[]
    {
      this.env := env;
      tree, entriesById := multiset{}, map[];
    }

    method Remove(id: string) returns (removed: bool)
      requires Valid()
      modifies this
      ensures Valid() && removed == (id in old(entriesById)) && entriesById == old(entriesById) - {id}
    {
      if id !in entriesById {
        return false;
      }
      var entry := entriesById[id];
      entriesById := entriesById - {id};
      removed := entry in tree;
      tree := tree - multiset{entry};
    }

    /** Fails without touching the index when the geometry has no envelope. */
    method Insert(id: string, geo: Geo) returns (ok: bool)
      requires Valid()
      modifies this
      ensures Valid() && ok == Indexable(env, geo)
      ensures entriesById ==
        match Envelope(env, geo)
        case Ok(Some(box)) => old(entriesById)[id := SpatialEntry(id, box)]
        case _ => old(entriesById)
    {
      var envelope := Envelope(env, geo);
      if envelope.Err? {
        return false;
      }
      if envelope.value.Some? {
        var _ := Remove(id);
        var entry := SpatialEntry(id, envelope.value.value);
        tree := tree + multiset{entry};
        entriesById := entriesById[id := entry];
      }
      ok := true;
    }

    predicate Near(e: SpatialEntry, lat: real, lon: real, meters: real) {
      env.distance(lat, lon, CenterLat(e.box), CenterLon(e.box)) <= meters
    }

    /** `nearby_ids`: visits the tree in the order of its nearest-neighbour
        iterator and keeps what lies within the distance. */
    method NearbyIds(lat: real, lon: real, meters: real, order: seq<SpatialEntry>) returns (ids: seq<string>)
      requires Valid() && multiset(order) == tree
      ensures forall id :: id in ids <==> id in entriesById && Near(entriesById[id], lat, lon, meters)
      ensures forall i, j :: 0 <= i < j < |ids| ==> ids[i] != ids[j]
    {
      ids := [];
      forall i, j | 0 <= i < j < |order| ensures order[i].id != order[j].id {
        OrderDistinct(order, i, j);
      }
      forall e ensures e in order <==> e.id in entriesById && entriesById[e.id] == e {
        assert e in order <==> e in multiset(order);
      }
      for k := 0 to |order|
        invariant forall id :: id in ids <==> exists j :: 0 <= j < k && order[j].id == id && Near(order[j], lat, lon, meters)
        invariant forall i, j :: 0 <= i < j < |ids| ==> ids[i] != ids[j]
      {
        if env.distance(lat, lon, CenterLat(order[k].box), CenterLon(order[k].box)) <= meters {
          assert order[k].id !in ids;
          ids := ids + [order[k].id];
        }
      }
      forall id ensures id in ids <==> id in entriesById && Near(entriesById[id], lat, lon, meters) {
        if id in entriesById {
          assert entriesById[id] in order;
        }
      }
    }

    lemma OrderDistinct(order: seq<SpatialEntry>, i: nat, j: nat)
      requires Valid() && multiset(order) == tree && i < j < |order|
      ensures order[i].id != order[j].id
    {
      assert order[i] in multiset(order) && order[j] in multiset(order);
      if order[i] == order[j] {
        TwiceInOrder(order, i, j);
      }
    }
  }

  lemma TwiceInOrder(order: seq<SpatialEntry>, i: nat, j: nat)
    requires i < j < |order| && order[i] == order[j]
    ensures multiset(order)[order[j]] >= 2
  {
    assert order == order[..j] + [order[j]] + order[j + 1..];
    assert order[i] in order[..j];
  }
}
