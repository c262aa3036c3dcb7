/** The numeric and text field indexes of a collection (crates/latlng-core/src/lib.rs). */
module FieldIndexing {
  import opened Types

  /** field -> value -> ids */
  type Index<K> = map<string, map<K, set<string>>>

  predicate Holds<K>(index: Index<K>, field: string, value: K, id: string) {
    field in index && value in index[field] && id in index[field][value]
  }

  predicate NoEmptyBuckets<K>(index: Index<K>) {
    forall field :: field in index ==>
      index[field] != map[] && forall value :: value in index[field] ==> index[field][value] != {}
  }

  function InsertId<K(!new)>(index: Index<K>, field: string, value: K, id: string): (r: Index<K>)
    ensures Holds(r, field, value, id)
    ensures forall f, v, i :: Holds(r, f, v, i) <==> Holds(index, f, v, i) || (f == field && v == value && i == id)
    ensures NoEmptyBuckets(index) ==> NoEmptyBuckets(r)
  {
    var values := if field in index then index[field] else map[];
    var ids := if value in values then values[value] else {};
    index[field := values[value := ids + {id}]]
  }

  /** `remove_indexed_id`: drops the id, then an emptied bucket, then an emptied field. */
  function RemoveId<K(!new)>(index: Index<K>, field: string, value: K, id: string): (r: Index<K>)
    ensures forall f, v, i :: Holds(r, f, v, i) <==> Holds(index, f, v, i) && !(f == field && v == value && i == id)
    ensures NoEmptyBuckets(index) ==> NoEmptyBuckets(r)
  {
    if field !in index then index
    else
      var values := index[field];
      var kept :=
        if value !in values then values
        else
          var ids := values[value] - {id};
          assert forall i :: i in values[value] && i != id ==> i in ids;
          if ids == {} then values - {value} else values[value := ids];
      assert forall v :: v in values && v != value ==> v in kept && kept[v] == values[v];
      assert forall i :: value in values && i in values[value] && i != id ==> value in kept && i in kept[value];
      if kept == map[] then index - {field} else index[field := kept]
  }

  predicate HasNumber(o: Object, field: string, value: real) {
    field in o.fields && o.fields[field] == Number(value)
  }

  predicate HasText(o: Object, field: string, value: string) {
    field in o.fields && (o.fields[field] == Text(value) || o.fields[field] == JsonText(value))
  }

  /** The indexes are the inverse of `objects`: an id is in a bucket exactly when
      the stored object carries that value, and no bucket is empty. */
  ghost predicate Exact(objects: Objects, numeric: Index<real>, text: Index<string>) {
    (forall f, v, id :: Holds(numeric, f, v, id) <==> id in objects && HasNumber(objects[id], f, v)) &&
    (forall f, v, id :: Holds(text, f, v, id) <==> id in objects && HasText(objects[id], f, v)) &&
    NoEmptyBuckets(numeric) && NoEmptyBuckets(text)
  }

  lemma {:induction false} SameHoldsSameIndex<K(!new)>(a: Index<K>, b: Index<K>)
    requires NoEmptyBuckets(a) && NoEmptyBuckets(b)
    requires forall f, v, i :: Holds(a, f, v, i) <==> Holds(b, f, v, i)
    ensures a == b
  {
    IndexWithin(a, b);
    IndexWithin(b, a);
    assert forall f :: f in a <==> f in b;
    forall f | f in a ensures a[f] == b[f] {
      assert forall v :: v in a[f] <==> v in b[f];
      forall v | v in a[f] ensures a[f][v] == b[f][v] {
        forall i ensures i in a[f][v] <==> i in b[f][v] {
          assert Holds(a, f, v, i) <==> Holds(b, f, v, i);
        }
      }
    }
  }

  lemma {:induction false} IndexWithin<K(!new)>(a: Index<K>, b: Index<K>)
    requires NoEmptyBuckets(a) && forall f, v, i :: Holds(a, f, v, i) ==> Holds(b, f, v, i)
    ensures forall f :: f in a ==> f in b
    ensures forall f, v :: f in a && v in a[f] ==> f in b && v in b[f]
  {
    forall f | f in a ensures f in b {
      var v :| v in a[f];
      var i :| i in a[f][v];
      assert Holds(a, f, v, i);
    }
    forall f, v | f in a && v in a[f] ensures f in b && v in b[f] {
      var i :| i in a[f][v];
      assert Holds(a, f, v, i);
    }
  }

  /** The indexes are a function of the objects. */
  lemma {:induction false} ExactIsUnique(
      objects: Objects, numeric: Index<real>, text: Index<string>, numeric': Index<real>, text': Index<string>)
    requires Exact(objects, numeric, text) && Exact(objects, numeric', text')
    ensures numeric == numeric' && text == text'
  {
    forall f: string, v: real, id: string ensures Holds(numeric, f, v, id) <==> Holds(numeric', f, v, id) {
    }
    SameHoldsSameIndex(numeric, numeric');
    SameHoldsSameIndex(text, text');
  }

  class FieldIndexes {
    var numeric: Index<real>
    var text: Index<string>

    constructor ()
      ensures Exact(map[], numeric, text)
    {
      numeric, text := map[], map[];
    }

    /** The insertion loop over an object's fields. */
    method InsertObject(o: Object)
      modifies this
      ensures forall f, v, id :: Holds(numeric, f, v, id) <==> old(Holds(numeric, f, v, id)) || (id == o.id && HasNumber(o, f, v))
      ensures forall f, v, id :: Holds(text, f, v, id) <==> old(Holds(text, f, v, id)) || (id == o.id && HasText(o, f, v))
      ensures old(NoEmptyBuckets(numeric)) ==> NoEmptyBuckets(numeric)
      ensures old(NoEmptyBuckets(text)) ==> NoEmptyBuckets(text)
    {
      var todo := o.fields.Keys;
      while todo != {}
        invariant todo <= o.fields.Keys
        invariant forall f, v, id :: Holds(numeric, f, v, id) <==>
          old(Holds(numeric, f, v, id)) || (id == o.id && f !in todo && HasNumber(o, f, v))
        invariant forall f, v, id :: Holds(text, f, v, id) <==>
          old(Holds(text, f, v, id)) || (id == o.id && f !in todo && HasText(o, f, v))
        invariant old(NoEmptyBuckets(numeric)) ==> NoEmptyBuckets(numeric)
        invariant old(NoEmptyBuckets(text)) ==> NoEmptyBuckets(text)
      {
        var field :| field in todo;
        match o.fields[field] {
          case Number(n) => numeric := InsertId(numeric, field, n, o.id);
          case Text(s) => text := InsertId(text, field, s, o.id);
          case JsonText(s) => text := InsertId(text, field, s, o.id);
        }
        todo := todo - {field};
      }
    }

    /** The removal loop over an object's fields. */
    method RemoveObject(o: Object)
      modifies this
      ensures forall f, v, id :: Holds(numeric, f, v, id) <==> old(Holds(numeric, f, v, id)) && !(id == o.id && HasNumber(o, f, v))
      ensures forall f, v, id :: Holds(text, f, v, id) <==> old(Holds(text, f, v, id)) && !(id == o.id && HasText(o, f, v))
      ensures old(NoEmptyBuckets(numeric)) ==> NoEmptyBuckets(numeric)
      ensures old(NoEmptyBuckets(text)) ==> NoEmptyBuckets(text)
    {
      var todo := o.fields.Keys;
      while todo != {}
        invariant todo <= o.fields.Keys
        invariant forall f, v, id :: Holds(numeric, f, v, id) <==>
          old(Holds(numeric, f, v, id)) && !(id == o.id && f !in todo && HasNumber(o, f, v))
        invariant forall f, v, id :: Holds(text, f, v, id) <==>
          old(Holds(text, f, v, id)) && !(id == o.id && f !in todo && HasText(o, f, v))
        invariant old(NoEmptyBuckets(numeric)) ==> NoEmptyBuckets(numeric)
        invariant old(NoEmptyBuckets(text)) ==> NoEmptyBuckets(text)
      {
        var field :| field in todo;
        match o.fields[field] {
          case Number(n) => numeric := RemoveId(numeric, field, n, o.id);
          case Text(s) => text := RemoveId(text, field, s, o.id);
          case JsonText(s) => text := RemoveId(text, field, s, o.id);
        }
        todo := todo - {field};
      }
    }
  }
}
