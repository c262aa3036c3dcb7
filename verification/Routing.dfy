/** Which fences an event concerns: routing by collection against evaluating
    every registered fence (crates/latlng-geofence/src/lib.rs). */
module Routing {
  import opened Types
  import opened Order
  import opened Fences
  import opened Roaming

  /** A registered channel or hook; hooks have an endpoint. */
  datatype Stored = Stored(def: GeofenceDef, state: FenceState, endpoint: Option<string>)

  type FenceMap = map<string, Stored>

  type NameIndex = map<string, seq<string>>

  /** The two routing indexes: by the fence's collection, by a roaming fence's target. */
  datatype Side = Home | Target

  predicate Watches(def: GeofenceDef, side: Side, collection: string) {
    match side
    case Home => def.collection == collection
    case Target => def.query.Roam? && def.query.targetCollection == collection
  }

  predicate Relevant(def: GeofenceDef, collection: string) {
    Watches(def, Home, collection) || Watches(def, Target, collection)
  }

  predicate Lists(index: NameIndex, collection: string, name: string) {
    collection in index && name in index[collection]
  }

  /** The index lists exactly the watching fences, once each, and has no empty lists. */
  ghost predicate Exact(index: NameIndex, side: Side, fences: FenceMap) {
    (forall c :: c in index ==> index[c] != [] && Distinct(index[c])) &&
    (forall c, n :: Lists(index, c, n) <==> n in fences && Watches(fences[n].def, side, c))
  }

  /** `push_index_name`. */
  function Push(index: NameIndex, collection: string, name: string): NameIndex {
    var names := if collection in index then index[collection] else [];
    index[collection := if name in names then names else names + [name]]
  }

  function Without(names: seq<string>, name: string): (r: seq<string>)
    ensures forall n :: n in r <==> n in names && n != name
    ensures Distinct(names) ==> Distinct(r)
  {
    if names == [] then []
    else if names[0] == name then Without(names[1..], name)
    else
      assert Distinct(names) ==> names[0] !in names[1..];
      [names[0]] + Without(names[1..], name)
  }

  /** `remove_index_name`. */
  function Drop(index: NameIndex, collection: string, name: string): NameIndex {
    if collection !in index then index
    else
      var names := Without(index[collection], name);
      if names == [] then index - {collection} else index[collection := names]
  }

  /** Insertion and removal on one side, where a fence has at most one entry. */
  function AddName(index: NameIndex, side: Side, name: string, def: GeofenceDef): NameIndex {
    match side
    case Home => Push(index, def.collection, name)
    case Target => if def.query.Roam? then Push(index, def.query.targetCollection, name) else index
  }

  function RemoveName(index: NameIndex, side: Side, name: string, def: GeofenceDef): NameIndex {
    match side
    case Home => Drop(index, def.collection, name)
    case Target => if def.query.Roam? then Drop(index, def.query.targetCollection, name) else index
  }

  lemma PushLists(index: NameIndex, collection: string, name: string)
    ensures forall c, n :: Lists(Push(index, collection, name), c, n) <==>
      Lists(index, c, n) || (c == collection && n == name)
    ensures (forall c :: c in index ==> index[c] != [] && Distinct(index[c])) ==>
      forall c :: c in Push(index, collection, name) ==>
        Push(index, collection, name)[c] != [] && Distinct(Push(index, collection, name)[c])
  {
  }

  lemma DropLists(index: NameIndex, collection: string, name: string)
    requires forall c :: c in index ==> index[c] != [] && Distinct(index[c])
    ensures forall c, n :: Lists(Drop(index, collection, name), c, n) <==>
      Lists(index, c, n) && !(c == collection && n == name)
    ensures forall c :: c in Drop(index, collection, name) ==>
      Drop(index, collection, name)[c] != [] && Distinct(Drop(index, collection, name)[c])
  {
    if collection in index {
      var names := Without(index[collection], name);
      assert forall n :: n in names <==> n in index[collection] && n != name;
      hide Distinct;
    }
  }

  lemma AddNameKeepsExact(index: NameIndex, side: Side, fences: FenceMap, name: string, stored: Stored)
    requires Exact(index, side, fences) && name !in fences
    ensures Exact(AddName(index, side, name, stored.def), side, fences[name := stored])
  {
    PushLists(index, stored.def.collection, name);
    if stored.def.query.Roam? {
      PushLists(index, stored.def.query.targetCollection, name);
    }
    hide Push, Lists, Distinct;
  }

  lemma RemoveNameKeepsExact(index: NameIndex, side: Side, fences: FenceMap, name: string)
    requires Exact(index, side, fences) && name in fences
    ensures Exact(RemoveName(index, side, name, fences[name].def), side, fences - {name})
  {
    var def := fences[name].def;
    DropLists(index, def.collection, name);
    if def.query.Roam? {
      DropLists(index, def.query.targetCollection, name);
    }
    hide Drop, Lists, Distinct;
  }

  // Evaluation.

  /** What evaluating one stored fence may return. */
  ghost predicate Outcome(
      env: FenceEnv, stored: Stored, event: Mutation, name: string, lookup: string -> seq<Object>, evaluation: Evaluation)
  {
    var hook := if stored.endpoint.Some? then Some(name) else None;
    if stored.def.query.Roam?
    then Evaluated(env, Report(event, stored.def, Some(name), hook), stored.state, lookup, evaluation)
    else evaluation == EvaluateStatic(env, stored.def, stored.state, event, Some(name), hook)
  }

  type Evaluations = map<string, Evaluation>

  /** All fences after the given evaluations; a fence without one is untouched. */
  function NextFences(fences: FenceMap, evaluations: Evaluations): FenceMap {
    map n | n in fences ::
      if n in evaluations then fences[n].(state := Resulting(evaluations[n], fences[n].state)) else fences[n]
  }

  function EventsOf(names: seq<string>, evaluations: Evaluations): seq<FenceEvent> {
    if names == [] then []
    else
      var last := names[|names| - 1];
      EventsOf(names[..|names| - 1], evaluations) +
      if last in evaluations then Emitted(evaluations[last]) else []
  }

  function ErrorsOf(names: seq<string>, evaluations: Evaluations): nat {
    if names == [] then 0
    else
      var last := names[|names| - 1];
      ErrorsOf(names[..|names| - 1], evaluations) +
      if last in evaluations && evaluations[last].Error? then 1 else 0
  }

  /** The evaluations belong to the given fences. */
  ghost predicate EvaluationsOf(
      env: FenceEnv, fences: FenceMap, event: Mutation, lookup: string -> seq<Object>, evaluations: Evaluations)
  {
    forall n :: n in evaluations ==> n in fences && Outcome(env, fences[n], event, n, lookup, evaluations[n])
  }

  /** A fence that does not watch the event's collection keeps its state and is silent. */
  lemma IrrelevantIsSilent(
      env: FenceEnv, stored: Stored, event: Mutation, name: string, lookup: string -> seq<Object>, evaluation: Evaluation)
    requires OnlyTrue(stored.state.pairs) && !Relevant(stored.def, event.collection)
    requires Outcome(env, stored, event, name, lookup, evaluation)
    ensures Resulting(evaluation, stored.state) == stored.state && Emitted(evaluation) == []
  {
    hide Detected;
    if stored.def.query.Roam? {
      assert multiset(evaluation.events) == multiset{};
      assert |evaluation.events| == |multiset(evaluation.events)|;
      var pairs := evaluation.update.state.pairs;
      assert pairs.Keys == stored.state.pairs.Keys;
      assert pairs == stored.state.pairs;
    }
  }

  lemma {:induction false} EventsWithout(names: seq<string>, name: string, evaluations: Evaluations)
    requires Distinct(names) && name in names
    ensures |Without(names, name)| < |names|
    ensures multiset(EventsOf(names, evaluations)) ==
      multiset(EventsOf(Without(names, name), evaluations)) +
      multiset(if name in evaluations then Emitted(evaluations[name]) else [])
  {
    var init, last := names[..|names| - 1], names[|names| - 1];
    assert names == init + [last];
    WithoutConcat(init, last, name);
    EventsAppend(init, last, evaluations);
    hide EventsOf, Emitted;
    if last == name {
      WithoutNothing(init, name);
      assert Without(names, name) == init;
    } else {
      EventsWithout(init, name, evaluations);
      EventsAppend(Without(init, name), last, evaluations);
      assert Without(names, name) == Without(init, name) + [last];
    }
  }

  lemma EventsAppend(names: seq<string>, last: string, evaluations: Evaluations)
    ensures EventsOf(names + [last], evaluations)
         == EventsOf(names, evaluations) + if last in evaluations then Emitted(evaluations[last]) else []
  {
    assert (names + [last])[..|names|] == names;
  }

  lemma {:induction false} WithoutConcat(init: seq<string>, last: string, name: string)
    ensures Without(init + [last], name) == Without(init, name) + if last == name then [] else [last]
  {
    if init != [] {
      assert (init + [last])[1..] == init[1..] + [last];
      WithoutConcat(init[1..], last, name);
    }
  }

  lemma {:induction false} WithoutNothing(names: seq<string>, name: string)
    requires name !in names
    ensures Without(names, name) == names
  {
    if names != [] {
      WithoutNothing(names[1..], name);
    }
  }

  /** Leaving out silent names, in any order, leaves the same events. */
  lemma {:induction false} SameEvents(all: seq<string>, some: seq<string>, evaluations: Evaluations)
    requires Distinct(all) && Distinct(some)
    requires forall n :: n in some ==> n in all
    requires forall n :: n in all && n !in some && n in evaluations ==> Emitted(evaluations[n]) == []
    ensures multiset(EventsOf(all, evaluations)) == multiset(EventsOf(some, evaluations))
    decreases |all|
  {
    assert some != [] ==> some[0] in all;
    if all != [] {
      var init, last := all[..|all| - 1], all[|all| - 1];
      assert all == init + [last];
      if last in some {
        EventsWithout(some, last, evaluations);
        SameEvents(init, Without(some, last), evaluations);
      } else {
        SameEvents(init, some, evaluations);
      }
    }
  }

  lemma {:induction false} SameEventsOf(names: seq<string>, a: Evaluations, b: Evaluations)
    requires forall n :: n in names ==> n in a && n in b && a[n] == b[n]
    ensures EventsOf(names, a) == EventsOf(names, b)
  {
    if names != [] {
      assert names[|names| - 1] in names;
      SameEventsOf(names[..|names| - 1], a, b);
    }
  }

  /** Evaluating only the routed names gives the states and the events of evaluating
      every registered fence, in whatever order that is done. */
  lemma RoutingIsExact(
      env: FenceEnv, fences: FenceMap, event: Mutation, lookup: string -> seq<Object>,
      routed: seq<string>, some: Evaluations, everyone: seq<string>, all: Evaluations)
    requires forall n :: n in fences ==> OnlyTrue(fences[n].state.pairs)
    requires Distinct(routed) && Distinct(everyone)
    requires forall n :: n in routed <==> n in fences && Relevant(fences[n].def, event.collection)
    requires forall n :: n in everyone <==> n in fences
    requires EvaluationsOf(env, fences, event, lookup, all) && all.Keys == fences.Keys
    requires forall n :: n in some <==> n in routed
    requires forall n :: n in some ==> some[n] == all[n]
    ensures NextFences(fences, some) == NextFences(fences, all)
    ensures multiset(EventsOf(routed, some)) == multiset(EventsOf(everyone, all))
  {
    hide Outcome, Resulting, Emitted, OnlyTrue, Relevant, NextFences, EventsOf;
    forall n | n in fences && n !in routed
      ensures Resulting(all[n], fences[n].state) == fences[n].state && Emitted(all[n]) == []
    {
      IrrelevantIsSilent(env, fences[n], event, n, lookup, all[n]);
    }
    SameEvents(everyone, routed, all);
    SameEventsOf(routed, some, all);
    SameStates(fences, some, all);
  }

  lemma SameStates(fences: FenceMap, some: Evaluations, all: Evaluations)
    requires all.Keys == fences.Keys && some.Keys <= all.Keys
    requires forall n :: n in some ==> some[n] == all[n]
    requires forall n :: n in all && n !in some ==> Resulting(all[n], fences[n].state) == fences[n].state
    ensures NextFences(fences, some) == NextFences(fences, all)
  {
    hide Resulting;
    forall n | n in fences ensures NextFences(fences, some)[n] == NextFences(fences, all)[n] {
      assert fences[n].(state := fences[n].state) == fences[n];
    }
  }
}
