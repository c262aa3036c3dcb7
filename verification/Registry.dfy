/** The geofence registry: tables of channels and hooks, their routing indexes
    and the evaluation of one event (crates/latlng-geofence/src/lib.rs). */
module Registry {
  import opened Types
  import opened Order
  import opened Fences
  import opened Roaming
  import opened Routing

  // What one pass over the routed names collects.

  type Updates = seq<(string, Update)>

  function UpdatesOf(names: seq<string>, evaluations: Evaluations): Updates {
    if names == [] then []
    else
      var last := names[|names| - 1];
      UpdatesOf(names[..|names| - 1], evaluations) +
      if last in evaluations && evaluations[last].Done? then [(last, evaluations[last].update)] else []
  }

  datatype Pass = Pass(updates: Updates, events: seq<FenceEvent>, errors: nat)

  function PassOver(names: seq<string>, evaluations: Evaluations): Pass {
    Pass(UpdatesOf(names, evaluations), EventsOf(names, evaluations), ErrorsOf(names, evaluations))
  }

  function Extended(pass: Pass, name: string, evaluation: Evaluation): Pass {
    match evaluation
    case Error => pass.(errors := pass.errors + 1)
    case Done(update, events) => pass.(updates := pass.updates + [(name, update)], events := pass.events + events)
  }

  lemma {:induction false} LaterNameChangesNothing(
      names: seq<string>, evaluations: Evaluations, name: string, evaluation: Evaluation)
    requires name !in names
    ensures PassOver(names, evaluations[name := evaluation]) == PassOver(names, evaluations)
  {
    if names != [] {
      assert names[|names| - 1] in names;
      LaterNameChangesNothing(names[..|names| - 1], evaluations, name, evaluation);
    }
  }

  lemma {:induction false} PassExtends(
      names: seq<string>, evaluations: Evaluations, name: string, evaluation: Evaluation)
    requires name !in names
    ensures PassOver(names + [name], evaluations[name := evaluation])
         == Extended(PassOver(names, evaluations), name, evaluation)
  {
    LaterNameChangesNothing(names, evaluations, name, evaluation);
    assert (names + [name])[..|names|] == names;
  }

  // Applying the updates.

  function ApplyOne(fences: FenceMap, name: string, update: Update): FenceMap {
    if name in fences then fences[name := fences[name].(state := Apply(update, fences[name].state))] else fences
  }

  function ApplyAll(fences: FenceMap, updates: Updates): FenceMap {
    if updates == [] then fences
    else
      var last := updates[|updates| - 1];
      ApplyOne(ApplyAll(fences, updates[..|updates| - 1]), last.0, last.1)
  }

  function Restricted(evaluations: Evaluations, names: seq<string>): Evaluations {
    map n | n in evaluations && n in names :: evaluations[n]
  }

  /** Applying the collected updates one by one is evaluating every fence on its own. */
  lemma {:induction false} ApplyAllIsNextFences(fences: FenceMap, names: seq<string>, evaluations: Evaluations)
    requires Distinct(names) && forall n :: n in names ==> n in fences && n in evaluations
    ensures ApplyAll(fences, UpdatesOf(names, evaluations)) == NextFences(fences, Restricted(evaluations, names))
  {
    if names != [] {
      var init, last := names[..|names| - 1], names[|names| - 1];
      assert names == init + [last] && last !in init;
      ApplyAllIsNextFences(fences, init, evaluations);
      OneMoreName(fences, init, last, evaluations);
      hide NextFences, ApplyOne, Restricted, UpdatesOf;
      if evaluations[last].Done? {
        AppliesLast(fences, init, last, evaluations);
      } else {
        SkipsLast(init, last, evaluations);
      }
    } else {
      assert NextFences(fences, Restricted(evaluations, names)) == fences;
    }
  }

  lemma AppliesLast(fences: FenceMap, init: seq<string>, last: string, evaluations: Evaluations)
    requires last in evaluations && evaluations[last].Done?
    ensures ApplyAll(fences, UpdatesOf(init + [last], evaluations))
         == ApplyOne(ApplyAll(fences, UpdatesOf(init, evaluations)), last, evaluations[last].update)
  {
    assert (init + [last])[..|init|] == init;
    var updates := UpdatesOf(init + [last], evaluations);
    assert updates[..|updates| - 1] == UpdatesOf(init, evaluations);
  }

  lemma SkipsLast(init: seq<string>, last: string, evaluations: Evaluations)
    requires last in evaluations && evaluations[last].Error?
    ensures UpdatesOf(init + [last], evaluations) == UpdatesOf(init, evaluations)
  {
    assert (init + [last])[..|init|] == init;
  }

  lemma OneMoreName(fences: FenceMap, init: seq<string>, last: string, evaluations: Evaluations)
    requires last in fences && last in evaluations && last !in init
    ensures
      var before := NextFences(fences, Restricted(evaluations, init));
      NextFences(fences, Restricted(evaluations, init + [last])) ==
        if evaluations[last].Done? then ApplyOne(before, last, evaluations[last].update) else before
  {
    hide Apply;
    var before := NextFences(fences, Restricted(evaluations, init));
    var after := NextFences(fences, Restricted(evaluations, init + [last]));
    assert before[last] == fences[last];
    assert fences[last].(state := fences[last].state) == fences[last];
    assert forall n :: n in fences && n != last ==> after[n] == before[n];
    if evaluations[last].Done? {
      assert after == ApplyOne(before, last, evaluations[last].update);
    } else {
      assert after == before;
    }
  }

  /** Channels or hooks. */
  class FenceTable {
    var fences: FenceMap
    var byCollection: NameIndex
    var byTarget: NameIndex

    /** Both indexes list exactly the watching fences; pair tables hold only near pairs. */
    ghost predicate Valid()
      reads this
    {
      Exact(byCollection, Home, fences) && Exact(byTarget, Target, fences) && NearOnly(fences)
    }

    constructor ()
      ensures Valid() && fences == map[]
    {
      fences, byCollection, byTarget := map[], map[], map[];
    }

    method Set(name: string, def: GeofenceDef, endpoint: Option<string>)
      requires Valid()
      modifies this
      ensures Valid() && fences == old(fences)[name := Stored(def, FRESH, endpoint)]
    {
      hide AddName, RemoveName, Exact;
      var stored := Stored(def, FRESH, endpoint);
      ghost var target := fences[name := stored];
      if name in fences {
        Unroute(name);
      }
      AddNameKeepsExact(byCollection, Home, fences, name, stored);
      AddNameKeepsExact(byTarget, Target, fences, name, stored);
      byCollection := AddName(byCollection, Home, name, def);
      byTarget := AddName(byTarget, Target, name, def);
      fences := fences[name := stored];
      assert fences == target;
    }

    method Unroute(name: string)
      requires Valid() && name in fences
      modifies this
      ensures Valid() && fences == old(fences) - {name}
    {
      hide RemoveName, Exact;
      var def := fences[name].def;
      RemoveNameKeepsExact(byCollection, Home, fences, name);
      RemoveNameKeepsExact(byTarget, Target, fences, name);
      fences := fences - {name};
      byCollection := RemoveName(byCollection, Home, name, def);
      byTarget := RemoveName(byTarget, Target, name, def);
    }

    method Delete(name: string) returns (removed: bool)
      requires Valid()
      modifies this
      ensures Valid() && fences == old(fences) - {name} && removed == (name in old(fences))
      ensures !removed ==> fences == old(fences)
    {
      removed := name in fences;
      if removed {
        Unroute(name);
      }
    }

    method DeleteMatching(glob: (string, string) -> bool, pattern: string) returns (count: nat)
      requires Valid()
      modifies this
      ensures Valid()
      ensures fences == old(fences) - (set n | n in old(fences) && glob(pattern, n))
      ensures count == |set n | n in old(fences) && glob(pattern, n)|
    {
      hide Exact;
      var names := set n | n in fences && glob(pattern, n);
      count := |names|;
      var left := names;
      while left != {}
        invariant Valid() && left <= names
        invariant fences == old(fences) - (names - left)
        decreases |left|
      {
        var name :| name in left;
        left := left - {name};
        var _ := Delete(name);
      }
    }

    method Clear()
      modifies this
      ensures Valid() && fences == map[]
    {
      fences, byCollection, byTarget := map[], map[], map[];
    }

    /** `has_relevant_side_effects`, for this table. */
    method HasRelevant(collection: string) returns (has: bool)
      requires Valid()
      ensures has <==> exists n :: n in fences && Relevant(fences[n].def, collection)
    {
      has := collection in byCollection || collection in byTarget;
      if collection in byCollection {
        assert Lists(byCollection, collection, byCollection[collection][0]);
      } else if collection in byTarget {
        assert Lists(byTarget, collection, byTarget[collection][0]);
      } else {
        assert forall n :: !Lists(byCollection, collection, n) && !Lists(byTarget, collection, n);
      }
    }

    /** `relevant_channel_names`: both indexes, each name once. */
    method RelevantNames(collection: string) returns (names: seq<string>)
      requires Valid()
      ensures Distinct(names)
      ensures forall n :: n in names <==> n in fences && Relevant(fences[n].def, collection)
    {
      var home := if collection in byCollection then byCollection[collection] else [];
      var target := if collection in byTarget then byTarget[collection] else [];
      assert forall n :: n in home <==> Lists(byCollection, collection, n);
      assert forall n :: n in target <==> Lists(byTarget, collection, n);
      hide Lists;
      names := Collect(home, []);
      names := Collect(target, names);
    }

    /** `prepare_mutation`, for this table; `evaluations` are the outcomes it met. */
    method Prepare(env: FenceEnv, event: Mutation, lookup: string -> seq<Object>)
      returns (pass: Pass, names: seq<string>, ghost evaluations: Evaluations)
      requires Valid() && WellFormed(event)
      requires forall c :: DistinctIds(lookup(c))
      ensures Distinct(names)
      ensures forall n :: n in names <==> n in fences && Relevant(fences[n].def, event.collection)
      ensures forall n :: n in evaluations <==> n in names
      ensures EvaluationsOf(env, fences, event, lookup, evaluations)
      ensures pass == PassOver(names, evaluations)
    {
      names := RelevantNames(event.collection);
      hide *;
      evaluations := map[];
      pass := Pass([], [], 0);
      PreparedStart(env, fences, event, lookup);
      var i := 0;
      assert names[..i] == [];
      while i < |names|
        invariant i <= |names|
        invariant Prepared(env, fences, event, lookup, names[..i], evaluations, pass)
      {
        var name := names[i];
        assert name in names;
        NearOnlyAt(fences, name);
        var evaluation := EvaluateStored(env, fences[name], event, name, lookup);
        PreparedStep(env, fences, event, lookup, names, i, evaluations, pass, evaluation);
        evaluations := evaluations[name := evaluation];
        pass := Extended(pass, name, evaluation);
        i := i + 1;
      }
      assert names[..i] == names;
      PreparedMeans(env, fences, event, lookup, names, evaluations, pass);
    }

    /** `apply_prepared_mutation`, for this table. */
    method ApplyUpdates(updates: Updates)
      modifies this`fences
      ensures fences == ApplyAll(old(fences), updates)
    {
      hide ApplyOne;
      assert updates[..0] == [];
      for i := 0 to |updates|
        invariant fences == ApplyAll(old(fences), updates[..i])
      {
        assert updates[..i + 1][..i] == updates[..i];
        fences := ApplyOne(fences, updates[i].0, updates[i].1);
      }
      assert updates[..|updates|] == updates;
    }

    /** `evaluate_mutation`: every fence ends as its own evaluation says, and the
        table stays valid. */
    method Evaluate(env: FenceEnv, event: Mutation, lookup: string -> seq<Object>)
      returns (events: seq<FenceEvent>, names: seq<string>, ghost evaluations: Evaluations)
      requires Valid() && WellFormed(event)
      requires forall c :: DistinctIds(lookup(c))
      modifies this`fences
      ensures Valid() && fences == NextFences(old(fences), evaluations)
      ensures EvaluationsOf(env, old(fences), event, lookup, evaluations)
      ensures Distinct(names)
      ensures forall n :: n in names <==> n in old(fences) && Relevant(old(fences)[n].def, event.collection)
      ensures evaluations.Keys == set n | n in names
      ensures events == EventsOf(names, evaluations)
    {
      var pass;
      pass, names, evaluations := Prepare(env, event, lookup);
      hide UpdatesOf, EventsOf, ErrorsOf, Exact, NearOnly, Relevant;
      ApplyAllIsNextFences(fences, names, evaluations);
      assert Restricted(evaluations, names) == evaluations;
      NextFencesValid(env, fences, byCollection, byTarget, event, lookup, evaluations);
      ApplyUpdates(pass.updates);
      events := pass.events;
    }
  }

  ghost predicate NearOnly(fences: FenceMap) {
    forall n :: n in fences ==> OnlyTrue(fences[n].state.pairs)
  }

  lemma NearOnlyAt(fences: FenceMap, name: string)
    requires NearOnly(fences) && name in fences
    ensures OnlyTrue(fences[name].state.pairs)
  {
  }

  /** The names in `done` have been evaluated. */
  ghost predicate Prepared(
      env: FenceEnv, fences: FenceMap, event: Mutation, lookup: string -> seq<Object>,
      done: seq<string>, evaluations: Evaluations, pass: Pass)
  {
    (forall n :: n in evaluations <==> n in done) &&
    EvaluationsOf(env, fences, event, lookup, evaluations) &&
    pass == PassOver(done, evaluations)
  }

  lemma PreparedStart(env: FenceEnv, fences: FenceMap, event: Mutation, lookup: string -> seq<Object>)
    ensures Prepared(env, fences, event, lookup, [], map[], Pass([], [], 0))
  {
  }

  lemma PreparedMeans(
      env: FenceEnv, fences: FenceMap, event: Mutation, lookup: string -> seq<Object>,
      names: seq<string>, evaluations: Evaluations, pass: Pass)
    requires Prepared(env, fences, event, lookup, names, evaluations, pass)
    ensures forall n :: n in evaluations <==> n in names
    ensures EvaluationsOf(env, fences, event, lookup, evaluations) && pass == PassOver(names, evaluations)
  {
  }

  lemma PreparedStep(
      env: FenceEnv, fences: FenceMap, event: Mutation, lookup: string -> seq<Object>,
      names: seq<string>, i: nat, evaluations: Evaluations, pass: Pass, evaluation: Evaluation)
    requires Distinct(names) && i < |names| && names[i] in fences
    requires Prepared(env, fences, event, lookup, names[..i], evaluations, pass)
    requires Outcome(env, fences[names[i]], event, names[i], lookup, evaluation)
    ensures Prepared(env, fences, event, lookup, names[..i + 1], evaluations[names[i] := evaluation],
      Extended(pass, names[i], evaluation))
  {
    hide PassOver, Extended, EvaluationsOf, Outcome;
    NameIsNew(names, i);
    PassExtends(names[..i], evaluations, names[i], evaluation);
    EvaluationsGrow(env, fences, event, lookup, evaluations, names[i], evaluation);
    assert names[..i + 1] == names[..i] + [names[i]];
  }

  lemma EvaluationsGrow(
      env: FenceEnv, fences: FenceMap, event: Mutation, lookup: string -> seq<Object>,
      evaluations: Evaluations, name: string, evaluation: Evaluation)
    requires EvaluationsOf(env, fences, event, lookup, evaluations)
    requires name in fences && Outcome(env, fences[name], event, name, lookup, evaluation)
    ensures EvaluationsOf(env, fences, event, lookup, evaluations[name := evaluation])
  {
    hide Outcome;
  }

  lemma NameIsNew(names: seq<string>, i: nat)
    requires Distinct(names) && i < |names|
    ensures names[i] !in names[..i]
  {
  }

  /** Evaluation changes no definition, so the indexes stay exact. */
  lemma NextFencesValid(
      env: FenceEnv, fences: FenceMap, byCollection: NameIndex, byTarget: NameIndex, event: Mutation,
      lookup: string -> seq<Object>, evaluations: Evaluations)
    requires Exact(byCollection, Home, fences) && Exact(byTarget, Target, fences) && NearOnly(fences)
    requires EvaluationsOf(env, fences, event, lookup, evaluations)
    ensures Exact(byCollection, Home, NextFences(fences, evaluations))
    ensures Exact(byTarget, Target, NextFences(fences, evaluations))
    ensures NearOnly(NextFences(fences, evaluations))
  {
    var next := NextFences(fences, evaluations);
    forall n | n in next ensures next[n].def == fences[n].def && OnlyTrue(next[n].state.pairs) {
      if n in evaluations {
        ResultingIsTrue(env, fences[n], event, n, lookup, evaluations[n]);
      }
    }
    hide NextFences, Lists, OnlyTrue, Distinct, Watches;
  }

  lemma ResultingIsTrue(
      env: FenceEnv, stored: Stored, event: Mutation, name: string, lookup: string -> seq<Object>, evaluation: Evaluation)
    requires OnlyTrue(stored.state.pairs) && Outcome(env, stored, event, name, lookup, evaluation)
    ensures OnlyTrue(Resulting(evaluation, stored.state).pairs)
  {
    hide Detected, Subject, Allows, OnlyTrue, NextPairs, NextEvents;
  }

  /** `evaluate_stored_fence`. */
  method EvaluateStored(env: FenceEnv, stored: Stored, event: Mutation, name: string, lookup: string -> seq<Object>)
    returns (evaluation: Evaluation)
    requires WellFormed(event) && OnlyTrue(stored.state.pairs)
    requires forall c :: DistinctIds(lookup(c))
    ensures Outcome(env, stored, event, name, lookup, evaluation)
  {
    hide Evaluated, EvaluateStatic, OnlyTrue, DistinctIds, WellFormed;
    var hook := if stored.endpoint.Some? then Some(name) else None;
    if stored.def.query.Roam? {
      evaluation := EvaluateRoaming(env, Report(event, stored.def, Some(name), hook), stored.state, lookup);
    } else {
      evaluation := EvaluateStatic(env, stored.def, stored.state, event, Some(name), hook);
    }
  }

  /** `collect_indexed_names`. */
  method Collect(source: seq<string>, output: seq<string>) returns (r: seq<string>)
    requires Distinct(output)
    ensures Distinct(r)
    ensures forall n :: n in r <==> n in output || n in source
  {
    r := output;
    for i := 0 to |source|
      invariant Distinct(r)
      invariant forall n :: n in r <==> n in output || n in source[..i]
    {
      if source[i] !in r {
        r := r + [source[i]];
      }
    }
  }

  // Collections whose writes need the exclusive path.

  predicate RoamsAcross(def: GeofenceDef) {
    def.query.Roam? && def.query.targetCollection != def.collection
  }

  function CrossOf(fences: FenceMap): set<string> {
    (set n | n in fences && RoamsAcross(fences[n].def) :: fences[n].def.collection) +
    (set n | n in fences && RoamsAcross(fences[n].def) :: fences[n].def.query.targetCollection)
  }

  method AddCross(fences: FenceMap, collections: set<string>) returns (r: set<string>)
    ensures r == collections + CrossOf(fences)
  {
    r := collections;
    var todo := fences.Keys;
    while todo != {}
      invariant todo <= fences.Keys
      invariant r == collections + CrossOf(fences - todo)
      decreases |todo|
    {
      var n :| n in todo;
      CrossGrows(fences, todo, n);
      todo := todo - {n};
      if RoamsAcross(fences[n].def) {
        r := r + {fences[n].def.collection, fences[n].def.query.targetCollection};
      }
    }
    assert fences - {} == fences;
  }

  lemma CrossGrows(fences: FenceMap, todo: set<string>, n: string)
    requires todo <= fences.Keys && n in todo
    ensures CrossOf(fences - (todo - {n})) == CrossOf(fences - todo) +
      if RoamsAcross(fences[n].def)
      then {fences[n].def.collection, fences[n].def.query.targetCollection} else {}
  {
    var more, less := fences - (todo - {n}), fences - todo;
    assert forall m :: m in more <==> m in less || m == n;
    hide RoamsAcross;
  }

  class GeofenceRegistry {
    const channels: FenceTable
    const hooks: FenceTable
    var cross: set<string>

    /** The tables are valid and `cross` is exactly the collections of fences that
        roam from one collection into another. */
    ghost predicate Valid()
      reads this, channels, hooks
    {
      channels != hooks && channels.Valid() && hooks.Valid() &&
      cross == CrossOf(channels.fences) + CrossOf(hooks.fences)
    }

    constructor ()
      ensures Valid() && fresh(channels) && fresh(hooks) && channels.fences == hooks.fences == map[]
    {
      channels := new FenceTable();
      hooks := new FenceTable();
      cross := {};
    }

    method Refresh()
      requires channels != hooks && channels.Valid() && hooks.Valid()
      modifies this`cross
      ensures Valid()
    {
      cross := {};
      cross := AddCross(channels.fences, cross);
      cross := AddCross(hooks.fences, cross);
    }

    method SetChannel(name: string, def: GeofenceDef)
      requires Valid()
      modifies this`cross, channels
      ensures Valid() && channels.fences == old(channels.fences)[name := Stored(def, FRESH, None)]
    {
      channels.Set(name, def, None);
      Refresh();
    }

    method DelChannel(name: string) returns (removed: bool)
      requires Valid()
      modifies this`cross, channels
      ensures Valid() && channels.fences == old(channels.fences) - {name}
      ensures removed == (name in old(channels.fences))
    {
      removed := channels.Delete(name);
      if removed {
        Refresh();
      }
    }

    method PdelChannel(glob: (string, string) -> bool, pattern: string) returns (count: nat)
      requires Valid()
      modifies this`cross, channels
      ensures Valid()
      ensures channels.fences == old(channels.fences) - (set n | n in old(channels.fences) && glob(pattern, n))
      ensures count == |set n | n in old(channels.fences) && glob(pattern, n)|
    {
      count := channels.DeleteMatching(glob, pattern);
      Refresh();
    }

    method SetHook(name: string, endpoint: string, def: GeofenceDef)
      requires Valid()
      modifies this`cross, hooks
      ensures Valid() && hooks.fences == old(hooks.fences)[name := Stored(def, FRESH, Some(endpoint))]
    {
      hooks.Set(name, def, Some(endpoint));
      Refresh();
    }

    method DelHook(name: string) returns (removed: bool)
      requires Valid()
      modifies this`cross, hooks
      ensures Valid() && hooks.fences == old(hooks.fences) - {name}
      ensures removed == (name in old(hooks.fences))
    {
      removed := hooks.Delete(name);
      if removed {
        Refresh();
      }
    }

    method PdelHook(glob: (string, string) -> bool, pattern: string) returns (count: nat)
      requires Valid()
      modifies this`cross, hooks
      ensures Valid()
      ensures hooks.fences == old(hooks.fences) - (set n | n in old(hooks.fences) && glob(pattern, n))
      ensures count == |set n | n in old(hooks.fences) && glob(pattern, n)|
    {
      count := hooks.DeleteMatching(glob, pattern);
      Refresh();
    }

    method ClearAll()
      requires channels != hooks
      modifies this`cross, channels, hooks
      ensures Valid() && channels.fences == hooks.fences == map[]
    {
      channels.Clear();
      hooks.Clear();
      cross := {};
    }

    /** `evaluate_mutation`: channels, then hooks, each fence on its own. */
    method EvaluateMutation(env: FenceEnv, event: Mutation, lookup: string -> seq<Object>)
      returns (events: seq<FenceEvent>, ghost names: seq<string>, ghost hookNames: seq<string>,
               ghost evaluations: Evaluations, ghost hookEvaluations: Evaluations)
      requires Valid() && WellFormed(event)
      requires forall c :: DistinctIds(lookup(c))
      modifies channels`fences, hooks`fences
      ensures Valid()
      ensures channels.fences == NextFences(old(channels.fences), evaluations)
      ensures hooks.fences == NextFences(old(hooks.fences), hookEvaluations)
      ensures Routed(env, old(channels.fences), event, lookup, names, evaluations)
      ensures Routed(env, old(hooks.fences), event, lookup, hookNames, hookEvaluations)
      ensures events == EventsOf(names, evaluations) + EventsOf(hookNames, hookEvaluations)
    {
      ghost var before, hooksBefore := channels.fences, hooks.fences;
      hide Exact, NearOnly, EvaluationsOf, Relevant, Distinct, EventsOf, NextFences, CrossOf;
      var channelEvents, channelNames, hookEvents, hookList;
      channelEvents, channelNames, evaluations := channels.Evaluate(env, event, lookup);
      hookEvents, hookList, hookEvaluations := hooks.Evaluate(env, event, lookup);
      names, hookNames := channelNames, hookList;
      events := channelEvents + hookEvents;
      CrossKept(before, evaluations);
      CrossKept(hooksBefore, hookEvaluations);
    }

    /** The write path test: some fence roams between this collection and another. */
    predicate RequiresExclusive(collection: string)
      requires Valid()
      reads this, channels, hooks
      ensures RequiresExclusive(collection) <==>
        (exists n :: n in channels.fences && Joins(channels.fences[n].def, collection)) ||
        (exists n :: n in hooks.fences && Joins(hooks.fences[n].def, collection))
    {
      CrossIsJoined(channels.fences, collection);
      CrossIsJoined(hooks.fences, collection);
      collection in cross
    }

    /** The volatile shortcut may skip the fences: none would change or say anything. */
    method HasSideEffects(collection: string) returns (has: bool)
      requires Valid()
      ensures has <==>
        (exists n :: n in channels.fences && Relevant(channels.fences[n].def, collection)) ||
        (exists n :: n in hooks.fences && Relevant(hooks.fences[n].def, collection))
    {
      var a := channels.HasRelevant(collection);
      var b := hooks.HasRelevant(collection);
      has := a || b;
    }
  }

  /** The evaluations are those of exactly the fences that watch the event's collection. */
  ghost predicate Routed(
      env: FenceEnv, fences: FenceMap, event: Mutation, lookup: string -> seq<Object>,
      names: seq<string>, evaluations: Evaluations)
  {
    Distinct(names) && (forall n :: n in names <==> n in fences && Relevant(fences[n].def, event.collection)) &&
    evaluations.Keys == (set n | n in names) && EvaluationsOf(env, fences, event, lookup, evaluations)
  }

  lemma CrossKept(fences: FenceMap, evaluations: Evaluations)
    ensures CrossOf(NextFences(fences, evaluations)) == CrossOf(fences)
  {
    var next := NextFences(fences, evaluations);
    assert forall n :: n in fences ==> next[n].def == fences[n].def;
    hide NextFences, RoamsAcross;
  }

  predicate Joins(def: GeofenceDef, collection: string) {
    def.query.Roam? && def.query.targetCollection != def.collection &&
    (def.collection == collection || def.query.targetCollection == collection)
  }

  lemma CrossIsJoined(fences: FenceMap, collection: string)
    ensures collection in CrossOf(fences) <==> exists n :: n in fences && Joins(fences[n].def, collection)
  {
    assert forall n :: n in fences && RoamsAcross(fences[n].def) ==>
      fences[n].def.collection in CrossOf(fences) && fences[n].def.query.targetCollection in CrossOf(fences);
  }

  /** Where no fence is relevant, evaluating all of them changes nothing and emits
      nothing: skipping them is the full path. */
  lemma {:induction false} ShortcutIsFullPath(
      env: FenceEnv, fences: FenceMap, event: Mutation, lookup: string -> seq<Object>,
      everyone: seq<string>, all: Evaluations)
    requires NearOnly(fences) && forall n :: n in fences ==> !Relevant(fences[n].def, event.collection)
    requires Distinct(everyone) && forall n :: n in everyone <==> n in fences
    requires EvaluationsOf(env, fences, event, lookup, all) && all.Keys == fences.Keys
    ensures NextFences(fences, all) == fences && EventsOf(everyone, all) == []
  {
    RoutingIsExact(env, fences, event, lookup, [], map[], everyone, all);
    assert NextFences(fences, map[]) == fences;
    assert |EventsOf(everyone, all)| == |multiset(EventsOf(everyone, all))|;
  }

  /** A fence that cannot be evaluated keeps its state and is otherwise as good as
      absent: the registry without it gives the same events and leaves every other
      fence in the same state. */
  lemma {:induction false} BrokenFenceIsAbsent(
      env: FenceEnv, fences: FenceMap, event: Mutation, lookup: string -> seq<Object>,
      names: seq<string>, evaluations: Evaluations, bad: string)
    requires Routed(env, fences, event, lookup, names, evaluations) && bad in names && evaluations[bad].Error?
    ensures NextFences(fences, evaluations)[bad] == fences[bad]
    ensures Routed(env, fences - {bad}, event, lookup, Without(names, bad), evaluations - {bad})
    ensures NextFences(fences - {bad}, evaluations - {bad}) == NextFences(fences, evaluations) - {bad}
    ensures multiset(EventsOf(Without(names, bad), evaluations - {bad})) == multiset(EventsOf(names, evaluations))
  {
    hide Outcome, Relevant, EventsOf;
    assert fences[bad].(state := fences[bad].state) == fences[bad];
    EventsWithout(names, bad, evaluations);
    SameEventsOf(Without(names, bad), evaluations - {bad}, evaluations);
    hide Without;
  }
}
