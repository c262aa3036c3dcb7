/** Roaming geofences: the table of near pairs and its events
    (crates/latlng-geofence/src/lib.rs). */
module Roaming {
  import opened Types
  import opened Fences

  /** `roam_distance_meters`. */
  function RoamDistance(env: FenceEnv, source: Object, target: Object, meters: real): Option<real> {
    if !source.geo.Point? || !target.geo.Point? then None
    else
      var d := env.distance(source.geo.lat, source.geo.lon, target.geo.lat, target.geo.lon);
      if d <= meters then Some(d) else None
  }

  /** The object passes the fence's own filters and the target is in reach. */
  predicate Near(env: FenceEnv, q: GeofenceQuery, source: Object, target: Object)
    requires q.Roam?
  {
    Filtered(env, source, q.options) == Some(true) && InReach(env, q, source, target)
  }

  predicate InReach(env: FenceEnv, q: GeofenceQuery, source: Object, target: Object)
    requires q.Roam?
  {
    env.search.glob(q.targetPattern, target.id) && target.id != source.id &&
    RoamDistance(env, source, target, q.meters).Some?
  }

  /** Who is told about an event, and what the event carries. */
  datatype Report = Report(event: Mutation, def: GeofenceDef, group: Option<string>, hook: Option<string>)

  /** `roam_event`. */
  function RoamEvent(env: FenceEnv, r: Report, source: Object, target: Object): FenceEvent
    requires r.def.query.Roam?
  {
    var distance := RoamDistance(env, source, target, r.def.query.meters);
    FenceEvent(r.event.command, DetectType.Roaming, r.def.collection, source.id, source.geo, source.fields,
      r.event.timestamp, r.hook, r.group,
      Some(RoamingInfo(r.def.query.targetCollection, target.id, if distance.Some? then distance.value else 0.0)))
  }

  predicate Emits(r: Report) {
    Allows(r.def, DetectType.Roaming, r.event.command)
  }

  /** With NODWELL a pair that was near stays silent. */
  predicate Announced(r: Report, pairs: set<Pair>, p: Pair)
    requires r.def.query.Roam?
  {
    Emits(r) && (r.def.query.nodwell ==> p !in pairs)
  }

  predicate DistinctIds(objects: seq<Object>) {
    forall i, j :: 0 <= i < j < |objects| ==> objects[i].id != objects[j].id
  }

  lemma SameIdSameObject(objects: seq<Object>, a: Object, b: Object)
    requires DistinctIds(objects) && a in objects && b in objects && a.id == b.id
    ensures a == b
  {
  }

  ghost predicate OnlyTrue(pairs: map<Pair, bool>) {
    forall p :: p in pairs ==> pairs[p]
  }

  lemma OneMore<T>(s: set<T>, e: T)
    requires e !in s
    ensures multiset(s + {e}) == multiset(s) + multiset{e}
  {
  }

  // The side of the moving object.

  function SourceMatches(env: FenceEnv, q: GeofenceQuery, source: Object, targets: seq<Object>): set<Pair>
    requires q.Roam?
  {
    set t | t in targets && Near(env, q, source, t) :: (source.id, t.id)
  }

  function SourceEvents(
      env: FenceEnv, r: Report, pairs: set<Pair>, source: Object, targets: seq<Object>, ids: set<string>): set<FenceEvent>
    requires r.def.query.Roam?
  {
    set t | t in targets && t.id in ids && Near(env, r.def.query, source, t) && Announced(r, pairs, (source.id, t.id))
      :: RoamEvent(env, r, source, t)
  }

  function IdsOf(objects: seq<Object>): set<string> {
    set o | o in objects :: o.id
  }

  function OtherSources(pairs: set<Pair>, id: string): set<Pair> {
    set p | p in pairs && p.0 != id
  }

  /** The first loop: targets in reach, by id. */
  method FindMatches(env: FenceEnv, q: GeofenceQuery, source: Object, targets: seq<Object>)
    returns (current: map<string, Object>)
    requires q.Roam? && DistinctIds(targets)
    ensures forall t :: t in current ==>
      current[t] in targets && current[t].id == t && InReach(env, q, source, current[t])
    ensures forall t :: t in targets && InReach(env, q, source, t) ==> t.id in current
  {
    hide InReach;
    current := map[];
    for i := 0 to |targets|
      invariant forall t :: t in current ==>
        current[t] in targets && current[t].id == t && InReach(env, q, source, current[t])
      invariant forall j :: 0 <= j < i && InReach(env, q, source, targets[j]) ==> targets[j].id in current
    {
      if InReach(env, q, source, targets[i]) {
        current := current[targets[i].id := targets[i]];
      }
    }
  }

  /** The second loop: forget pairs of the source that are no longer near. */
  method ForgetPairs(pairs: map<Pair, bool>, source: string, keep: set<string>) returns (left: map<Pair, bool>)
    ensures forall p :: p in left <==> p in pairs && (p.0 == source ==> p.1 in keep)
    ensures forall p :: p in left ==> left[p] == pairs[p]
  {
    left := pairs;
    var previous := set p | p in pairs && p.0 == source :: p.1;
    ghost var all := previous;
    while previous != {}
      invariant previous <= all
      invariant forall p :: p in left <==> p in pairs && (p.0 == source && p.1 !in previous ==> p.1 in keep)
      invariant forall p :: p in left ==> left[p] == pairs[p]
      decreases |previous|
    {
      var target :| target in previous;
      previous := previous - {target};
      if target !in keep {
        left := left - {(source, target)};
      }
    }
    assert forall p :: p in pairs && p.0 == source ==> p.1 in all;
  }

  /** `reconcile_source_pairs`; `None` when the filters cannot be evaluated. */
  method ReconcileSourcePairs(env: FenceEnv, r: Report, pairs: map<Pair, bool>, source: Object, targets: seq<Object>)
    returns (next: Option<(map<Pair, bool>, seq<FenceEvent>)>)
    requires r.def.query.Roam? && DistinctIds(targets) && OnlyTrue(pairs)
    ensures next.None? <==> Filtered(env, source, r.def.query.options).None?
    ensures next.Some? ==> OnlyTrue(next.value.0)
    ensures next.Some? ==>
      next.value.0.Keys == OtherSources(pairs.Keys, source.id) + SourceMatches(env, r.def.query, source, targets)
    ensures next.Some? ==>
      multiset(next.value.1) == multiset(SourceEvents(env, r, pairs.Keys, source, targets, IdsOf(targets)))
  {
    hide InReach, Filtered, RoamEvent, Announced;
    var q := r.def.query;
    var allowed := Filtered(env, source, q.options);
    if allowed.None? {
      return None;
    }
    var current := map[];
    if allowed.value {
      current := FindMatches(env, q, source, targets);
    }
    assert IsCurrent(env, q, source, targets, current);
    var left := ForgetPairs(pairs, source.id, current.Keys);
    var after, events := MarkNear(env, r, left, pairs.Keys, source, targets, current);
    NothingDone(env, r, pairs.Keys, source, targets, current);
    assert SourceMatches(env, q, source, targets) == PairsTo(source.id, current.Keys);
    next := Some((after, events));
  }

  /** `current` holds exactly the near targets. */
  ghost predicate IsCurrent(
      env: FenceEnv, q: GeofenceQuery, source: Object, targets: seq<Object>, current: map<string, Object>)
    requires q.Roam?
  {
    (forall t :: t in current ==> current[t] in targets && current[t].id == t && Near(env, q, source, current[t])) &&
    (forall t :: t in targets && Near(env, q, source, t) ==> t.id in current)
  }

  function PairsTo(source: string, targets: set<string>): set<Pair> {
    set t | t in targets :: (source, t)
  }

  lemma OneMorePair(source: string, done: set<string>, t: string)
    ensures PairsTo(source, done + {t}) == PairsTo(source, done) + {(source, t)}
    ensures (source, t) in PairsTo(source, done) <==> t in done
  {
  }

  /** The targets in `done` have been recorded and announced. */
  ghost predicate Marked(
      env: FenceEnv, r: Report, pairs: set<Pair>, before: set<Pair>, source: Object, targets: seq<Object>,
      done: set<string>, after: map<Pair, bool>, events: seq<FenceEvent>)
    requires r.def.query.Roam?
  {
    OnlyTrue(after) && after.Keys == pairs + PairsTo(source.id, done) &&
    multiset(events) == multiset(SourceEvents(env, r, before, source, targets, done))
  }

  /** The third loop: record what is near and announce it. */
  method MarkNear(
      env: FenceEnv, r: Report, pairs: map<Pair, bool>, ghost before: set<Pair>, source: Object,
      ghost targets: seq<Object>, current: map<string, Object>)
    returns (after: map<Pair, bool>, events: seq<FenceEvent>)
    requires r.def.query.Roam? && DistinctIds(targets) && OnlyTrue(pairs)
    requires IsCurrent(env, r.def.query, source, targets, current)
    requires forall t :: t in current ==> ((source.id, t) in pairs <==> (source.id, t) in before)
    ensures Marked(env, r, pairs.Keys, before, source, targets, current.Keys, after, events)
  {
    after, events := pairs, [];
    var todo := current.Keys;
    hide *;
    MarkedStart(env, r, pairs, before, source, targets, current);
    ghost var done: set<string> := {};
    while todo != {}
      invariant todo <= current.Keys && done == current.Keys - todo
      invariant Marked(env, r, pairs.Keys, before, source, targets, done, after, events)
      decreases |todo|
    {
      var t :| t in todo;
      var key := (source.id, t);
      MarkedStep(env, r, pairs.Keys, before, source, targets, current, done, after, events, t);
      var wasNear := key in after && after[key];
      after := after[key := true];
      if Emits(r) && !(wasNear && r.def.query.nodwell) {
        events := events + [RoamEvent(env, r, source, current[t])];
      }
      todo, done := todo - {t}, done + {t};
      assert done == current.Keys - todo;
    }
    assert done == current.Keys;
  }

  lemma MarkedStart(
      env: FenceEnv, r: Report, pairs: map<Pair, bool>, before: set<Pair>, source: Object, targets: seq<Object>,
      current: map<string, Object>)
    requires r.def.query.Roam? && OnlyTrue(pairs) && IsCurrent(env, r.def.query, source, targets, current)
    ensures Marked(env, r, pairs.Keys, before, source, targets, {}, pairs, [])
  {
    NothingDone(env, r, before, source, targets, current);
  }

  lemma MarkedStep(
      env: FenceEnv, r: Report, pairs: set<Pair>, before: set<Pair>, source: Object, targets: seq<Object>,
      current: map<string, Object>, done: set<string>, after: map<Pair, bool>, events: seq<FenceEvent>, t: string)
    requires r.def.query.Roam? && DistinctIds(targets) && IsCurrent(env, r.def.query, source, targets, current)
    requires t in current && t !in done && ((source.id, t) in pairs <==> (source.id, t) in before)
    requires Marked(env, r, pairs, before, source, targets, done, after, events)
    ensures
      var key := (source.id, t);
      var silent := !Emits(r) || (key in after && after[key] && r.def.query.nodwell);
      Marked(env, r, pairs, before, source, targets, done + {t}, after[key := true],
        if silent then events else events + [RoamEvent(env, r, source, current[t])])
  {
    OneMorePair(source.id, done, t);
    OneMoreTarget(env, r, before, source, targets, current, done, t);
    hide SourceEvents, PairsTo, RoamEvent, IsCurrent, DistinctIds;
    var key := (source.id, t);
    assert key in after && after[key] <==> key in before;
    assert after[key := true].Keys == pairs + PairsTo(source.id, done + {t});
  }

  lemma NothingDone(
      env: FenceEnv, r: Report, before: set<Pair>, source: Object, targets: seq<Object>, current: map<string, Object>)
    requires r.def.query.Roam? && IsCurrent(env, r.def.query, source, targets, current)
    ensures SourceEvents(env, r, before, source, targets, {}) == {} && PairsTo(source.id, {}) == {}
    ensures SourceEvents(env, r, before, source, targets, current.Keys)
         == SourceEvents(env, r, before, source, targets, IdsOf(targets))
  {
    hide Near, Announced, RoamEvent;
  }

  lemma OneMoreTarget(
      env: FenceEnv, r: Report, before: set<Pair>, source: Object, targets: seq<Object>,
      current: map<string, Object>, done: set<string>, t: string)
    requires r.def.query.Roam? && DistinctIds(targets) && IsCurrent(env, r.def.query, source, targets, current)
    requires t in current && t !in done
    ensures
      var was := SourceEvents(env, r, before, source, targets, done);
      var now := SourceEvents(env, r, before, source, targets, done + {t});
      multiset(now) == multiset(was) +
        if Announced(r, before, (source.id, t)) then multiset{RoamEvent(env, r, source, current[t])} else multiset{}
  {
    hide Near, Announced;
    var was := SourceEvents(env, r, before, source, targets, done);
    var now := SourceEvents(env, r, before, source, targets, done + {t});
    var e := RoamEvent(env, r, source, current[t]);
    assert forall x :: x in was ==> x.nearby.value.id in done;
    assert e !in was;
    forall o | o in targets && o.id == t ensures o == current[t] {
      SameIdSameObject(targets, o, current[t]);
    }
    if Announced(r, before, (source.id, t)) {
      assert now == was + {e};
      OneMore(was, e);
    } else {
      assert now == was;
    }
  }

  /** `clear_source_pairs`. */
  method ClearSourcePairs(pairs: map<Pair, bool>, source: string) returns (left: map<Pair, bool>)
    requires OnlyTrue(pairs)
    ensures OnlyTrue(left) && left.Keys == OtherSources(pairs.Keys, source)
  {
    left := ForgetPairs(pairs, source, {});
  }

  // The side of the tracked object.

  /** The changed target, if it is still there and the fence tracks it. */
  function Tracked(env: FenceEnv, r: Report): Option<Object>
    requires r.def.query.Roam?
  {
    if r.event.after.Some? && env.search.glob(r.def.query.targetPattern, r.event.after.value.id)
    then r.event.after else None
  }

  function UntouchedPairs(pairs: set<Pair>, sources: seq<Object>, target: string): set<Pair> {
    set p | p in pairs && !(p.1 == target && p.0 in IdsOf(sources))
  }

  function TargetMatches(env: FenceEnv, r: Report, sources: seq<Object>): set<Pair>
    requires r.def.query.Roam?
  {
    set s | s in sources && NearTracked(env, r, s) :: (s.id, r.event.id)
  }

  predicate NearTracked(env: FenceEnv, r: Report, source: Object)
    requires r.def.query.Roam?
  {
    r.event.after.Some? && Near(env, r.def.query, source, r.event.after.value)
  }

  function TargetEvents(env: FenceEnv, r: Report, pairs: set<Pair>, sources: seq<Object>): set<FenceEvent>
    requires r.def.query.Roam?
  {
    set s | s in sources && NearTracked(env, r, s) && Announced(r, pairs, (s.id, r.event.id))
      :: RoamEvent(env, r, s, r.event.after.value)
  }

  /** The sources in `done` have been reconciled with the changed target. */
  ghost predicate Reconciled(
      env: FenceEnv, r: Report, before: set<Pair>, done: seq<Object>, pairs: map<Pair, bool>, events: seq<FenceEvent>)
    requires r.def.query.Roam?
  {
    OnlyTrue(pairs) &&
    pairs.Keys == UntouchedPairs(before, done, r.event.id) + TargetMatches(env, r, done) &&
    multiset(events) == multiset(TargetEvents(env, r, before, done))
  }

  /** Engine events are about one object, which exists on at least one side. */
  predicate WellFormed(event: Mutation) {
    (event.before.Some? || event.after.Some?) &&
    (event.before.Some? ==> event.before.value.id == event.id) &&
    (event.after.Some? ==> event.after.value.id == event.id)
  }

  /** The pair is in the table exactly if it is near now, and announced if due. */
  ghost predicate PairReconciled(
      env: FenceEnv, r: Report, pairs: set<Pair>, events: seq<FenceEvent>, source: Object,
      after: set<Pair>, more: seq<FenceEvent>)
    requires r.def.query.Roam?
  {
    var key := (source.id, r.event.id);
    if NearTracked(env, r, source)
    then
      after == pairs + {key} &&
      more == events + if Announced(r, pairs, key) then [RoamEvent(env, r, source, r.event.after.value)] else []
    else
      after == pairs - {key} && more == events
  }

  /** `reconcile_target_pair` for one source. */
  method ReconcileTargetPair(
      env: FenceEnv, r: Report, pairs: map<Pair, bool>, events: seq<FenceEvent>, source: Object, target: Option<Object>)
    returns (next: Option<(map<Pair, bool>, seq<FenceEvent>)>)
    requires r.def.query.Roam? && WellFormed(r.event) && target == Tracked(env, r) && OnlyTrue(pairs)
    ensures next.None? <==> Filtered(env, source, r.def.query.options).None?
    ensures next.Some? ==> OnlyTrue(next.value.0)
    ensures next.Some? ==>
      PairReconciled(env, r, pairs.Keys, events, source, next.value.0.Keys, next.value.1)
  {
    hide Filtered, RoamEvent, Allows;
    var key := (source.id, r.event.id);
    var allowed := Filtered(env, source, r.def.query.options);
    if allowed.None? {
      return None;
    }
    if !allowed.value || target.None? || target.value.id == source.id
       || RoamDistance(env, source, target.value, r.def.query.meters).None?
    {
      return Some((pairs - {key}, events));
    }
    hide RoamDistance;
    var wasNear := key in pairs && pairs[key];
    if Emits(r) && (!wasNear || !r.def.query.nodwell) {
      return Some((pairs[key := true], events + [RoamEvent(env, r, source, target.value)]));
    }
    next := Some((pairs[key := true], events));
  }

  lemma ReconciledStep(
      env: FenceEnv, r: Report, before: set<Pair>, sources: seq<Object>, i: nat,
      pairs: map<Pair, bool>, events: seq<FenceEvent>, after: map<Pair, bool>, more: seq<FenceEvent>)
    requires r.def.query.Roam? && DistinctIds(sources) && i < |sources|
    requires Reconciled(env, r, before, sources[..i], pairs, events) && OnlyTrue(after)
    requires PairReconciled(env, r, pairs.Keys, events, sources[i], after.Keys, more)
    ensures Reconciled(env, r, before, sources[..i + 1], after, more)
  {
    hide DistinctIds, NearTracked, TargetEvents, TargetMatches, UntouchedPairs, RoamEvent, IdsOf, OnlyTrue;
    var source, done := sources[i], sources[..i];
    assert sources[..i + 1] == done + [source];
    IdIsNew(sources, i);
    TargetKeys(env, r, before, done, source);
    TargetEventsStep(env, r, before, done, source);
    var key := (source.id, r.event.id);
    assert Announced(r, pairs.Keys, key) == Announced(r, before, key);
    assert after.Keys
        == UntouchedPairs(before, done + [source], r.event.id) + TargetMatches(env, r, done + [source]);
  }

  lemma IdIsNew(sources: seq<Object>, i: nat)
    requires DistinctIds(sources) && i < |sources|
    ensures sources[i].id !in IdsOf(sources[..i])
  {
  }

  lemma ReconciledStart(env: FenceEnv, r: Report, pairs: map<Pair, bool>)
    requires r.def.query.Roam? && OnlyTrue(pairs)
    ensures Reconciled(env, r, pairs.Keys, [], pairs, [])
  {
  }

  lemma TargetKeys(env: FenceEnv, r: Report, before: set<Pair>, done: seq<Object>, source: Object)
    requires r.def.query.Roam? && source.id !in IdsOf(done)
    ensures
      var key := (source.id, r.event.id);
      key !in TargetMatches(env, r, done) && (key in before <==> key in UntouchedPairs(before, done, r.event.id)) &&
      UntouchedPairs(before, done + [source], r.event.id) == UntouchedPairs(before, done, r.event.id) - {key} &&
      TargetMatches(env, r, done + [source]) ==
        TargetMatches(env, r, done) + if NearTracked(env, r, source) then {key} else {}
  {
    hide NearTracked;
    var next := done + [source];
    assert forall s :: s in next <==> s in done || s == source;
  }

  lemma TargetEventsStep(env: FenceEnv, r: Report, before: set<Pair>, done: seq<Object>, source: Object)
    requires r.def.query.Roam? && source.id !in IdsOf(done)
    ensures
      var key := (source.id, r.event.id);
      multiset(TargetEvents(env, r, before, done + [source])) == multiset(TargetEvents(env, r, before, done)) +
        if NearTracked(env, r, source) && Announced(r, before, key)
        then multiset{RoamEvent(env, r, source, r.event.after.value)} else multiset{}
  {
    hide Announced, Near;
    var was, now := TargetEvents(env, r, before, done), TargetEvents(env, r, before, done + [source]);
    assert forall s :: s in done + [source] <==> s in done || s == source;
    assert forall e :: e in was ==> e.id in IdsOf(done);
    if NearTracked(env, r, source) && Announced(r, before, (source.id, r.event.id)) {
      var e := RoamEvent(env, r, source, r.event.after.value);
      assert now == was + {e};
      OneMore(was, e);
    } else {
      assert now == was;
    }
  }

  predicate Filterable(env: FenceEnv, q: GeofenceQuery, sources: seq<Object>)
    requires q.Roam?
  {
    forall j :: 0 <= j < |sources| ==> Filtered(env, sources[j], q.options).Some?
  }

  lemma FilterableStep(env: FenceEnv, q: GeofenceQuery, sources: seq<Object>, i: nat)
    requires q.Roam? && i < |sources| && Filterable(env, q, sources[..i])
    ensures Filtered(env, sources[i], q.options).Some? ==> Filterable(env, q, sources[..i + 1])
    ensures Filtered(env, sources[i], q.options).None? ==> !Filterable(env, q, sources)
  {
    hide Filtered;
  }

  /** The loop over all sources for a changed target. */
  method ReconcileTarget(env: FenceEnv, r: Report, pairs: map<Pair, bool>, sources: seq<Object>)
    returns (next: Option<(map<Pair, bool>, seq<FenceEvent>)>)
    requires r.def.query.Roam? && WellFormed(r.event) && DistinctIds(sources) && OnlyTrue(pairs)
    ensures next.Some? <==> Filterable(env, r.def.query, sources)
    ensures next.Some? ==> Reconciled(env, r, pairs.Keys, sources, next.value.0, next.value.1)
  {
    var target := Tracked(env, r);
    var left, events := pairs, [];
    ReconciledStart(env, r, pairs);
    assert Filterable(env, r.def.query, []);
    hide *;
    var i := 0;
    assert sources[..i] == [];
    while i < |sources|
      invariant i <= |sources|
      invariant OnlyTrue(left) && Reconciled(env, r, pairs.Keys, sources[..i], left, events)
      invariant Filterable(env, r.def.query, sources[..i])
    {
      FilterableStep(env, r.def.query, sources, i);
      var one := ReconcileTargetPair(env, r, left, events, sources[i], target);
      if one.None? {
        return None;
      }
      ReconciledStep(env, r, pairs.Keys, sources, i, left, events, one.value.0, one.value.1);
      left, events := one.value.0, one.value.1;
      i := i + 1;
    }
    assert sources[..i] == sources;
    next := Some((left, events));
  }

  // `evaluate_roaming_fence`.

  predicate Concerns(r: Report)
    requires r.def.query.Roam?
  {
    r.event.collection == r.def.collection || r.event.collection == r.def.query.targetCollection
  }

  /** The objects whose filters the fence evaluates. */
  function Consulted(r: Report, lookup: string -> seq<Object>): seq<Object>
    requires r.def.query.Roam?
  {
    if !Concerns(r) then []
    else if r.event.collection == r.def.collection then
      if r.event.after.Some? then [r.event.after.value] else []
    else lookup(r.def.collection)
  }

  function NextPairs(env: FenceEnv, r: Report, pairs: set<Pair>, lookup: string -> seq<Object>): set<Pair>
    requires r.def.query.Roam?
  {
    if !Concerns(r) then pairs
    else if r.event.collection == r.def.collection then
      OtherSources(pairs, r.event.id) +
      if r.event.after.None? then {}
      else SourceMatches(env, r.def.query, r.event.after.value, lookup(r.def.query.targetCollection))
    else
      var sources := lookup(r.def.collection);
      UntouchedPairs(pairs, sources, r.event.id) + TargetMatches(env, r, sources)
  }

  function NextEvents(env: FenceEnv, r: Report, pairs: set<Pair>, lookup: string -> seq<Object>): set<FenceEvent>
    requires r.def.query.Roam?
  {
    if !Concerns(r) then {}
    else if r.event.collection == r.def.collection then
      if r.event.after.None? then {}
      else
        var targets := lookup(r.def.query.targetCollection);
        SourceEvents(env, r, pairs, r.event.after.value, targets, IdsOf(targets))
    else TargetEvents(env, r, pairs, lookup(r.def.collection))
  }

  /** What an evaluation of the fence may return; the order of its events is open. */
  ghost predicate Evaluated(
      env: FenceEnv, r: Report, state: FenceState, lookup: string -> seq<Object>, evaluation: Evaluation)
    requires r.def.query.Roam?
  {
    (evaluation.Done? <==> Filterable(env, r.def.query, Consulted(r, lookup))) &&
    (evaluation.Done? ==>
       evaluation.update.Replace? && evaluation.update.state.objects == state.objects &&
       OnlyTrue(evaluation.update.state.pairs) &&
       evaluation.update.state.pairs.Keys == NextPairs(env, r, state.pairs.Keys, lookup) &&
       multiset(evaluation.events) == multiset(NextEvents(env, r, state.pairs.Keys, lookup)))
  }

  method EvaluateRoaming(env: FenceEnv, r: Report, state: FenceState, lookup: string -> seq<Object>)
    returns (evaluation: Evaluation)
    requires r.def.query.Roam? && WellFormed(r.event) && OnlyTrue(state.pairs)
    requires DistinctIds(lookup(r.def.collection)) && DistinctIds(lookup(r.def.query.targetCollection))
    ensures Evaluated(env, r, state, lookup, evaluation)
  {
    hide SourceMatches, SourceEvents, TargetMatches, TargetEvents, UntouchedPairs, OtherSources, Filtered;
    if !Concerns(r) {
      return Done(Replace(state), []);
    }
    var pairs, events := state.pairs, [];
    if r.event.collection == r.def.collection {
      if r.event.after.None? {
        pairs := ClearSourcePairs(pairs, r.event.id);
      } else {
        var source, targets := r.event.after.value, lookup(r.def.query.targetCollection);
        var next := ReconcileSourcePairs(env, r, pairs, source, targets);
        if next.None? {
          assert Consulted(r, lookup)[0] == source;
          return Error;
        }
        pairs, events := next.value.0, next.value.1;
      }
    } else {
      var next := ReconcileTarget(env, r, pairs, lookup(r.def.collection));
      if next.None? {
        return Error;
      }
      pairs, events := next.value.0, next.value.1;
    }
    evaluation := Done(Replace(state.(pairs := pairs)), events);
  }
}
