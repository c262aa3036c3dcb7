/** What a fence watches and reports, in terms of its area, its filters and the objects
    (crates/latlng-geofence/src/lib.rs). */
module FenceMeaning {
  import opened Types
  import opened Filters
  import opened Fences
  import opened Roaming

  /** The distance from a place to an object, measured to its envelope's centre. */
  function DistanceTo(env: FenceEnv, lat: real, lon: real, geo: Geo): Option<real> {
    if geo.Point? then Some(env.distance(lat, lon, geo.lat, geo.lon))
    else if env.center(geo).Some? then Some(env.distance(lat, lon, env.center(geo).value.0, env.center(geo).value.1))
    else None
  }

  /** Whether the geometry is where the fence looks; `None` if that cannot be said. */
  function Located(env: FenceEnv, query: GeofenceQuery, geo: Geo): Option<bool>
    requires !query.Roam?
  {
    match query
    case Nearby(lat, lon, meters, _) =>
      var d := DistanceTo(env, lat, lon, geo);
      Some(d.Some? && d.value <= meters)
    case Within(area, _) => env.contains(area, geo)
    case Intersects(area, _) => env.intersects(area, geo)
  }

  /** The object is in the area and passes every filter. */
  ghost predicate InFence(env: FenceEnv, query: GeofenceQuery, after: Option<Object>)
    requires !query.Roam?
  {
    after.Some? && Located(env, query, after.value.geo) == Some(true) && AllMatch(env.search, after.value, query.options)
  }

  /** The area whose boundary counts. */
  function Bounded(query: GeofenceQuery): Area
    requires !query.Roam?
  {
    match query
    case Nearby(lat, lon, meters, _) => Circle(lat, lon, meters)
    case Within(area, _) => area
    case Intersects(area, _) => area
  }

  /** The straight move between two points meets the area; `None` if that cannot be said. */
  function Passes(env: FenceEnv, query: GeofenceQuery, event: Mutation): Option<bool>
    requires !query.Roam?
  {
    if event.before.Some? && event.after.Some? && event.before.value.geo.Point? && event.after.value.geo.Point?
    then env.lineMeets(Bounded(query), event.before.value.geo, event.after.value.geo)
    else Some(false)
  }

  /** The evaluation fails: the geometry cannot be placed, or a move outside cannot be
      compared with the area. */
  ghost predicate Fails(env: FenceEnv, query: GeofenceQuery, was: bool, event: Mutation)
    requires !query.Roam?
  {
    (event.after.Some? && Located(env, query, event.after.value.geo).None?) ||
    (!was && !InFence(env, query, event.after) && Passes(env, query, event).None?)
  }

  function Verdict(was: bool, now: bool, passes: bool): DetectType {
    if now then (if was then Inside else Enter)
    else if was then Exit
    else if passes then Cross
    else Outside
  }

  /** What is reported of the object: as it is after the change, or as it was. */
  function Reported(event: Mutation): (Geo, FieldMap) {
    match (event.after, event.before)
    case (Some(o), _) => (o.geo, o.fields)
    case (None, Some(o)) => (o.geo, o.fields)
    case (None, None) => (Str(event.id), map[])
  }

  predicate Wanted(def: GeofenceDef, detect: DetectType, command: MutationCommand) {
    (|def.detect| > 0 ==> detect in def.detect) && (|def.commands| > 0 ==> command in def.commands)
  }

  lemma MembershipMeans(env: FenceEnv, query: GeofenceQuery, event: Mutation)
    requires !query.Roam? && Valid(env.search, query.options)
    ensures Membership(env, query, event).None? <==>
      event.after.Some? && Located(env, query, event.after.value.geo).None?
    ensures Membership(env, query, event).Some? ==>
      Membership(env, query, event).value == InFence(env, query, event.after)
  {
    if event.after.Some? {
      ValidatedNeverFails(env.search, event.after.value, query.options);
    }
    hide AllMatch, MatchesCandidate, Valid;
  }

  lemma CrossedMeans(env: FenceEnv, query: GeofenceQuery, event: Mutation)
    requires !query.Roam?
    ensures Crossed(env, event, query) == Passes(env, query, event)
  {
  }

  /** One evaluation with validated filters: when it fails, what becomes of the flag, and
      what is emitted. */
  lemma {:induction false} StaticEvaluationMeans(
      env: FenceEnv, def: GeofenceDef, state: FenceState, event: Mutation, group: Option<string>, hook: Option<string>)
    requires !def.query.Roam? && Valid(env.search, def.query.options) && event.collection == def.collection
    ensures
      var was := event.id in state.objects && state.objects[event.id];
      var now := InFence(env, def.query, event.after);
      var evaluation := EvaluateStatic(env, def, state, event, group, hook);
      (evaluation.Error? <==> Fails(env, def.query, was, event)) &&
      (evaluation.Done? ==>
         var passes := !was && !now && Passes(env, def.query, event) == Some(true);
         var detect := Verdict(was, now, passes);
         var (geo, fields) := Reported(event);
         Resulting(evaluation, state).pairs == state.pairs &&
         Resulting(evaluation, state).objects
           == (if event.after.Some? then state.objects[event.id := now] else state.objects - {event.id}) &&
         Emitted(evaluation) ==
           if Wanted(def, detect, event.command)
           then [FenceEvent(event.command, detect, def.collection, event.id, geo, fields, event.timestamp, hook, group, None)]
           else [])
  {
    MembershipMeans(env, def.query, event);
    CrossedMeans(env, def.query, event);
    hide InFence, Located, Passes, Membership, Crossed, Valid, Filtered;
  }

  // Over runs.

  /** Where the object is after the events: as the last one about it that could be
      evaluated left it. */
  ghost predicate IsIn(env: FenceEnv, def: GeofenceDef, events: seq<Mutation>, id: string)
    requires !def.query.Roam?
  {
    if events == [] then false
    else
      var was, event := IsIn(env, def, events[..|events| - 1], id), events[|events| - 1];
      if event.collection != def.collection || event.id != id || Fails(env, def.query, was, event) then was
      else InFence(env, def.query, event.after)
  }

  /** In every run the flag of every object says whether it is in the fence. */
  lemma {:induction false} FlagIsPosition(env: FenceEnv, def: GeofenceDef, events: seq<Mutation>, id: string)
    requires !def.query.Roam? && Valid(env.search, def.query.options)
    ensures IsInside(StaticRun(env, def, events), id) <==> IsIn(env, def, events, id)
  {
    if events != [] {
      var earlier, event := events[..|events| - 1], events[|events| - 1];
      FlagIsPosition(env, def, earlier, id);
      var state := StaticRun(env, def, earlier);
      if event.collection == def.collection {
        StaticEvaluationMeans(env, def, state, event, None, None);
      }
      hide InFence, Fails, Detected, Membership, Valid, Subject, Allows, Reported, Wanted, Passes;
    }
  }

  /** After every set that could be evaluated, in every run, the object is flagged inside
      if and only if it is in the area and passes the filters. */
  lemma {:induction false} SetIsFlagged(env: FenceEnv, def: GeofenceDef, earlier: seq<Mutation>, event: Mutation)
    requires !def.query.Roam? && Valid(env.search, def.query.options)
    requires event.collection == def.collection && event.after.Some?
    requires !Fails(env, def.query, IsIn(env, def, earlier, event.id), event)
    ensures IsInside(StaticRun(env, def, earlier + [event]), event.id) <==>
      Located(env, def.query, event.after.value.geo) == Some(true) &&
      AllMatch(env.search, event.after.value, def.query.options)
  {
    var all := earlier + [event];
    assert all[..|all| - 1] == earlier;
    FlagIsPosition(env, def, all, event.id);
    hide AllMatch, Located, Fails, StaticRun;
  }

  // Roaming fences.

  /** A target is near a source: the fence tracks it, it is another object, and both are
      points within reach. */
  lemma {:induction false} NearMeans(env: FenceEnv, q: GeofenceQuery, source: Object, target: Object)
    requires q.Roam? && Valid(env.search, q.options)
    ensures Near(env, q, source, target) <==>
      AllMatch(env.search, source, q.options) && env.search.glob(q.targetPattern, target.id) && source.id != target.id &&
      source.geo.Point? && target.geo.Point? &&
      env.distance(source.geo.lat, source.geo.lon, target.geo.lat, target.geo.lon) <= q.meters
  {
    ValidatedNeverFails(env.search, source, q.options);
    hide AllMatch, MatchesCandidate, Valid;
  }

  /** A roaming fence emits only what its own filters want, and with NODWELL nothing
      about a pair it already has. */
  lemma AnnouncedMeans(r: Report, pairs: set<Pair>, p: Pair)
    requires r.def.query.Roam?
    ensures Announced(r, pairs, p) <==>
      Wanted(r.def, DetectType.Roaming, r.event.command) && (r.def.query.nodwell ==> p !in pairs)
  {
  }
}
