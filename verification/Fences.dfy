/** Geofences over one area: the inside/outside machine kept for every object
    (crates/latlng-geofence/src/lib.rs). */
module Fences {
  import opened Types
  import opened Filters

  /** Geometry a fence asks for; `None` stands for an evaluation error. */
  datatype FenceEnv = FenceEnv(
    search: SearchEnv,
    distance: (real, real, real, real) -> real,
    center: Geo -> Option<(real, real)>,
    contains: (Area, Geo) -> Option<bool>,
    intersects: (Area, Geo) -> Option<bool>,
    lineMeets: (Area, Geo, Geo) -> Option<bool>)

  datatype Mutation = Mutation(
    command: MutationCommand,
    collection: string,
    id: string,
    before: Option<Object>,
    after: Option<Object>,
    timestamp: nat)

  datatype RoamingInfo = RoamingInfo(collection: string, id: string, meters: real)

  datatype FenceEvent = FenceEvent(
    command: MutationCommand,
    detect: DetectType,
    collection: string,
    id: string,
    geo: Geo,
    fields: FieldMap,
    timestamp: nat,
    hook: Option<string>,
    group: Option<string>,
    nearby: Option<RoamingInfo>)

  type Pair = (string, string)

  /** Runtime state of one fence. */
  datatype FenceState = FenceState(objects: map<string, bool>, pairs: map<Pair, bool>)

  const FRESH := FenceState(map[], map[])

  datatype Update = Keep | Flag(id: string, inside: Option<bool>) | Replace(state: FenceState)

  /** A fence that cannot be evaluated is skipped. */
  datatype Evaluation = Error | Done(update: Update, events: seq<FenceEvent>)

  function Apply(update: Update, state: FenceState): FenceState {
    match update
    case Keep => state
    case Flag(id, inside) =>
      state.(objects := if inside.Some? then state.objects[id := inside.value] else state.objects - {id})
    case Replace(next) => next
  }

  function Resulting(evaluation: Evaluation, state: FenceState): FenceState {
    if evaluation.Done? then Apply(evaluation.update, state) else state
  }

  function Emitted(evaluation: Evaluation): seq<FenceEvent> {
    if evaluation.Done? then evaluation.events else []
  }

  function Filtered(env: FenceEnv, o: Object, options: SearchOptions): Option<bool> {
    match MatchesCandidate(env.search, o, options)
    case Known(holds) => Some(holds)
    case Failed(_) => None
  }

  predicate CloseTo(env: FenceEnv, geo: Geo, lat: real, lon: real, meters: real) {
    match geo
    case Point(pointLat, pointLon, _) => env.distance(lat, lon, pointLat, pointLon) <= meters
    case _ => env.center(geo).Some? && env.distance(lat, lon, env.center(geo).value.0, env.center(geo).value.1) <= meters
  }

  /** `object_matches_query`. */
  function Matches(env: FenceEnv, o: Object, query: GeofenceQuery): Option<bool> {
    match query
    case Nearby(lat, lon, meters, options) =>
      if !CloseTo(env, o.geo, lat, lon, meters) then Some(false) else Filtered(env, o, options)
    case Within(area, options) =>
      if env.contains(area, o.geo) != Some(true) then env.contains(area, o.geo) else Filtered(env, o, options)
    case Intersects(area, options) =>
      if env.intersects(area, o.geo) != Some(true) then env.intersects(area, o.geo) else Filtered(env, o, options)
    case Roam(_, _, _, options, _) => Filtered(env, o, options)
  }

  /** `crossed_boundary`. */
  function Crossed(env: FenceEnv, event: Mutation, query: GeofenceQuery): Option<bool> {
    if event.before.None? || event.after.None? then Some(false)
    else if !event.before.value.geo.Point? || !event.after.value.geo.Point? then Some(false)
    else
      match query
      case Nearby(lat, lon, meters, _) =>
        env.lineMeets(Circle(lat, lon, meters), event.before.value.geo, event.after.value.geo)
      case Within(area, _) => env.lineMeets(area, event.before.value.geo, event.after.value.geo)
      case Intersects(area, _) => env.lineMeets(area, event.before.value.geo, event.after.value.geo)
      case Roam(_, _, _, _, _) => Some(false)
  }

  predicate IsInside(state: FenceState, id: string) {
    id in state.objects && state.objects[id]
  }

  /** Membership of the object as the event leaves it. */
  function Membership(env: FenceEnv, query: GeofenceQuery, event: Mutation): Option<bool> {
    if event.after.None? then Some(false) else Matches(env, event.after.value, query)
  }

  /** What the fence detects, before its own filters; `None` on an error. */
  function Detected(env: FenceEnv, query: GeofenceQuery, was: bool, event: Mutation): Option<DetectType> {
    match Membership(env, query, event)
    case None => None
    case Some(now) =>
      if !was && now then Some(Enter)
      else if was && now then Some(Inside)
      else if was && !now then Some(Exit)
      else
        match Crossed(env, event, query)
        case None => None
        case Some(crossed) => Some(if crossed then Cross else Outside)
  }

  predicate Allows(def: GeofenceDef, detect: DetectType, command: MutationCommand) {
    (def.detect == [] || detect in def.detect) && (def.commands == [] || command in def.commands)
  }

  function Subject(event: Mutation): (Geo, FieldMap) {
    if event.after.Some? then (event.after.value.geo, event.after.value.fields)
    else if event.before.Some? then (event.before.value.geo, event.before.value.fields)
    else (Str(event.id), map[])
  }

  /** `evaluate_static_fence`. */
  function EvaluateStatic(
      env: FenceEnv, def: GeofenceDef, state: FenceState, event: Mutation,
      group: Option<string>, hook: Option<string>): Evaluation
  {
    if def.collection != event.collection then Done(Keep, [])
    else
      match Detected(env, def.query, IsInside(state, event.id), event)
      case None => Error
      case Some(detect) =>
        var update :=
          Flag(event.id, if event.after.Some? then Membership(env, def.query, event) else None);
        if !Allows(def, detect, event.command) then Done(update, [])
        else
          var (geo, fields) := Subject(event);
          Done(update, [FenceEvent(event.command, detect, event.collection, event.id, geo, fields,
                                   event.timestamp, hook, group, None)])
  }

  // Serialized runs of one fence, registered with a fresh state.

  function StaticStep(env: FenceEnv, def: GeofenceDef, state: FenceState, event: Mutation): FenceState {
    Resulting(EvaluateStatic(env, def, state, event, None, None), state)
  }

  function StaticRun(env: FenceEnv, def: GeofenceDef, events: seq<Mutation>): FenceState {
    if events == [] then FRESH
    else StaticStep(env, def, StaticRun(env, def, events[..|events| - 1]), events[|events| - 1])
  }

  /** The fence evaluates the last event of the run, which is about `id`. */
  predicate Evaluates(env: FenceEnv, def: GeofenceDef, events: seq<Mutation>, id: string)
    requires events != []
  {
    var event := events[|events| - 1];
    event.collection == def.collection && event.id == id &&
    EvaluateStatic(env, def, StaticRun(env, def, events[..|events| - 1]), event, None, None).Done?
  }

  /** Detect values for one object, before filtering. */
  function Trace(env: FenceEnv, def: GeofenceDef, events: seq<Mutation>, id: string): seq<DetectType> {
    if events == [] then []
    else
      var earlier := events[..|events| - 1];
      if !Evaluates(env, def, events, id) then Trace(env, def, earlier, id)
      else
        var detected := Detected(env, def.query, IsInside(StaticRun(env, def, earlier), id), events[|events| - 1]);
        Trace(env, def, earlier, id) + [detected.value]
  }

  /** Membership of the object in the last event about it that was evaluated. */
  predicate LastMembership(env: FenceEnv, def: GeofenceDef, events: seq<Mutation>, id: string) {
    if events == [] then false
    else if !Evaluates(env, def, events, id) then LastMembership(env, def, events[..|events| - 1], id)
    else Membership(env, def.query, events[|events| - 1]) == Some(true)
  }

  // The language ((Outside|Cross)* Enter Inside* Exit)* and its prefixes.

  datatype Visit = Visit(away: seq<DetectType>, stay: nat)

  datatype Unfinished = Away(away: seq<DetectType>) | Present(away: seq<DetectType>, stay: nat)

  predicate IsAway(away: seq<DetectType>) {
    forall i :: 0 <= i < |away| ==> away[i] == Outside || away[i] == Cross
  }

  function Stay(n: nat): seq<DetectType> {
    if n == 0 then [] else Stay(n - 1) + [Inside]
  }

  function Finished(visits: seq<Visit>): seq<DetectType> {
    if visits == [] then []
    else
      var last := visits[|visits| - 1];
      Finished(visits[..|visits| - 1]) + last.away + [Enter] + Stay(last.stay) + [Exit]
  }

  function Rest(rest: Unfinished): seq<DetectType> {
    match rest
    case Away(away) => away
    case Present(away, stay) => away + [Enter] + Stay(stay)
  }

  predicate Spells(trace: seq<DetectType>, visits: seq<Visit>, rest: Unfinished) {
    (forall i :: 0 <= i < |visits| ==> IsAway(visits[i].away)) && IsAway(rest.away) &&
    trace == Finished(visits) + Rest(rest)
  }

  /** The trace is visits, the last one unfinished or not begun; `inside` says
      whether the object is inside at the end. */
  ghost predicate Visits(trace: seq<DetectType>, inside: bool) {
    exists visits, rest :: Spells(trace, visits, rest) && rest.Present? == inside
  }

  /** Which detect value leads from one side to the other. */
  predicate Follows(was: bool, detect: DetectType, now: bool) {
    match detect
    case Enter => !was && now
    case Inside => was && now
    case Exit => was && !now
    case _ => (detect == Outside || detect == Cross) && !was && !now
  }

  lemma StayLonger(visits: seq<Visit>, away: seq<DetectType>, stay: nat)
    ensures Finished(visits) + Rest(Present(away, stay)) + [Inside] == Finished(visits) + Rest(Present(away, stay + 1))
  {
    hide Finished;
  }

  lemma Leave(visits: seq<Visit>, away: seq<DetectType>, stay: nat)
    ensures Finished(visits) + Rest(Present(away, stay)) + [Exit]
         == Finished(visits + [Visit(away, stay)]) + Rest(Away([]))
  {
    var more := visits + [Visit(away, stay)];
    assert more[..|more| - 1] == visits;
    assert Finished(more) == Finished(visits) + away + [Enter] + Stay(stay) + [Exit];
    hide Finished, Stay;
  }

  lemma Arrive(visits: seq<Visit>, away: seq<DetectType>, detect: DetectType)
    ensures Finished(visits) + Rest(Away(away)) + [Enter] == Finished(visits) + Rest(Present(away, 0))
    ensures Finished(visits) + Rest(Away(away)) + [detect] == Finished(visits) + Rest(Away(away + [detect]))
  {
    hide Finished;
  }

  lemma VisitsExtend(trace: seq<DetectType>, was: bool, detect: DetectType, now: bool)
    requires Visits(trace, was) && Follows(was, detect, now)
    ensures Visits(trace + [detect], now)
  {
    hide Finished, Stay, Rest;
    var visits, rest :| Spells(trace, visits, rest) && rest.Present? == was;
    if was && now {
      StayLonger(visits, rest.away, rest.stay);
      assert Spells(trace + [detect], visits, Present(rest.away, rest.stay + 1));
    } else if was {
      Leave(visits, rest.away, rest.stay);
      assert Spells(trace + [detect], visits + [Visit(rest.away, rest.stay)], Away([]));
    } else {
      Arrive(visits, rest.away, detect);
      if now {
        assert Spells(trace + [detect], visits, Present(rest.away, 0));
      } else {
        assert Spells(trace + [detect], visits, Away(rest.away + [detect]));
      }
    }
  }

  /** In every serialized run and for every object: the detect values form visits,
      and the stored flag is the membership last seen, which is where the trace is. */
  lemma {:induction false} StaticFenceVisits(env: FenceEnv, def: GeofenceDef, events: seq<Mutation>, id: string)
    ensures Visits(Trace(env, def, events, id), IsInside(StaticRun(env, def, events), id))
    ensures IsInside(StaticRun(env, def, events), id) <==> LastMembership(env, def, events, id)
  {
    if events == [] {
      assert Spells([], [], Away([]));
    } else {
      var earlier, event := events[..|events| - 1], events[|events| - 1];
      StaticFenceVisits(env, def, earlier, id);
      var state := StaticRun(env, def, earlier);
      hide Visits;
      if Evaluates(env, def, events, id) {
        var detected := Detected(env, def.query, IsInside(state, id), event).value;
        EventFollows(env, def, state, event);
        VisitsExtend(Trace(env, def, earlier, id), IsInside(state, id), detected,
          IsInside(StaticStep(env, def, state, event), id));
      } else {
        OtherEventsKeep(env, def, state, event, id);
      }
    }
  }

  lemma EventFollows(env: FenceEnv, def: GeofenceDef, state: FenceState, event: Mutation)
    requires event.collection == def.collection
    requires EvaluateStatic(env, def, state, event, None, None).Done?
    ensures Detected(env, def.query, IsInside(state, event.id), event).Some?
    ensures Follows(IsInside(state, event.id),
      Detected(env, def.query, IsInside(state, event.id), event).value,
      IsInside(StaticStep(env, def, state, event), event.id))
    ensures IsInside(StaticStep(env, def, state, event), event.id)
        <==> Membership(env, def.query, event) == Some(true)
  {
    hide Matches, Crossed, Subject, Allows;
  }

  lemma OtherEventsKeep(env: FenceEnv, def: GeofenceDef, state: FenceState, event: Mutation, id: string)
    requires event.collection != def.collection || event.id != id ||
             EvaluateStatic(env, def, state, event, None, None).Error?
    ensures IsInside(StaticStep(env, def, state, event), id) == IsInside(state, id)
  {
    hide Detected, Membership, Subject, Allows;
  }

  // Filters.

  function Unfiltered(def: GeofenceDef): GeofenceDef {
    def.(detect := [], commands := [])
  }

  function Kept(def: GeofenceDef, events: seq<FenceEvent>): seq<FenceEvent> {
    if events == [] then []
    else
      var rest := Kept(def, events[1..]);
      if Allows(def, events[0].detect, events[0].command) then [events[0]] + rest else rest
  }

  /** Everything a fence emits in a run. */
  function StaticEvents(
      env: FenceEnv, def: GeofenceDef, events: seq<Mutation>, group: Option<string>, hook: Option<string>)
    : seq<FenceEvent>
  {
    if events == [] then []
    else
      var earlier := events[..|events| - 1];
      StaticEvents(env, def, earlier, group, hook) +
      Emitted(EvaluateStatic(env, def, StaticRun(env, def, earlier), events[|events| - 1], group, hook))
  }

  lemma {:induction false} KeptConcat(def: GeofenceDef, a: seq<FenceEvent>, b: seq<FenceEvent>)
    ensures Kept(def, a + b) == Kept(def, a) + Kept(def, b)
  {
    if a == [] {
      assert a + b == b;
    } else {
      KeptConcat(def, a[1..], b);
      assert (a + b)[1..] == a[1..] + b;
    }
  }

  lemma FilterOneEvent(
      env: FenceEnv, def: GeofenceDef, state: FenceState, event: Mutation, group: Option<string>, hook: Option<string>)
    ensures StaticStep(env, def, state, event) == StaticStep(env, Unfiltered(def), state, event)
    ensures Emitted(EvaluateStatic(env, def, state, event, group, hook))
         == Kept(def, Emitted(EvaluateStatic(env, Unfiltered(def), state, event, group, hook)))
  {
    hide Detected, Membership, Subject;
  }

  /** Detect and command filters only hide events; they never change the state. */
  lemma {:induction false} FiltersOnlyHide(
      env: FenceEnv, def: GeofenceDef, events: seq<Mutation>, group: Option<string>, hook: Option<string>)
    ensures StaticRun(env, def, events) == StaticRun(env, Unfiltered(def), events)
    ensures StaticEvents(env, def, events, group, hook)
         == Kept(def, StaticEvents(env, Unfiltered(def), events, group, hook))
  {
    if events != [] {
      var earlier, event := events[..|events| - 1], events[|events| - 1];
      FiltersOnlyHide(env, def, earlier, group, hook);
      var state := StaticRun(env, def, earlier);
      FilterOneEvent(env, def, state, event, group, hook);
      KeptConcat(def, StaticEvents(env, Unfiltered(def), earlier, group, hook),
        Emitted(EvaluateStatic(env, Unfiltered(def), state, event, group, hook)));
    }
  }

  /** An unfiltered fence reports exactly the trace. */
  lemma {:induction false} UnfilteredReportsTrace(
      env: FenceEnv, def: GeofenceDef, events: seq<Mutation>, group: Option<string>, hook: Option<string>, id: string)
    requires def == Unfiltered(def)
    ensures DetectsOf(StaticEvents(env, def, events, group, hook), id) == Trace(env, def, events, id)
  {
    if events != [] {
      var earlier, event := events[..|events| - 1], events[|events| - 1];
      UnfilteredReportsTrace(env, def, earlier, group, hook, id);
      var state := StaticRun(env, def, earlier);
      UnfilteredReportsEvent(env, def, state, event, group, hook, id);
      DetectsConcat(StaticEvents(env, def, earlier, group, hook),
        Emitted(EvaluateStatic(env, def, state, event, group, hook)), id);
      hide EvaluateStatic, Detected, DetectsOf;
    }
  }

  lemma UnfilteredReportsEvent(
      env: FenceEnv, def: GeofenceDef, state: FenceState, event: Mutation,
      group: Option<string>, hook: Option<string>, id: string)
    requires def == Unfiltered(def)
    ensures
      var now := EvaluateStatic(env, def, state, event, group, hook);
      now.Done? == EvaluateStatic(env, def, state, event, None, None).Done? &&
      if now.Done? && event.collection == def.collection && event.id == id
      then
        Detected(env, def.query, IsInside(state, id), event).Some? &&
        DetectsOf(Emitted(now), id) == [Detected(env, def.query, IsInside(state, id), event).value]
      else DetectsOf(Emitted(now), id) == []
  {
    hide Detected, Membership, Subject;
    var now := EvaluateStatic(env, def, state, event, group, hook);
    if now.Done? && event.collection == def.collection {
      assert now.events[1..] == [];
    }
  }

  function DetectsOf(events: seq<FenceEvent>, id: string): seq<DetectType> {
    if events == [] then []
    else if events[0].id == id then [events[0].detect] + DetectsOf(events[1..], id)
    else DetectsOf(events[1..], id)
  }

  lemma {:induction false} DetectsConcat(a: seq<FenceEvent>, b: seq<FenceEvent>, id: string)
    ensures DetectsOf(a + b, id) == DetectsOf(a, id) + DetectsOf(b, id)
  {
    if a == [] {
      assert a + b == b;
    } else {
      DetectsConcat(a[1..], b, id);
      assert (a + b)[1..] == a[1..] + b;
    }
  }
}
