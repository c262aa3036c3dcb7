/** Runs of a roaming fence: on the objects that have not lapsed the pair table is
    always right, and exactly which other pairs it holds. */
module PairTable {
  import opened Types
  import opened Catalog
  import opened Filters
  import opened Fences
  import opened Roaming

  /** The two collections a fence watches, the fence's state, and the time. */
  datatype World = World(sources: Objects, targets: Objects, state: FenceState, clock: nat)

  function NearPairs(env: FenceEnv, q: GeofenceQuery, sources: Objects, targets: Objects): set<Pair>
    requires q.Roam?
  {
    set s, t | s in sources && t in targets && Near(env, q, sources[s], targets[t]) :: (s, t)
  }

  /** Between the given objects the table has exactly the near pairs. */
  ghost predicate RightOn(env: FenceEnv, q: GeofenceQuery, pairs: set<Pair>, sources: Objects, targets: Objects)
    requires q.Roam?
  {
    forall s, t :: s in sources && t in targets ==> ((s, t) in pairs <==> Near(env, q, sources[s], targets[t]))
  }

  /** The table is right on the objects that have not lapsed. */
  ghost predicate Tracks(env: FenceEnv, q: GeofenceQuery, w: World)
    requires q.Roam?
  {
    Keyed(w.sources) && Keyed(w.targets) && OnlyTrue(w.state.pairs) &&
    RightOn(env, q, w.state.pairs.Keys, Purge(w.clock, w.sources), Purge(w.clock, w.targets))
  }

  /** And has no other pairs. */
  ghost predicate Exact(env: FenceEnv, q: GeofenceQuery, w: World)
    requires q.Roam?
  {
    w.state.pairs.Keys == NearPairs(env, q, Purge(w.clock, w.sources), Purge(w.clock, w.targets))
  }

  /** What a lookup returns: the given objects, in any order. */
  ghost predicate Lists(listed: seq<Object>, objects: Objects) {
    DistinctIds(listed) && forall o :: o in listed <==> o.id in objects && objects[o.id] == o
  }

  function Changed(objects: Objects, event: Mutation): Objects {
    if event.after.Some? then objects[event.id := event.after.value] else objects - {event.id}
  }

  /** One set, fset or del, with the fence evaluated on it. The engine's lookup
      passes over objects that are past their deadline. */
  ghost predicate Step(
      env: FenceEnv, r: Report, w: World, lookup: string -> seq<Object>, evaluation: Evaluation, next: World)
    requires r.def.query.Roam?
  {
    WellFormed(r.event) && w.clock <= next.clock &&
    Lists(lookup(r.def.collection), Purge(next.clock, w.sources)) &&
    Lists(lookup(r.def.query.targetCollection), Purge(next.clock, w.targets)) &&
    Evaluated(env, r, w.state, lookup, evaluation) &&
    next.state == Resulting(evaluation, w.state) &&
    next.sources == (if r.event.collection == r.def.collection then Changed(w.sources, r.event) else w.sources) &&
    next.targets == (if r.event.collection == r.def.query.targetCollection then Changed(w.targets, r.event) else w.targets)
  }

  predicate CrossCollection(def: GeofenceDef) {
    def.query.Roam? && def.query.targetCollection != def.collection
  }

  lemma FiltersEvaluate(env: FenceEnv, q: GeofenceQuery, objects: seq<Object>)
    requires q.Roam? && Valid(env.search, q.options)
    ensures Filterable(env, q, objects)
  {
    forall j | 0 <= j < |objects| ensures Filtered(env, objects[j], q.options).Some? {
      ValidatedNeverFails(env.search, objects[j], q.options);
    }
  }

  /** The changed object, if it is not past its deadline already. */
  function Arrived(event: Mutation, now: nat): Option<Object> {
    if event.after.Some? && !Expired(event.after.value, now) then event.after else None
  }

  lemma PurgeChanged(objects: Objects, event: Mutation, now: nat)
    ensures var live := Purge(now, objects);
            Purge(now, Changed(objects, event)) ==
              if Arrived(event, now).Some? then live[event.id := event.after.value] else live - {event.id}
  {
  }

  lemma RightOnLess(env: FenceEnv, q: GeofenceQuery, w: World, now: nat)
    requires q.Roam? && Tracks(env, q, w) && w.clock <= now
    ensures RightOn(env, q, w.state.pairs.Keys, Purge(now, w.sources), Purge(now, w.targets))
  {
    hide Near;
    var a, b := Purge(w.clock, w.sources), Purge(w.clock, w.targets);
    forall s, t | s in Purge(now, w.sources) && t in Purge(now, w.targets)
      ensures (s, t) in w.state.pairs.Keys <==> Near(env, q, w.sources[s], w.targets[t])
    {
      assert s in a && t in b;
    }
  }

  lemma SourceChange(
      env: FenceEnv, r: Report, pairs: set<Pair>, sources: Objects, targets: Objects, lookup: string -> seq<Object>, now: nat)
    requires r.def.query.Roam? && WellFormed(r.event) && r.event.collection == r.def.collection
    requires Keyed(targets) && Lists(lookup(r.def.query.targetCollection), Purge(now, targets))
    requires RightOn(env, r.def.query, pairs, Purge(now, sources), Purge(now, targets))
    ensures RightOn(env, r.def.query, NextPairs(env, r, pairs, lookup),
                    Purge(now, Changed(sources, r.event)), Purge(now, targets))
  {
    hide Near;
    PurgeChanged(sources, r.event, now);
    var live, listed := Purge(now, targets), lookup(r.def.query.targetCollection);
    forall t | t in live ensures live[t] in listed {
    }
  }

  lemma TargetChange(
      env: FenceEnv, r: Report, pairs: set<Pair>, sources: Objects, targets: Objects, lookup: string -> seq<Object>, now: nat)
    requires CrossCollection(r.def) && WellFormed(r.event) && r.event.collection == r.def.query.targetCollection
    requires Keyed(sources) && Lists(lookup(r.def.collection), Purge(now, sources))
    requires RightOn(env, r.def.query, pairs, Purge(now, sources), Purge(now, targets))
    ensures RightOn(env, r.def.query, NextPairs(env, r, pairs, lookup),
                    Purge(now, sources), Purge(now, Changed(targets, r.event)))
  {
    hide Near;
    PurgeChanged(targets, r.event, now);
    var live, listed := Purge(now, sources), lookup(r.def.collection);
    forall s | s in live ensures live[s] in listed && s in IdsOf(listed) {
      assert live[s] in listed;
    }
  }

  /** Every set, fset and del keeps the table right on what has not lapsed. */
  lemma StepKeepsTracking(
      env: FenceEnv, r: Report, w: World, lookup: string -> seq<Object>, evaluation: Evaluation, next: World)
    requires CrossCollection(r.def) && Valid(env.search, r.def.query.options)
    requires Tracks(env, r.def.query, w) && Step(env, r, w, lookup, evaluation, next)
    ensures Tracks(env, r.def.query, next) && evaluation.Done?
  {
    FiltersEvaluate(env, r.def.query, Consulted(r, lookup));
    RightOnLess(env, r.def.query, w, next.clock);
    var pairs := w.state.pairs.Keys;
    hide Filterable, Consulted, Near, RightOn, Purge;
    if r.event.collection == r.def.collection {
      SourceChange(env, r, pairs, w.sources, w.targets, lookup, next.clock);
    } else if r.event.collection == r.def.query.targetCollection {
      TargetChange(env, r, pairs, w.sources, w.targets, lookup, next.clock);
    }
    hide NextEvents, Lists;
  }

  // What happens without a geofence event: time passes, objects past their deadline
  // are swept, deadlines change, documents are edited.

  /** A new deadline, or an edit of a document. */
  ghost predicate Revises(a: Object, b: Object) {
    SameContents(a, b) || (a.geo.GeoJson? && b.geo.GeoJson? && SameContents(a.(geo := b.geo), b))
  }

  /** Nothing that had lapsed comes back, and only deadlines and documents change. */
  ghost predicate Fades(objects: Objects, clock: nat, later: Objects, now: nat) {
    Keyed(later) &&
    forall id :: id in Purge(now, later) ==> id in Purge(clock, objects) && Revises(objects[id], later[id])
  }

  ghost predicate Silent(w: World, next: World) {
    next.state == w.state && Fades(w.sources, w.clock, next.sources, next.clock) &&
    Fades(w.targets, w.clock, next.targets, next.clock)
  }

  /** Nearness reads no deadline, and a document is near nothing. */
  lemma NearIgnoresRevision(env: FenceEnv, q: GeofenceQuery, s: Object, t: Object, a: Object, b: Object)
    requires q.Roam? && Revises(s, a) && Revises(t, b)
    ensures Near(env, q, s, t) <==> Near(env, q, a, b)
  {
    if SameContents(s, a) && SameContents(t, b) {
      FiltersIgnoreDeadlines(env.search, s, a, q.options);
    }
    hide MatchesCandidate;
  }

  lemma SilenceKeepsTracking(env: FenceEnv, q: GeofenceQuery, w: World, next: World)
    requires q.Roam? && Tracks(env, q, w) && Silent(w, next)
    ensures Tracks(env, q, next)
  {
    var s0, t0 := Purge(w.clock, w.sources), Purge(w.clock, w.targets);
    var s1, t1 := Purge(next.clock, next.sources), Purge(next.clock, next.targets);
    forall s, t | s in s1 && t in t1
      ensures (s, t) in next.state.pairs.Keys <==> Near(env, q, s1[s], t1[t])
    {
      assert s in s0 && t in t0;
      NearIgnoresRevision(env, q, s0[s], t0[t], s1[s], t1[t]);
      hide Near, Revises;
    }
  }

  /** The table agrees with nearness on the pairs of one source. */
  ghost predicate RightOnSource(env: FenceEnv, q: GeofenceQuery, pairs: set<Pair>, s: Object, targets: Objects)
    requires q.Roam?
  {
    forall t :: t in targets ==> ((s.id, t) in pairs <==> Near(env, q, s, targets[t]))
  }

  ghost predicate RightOnTarget(env: FenceEnv, q: GeofenceQuery, pairs: set<Pair>, sources: Objects, t: Object)
    requires q.Roam?
  {
    forall s :: s in sources ==> ((s, t.id) in pairs <==> Near(env, q, sources[s], t))
  }

  /** EXPIRE, PERSIST and the edits raise no geofence event. On a source that has lapsed
      they keep the table right if and only if they do not bring it back, or the pairs
      left over from before are still the near ones. */
  lemma {:induction false} SilentSourceIff(env: FenceEnv, q: GeofenceQuery, w: World, id: string, o: Object, now: nat)
    requires q.Roam? && Tracks(env, q, w) && id in w.sources && Revises(w.sources[id], o) && w.clock <= now
    ensures
      var next := World(w.sources[id := o], w.targets, w.state, now);
      Tracks(env, q, next) <==>
        id in Purge(w.clock, w.sources) || Expired(o, now) ||
        RightOnSource(env, q, w.state.pairs.Keys, w.sources[id], Purge(now, w.targets))
  {
    var next := World(w.sources[id := o], w.targets, w.state, now);
    var live, targets := Purge(now, next.sources), Purge(now, w.targets);
    forall t | t in targets ensures Near(env, q, o, w.targets[t]) <==> Near(env, q, w.sources[id], w.targets[t]) {
      NearIgnoresRevision(env, q, w.sources[id], w.targets[t], o, w.targets[t]);
    }
    hide Near, Revises;
    assert forall s :: s in live && s != id ==> s in Purge(w.clock, w.sources);
    assert forall t :: t in targets ==> t in Purge(w.clock, w.targets);
    assert id in live <==> !Expired(o, now);
  }

  /** The same for a target. */
  lemma {:induction false} SilentTargetIff(env: FenceEnv, q: GeofenceQuery, w: World, id: string, o: Object, now: nat)
    requires q.Roam? && Tracks(env, q, w) && id in w.targets && Revises(w.targets[id], o) && w.clock <= now
    ensures
      var next := World(w.sources, w.targets[id := o], w.state, now);
      Tracks(env, q, next) <==>
        id in Purge(w.clock, w.targets) || Expired(o, now) ||
        RightOnTarget(env, q, w.state.pairs.Keys, Purge(now, w.sources), w.targets[id])
  {
    var next := World(w.sources, w.targets[id := o], w.state, now);
    var live, sources := Purge(now, next.targets), Purge(now, w.sources);
    forall s | s in sources ensures Near(env, q, w.sources[s], o) <==> Near(env, q, w.sources[s], w.targets[id]) {
      NearIgnoresRevision(env, q, w.sources[s], w.targets[id], w.sources[s], o);
    }
    hide Near, Revises;
    assert forall t :: t in live && t != id ==> t in Purge(w.clock, w.targets);
    assert forall s :: s in sources ==> s in Purge(w.clock, w.sources);
    assert id in live <==> !Expired(o, now);
  }

  datatype Move = Changes(report: Report, lookup: string -> seq<Object>, evaluation: Evaluation) | Waits

  ghost predicate Moved(env: FenceEnv, def: GeofenceDef, w: World, move: Move, next: World)
    requires def.query.Roam?
  {
    match move
    case Changes(report, lookup, evaluation) => report.def == def && Step(env, report, w, lookup, evaluation, next)
    case Waits => Silent(w, next)
  }

  /** A run from a fence registered before any objects. */
  ghost predicate Run(env: FenceEnv, def: GeofenceDef, moves: seq<Move>, worlds: seq<World>)
    requires def.query.Roam?
  {
    |worlds| == |moves| + 1 && worlds[0] == World(map[], map[], FRESH, worlds[0].clock) &&
    forall i :: 0 <= i < |moves| ==> Moved(env, def, worlds[i], moves[i], worlds[i + 1])
  }

  /** After every run of set/fset/del, sweeps, deadline changes and passing time, a
      pair of objects that have not lapsed is in the table if and only if they are
      filtered, tracked, distinct and within reach. */
  lemma {:induction false} TableTracksLivePairs(
      env: FenceEnv, def: GeofenceDef, moves: seq<Move>, worlds: seq<World>, n: nat)
    requires CrossCollection(def) && Valid(env.search, def.query.options)
    requires Run(env, def, moves, worlds) && n < |worlds|
    ensures Tracks(env, def.query, worlds[n])
    decreases n
  {
    if n > 0 {
      TableTracksLivePairs(env, def, moves, worlds, n - 1);
      var move := moves[n - 1];
      assert Moved(env, def, worlds[n - 1], move, worlds[n]);
      hide Tracks, Step, Silent, Valid;
      if move.Changes? {
        StepKeepsTracking(env, move.report, worlds[n - 1], move.lookup, move.evaluation, worlds[n]);
      } else {
        SilenceKeepsTracking(env, def.query, worlds[n - 1], worlds[n]);
      }
    }
  }

  // Pairs of lapsed objects.

  /** The change clears the pair, or both its members are there at the time. */
  predicate Accounted(r: Report, w: World, now: nat, p: Pair)
    requires r.def.query.Roam?
  {
    if r.event.collection == r.def.collection then
      p.0 == r.event.id || (p.0 in Purge(now, w.sources) && p.1 in Purge(now, w.targets))
    else if r.event.collection == r.def.query.targetCollection then
      p.0 in Purge(now, w.sources) && (p.1 == r.event.id || p.1 in Purge(now, w.targets))
    else p.0 in Purge(now, w.sources) && p.1 in Purge(now, w.targets)
  }

  /** The changed object is past its deadline already and still has a near partner. */
  ghost predicate Stillborn(env: FenceEnv, r: Report, w: World, now: nat)
    requires r.def.query.Roam?
  {
    r.event.after.Some? && Expired(r.event.after.value, now) &&
    if r.event.collection == r.def.collection then
      exists t :: t in Purge(now, w.targets) && Near(env, r.def.query, r.event.after.value, w.targets[t])
    else
      r.event.collection == r.def.query.targetCollection &&
      exists s :: s in Purge(now, w.sources) && Near(env, r.def.query, w.sources[s], r.event.after.value)
  }

  /** A table that is right on the objects given is exact if it has no other pairs. */
  lemma ExactIff(env: FenceEnv, q: GeofenceQuery, pairs: set<Pair>, sources: Objects, targets: Objects)
    requires q.Roam? && RightOn(env, q, pairs, sources, targets)
    ensures pairs == NearPairs(env, q, sources, targets) <==> Covers(pairs, sources, targets)
  {
    hide Near;
    if Covers(pairs, sources, targets) {
      forall p: Pair ensures p in pairs <==> p in NearPairs(env, q, sources, targets) {
        assert p == (p.0, p.1);
      }
    }
  }

  ghost predicate Covers(pairs: set<Pair>, sources: Objects, targets: Objects) {
    forall p: Pair :: p in pairs ==> p.0 in sources && p.1 in targets
  }

  lemma SourceCovers(env: FenceEnv, r: Report, w: World, lookup: string -> seq<Object>, now: nat)
    requires r.def.query.Roam? && WellFormed(r.event) && r.event.collection == r.def.collection
    requires Keyed(w.targets) && Lists(lookup(r.def.query.targetCollection), Purge(now, w.targets))
    ensures Covers(NextPairs(env, r, w.state.pairs.Keys, lookup), Purge(now, Changed(w.sources, r.event)), Purge(now, w.targets))
       <==> (forall p :: p in w.state.pairs ==> Accounted(r, w, now, p)) && !Stillborn(env, r, w, now)
  {
    hide Near;
    PurgeChanged(w.sources, r.event, now);
    var pairs := w.state.pairs.Keys;
    var next, live := NextPairs(env, r, pairs, lookup), Purge(now, w.targets);
    var listed := lookup(r.def.query.targetCollection);
    var changed := Purge(now, Changed(w.sources, r.event));
    if p :| p in w.state.pairs && !Accounted(r, w, now, p) {
      assert p in next;
    } else if Stillborn(env, r, w, now) {
      var t :| t in live && Near(env, r.def.query, r.event.after.value, w.targets[t]);
      assert live[t] in listed;
      assert (r.event.id, live[t].id) in next && r.event.id !in changed;
    } else {
      forall p: Pair | p in next ensures p.0 in changed && p.1 in live {
        if p.0 == r.event.id {
          var t :| t in listed && Near(env, r.def.query, r.event.after.value, t) && p == (r.event.id, t.id);
        } else {
          assert Accounted(r, w, now, p);
        }
      }
    }
  }

  lemma TargetCovers(env: FenceEnv, r: Report, w: World, lookup: string -> seq<Object>, now: nat)
    requires CrossCollection(r.def) && WellFormed(r.event) && r.event.collection == r.def.query.targetCollection
    requires Keyed(w.sources) && Lists(lookup(r.def.collection), Purge(now, w.sources))
    ensures Covers(NextPairs(env, r, w.state.pairs.Keys, lookup), Purge(now, w.sources), Purge(now, Changed(w.targets, r.event)))
       <==> (forall p :: p in w.state.pairs ==> Accounted(r, w, now, p)) && !Stillborn(env, r, w, now)
  {
    hide Near;
    PurgeChanged(w.targets, r.event, now);
    var pairs := w.state.pairs.Keys;
    var next, live := NextPairs(env, r, pairs, lookup), Purge(now, w.sources);
    var listed := lookup(r.def.collection);
    var changed := Purge(now, Changed(w.targets, r.event));
    assert forall s :: s in IdsOf(listed) ==> s in live;
    if p :| p in w.state.pairs && !Accounted(r, w, now, p) {
      assert p in next;
    } else if Stillborn(env, r, w, now) {
      var s :| s in live && Near(env, r.def.query, w.sources[s], r.event.after.value);
      assert live[s] in listed && NearTracked(env, r, live[s]);
      assert (live[s].id, r.event.id) in next && r.event.id !in changed;
    } else {
      forall p: Pair | p in next ensures p.0 in live && p.1 in changed {
        if p.1 == r.event.id && p in TargetMatches(env, r, listed) {
          var s :| s in listed && NearTracked(env, r, s) && p == (s.id, r.event.id);
          assert live[s.id] == s && Near(env, r.def.query, w.sources[s.id], r.event.after.value);
        } else {
          assert Accounted(r, w, now, p);
        }
      }
    }
  }

  /** After a change the table holds exactly the near pairs if and only if the change
      clears every pair of a lapsed object and does not itself store one. */
  lemma {:induction false} StepExactIff(
      env: FenceEnv, r: Report, w: World, lookup: string -> seq<Object>, evaluation: Evaluation, next: World)
    requires CrossCollection(r.def) && Valid(env.search, r.def.query.options)
    requires Tracks(env, r.def.query, w) && Step(env, r, w, lookup, evaluation, next)
    ensures Exact(env, r.def.query, next) <==>
      (forall p :: p in w.state.pairs ==> Accounted(r, w, next.clock, p)) && !Stillborn(env, r, w, next.clock)
  {
    assert r.def.query.targetCollection != r.def.collection;
    hide *;
    var now := next.clock;
    StepKeepsTracking(env, r, w, lookup, evaluation, next);
    StepMeans(env, r, w, lookup, evaluation, next);
    TracksMeans(env, r.def.query, w);
    TracksMeans(env, r.def.query, next);
    ExactIff(env, r.def.query, next.state.pairs.Keys, Purge(now, next.sources), Purge(now, next.targets));
    if r.event.collection == r.def.collection {
      SourceCovers(env, r, w, lookup, now);
    } else if r.event.collection == r.def.query.targetCollection {
      TargetCovers(env, r, w, lookup, now);
    } else {
      NobodyCovers(env, r, w, lookup, now);
    }
  }

  lemma StepMeans(
      env: FenceEnv, r: Report, w: World, lookup: string -> seq<Object>, evaluation: Evaluation, next: World)
    requires r.def.query.Roam? && Step(env, r, w, lookup, evaluation, next) && evaluation.Done?
    ensures WellFormed(r.event) && w.clock <= next.clock
    ensures Lists(lookup(r.def.collection), Purge(next.clock, w.sources))
    ensures Lists(lookup(r.def.query.targetCollection), Purge(next.clock, w.targets))
    ensures next.state.pairs.Keys == NextPairs(env, r, w.state.pairs.Keys, lookup)
    ensures next.sources == if r.event.collection == r.def.collection then Changed(w.sources, r.event) else w.sources
    ensures next.targets ==
      if r.event.collection == r.def.query.targetCollection then Changed(w.targets, r.event) else w.targets
  {
    hide NextPairs, NextEvents, Lists, Changed, Filterable, Purge;
  }

  lemma TracksMeans(env: FenceEnv, q: GeofenceQuery, w: World)
    requires q.Roam? && Tracks(env, q, w)
    ensures Keyed(w.sources) && Keyed(w.targets)
    ensures RightOn(env, q, w.state.pairs.Keys, Purge(w.clock, w.sources), Purge(w.clock, w.targets))
    ensures Exact(env, q, w) <==>
      w.state.pairs.Keys == NearPairs(env, q, Purge(w.clock, w.sources), Purge(w.clock, w.targets))
  {
    hide RightOn, NearPairs, Purge;
  }

  /** A change elsewhere leaves the table alone. */
  lemma NobodyCovers(env: FenceEnv, r: Report, w: World, lookup: string -> seq<Object>, now: nat)
    requires r.def.query.Roam?
    requires r.event.collection != r.def.collection && r.event.collection != r.def.query.targetCollection
    ensures Covers(NextPairs(env, r, w.state.pairs.Keys, lookup), Purge(now, w.sources), Purge(now, w.targets))
       <==> (forall p :: p in w.state.pairs ==> Accounted(r, w, now, p)) && !Stillborn(env, r, w, now)
  {
    hide Near, Purge;
  }

  // Over runs: which pairs the table holds beside the near ones.

  /** The pair is in the table although a member has lapsed or is gone. */
  ghost predicate Stray(w: World, p: Pair) {
    p in w.state.pairs && (p.0 !in Purge(w.clock, w.sources) || p.1 !in Purge(w.clock, w.targets))
  }

  /** The move decides the pair anew: a change of its source, or of its target while its
      source has not lapsed. */
  ghost predicate Settles(def: GeofenceDef, w: World, move: Move, next: World, p: Pair)
    requires def.query.Roam?
  {
    move.Changes? &&
    var event := move.report.event;
    (event.collection == def.collection && p.0 == event.id) ||
    (event.collection == def.query.targetCollection && p.1 == event.id && p.0 in Purge(next.clock, w.sources))
  }

  /** The world at the time of a move, without the change it makes. */
  function Meanwhile(w: World, move: Move, next: World): World {
    if move.Changes? then w.(clock := next.clock) else next
  }

  /** A member of a pair in the table lapses or is swept, and the move does not decide
      the pair anew. */
  ghost predicate Abandons(def: GeofenceDef, w: World, move: Move, next: World, p: Pair)
    requires def.query.Roam?
  {
    var m := Meanwhile(w, move, next);
    p in w.state.pairs && !Stray(w, p) && !Settles(def, w, move, next, p) &&
    (p.0 !in Purge(m.clock, m.sources) || p.1 !in Purge(m.clock, m.targets))
  }

  /** A change stores an object past its deadline next to one that is not. */
  ghost predicate BearsDead(env: FenceEnv, def: GeofenceDef, w: World, move: Move, next: World, p: Pair)
    requires def.query.Roam?
  {
    move.Changes? &&
    var event := move.report.event;
    event.after.Some? && Expired(event.after.value, next.clock) &&
    ((event.collection == def.collection && p.0 == event.id && p.1 in Purge(next.clock, w.targets) &&
      Near(env, def.query, event.after.value, w.targets[p.1])) ||
     (event.collection == def.query.targetCollection && p.1 == event.id && p.0 in Purge(next.clock, w.sources) &&
      Near(env, def.query, w.sources[p.0], event.after.value)))
  }

  ghost predicate Strands(env: FenceEnv, def: GeofenceDef, w: World, move: Move, next: World, p: Pair)
    requires def.query.Roam?
  {
    Abandons(def, w, move, next, p) || BearsDead(env, def, w, move, next, p)
  }

  lemma {:induction false} StrayAfterSilence(env: FenceEnv, def: GeofenceDef, w: World, next: World, p: Pair)
    requires def.query.Roam? && Silent(w, next)
    ensures Stray(next, p) <==> Strands(env, def, w, Waits, next, p) || Stray(w, p)
  {
    hide Revises;
  }

  lemma {:induction false} StrayAfterSource(env: FenceEnv, def: GeofenceDef, w: World, move: Move, next: World, p: Pair)
    requires CrossCollection(def) && move.Changes? && move.report.def == def && w.clock <= next.clock
    requires move.report.event.collection == def.collection && WellFormed(move.report.event) && Keyed(w.targets)
    requires Lists(move.lookup(def.query.targetCollection), Purge(next.clock, w.targets))
    requires next.state.pairs.Keys == NextPairs(env, move.report, w.state.pairs.Keys, move.lookup)
    requires next.sources == Changed(w.sources, move.report.event) && next.targets == w.targets
    ensures Stray(next, p) <==>
      Strands(env, def, w, move, next, p) || (Stray(w, p) && !Settles(def, w, move, next, p))
  {
    hide Near;
    var event, live := move.report.event, Purge(next.clock, w.targets);
    var listed := move.lookup(def.query.targetCollection);
    PurgeChanged(w.sources, event, next.clock);
    assert p in next.state.pairs.Keys <==> p in next.state.pairs;
    if p.0 == event.id {
      assert p.1 in live ==> live[p.1] in listed;
      assert p in next.state.pairs <==>
        event.after.Some? && p.1 in live && Near(env, def.query, event.after.value, live[p.1]);
    } else {
      assert p in next.state.pairs <==> p in w.state.pairs;
    }
  }

  lemma {:induction false} StrayAfterTarget(env: FenceEnv, def: GeofenceDef, w: World, move: Move, next: World, p: Pair)
    requires CrossCollection(def) && move.Changes? && move.report.def == def && w.clock <= next.clock
    requires move.report.event.collection == def.query.targetCollection && WellFormed(move.report.event) && Keyed(w.sources)
    requires Lists(move.lookup(def.collection), Purge(next.clock, w.sources))
    requires next.state.pairs.Keys == NextPairs(env, move.report, w.state.pairs.Keys, move.lookup)
    requires next.sources == w.sources && next.targets == Changed(w.targets, move.report.event)
    ensures Stray(next, p) <==>
      Strands(env, def, w, move, next, p) || (Stray(w, p) && !Settles(def, w, move, next, p))
  {
    hide Near;
    var event, live := move.report.event, Purge(next.clock, w.sources);
    var listed := move.lookup(def.collection);
    PurgeChanged(w.targets, event, next.clock);
    assert p in next.state.pairs.Keys <==> p in next.state.pairs;
    assert p.0 in live <==> p.0 in IdsOf(listed) by {
      assert p.0 in live ==> live[p.0] in listed;
    }
    if p.1 == event.id && p.0 in live {
      assert live[p.0] in listed;
      assert p in next.state.pairs <==> NearTracked(env, move.report, live[p.0]);
    } else {
      assert p in next.state.pairs <==> p in w.state.pairs;
    }
  }

  lemma {:induction false} StrayAfterOther(env: FenceEnv, def: GeofenceDef, w: World, move: Move, next: World, p: Pair)
    requires def.query.Roam? && move.Changes? && move.report.def == def && w.clock <= next.clock && !Concerns(move.report)
    requires next.state.pairs.Keys == NextPairs(env, move.report, w.state.pairs.Keys, move.lookup)
    requires next.sources == w.sources && next.targets == w.targets
    ensures Stray(next, p) <==>
      Strands(env, def, w, move, next, p) || (Stray(w, p) && !Settles(def, w, move, next, p))
  {
    hide Near;
    assert p in next.state.pairs.Keys <==> p in next.state.pairs;
    assert p in w.state.pairs.Keys <==> p in w.state.pairs;
  }

  /** After a move a pair is stray exactly if the move strands it, or it was stray and
      the move does not decide it anew. */
  lemma {:induction false} StrayAfterMove(env: FenceEnv, def: GeofenceDef, w: World, move: Move, next: World, p: Pair)
    requires CrossCollection(def) && Valid(env.search, def.query.options)
    requires Tracks(env, def.query, w) && Moved(env, def, w, move, next)
    ensures Stray(next, p) <==>
      Strands(env, def, w, move, next, p) || (Stray(w, p) && !Settles(def, w, move, next, p))
  {
    MovedMeans(env, def, w, move, next);
    hide Step, Silent, Stray, Strands, Valid, Tracks, NextPairs, Lists, Changed;
    if move.Waits? {
      StrayAfterSilence(env, def, w, next, p);
    } else {
      var r := move.report;
      StepKeepsTracking(env, r, w, move.lookup, move.evaluation, next);
      StepMeans(env, r, w, move.lookup, move.evaluation, next);
      TracksMeans(env, def.query, w);
      if r.event.collection == def.collection {
        StrayAfterSource(env, def, w, move, next, p);
      } else if r.event.collection == def.query.targetCollection {
        StrayAfterTarget(env, def, w, move, next, p);
      } else {
        StrayAfterOther(env, def, w, move, next, p);
      }
    }
  }

  lemma MovedMeans(env: FenceEnv, def: GeofenceDef, w: World, move: Move, next: World)
    requires def.query.Roam? && Moved(env, def, w, move, next)
    ensures move.Waits? ==> Silent(w, next)
    ensures move.Changes? ==>
      move.report.def == def && w.clock <= next.clock && Step(env, move.report, w, move.lookup, move.evaluation, next)
  {
    hide Evaluated, Lists, Silent;
  }

  /** The `i`-th move strands the pair and none after it, up to the `n`-th, decides it. */
  ghost predicate StrandedBy(
      env: FenceEnv, def: GeofenceDef, moves: seq<Move>, worlds: seq<World>, n: nat, i: nat, p: Pair)
    requires def.query.Roam? && n <= |moves| < |worlds|
  {
    i < n && Strands(env, def, worlds[i], moves[i], worlds[i + 1], p) &&
    forall j :: i < j < n ==> !Settles(def, worlds[j], moves[j], worlds[j + 1], p)
  }

  ghost predicate Stranded(env: FenceEnv, def: GeofenceDef, moves: seq<Move>, worlds: seq<World>, n: nat, p: Pair)
    requires def.query.Roam? && n <= |moves| < |worlds|
  {
    exists i: nat :: StrandedBy(env, def, moves, worlds, n, i, p)
  }

  /** In every run a pair of the table has a member that lapsed or is gone exactly if some
      move let the member lapse, swept it, or stored it already past its deadline, and
      no later move decided the pair anew. */
  lemma {:induction false} StrayIff(
      env: FenceEnv, def: GeofenceDef, moves: seq<Move>, worlds: seq<World>, n: nat, p: Pair)
    requires CrossCollection(def) && Valid(env.search, def.query.options)
    requires Run(env, def, moves, worlds) && n < |worlds|
    ensures Stray(worlds[n], p) <==> Stranded(env, def, moves, worlds, n, p)
    decreases n
  {
    if n > 0 {
      var m := n - 1;
      StrayIff(env, def, moves, worlds, m, p);
      TableTracksLivePairs(env, def, moves, worlds, m);
      assert Moved(env, def, worlds[m], moves[m], worlds[n]);
      hide Run, Tracks, Stray, Strands, Settles, Valid, Moved;
      StrayAfterMove(env, def, worlds[m], moves[m], worlds[n], p);
      StrandedNext(env, def, moves, worlds, m, n, p);
    }
  }

  lemma {:induction false} StrandedNext(
      env: FenceEnv, def: GeofenceDef, moves: seq<Move>, worlds: seq<World>, m: nat, n: nat, p: Pair)
    requires def.query.Roam? && m < |moves| < |worlds| && n == m + 1
    ensures Stranded(env, def, moves, worlds, n, p) <==>
      Strands(env, def, worlds[m], moves[m], worlds[n], p) ||
      (Stranded(env, def, moves, worlds, m, p) && !Settles(def, worlds[m], moves[m], worlds[n], p))
  {
    hide Strands, Settles;
    if i: nat :| StrandedBy(env, def, moves, worlds, n, i, p) {
      assert i < m ==> StrandedBy(env, def, moves, worlds, m, i, p);
    }
    if Strands(env, def, worlds[m], moves[m], worlds[n], p) {
      assert StrandedBy(env, def, moves, worlds, n, m, p);
    }
    if i: nat :| StrandedBy(env, def, moves, worlds, m, i, p) && !Settles(def, worlds[m], moves[m], worlds[n], p) {
      assert StrandedBy(env, def, moves, worlds, n, i, p);
    }
  }

  /** In every run the table is exactly the near pairs of objects that have not lapsed if
      and only if no pair is stranded. */
  lemma {:induction false} TableExactIff(
      env: FenceEnv, def: GeofenceDef, moves: seq<Move>, worlds: seq<World>, n: nat)
    requires CrossCollection(def) && Valid(env.search, def.query.options)
    requires Run(env, def, moves, worlds) && n < |worlds|
    ensures Exact(env, def.query, worlds[n]) <==> forall p :: !Stranded(env, def, moves, worlds, n, p)
  {
    var w := worlds[n];
    TableTracksLivePairs(env, def, moves, worlds, n);
    TracksMeans(env, def.query, w);
    forall p ensures Stray(w, p) <==> Stranded(env, def, moves, worlds, n, p) {
      StrayIff(env, def, moves, worlds, n, p);
    }
    hide Run, Tracks, Stranded, Stray, Valid, Exact, NearPairs, RightOn, Purge;
    ExactIff(env, def.query, w.state.pairs.Keys, Purge(w.clock, w.sources), Purge(w.clock, w.targets));
    NoStrays(w);
  }

  lemma NoStrays(w: World)
    ensures (forall p :: !Stray(w, p)) <==>
      Covers(w.state.pairs.Keys, Purge(w.clock, w.sources), Purge(w.clock, w.targets))
  {
    hide Purge;
    if forall p :: !Stray(w, p) {
      forall p: Pair | p in w.state.pairs.Keys
        ensures p.0 in Purge(w.clock, w.sources) && p.1 in Purge(w.clock, w.targets)
      {
        assert !Stray(w, p);
      }
    }
  }

  /** No object lapses or is swept at the move, and none is stored past its deadline. */
  ghost predicate NothingLapses(w: World, move: Move, next: World) {
    var m := Meanwhile(w, move, next);
    Purge(w.clock, w.sources).Keys <= Purge(m.clock, m.sources).Keys &&
    Purge(w.clock, w.targets).Keys <= Purge(m.clock, m.targets).Keys &&
    (move.Changes? && move.report.event.after.Some? ==> !Expired(move.report.event.after.value, next.clock))
  }

  lemma NothingStranded(env: FenceEnv, def: GeofenceDef, w: World, move: Move, next: World, p: Pair)
    requires def.query.Roam? && NothingLapses(w, move, next)
    ensures !Strands(env, def, w, move, next, p)
  {
    hide Near, Purge, Settles;
  }

  /** After every run in which nothing lapses the table is exactly the pairs of stored
      objects that are filtered, tracked, distinct and within reach. */
  lemma {:induction false} TableIsExact(
      env: FenceEnv, def: GeofenceDef, moves: seq<Move>, worlds: seq<World>, n: nat)
    requires CrossCollection(def) && Valid(env.search, def.query.options)
    requires Run(env, def, moves, worlds) && n < |worlds|
    requires forall i :: 0 <= i < n ==> NothingLapses(worlds[i], moves[i], worlds[i + 1])
    ensures Exact(env, def.query, worlds[n])
  {
    TableExactIff(env, def, moves, worlds, n);
    assert |worlds| == |moves| + 1;
    hide Run, Exact, Valid, Strands, Settles;
    forall p ensures !Stranded(env, def, moves, worlds, n, p) {
      forall i | 0 <= i < n ensures !Strands(env, def, worlds[i], moves[i], worlds[i + 1], p) {
        assert NothingLapses(worlds[i], moves[i], worlds[i + 1]);
        NothingStranded(env, def, worlds[i], moves[i], worlds[i + 1], p);
      }
    }
  }

  // Events.

  function PairOf(e: FenceEvent): Pair {
    (e.id, if e.nearby.Some? then e.nearby.value.id else "")
  }

  ghost predicate Tells(events: set<FenceEvent>, p: Pair) {
    exists e :: e in events && PairOf(e) == p
  }

  /** The objects an evaluation at `now` sees: those not lapsed, with the change made. */
  function SeenSources(r: Report, w: World, now: nat): Objects {
    if r.event.collection == r.def.collection then Changed(Purge(now, w.sources), r.event) else Purge(now, w.sources)
  }

  function SeenTargets(r: Report, w: World, now: nat): Objects
    requires r.def.query.Roam?
  {
    if r.event.collection == r.def.query.targetCollection then Changed(Purge(now, w.targets), r.event)
    else Purge(now, w.targets)
  }

  function Seen(env: FenceEnv, r: Report, w: World, now: nat): set<Pair>
    requires r.def.query.Roam?
  {
    NearPairs(env, r.def.query, SeenSources(r, w, now), SeenTargets(r, w, now))
  }

  lemma SourceArrivals(
      env: FenceEnv, r: Report, pairs: set<Pair>, sources: Objects, targets: Objects, lookup: string -> seq<Object>, p: Pair)
    requires r.def.query.Roam? && WellFormed(r.event) && r.event.collection == r.def.collection
    requires Keyed(targets) && Lists(lookup(r.def.query.targetCollection), targets)
    ensures Tells(NextEvents(env, r, pairs, lookup), p) <==>
      p.0 == r.event.id && p in NearPairs(env, r.def.query, Changed(sources, r.event), targets) && Announced(r, pairs, p)
  {
    hide Near;
    var q, listed := r.def.query, lookup(r.def.query.targetCollection);
    var events := NextEvents(env, r, pairs, lookup);
    if p.0 == r.event.id && p in NearPairs(env, q, Changed(sources, r.event), targets) && Announced(r, pairs, p) {
      var source, target := r.event.after.value, targets[p.1];
      assert target in listed;
      assert RoamEvent(env, r, source, target) in events && PairOf(RoamEvent(env, r, source, target)) == p;
    }
  }

  lemma TargetArrivals(
      env: FenceEnv, r: Report, pairs: set<Pair>, sources: Objects, targets: Objects, lookup: string -> seq<Object>, p: Pair)
    requires CrossCollection(r.def) && WellFormed(r.event) && r.event.collection == r.def.query.targetCollection
    requires Keyed(sources) && Lists(lookup(r.def.collection), sources)
    ensures Tells(NextEvents(env, r, pairs, lookup), p) <==>
      p.1 == r.event.id && p in NearPairs(env, r.def.query, sources, Changed(targets, r.event)) && Announced(r, pairs, p)
  {
    hide Near;
    var q, listed := r.def.query, lookup(r.def.collection);
    var events := NextEvents(env, r, pairs, lookup);
    if p.1 == r.event.id && p in NearPairs(env, q, sources, Changed(targets, r.event)) && Announced(r, pairs, p) {
      var source, target := sources[p.0], r.event.after.value;
      assert source in listed && NearTracked(env, r, source);
      assert RoamEvent(env, r, source, target) in events && PairOf(RoamEvent(env, r, source, target)) == p;
    }
  }

  /** No pair is announced twice by one change. */
  lemma OneEventPerPair(env: FenceEnv, r: Report, pairs: set<Pair>, lookup: string -> seq<Object>, a: FenceEvent, b: FenceEvent)
    requires r.def.query.Roam?
    requires DistinctIds(lookup(r.def.collection)) && DistinctIds(lookup(r.def.query.targetCollection))
    requires a in NextEvents(env, r, pairs, lookup) && b in NextEvents(env, r, pairs, lookup)
    requires PairOf(a) == PairOf(b)
    ensures a == b
  {
    hide Near, Announced, NearTracked;
  }

  lemma {:induction false} EachOnce(events: seq<FenceEvent>, all: set<FenceEvent>, i: nat, j: nat)
    requires multiset(events) == multiset(all) && i < j < |events|
    ensures events[i] in all && events[j] in all && events[i] != events[j]
  {
    assert events[i] in multiset(events) && events[j] in multiset(events);
    assert forall e :: e in multiset(all) ==> e in all;
    assert events == events[..j] + [events[j]] + events[j + 1..];
    assert events[i] in events[..j];
  }

  /** The pair is near after the change and was not before, among what has not lapsed. */
  ghost predicate Arrives(env: FenceEnv, r: Report, w: World, now: nat, p: Pair)
    requires r.def.query.Roam?
  {
    p in Seen(env, r, w, now) && p !in NearPairs(env, r.def.query, Purge(now, w.sources), Purge(now, w.targets))
  }

  /** The changed object is in its place of the pair. */
  predicate Touches(r: Report, p: Pair)
    requires r.def.query.Roam?
  {
    (r.event.collection == r.def.collection && p.0 == r.event.id) ||
    (r.event.collection == r.def.query.targetCollection && p.1 == r.event.id)
  }

  /** The pair is near after the change, involves the changed object and is due for an event. */
  ghost predicate Due(env: FenceEnv, r: Report, w: World, now: nat, p: Pair)
    requires r.def.query.Roam?
  {
    Touches(r, p) && p in Seen(env, r, w, now) && Announced(r, w.state.pairs.Keys, p)
  }

  lemma DuePairsAreTold(
      env: FenceEnv, r: Report, w: World, lookup: string -> seq<Object>, now: nat, p: Pair)
    requires CrossCollection(r.def) && WellFormed(r.event) && Keyed(w.sources) && Keyed(w.targets)
    requires Lists(lookup(r.def.collection), Purge(now, w.sources))
    requires Lists(lookup(r.def.query.targetCollection), Purge(now, w.targets))
    ensures Tells(NextEvents(env, r, w.state.pairs.Keys, lookup), p) <==> Due(env, r, w, now, p)
  {
    hide NextEvents, NearPairs, Near, Lists, Tells, Announced;
    var pairs, sources, targets := w.state.pairs.Keys, Purge(now, w.sources), Purge(now, w.targets);
    if r.event.collection == r.def.collection {
      SourceArrivals(env, r, pairs, sources, targets, lookup, p);
    } else if r.event.collection == r.def.query.targetCollection {
      TargetArrivals(env, r, pairs, sources, targets, lookup, p);
    } else {
      NoConcern(env, r, pairs, lookup, p);
    }
  }

  /** Only pairs of the changed object can arrive. */
  lemma ArrivalsTouch(env: FenceEnv, r: Report, w: World, now: nat, p: Pair)
    requires r.def.query.Roam? && Arrives(env, r, w, now, p)
    ensures Touches(r, p)
  {
    hide Near;
  }

  /** The listed events are the given ones, each once. */
  lemma ListedEvents(
      env: FenceEnv, r: Report, pairs: set<Pair>, lookup: string -> seq<Object>, events: seq<FenceEvent>)
    requires r.def.query.Roam?
    requires DistinctIds(lookup(r.def.collection)) && DistinctIds(lookup(r.def.query.targetCollection))
    requires multiset(events) == multiset(NextEvents(env, r, pairs, lookup))
    ensures forall e :: e in events <==> e in NextEvents(env, r, pairs, lookup)
    ensures forall i, j :: 0 <= i < j < |events| ==> PairOf(events[i]) != PairOf(events[j])
  {
    hide NextEvents, DistinctIds;
    var all := NextEvents(env, r, pairs, lookup);
    assert forall e :: e in events <==> e in multiset(events);
    assert forall e :: e in all <==> e in multiset(all);
    forall i, j | 0 <= i < j < |events| ensures PairOf(events[i]) != PairOf(events[j]) {
      EachOnce(events, all, i, j);
      if PairOf(events[i]) == PairOf(events[j]) {
        OneEventPerPair(env, r, pairs, lookup, events[i], events[j]);
      }
    }
  }

  ghost predicate Told(events: seq<FenceEvent>, p: Pair) {
    exists e :: e in events && PairOf(e) == p
  }

  /** Exactly the near pairs of the changed object are announced, each once, if the
      command and detect filters allow; with NODWELL only those not in the table. */
  lemma AnnouncesDuePairs(
      env: FenceEnv, r: Report, w: World, lookup: string -> seq<Object>, evaluation: Evaluation, next: World, p: Pair)
    requires CrossCollection(r.def) && Valid(env.search, r.def.query.options)
    requires Keyed(w.sources) && Keyed(w.targets) && Step(env, r, w, lookup, evaluation, next)
    ensures evaluation.Done?
    ensures Told(evaluation.events, p) <==> Due(env, r, w, next.clock, p)
    ensures forall i, j :: 0 <= i < j < |evaluation.events| ==>
      PairOf(evaluation.events[i]) != PairOf(evaluation.events[j])
  {
    FiltersEvaluate(env, r.def.query, Consulted(r, lookup));
    hide NextEvents, NextPairs, NearPairs, Near, Due, PairOf, Filterable, Consulted, Valid, Changed;
    DuePairsAreTold(env, r, w, lookup, next.clock, p);
    ListedEvents(env, r, w.state.pairs.Keys, lookup, evaluation.events);
  }

  /** The event tells the moving object as it now is, its target and their distance. */
  ghost predicate Describes(env: FenceEnv, r: Report, next: World, e: FenceEvent)
    requires r.def.query.Roam?
  {
    e.detect == DetectType.Roaming && e.collection == r.def.collection && e.nearby.Some? &&
    e.command == r.event.command && e.timestamp == r.event.timestamp && e.hook == r.hook && e.group == r.group &&
    e.id in next.sources && e.nearby.value.id in next.targets &&
    var source, target := next.sources[e.id], next.targets[e.nearby.value.id];
    e.geo == source.geo && e.fields == source.fields && source.geo.Point? && target.geo.Point? &&
    e.nearby.value.collection == r.def.query.targetCollection &&
    e.nearby.value.meters == env.distance(source.geo.lat, source.geo.lon, target.geo.lat, target.geo.lon) &&
    e.nearby.value.meters <= r.def.query.meters
  }

  lemma PairDescribed(env: FenceEnv, r: Report, next: World, source: Object, target: Object)
    requires r.def.query.Roam? && Near(env, r.def.query, source, target)
    requires source.id in next.sources && next.sources[source.id] == source
    requires target.id in next.targets && next.targets[target.id] == target
    ensures Describes(env, r, next, RoamEvent(env, r, source, target))
  {
    hide Filtered;
  }

  lemma SourceEventDescribes(env: FenceEnv, r: Report, pairs: set<Pair>, lookup: string -> seq<Object>, next: World, e: FenceEvent)
    requires CrossCollection(r.def) && WellFormed(r.event) && r.event.collection == r.def.collection
    requires e in NextEvents(env, r, pairs, lookup)
    requires HasListed(next.targets, lookup(r.def.query.targetCollection))
    requires r.event.after.Some? ==> r.event.id in next.sources && next.sources[r.event.id] == r.event.after.value
    ensures Describes(env, r, next, e)
  {
    hide Near, Announced, Describes;
    var source, targets := r.event.after.value, lookup(r.def.query.targetCollection);
    var target :| target in targets && Near(env, r.def.query, source, target) && e == RoamEvent(env, r, source, target);
    PairDescribed(env, r, next, source, target);
  }

  lemma TargetEventDescribes(env: FenceEnv, r: Report, pairs: set<Pair>, lookup: string -> seq<Object>, next: World, e: FenceEvent)
    requires CrossCollection(r.def) && WellFormed(r.event) && r.event.collection != r.def.collection
    requires e in NextEvents(env, r, pairs, lookup)
    requires HasListed(next.sources, lookup(r.def.collection))
    requires r.event.after.Some? ==> r.event.id in next.targets && next.targets[r.event.id] == r.event.after.value
    ensures Describes(env, r, next, e)
  {
    hide Near, Announced, Describes;
    var sources, target := lookup(r.def.collection), r.event.after.value;
    var source :| source in sources && NearTracked(env, r, source) && e == RoamEvent(env, r, source, target);
    PairDescribed(env, r, next, source, target);
  }

  ghost predicate HasListed(objects: Objects, listed: seq<Object>) {
    forall o :: o in listed ==> o.id in objects && objects[o.id] == o
  }

  lemma ListedAreHeld(objects: Objects, listed: seq<Object>, now: nat)
    requires Lists(listed, Purge(now, objects))
    ensures HasListed(objects, listed)
  {
  }

  /** Every emitted event describes its pair after the change. */
  lemma EventsDescribePairs(
      env: FenceEnv, r: Report, w: World, lookup: string -> seq<Object>, evaluation: Evaluation, next: World, e: FenceEvent)
    requires CrossCollection(r.def) && Step(env, r, w, lookup, evaluation, next)
    requires evaluation.Done? && e in evaluation.events
    ensures Describes(env, r, next, e)
  {
    var pairs := w.state.pairs.Keys;
    assert e in multiset(evaluation.events);
    assert e in NextEvents(env, r, pairs, lookup);
    ListedAreHeld(w.sources, lookup(r.def.collection), next.clock);
    ListedAreHeld(w.targets, lookup(r.def.query.targetCollection), next.clock);
    hide Describes, Lists, NextPairs, Near, Filterable, HasListed, Purge;
    if r.event.collection == r.def.collection {
      SourceEventDescribes(env, r, pairs, lookup, next, e);
    } else if r.event.collection == r.def.query.targetCollection {
      TargetEventDescribes(env, r, pairs, lookup, next, e);
    }
  }

  /** With NODWELL an allowed event for a pair is emitted exactly when the pair goes
      from not near to near and is not left over in the table from before a member
      lapsed; an arrival that stays silent for that reason had a lapsed member. */
  lemma NodwellAnnouncesArrivals(
      env: FenceEnv, r: Report, w: World, lookup: string -> seq<Object>, evaluation: Evaluation, next: World, p: Pair)
    requires CrossCollection(r.def) && Valid(env.search, r.def.query.options) && r.def.query.nodwell && Emits(r)
    requires Tracks(env, r.def.query, w) && Step(env, r, w, lookup, evaluation, next)
    ensures evaluation.Done?
    ensures Told(evaluation.events, p) <==> Arrives(env, r, w, next.clock, p) && p !in w.state.pairs
    ensures Arrives(env, r, w, next.clock, p) && p in w.state.pairs ==>
      p.0 !in Purge(next.clock, w.sources) || p.1 !in Purge(next.clock, w.targets)
  {
    AnnouncesDuePairs(env, r, w, lookup, evaluation, next, p);
    RightOnLess(env, r.def.query, w, next.clock);
    hide Evaluated, Touches, Changed, Told, Lists, Seen, Valid, Near, Purge;
    assert p == (p.0, p.1);
    if Arrives(env, r, w, next.clock, p) {
      ArrivalsTouch(env, r, w, next.clock, p);
    }
  }

  lemma NoConcern(env: FenceEnv, r: Report, pairs: set<Pair>, lookup: string -> seq<Object>, p: Pair)
    requires r.def.query.Roam? && !Concerns(r)
    ensures !Tells(NextEvents(env, r, pairs, lookup), p)
  {
  }

  // A pair that outlives its source.

  const PLAIN := SearchOptions(0, 100, None, Asc, [], [], [])
  const HERE := Point(0.0, 0.0, None)
  const AWAY := Point(1.0, 1.0, None)

  function Fleet(id: string, geo: Geo, expiresAt: Option<nat>): Object {
    Object(id, geo, map[], expiresAt)
  }

  /** Vans watch depots; van `a` is near depot `b` until time 10. */
  const DEPOT_FENCE := GeofenceDef("vans", Roam("depots", "*", 50.0, PLAIN, true), [], [])
  const VAN := Fleet("a", HERE, Some(10))
  const PARKED := World(map["a" := VAN], map["b" := Fleet("b", HERE, None)], FenceState(map[], map[("a", "b") := true]), 0)

  /** At time 20 the depot moves away; the lapsed van is not looked up. */
  const LEAVES := Report(Mutation(SetCmd, "depots", "b", Some(Fleet("b", HERE, None)), Some(Fleet("b", AWAY, None)), 0),
                         DEPOT_FENCE, None, None)

  /** Then the van is set next to it. */
  const RETURNS := Report(Mutation(SetCmd, "vans", "a", Some(VAN), Some(Fleet("a", AWAY, None)), 0),
                          DEPOT_FENCE, None, None)

  ghost predicate Plain(env: FenceEnv) {
    env.search.glob("*", "a") && env.search.glob("*", "b") &&
    env.distance(0.0, 0.0, 0.0, 0.0) == 0.0 && env.distance(1.0, 1.0, 1.0, 1.0) == 0.0 &&
    env.distance(0.0, 0.0, 1.0, 1.0) > 50.0
  }

  /** The table keeps the pair, and the return, an arrival, is not announced. */
  lemma {:induction false} ReturnIsMissed(
      env: FenceEnv, lookup: string -> seq<Object>, evaluation: Evaluation, left: World,
      lookup2: string -> seq<Object>, evaluation2: Evaluation, back: World)
    requires Plain(env) && left.clock == back.clock == 20
    requires Step(env, LEAVES, PARKED, lookup, evaluation, left) && Step(env, RETURNS, left, lookup2, evaluation2, back)
    ensures Tracks(env, DEPOT_FENCE.query, PARKED) && Exact(env, DEPOT_FENCE.query, PARKED)
    ensures ("a", "b") in left.state.pairs && !Exact(env, DEPOT_FENCE.query, left)
    ensures Arrives(env, RETURNS, left, 20, ("a", "b")) && evaluation2.Done? && !Told(evaluation2.events, ("a", "b"))
  {
    var q := DEPOT_FENCE.query;
    PlainIsValid(env);
    ParkedIsExact(env);
    LapsedVanStays(env, lookup, evaluation, left);
    hide Step, Tracks, Arrives, Exact, Valid, Plain;
    StepKeepsTracking(env, LEAVES, PARKED, lookup, evaluation, left);
    ReturnArrives(env, left);
    NodwellAnnouncesArrivals(env, RETURNS, left, lookup2, evaluation2, back, ("a", "b"));
  }

  /** A PERSIST of the lapsed van after the depot has left makes the table wrong. */
  lemma {:induction false} PersistedVanIsWrong(
      env: FenceEnv, lookup: string -> seq<Object>, evaluation: Evaluation, left: World)
    requires Plain(env) && left.clock == 20 && Step(env, LEAVES, PARKED, lookup, evaluation, left)
    ensures "a" in left.sources && Tracks(env, DEPOT_FENCE.query, left)
    ensures !Tracks(env, DEPOT_FENCE.query, left.(sources := left.sources["a" := VAN.(expiresAt := None)]))
  {
    PlainIsValid(env);
    ParkedIsExact(env);
    LapsedVanStays(env, lookup, evaluation, left);
    hide Step, Tracks, Exact, Valid, Near;
    StepKeepsTracking(env, LEAVES, PARKED, lookup, evaluation, left);
    assert "a" !in Purge(20, left.sources) && "b" in Purge(20, left.targets);
    DepotIsFar(env);
    SilentSourceIff(env, DEPOT_FENCE.query, left, "a", VAN.(expiresAt := None), 20);
    assert ("a", "b") in left.state.pairs && !Near(env, DEPOT_FENCE.query, left.sources["a"], left.targets["b"]);
  }

  lemma DepotIsFar(env: FenceEnv)
    requires Plain(env)
    ensures !Near(env, DEPOT_FENCE.query, VAN, Fleet("b", AWAY, None))
  {
  }

  lemma PlainIsValid(env: FenceEnv)
    ensures Valid(env.search, PLAIN)
  {
  }

  lemma ParkedIsExact(env: FenceEnv)
    requires Plain(env)
    ensures Tracks(env, DEPOT_FENCE.query, PARKED) && Exact(env, DEPOT_FENCE.query, PARKED)
  {
    var q := DEPOT_FENCE.query;
    PlainPasses(env, VAN);
    assert Near(env, q, VAN, PARKED.targets["b"]);
    hide Near;
    assert Purge(0, PARKED.sources) == PARKED.sources && Purge(0, PARKED.targets) == PARKED.targets;
    assert NearPairs(env, q, PARKED.sources, PARKED.targets) == {("a", "b")};
  }

  lemma LapsedVanStays(env: FenceEnv, lookup: string -> seq<Object>, evaluation: Evaluation, left: World)
    requires Step(env, LEAVES, PARKED, lookup, evaluation, left) && left.clock == 20 && Valid(env.search, PLAIN)
    requires Tracks(env, DEPOT_FENCE.query, PARKED)
    ensures ("a", "b") in left.state.pairs && !Exact(env, DEPOT_FENCE.query, left)
    ensures left.sources == map["a" := VAN] && left.targets == map["b" := Fleet("b", AWAY, None)]
  {
    VanIsUnaccounted();
    hide Valid, Near, Exact, Tracks, Accounted, Stillborn, Step, NextPairs, Lists;
    StepExactIff(env, LEAVES, PARKED, lookup, evaluation, left);
    StepKeepsTracking(env, LEAVES, PARKED, lookup, evaluation, left);
    StepMeans(env, LEAVES, PARKED, lookup, evaluation, left);
    VanPairStays(env, lookup);
    assert PARKED.targets["b" := Fleet("b", AWAY, None)] == map["b" := Fleet("b", AWAY, None)];
  }

  lemma VanIsUnaccounted()
    ensures ("a", "b") in PARKED.state.pairs && !Accounted(LEAVES, PARKED, 20, ("a", "b"))
  {
  }

  lemma VanPairStays(env: FenceEnv, lookup: string -> seq<Object>)
    requires Lists(lookup("vans"), Purge(20, PARKED.sources))
    ensures ("a", "b") in NextPairs(env, LEAVES, PARKED.state.pairs.Keys, lookup)
  {
    assert "a" !in Purge(20, PARKED.sources);
    assert "a" !in IdsOf(lookup("vans"));
    hide Near;
  }

  lemma ReturnArrives(env: FenceEnv, left: World)
    requires Plain(env) && left.sources == map["a" := VAN] && left.targets == map["b" := Fleet("b", AWAY, None)]
    ensures Arrives(env, RETURNS, left, 20, ("a", "b"))
  {
    var van, depot := Fleet("a", AWAY, None), Fleet("b", AWAY, None);
    PlainPasses(env, van);
    assert Near(env, DEPOT_FENCE.query, van, depot);
    hide Near;
    assert SeenSources(RETURNS, left, 20)["a"] == van && SeenTargets(RETURNS, left, 20)["b"] == depot;
    assert "a" !in Purge(20, left.sources);
  }

  lemma PlainPasses(env: FenceEnv, o: Object)
    ensures Filtered(env, o, PLAIN) == Some(true)
  {
  }

  // One collection that watches itself.

  /** The change makes a difference to some other object that watches the changed one. */
  ghost predicate OthersNotice(env: FenceEnv, r: Report, objects: Objects, now: nat)
    requires r.def.query.Roam?
  {
    exists s :: s in objects && s != r.event.id && NoticedBy(env, r, objects, now, objects[s])
  }

  predicate NoticedBy(env: FenceEnv, r: Report, objects: Objects, now: nat, s: Object)
    requires r.def.query.Roam?
  {
    (r.event.id in objects && Near(env, r.def.query, s, objects[r.event.id])) !=
    (Arrived(r.event, now).Some? && Near(env, r.def.query, s, r.event.after.value))
  }

  /** A fence whose collection is its own target only updates the pairs in which the
      changed object is the source. A table that is exact at the time of the change
      therefore stays so if and only if no other object comes near to, or stops being
      near, the changed one, and the change does not store a pair of a lapsed object. */
  lemma {:induction false} SameCollectionExactIff(
      env: FenceEnv, r: Report, w: World, lookup: string -> seq<Object>, evaluation: Evaluation, next: World)
    requires r.def.query.Roam? && r.def.query.targetCollection == r.def.collection == r.event.collection
    requires Valid(env.search, r.def.query.options) && w.sources == w.targets && Keyed(w.sources)
    requires Exact(env, r.def.query, w.(clock := next.clock)) && Step(env, r, w, lookup, evaluation, next)
    ensures Exact(env, r.def.query, next) <==>
      !OthersNotice(env, r, Purge(next.clock, w.sources), next.clock) && !Stillborn(env, r, w, next.clock)
  {
    hide *;
    StepIsDone(env, r, w, lookup, evaluation, next);
    StepMeans(env, r, w, lookup, evaluation, next);
    ExactMeans(env, r.def.query, w.(clock := next.clock));
    ExactMeans(env, r.def.query, next);
    KeyedPurge(w.sources, next.clock);
    SelfSourceChange(env, r, Purge(next.clock, w.sources), lookup);
    OneSidedChange(env, r, w, next.clock);
  }

  lemma StepIsDone(
      env: FenceEnv, r: Report, w: World, lookup: string -> seq<Object>, evaluation: Evaluation, next: World)
    requires r.def.query.Roam? && Valid(env.search, r.def.query.options) && Step(env, r, w, lookup, evaluation, next)
    ensures evaluation.Done?
  {
    FiltersEvaluate(env, r.def.query, Consulted(r, lookup));
    hide Filterable, Valid, Lists, NextPairs, NextEvents, Consulted;
  }

  lemma ExactMeans(env: FenceEnv, q: GeofenceQuery, w: World)
    requires q.Roam?
    ensures Exact(env, q, w) <==>
      w.state.pairs.Keys == NearPairs(env, q, Purge(w.clock, w.sources), Purge(w.clock, w.targets))
  {
    hide NearPairs, Purge;
  }

  lemma KeyedPurge(objects: Objects, now: nat)
    requires Keyed(objects)
    ensures Keyed(Purge(now, objects))
  {
  }

  lemma SelfSourceChange(env: FenceEnv, r: Report, live: Objects, lookup: string -> seq<Object>)
    requires r.def.query.Roam? && WellFormed(r.event) && r.event.collection == r.def.collection
    requires Keyed(live) && Lists(lookup(r.def.query.targetCollection), live)
    ensures NextPairs(env, r, NearPairs(env, r.def.query, live, live), lookup)
         == NearPairs(env, r.def.query, Changed(live, r.event), live)
  {
    hide Near;
    var listed := lookup(r.def.query.targetCollection);
    var next := NextPairs(env, r, NearPairs(env, r.def.query, live, live), lookup);
    var near := NearPairs(env, r.def.query, Changed(live, r.event), live);
    forall p: Pair | p in near ensures p in next {
      if p.0 == r.event.id {
        assert live[p.1] in listed;
      }
    }
    assert forall p :: p in next ==> p in near;
  }

  /** What is stored after the change against what is near after it, pair by pair. */
  lemma {:induction false} OneSidedChange(env: FenceEnv, r: Report, w: World, now: nat)
    requires r.def.query.Roam? && r.def.query.targetCollection == r.def.collection == r.event.collection
    requires WellFormed(r.event) && Keyed(w.sources) && w.sources == w.targets
    ensures
      var live, after := Purge(now, w.sources), Purge(now, Changed(w.sources, r.event));
      NearPairs(env, r.def.query, Changed(live, r.event), live) == NearPairs(env, r.def.query, after, after)
      <==> !OthersNotice(env, r, live, now) && !Stillborn(env, r, w, now)
  {
    var live, after := Purge(now, w.sources), Purge(now, Changed(w.sources, r.event));
    var stored, near := NearPairs(env, r.def.query, Changed(live, r.event), live), NearPairs(env, r.def.query, after, after);
    forall p: Pair ensures Differs(env, r, live, now, p) <==> !(p in stored <==> p in near) {
      DiffersMeans(env, r, w, now, p);
    }
    hide NearPairs, Changed, Near, NoticedBy, Purge;
    if OthersNotice(env, r, live, now) {
      var s :| s in live && s != r.event.id && NoticedBy(env, r, live, now, live[s]);
      assert Differs(env, r, live, now, (s, r.event.id));
    } else if Stillborn(env, r, w, now) {
      var t :| t in live && Near(env, r.def.query, r.event.after.value, w.targets[t]);
      assert Differs(env, r, live, now, (r.event.id, t));
    } else {
      assert forall p: Pair :: !Differs(env, r, live, now, p);
    }
  }

  /** The pair is stored but not near after the change, or near but not stored. */
  ghost predicate Differs(env: FenceEnv, r: Report, live: Objects, now: nat, p: Pair)
    requires r.def.query.Roam?
  {
    (p.1 == r.event.id && p.0 in live && p.0 != r.event.id && NoticedBy(env, r, live, now, live[p.0])) ||
    (p.0 == r.event.id && p.1 in live && r.event.after.Some? && Expired(r.event.after.value, now) &&
     Near(env, r.def.query, r.event.after.value, live[p.1]))
  }

  lemma {:induction false} DiffersMeans(env: FenceEnv, r: Report, w: World, now: nat, p: Pair)
    requires r.def.query.Roam? && WellFormed(r.event) && Keyed(w.sources)
    ensures
      var live, after := Purge(now, w.sources), Purge(now, Changed(w.sources, r.event));
      Differs(env, r, live, now, p) <==>
        !(p in NearPairs(env, r.def.query, Changed(live, r.event), live) <==> p in NearPairs(env, r.def.query, after, after))
  {
    var live, after := Purge(now, w.sources), Purge(now, Changed(w.sources, r.event));
    SelfNeverNear(env, r, live);
    PurgeChanged(w.sources, r.event, now);
    hide Near, Purge;
    PairIsNear(env, r.def.query, Changed(live, r.event), live, p);
    PairIsNear(env, r.def.query, after, after, p);
    hide NearPairs;
  }

  lemma PairIsNear(env: FenceEnv, q: GeofenceQuery, sources: Objects, targets: Objects, p: Pair)
    requires q.Roam?
    ensures p in NearPairs(env, q, sources, targets) <==>
      p.0 in sources && p.1 in targets && Near(env, q, sources[p.0], targets[p.1])
  {
    hide Near;
    assert p == (p.0, p.1);
  }

  lemma SelfNeverNear(env: FenceEnv, r: Report, objects: Objects)
    requires r.def.query.Roam? && WellFormed(r.event) && Keyed(objects)
    ensures r.event.after.Some? ==> !Near(env, r.def.query, r.event.after.value, r.event.after.value)
    ensures r.event.after.Some? && r.event.id in objects ==>
      !Near(env, r.def.query, r.event.after.value, objects[r.event.id])
  {
  }

  /** Two objects in the same place, and a fence by which the collection watches itself. */
  const SELF_FENCE := GeofenceDef("fleet", Roam("fleet", "*", 50.0, PLAIN, true), [], [])
  const BOTH := map["a" := Fleet("a", HERE, None), "b" := Fleet("b", HERE, None)]
  const TOGETHER := World(BOTH, BOTH, FenceState(map[], map[("a", "b") := true, ("b", "a") := true]), 0)
  const PARTS := Report(Mutation(SetCmd, "fleet", "b", Some(Fleet("b", HERE, None)), Some(Fleet("b", AWAY, None)), 0),
                        SELF_FENCE, None, None)

  /** `b` drives away from `a`: `a` was near `b` and no longer is, which the fence misses. */
  lemma {:induction false} PartingIsMissed(
      env: FenceEnv, lookup: string -> seq<Object>, evaluation: Evaluation, next: World)
    requires Plain(env) && Step(env, PARTS, TOGETHER, lookup, evaluation, next)
    ensures Exact(env, SELF_FENCE.query, TOGETHER) && !Exact(env, SELF_FENCE.query, next)
  {
    PlainIsValid(env);
    TogetherIsExact(env, next.clock);
    PartingIsNoticed(env, next.clock);
    hide Valid, Near, Step, Exact, OthersNotice;
    SameCollectionExactIff(env, PARTS, TOGETHER, lookup, evaluation, next);
  }

  lemma NothingLapsesIn(objects: Objects, now: nat)
    requires forall id :: id in objects ==> objects[id].expiresAt == None
    ensures Purge(now, objects) == objects
  {
  }

  lemma TogetherIsExact(env: FenceEnv, now: nat)
    requires Plain(env)
    ensures Purge(now, BOTH) == BOTH && Exact(env, SELF_FENCE.query, TOGETHER.(clock := now))
    ensures Exact(env, SELF_FENCE.query, TOGETHER)
  {
    var q := SELF_FENCE.query;
    var a, b := BOTH["a"], BOTH["b"];
    PlainPasses(env, a);
    PlainPasses(env, b);
    assert Near(env, q, a, b) && Near(env, q, b, a) && !Near(env, q, a, a) && !Near(env, q, b, b);
    hide Near;
    NothingLapsesIn(BOTH, now);
    NothingLapsesIn(BOTH, 0);
    assert NearPairs(env, q, BOTH, BOTH) == {("a", "b"), ("b", "a")};
  }

  lemma PartingIsNoticed(env: FenceEnv, now: nat)
    requires Plain(env) && Purge(now, BOTH) == BOTH
    ensures OthersNotice(env, PARTS, BOTH, now)
  {
    var a := BOTH["a"];
    PlainPasses(env, a);
    assert NoticedBy(env, PARTS, BOTH, now, a);
  }
}
