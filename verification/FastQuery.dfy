/** The shortcut for limited queries that only want ids: it visits the index entries of
    one filter and stops at the limit (crates/latlng-core/src/lib.rs). */
module FastQuery {
  import opened Types
  import opened Catalog
  import opened FieldIndexing
  import opened Filters
  import opened Order
  import opened Collections
  import opened FieldQuery

  // The filter that is visited.

  predicate UsableWhere(env: SearchEnv, filter: WhereFilter) {
    IsTopLevel(filter.field) && !MatchesZero(env, filter)
  }

  predicate UsableWhereIn(env: SearchEnv, filter: WhereIn) {
    IsTopLevel(filter.field) && forall i :: 0 <= i < |filter.values| ==> !ParsesToZero(env, filter.values[i])
  }

  datatype Choice = NoFilter | ByWhere(where: WhereFilter) | ByWhereIn(whereIn: WhereIn)

  function FirstWhereIn(env: SearchEnv, filters: seq<WhereIn>): Choice {
    if filters == [] then NoFilter
    else if UsableWhereIn(env, filters[0]) then ByWhereIn(filters[0])
    else FirstWhereIn(env, filters[1..])
  }

  function FirstWhere(env: SearchEnv, filters: seq<WhereFilter>): Choice {
    if filters == [] then NoFilter
    else if UsableWhere(env, filters[0]) then ByWhere(filters[0])
    else FirstWhere(env, filters[1..])
  }

  /** The first usable WHERE filter, or else the first usable WHEREIN filter. */
  function Chosen(env: SearchEnv, options: SearchOptions): Choice {
    var where := FirstWhere(env, options.whereFilters);
    if where.NoFilter? then FirstWhereIn(env, options.whereIn) else where
  }

  lemma {:induction false} FirstWhereIsOne(env: SearchEnv, filters: seq<WhereFilter>)
    ensures var c := FirstWhere(env, filters);
            !c.ByWhereIn? && (c.ByWhere? ==> c.where in filters && UsableWhere(env, c.where))
  {
    if filters != [] {
      FirstWhereIsOne(env, filters[1..]);
    }
  }

  lemma {:induction false} FirstWhereInIsOne(env: SearchEnv, filters: seq<WhereIn>)
    ensures var c := FirstWhereIn(env, filters);
            !c.ByWhere? && (c.ByWhereIn? ==> c.whereIn in filters && UsableWhereIn(env, c.whereIn))
  {
    if filters != [] {
      FirstWhereInIsOne(env, filters[1..]);
    }
  }

  /** What visiting the chosen filter amounts to. Unlike the ordinary query, a range
      on a field without numbers visits nothing and counts as answered. */
  function Visited(env: SearchEnv, numeric: Index<real>, text: Index<string>, c: Choice): Answer {
    match c
    case NoFilter => Unusable
    case ByWhere(filter) =>
      (match filter.comparison
       case Range(min, max) =>
         if filter.field in numeric && min > max then Panics else Ids(InRange(numeric, filter.field, min, max))
       case EqualsText(expected) => Ids(WithValue(text, filter.field, expected))
       case Regex(_) => Unusable)
    case ByWhereIn(filter) =>
      Ids(TextIds(text, filter.field, filter.values) + ParsedIds(env, numeric, filter.field, filter.values))
  }

  // Visiting.

  ghost predicate DisjointBuckets(index: Index<real>) {
    forall f, v, w :: v != w ==> WithValue(index, f, v) !! WithValue(index, f, w)
  }

  /** One object is in at most one bucket of a field. */
  lemma BucketsAreDisjoint(objects: Objects, numeric: Index<real>, text: Index<string>)
    requires Exact(objects, numeric, text)
    ensures DisjointBuckets(numeric)
  {
    forall f, v, w, id | v != w && id in WithValue(numeric, f, v) ensures id !in WithValue(numeric, f, w) {
      assert Holds(numeric, f, v, id);
      assert !Holds(numeric, f, w, id);
    }
  }

  /** The loops over the buckets of a range: no id is visited twice. */
  method VisitRange(index: Index<real>, field: string, min: real, max: real) returns (order: seq<string>)
    requires DisjointBuckets(index)
    ensures Distinct(order) && forall id :: id in order <==> id in InRange(index, field, min, max)
  {
    order := [];
    if field !in index {
      return;
    }
    var left := set v | v in index[field] && min <= v <= max;
    ghost var all := left;
    while left != {}
      invariant left <= all && Distinct(order)
      invariant forall id :: id in order <==> exists v :: v in all - left && id in WithValue(index, field, v)
      decreases |left|
    {
      var v :| v in left;
      var ids := Listed(index[field][v]);
      Fresh(index, field, all - left, v, order, ids);
      assert all - (left - {v}) == all - left + {v};
      order, left := order + ids, left - {v};
    }
    RangeIsBuckets(index, field, min, max, all);
    assert all - left == all;
  }

  lemma RangeIsBuckets(index: Index<real>, field: string, min: real, max: real, all: set<real>)
    requires field in index && all == set v | v in index[field] && min <= v <= max
    ensures forall id :: id in InRange(index, field, min, max) <==> exists v :: v in all && id in WithValue(index, field, v)
  {
    forall id | id in InRange(index, field, min, max) ensures exists v :: v in all && id in WithValue(index, field, v) {
      var v :| v in index[field] && min <= v <= max && id in index[field][v];
      assert v in all && id in WithValue(index, field, v);
    }
  }

  lemma Fresh(index: Index<real>, field: string, done: set<real>, v: real, order: seq<string>, ids: seq<string>)
    requires DisjointBuckets(index) && v !in done && Distinct(order) && Distinct(ids)
    requires forall id :: id in order <==> exists w :: w in done && id in WithValue(index, field, w)
    requires forall id :: id in ids <==> id in WithValue(index, field, v)
    ensures Distinct(order + ids)
    ensures forall id :: id in order + ids <==> exists w :: w in done + {v} && id in WithValue(index, field, w)
  {
    hide WithValue;
    assert forall w :: w in done ==> WithValue(index, field, v) !! WithValue(index, field, w);
    var both := order + ids;
    forall i, j | 0 <= i < j < |both| ensures both[i] != both[j] {
      if i < |order| <= j {
        assert both[i] in order && both[j] in ids;
      }
    }
    forall id | id in order + ids ensures exists w :: w in done + {v} && id in WithValue(index, field, w) {
      if id in order {
        var w :| w in done && id in WithValue(index, field, w);
        assert w in done + {v};
      } else {
        assert v in done + {v};
      }
    }
  }

  /** `visit_where_filter_ids` and `visit_where_in_filter_ids` on a usable filter. */
  method VisitFilter(env: SearchEnv, numeric: Index<real>, text: Index<string>, c: Choice)
    returns (a: Answer, order: seq<string>)
    requires DisjointBuckets(numeric)
    ensures a == Visited(env, numeric, text, c)
    ensures a.Ids? ==> Distinct(order) && forall id :: id in order <==> id in a.ids
  {
    hide DisjointBuckets, Distinct;
    a, order := Visited(env, numeric, text, c), [];
    match c {
      case ByWhere(filter) =>
        if filter.comparison.Range? {
          order := VisitRange(numeric, filter.field, filter.comparison.min, filter.comparison.max);
        } else if filter.comparison.EqualsText? {
          order := Listed(a.ids);
        }
      case ByWhereIn(_) =>
        order := Listed(a.ids);
      case NoFilter =>
    }
  }

  /** `visit_candidate_ids`: filters in turn, until one can be used. */
  method VisitCandidateIds(env: SearchEnv, numeric: Index<real>, text: Index<string>, options: SearchOptions)
    returns (a: Answer, order: seq<string>)
    requires DisjointBuckets(numeric)
    ensures a == Visited(env, numeric, text, Chosen(env, options))
    ensures a.Ids? ==> Distinct(order) && forall id :: id in order <==> id in a.ids
  {
    hide DisjointBuckets, Distinct, Visited, UsableWhere, UsableWhereIn;
    var wheres, ins := options.whereFilters, options.whereIn;
    var i := 0;
    while i < |wheres|
      invariant 0 <= i <= |wheres| && FirstWhere(env, wheres) == FirstWhere(env, wheres[i..])
    {
      assert wheres[i..][0] == wheres[i] && wheres[i..][1..] == wheres[i + 1..];
      if UsableWhere(env, wheres[i]) {
        a, order := VisitFilter(env, numeric, text, ByWhere(wheres[i]));
        return;
      }
      i := i + 1;
    }
    i := 0;
    while i < |ins|
      invariant 0 <= i <= |ins| && FirstWhereIn(env, ins) == FirstWhereIn(env, ins[i..])
    {
      assert ins[i..][0] == ins[i] && ins[i..][1..] == ins[i + 1..];
      if UsableWhereIn(env, ins[i]) {
        a, order := VisitFilter(env, numeric, text, ByWhereIn(ins[i]));
        return;
      }
      i := i + 1;
    }
    a, order := VisitFilter(env, numeric, text, NoFilter);
  }

  // Collecting.

  datatype FastResult = Declined | Crashed | Results(ids: seq<string>)

  ghost function SelectedOf(
      env: SearchEnv, objects: Objects, now: nat, stringsOnly: bool, options: SearchOptions, ids: set<string>): set<string> {
    set id | id in ids && Selected(env, objects, now, stringsOnly, options, id)
  }

  /** What the shortcut may return: distinct matches among the ids visited, as many as
      there are up to the limit. */
  ghost predicate Collects(
      env: SearchEnv, objects: Objects, now: nat, stringsOnly: bool, options: SearchOptions, a: Answer, r: FastResult) {
    match a
    case Unusable => r == Declined
    case Panics => r == Crashed
    case Ids(ids) =>
      var all := SelectedOf(env, objects, now, stringsOnly, options, ids);
      r.Results? && Distinct(r.ids) && (forall id :: id in r.ids ==> id in all) &&
      |r.ids| == Min(AtLeastOne(options.limit), |all|)
  }

  /** The visiting closure with its limit. */
  method CollectMatches(
      env: SearchEnv, objects: Objects, now: nat, stringsOnly: bool, options: SearchOptions,
      ghost ids: set<string>, order: seq<string>)
      returns (results: seq<string>)
    requires Filters.Valid(env, options) && Distinct(order) && forall id :: id in order <==> id in ids
    ensures Collects(env, objects, now, stringsOnly, options, Ids(ids), Results(results))
  {
    hide AllMatch, Selected, MatchesCandidate, Filters.Valid;
    var limit := AtLeastOne(options.limit);
    results := [];
    var i := 0;
    while i < |order| && |results| < limit
      invariant 0 <= i <= |order| && |results| <= limit && Distinct(results)
      invariant forall id :: id in results <==> id in order[..i] && Selected(env, objects, now, stringsOnly, options, id)
    {
      var id := order[i];
      assert id !in order[..i];
      assert order[..i + 1] == order[..i] + [id];
      SelectedMeans(env, objects, now, stringsOnly, options, id);
      if id in objects && !Expired(objects[id], now) && (stringsOnly ==> objects[id].geo.Str?) {
        if MatchesCandidate(env, objects[id], options) == Known(true) {
          results := results + [id];
        }
      }
      i := i + 1;
    }
    if i == |order| {
      assert order[..i] == order;
    }
    CountUpTo(SelectedOf(env, objects, now, stringsOnly, options, ids), results, limit, i < |order|);
  }

  lemma SelectedMeans(
      env: SearchEnv, objects: Objects, now: nat, stringsOnly: bool, options: SearchOptions, id: string)
    requires Filters.Valid(env, options)
    ensures Selected(env, objects, now, stringsOnly, options, id) <==>
      id in objects && !Expired(objects[id], now) && (stringsOnly ==> objects[id].geo.Str?) &&
      MatchesCandidate(env, objects[id], options) == Known(true)
  {
    if id in objects {
      ValidatedNeverFails(env, objects[id], options);
    }
    hide AllMatch, MatchesCandidate, Filters.Valid;
  }

  lemma {:induction false} CountUpTo(all: set<string>, results: seq<string>, limit: nat, stopped: bool)
    requires Distinct(results) && |results| <= limit && (stopped ==> |results| == limit)
    requires forall id :: id in results ==> id in all
    requires !stopped ==> forall id :: id in all ==> id in results
    ensures |results| == Min(limit, |all|)
  {
    DistinctSize(results);
    var taken := set id | id in results;
    SubsetSize(taken, all);
    if !stopped {
      assert taken == all;
    }
  }

  /** `fast_indexed_results`; `limitedIds` says whether the query qualifies. */
  method FastIndexedResults(
      env: SearchEnv, objects: Objects, numeric: Index<real>, text: Index<string>,
      now: nat, stringsOnly: bool, options: SearchOptions, limitedIds: bool)
      returns (r: FastResult)
    requires Filters.Valid(env, options) && Exact(objects, numeric, text)
    ensures if limitedIds then
              Collects(env, objects, now, stringsOnly, options, Visited(env, numeric, text, Chosen(env, options)), r)
            else r == Declined
  {
    hide *;
    if !limitedIds {
      return Declined;
    }
    BucketsAreDisjoint(objects, numeric, text);
    var a, order := VisitCandidateIds(env, numeric, text, options);
    match a {
      case Unusable => r := Declined;
      case Panics => r := Crashed;
      case Ids(ids) =>
        var results := CollectMatches(env, objects, now, stringsOnly, options, ids, order);
        r := Results(results);
    }
    EmptyHanded(env, objects, now, stringsOnly, options);
  }

  lemma EmptyHanded(env: SearchEnv, objects: Objects, now: nat, stringsOnly: bool, options: SearchOptions)
    ensures Collects(env, objects, now, stringsOnly, options, Unusable, Declined)
    ensures Collects(env, objects, now, stringsOnly, options, Panics, Crashed)
  {
  }

  // When the shortcut is right.

  /** The chosen filter compares the field with the type the object stores. */
  predicate CoveredBy(env: SearchEnv, c: Choice, o: Object) {
    match c
    case NoFilter => true
    case ByWhere(filter) => Covered(env, o, filter)
    case ByWhereIn(filter) => CoveredIn(env, o, filter)
  }

  /** A matching object is visited exactly when the chosen filter covers it. */
  lemma {:induction false} VisitedIff(
      env: SearchEnv, objects: Objects, numeric: Index<real>, text: Index<string>, options: SearchOptions, id: string)
    requires Exact(objects, numeric, text) && Lawful(env) && id in objects && AllMatch(env, objects[id], options)
    requires Visited(env, numeric, text, Chosen(env, options)).Ids?
    ensures id in Visited(env, numeric, text, Chosen(env, options)).ids <==>
      CoveredBy(env, Chosen(env, options), objects[id])
  {
    FirstWhereIsOne(env, options.whereFilters);
    FirstWhereInIsOne(env, options.whereIn);
    match Chosen(env, options) {
      case ByWhere(filter) =>
        WhereVisitedIff(env, objects, numeric, text, filter, id);
      case ByWhereIn(filter) =>
        WhereInAnswerIff(env, objects, numeric, text, filter, id);
      case NoFilter =>
    }
  }

  lemma {:induction false} WhereVisitedIff(
      env: SearchEnv, objects: Objects, numeric: Index<real>, text: Index<string>, filter: WhereFilter, id: string)
    requires Exact(objects, numeric, text) && id in objects && UsableWhere(env, filter)
    requires MatchesWhere(env, objects[id], filter) == Known(true)
    requires Visited(env, numeric, text, ByWhere(filter)).Ids?
    ensures id in Visited(env, numeric, text, ByWhere(filter)).ids <==> Covered(env, objects[id], filter)
  {
    if filter.field in numeric || !filter.comparison.Range? {
      WhereAnswerIff(env, objects, numeric, text, filter, id);
    } else {
      InRangeMeaning(objects, numeric, text, filter.field, filter.comparison.min, filter.comparison.max, id);
    }
  }

  /** The full answer to a limited query: distinct matches, as many as asked for and
      there are. */
  ghost predicate InFull(r: FastResult, limit: nat, full: set<string>) {
    r.Results? && Distinct(r.ids) && (forall id :: id in r.ids ==> id in full) && |r.ids| == Min(limit, |full|)
  }

  /** The live matches the chosen filter covers. */
  ghost function CoveredMatches(
      env: SearchEnv, objects: Objects, now: nat, stringsOnly: bool, options: SearchOptions): set<string> {
    set id | id in FullScan(env, objects, now, stringsOnly, options) && CoveredBy(env, Chosen(env, options), objects[id])
  }

  lemma {:induction false} VisitsCoveredMatches(
      env: SearchEnv, objects: Objects, numeric: Index<real>, text: Index<string>,
      now: nat, stringsOnly: bool, options: SearchOptions)
    requires Exact(objects, numeric, text) && Lawful(env)
    requires Visited(env, numeric, text, Chosen(env, options)).Ids?
    ensures SelectedOf(env, objects, now, stringsOnly, options, Visited(env, numeric, text, Chosen(env, options)).ids)
         == CoveredMatches(env, objects, now, stringsOnly, options)
  {
    var c := Chosen(env, options);
    forall id | id in objects && Selected(env, objects, now, stringsOnly, options, id)
      ensures id in Visited(env, numeric, text, c).ids <==> CoveredBy(env, c, objects[id])
    {
      VisitedIff(env, objects, numeric, text, options, id);
    }
    hide Exact, AllMatch, Visited, CoveredBy, Chosen;
  }

  /** A usable query is answered in full by the shortcut exactly when its chosen filter
      is not a backwards range and covers every live match or at least as many as the
      limit asks for. */
  lemma {:induction false} FastResultsIff(
      env: SearchEnv, objects: Objects, numeric: Index<real>, text: Index<string>,
      now: nat, stringsOnly: bool, options: SearchOptions, r: FastResult)
    requires Exact(objects, numeric, text) && Lawful(env) && !Chosen(env, options).NoFilter?
    requires Collects(env, objects, now, stringsOnly, options, Visited(env, numeric, text, Chosen(env, options)), r)
    ensures
      var full := FullScan(env, objects, now, stringsOnly, options);
      var covered := CoveredMatches(env, objects, now, stringsOnly, options);
      var limit := AtLeastOne(options.limit);
      InFull(r, limit, full) <==>
        !(Chosen(env, options).ByWhere? && Backwards(numeric, Chosen(env, options).where)) &&
        (covered == full || |covered| >= limit)
  {
    var c := Chosen(env, options);
    ChosenIsUsable(env, numeric, text, options);
    hide Visited, Chosen, Exact, CoveredBy, Selected, Backwards;
    if Visited(env, numeric, text, c).Ids? {
      VisitsCoveredMatches(env, objects, numeric, text, now, stringsOnly, options);
      var full, covered := FullScan(env, objects, now, stringsOnly, options), CoveredMatches(env, objects, now, stringsOnly, options);
      SubsetSize(covered, full);
      if |covered| == |full| {
        SameSize(covered, full);
      }
    }
  }

  /** With ranges the right way round and fields stored with the types compared, or not at
      all, the shortcut declines or returns as many matches as asked for and there are. */
  lemma {:induction false} FastResultsAreFull(
      env: SearchEnv, objects: Objects, numeric: Index<real>, text: Index<string>,
      now: nat, stringsOnly: bool, options: SearchOptions, r: FastResult)
    requires Exact(objects, numeric, text) && Lawful(env)
    requires forall f :: f in options.whereFilters && f.comparison.Range? ==> f.comparison.min <= f.comparison.max
    requires forall id :: id in objects && Live(objects, now, stringsOnly, id) ==> Suits(objects[id], options)
    requires Collects(env, objects, now, stringsOnly, options, Visited(env, numeric, text, Chosen(env, options)), r)
    ensures r == Declined || InFull(r, AtLeastOne(options.limit), FullScan(env, objects, now, stringsOnly, options))
  {
    var c := Chosen(env, options);
    if !c.NoFilter? {
      FirstWhereIsOne(env, options.whereFilters);
      FirstWhereInIsOne(env, options.whereIn);
      forall id | id in objects && Selected(env, objects, now, stringsOnly, options, id)
        ensures CoveredBy(env, c, objects[id])
      {
        SuitedIsCoveredBy(env, options, objects[id]);
      }
      FastResultsIff(env, objects, numeric, text, now, stringsOnly, options, r);
      hide Visited, Chosen, Exact, CoveredBy, Selected, Suits, AllMatch, FirstWhere, FirstWhereIn;
    }
  }

  lemma {:induction false} SuitedIsCoveredBy(env: SearchEnv, options: SearchOptions, o: Object)
    requires Lawful(env) && Suits(o, options) && AllMatch(env, o, options) && !Chosen(env, options).NoFilter?
    ensures CoveredBy(env, Chosen(env, options), o)
  {
    FirstWhereIsOne(env, options.whereFilters);
    FirstWhereInIsOne(env, options.whereIn);
    hide FirstWhere, FirstWhereIn;
    assert env.parseNumber(env.showNumber(0.0)) == Some(0.0);
    match Chosen(env, options) {
      case ByWhere(f) =>
        if f.field !in o.fields {
          MissingIsZero(env, o, f.field);
        }
      case ByWhereIn(f) =>
        if f.field !in o.fields {
          MissingIsZero(env, o, f.field);
        }
    }
  }

  lemma ChosenIsUsable(env: SearchEnv, numeric: Index<real>, text: Index<string>, options: SearchOptions)
    requires !Chosen(env, options).NoFilter?
    ensures var c := Chosen(env, options);
            var a := Visited(env, numeric, text, c);
            !a.Unusable? && (a.Panics? <==> c.ByWhere? && Backwards(numeric, c.where))
  {
    FirstWhereIsOne(env, options.whereFilters);
    FirstWhereInIsOne(env, options.whereIn);
    hide FirstWhere, FirstWhereIn, InRange, WithValue, TextIds, ParsedIds;
  }

  /** One object whose speed is the text 7, and a query for speeds from 1 to 9. */
  const LABELLED := Object("a", Str("x"), map["speed" := Text("7")], None)
  const LABELS: Index<string> := map["speed" := map["7" := {"a"}]]
  const FORWARDS := SearchOptions(0, 10, None, Asc, [WhereFilter("speed", Range(1.0, 9.0))], [], [])

  /** With no number stored the ordinary query falls back to filtering every object
      and finds it; the shortcut visits nothing and returns nothing. */
  lemma {:induction false} AbsentFieldIsMissed(env: SearchEnv, now: nat, r: FastResult)
    requires env.parseNumber("7") == Some(7.0)
    requires Collects(env, map["a" := LABELLED], now, false, FORWARDS, Visited(env, map[], LABELS, Chosen(env, FORWARDS)), r)
    ensures Exact(map["a" := LABELLED], map[], LABELS)
    ensures IndexedScan(env, map["a" := LABELLED], map[], LABELS, now, false, FORWARDS) == Found({"a"})
    ensures r == Results([])
  {
    var filter, objects := FORWARDS.whereFilters[0], map["a" := LABELLED];
    LabelsAreExact();
    LabelledMatches(env);
    assert FORWARDS.whereFilters[1..] == [] && Chosen(env, FORWARDS) == ByWhere(filter);
    assert Visited(env, map[], LABELS, ByWhere(filter)) == Ids({});
    var answers := Answers(env, map[], LABELS, FORWARDS);
    assert answers == [Unusable];
    hide AllMatch, Visited, Chosen, Answers;
    assert Selected(env, objects, now, false, FORWARDS, "a");
    assert SelectedOf(env, objects, now, false, FORWARDS, {}) == {};
  }

  lemma LabelsAreExact()
    ensures Exact(map["a" := LABELLED], map[], LABELS)
  {
    var objects := map["a" := LABELLED];
    forall f, v, id ensures Holds(LABELS, f, v, id) <==> id in objects && HasText(objects[id], f, v) {
    }
    assert LABELS["speed"]["7"] != {} && LABELS["speed"] != map[];
  }

  lemma LabelledMatches(env: SearchEnv)
    requires env.parseNumber("7") == Some(7.0)
    ensures AllMatch(env, LABELLED, FORWARDS)
  {
    assert forall f :: f in FORWARDS.whereFilters ==> f == FORWARDS.whereFilters[0];
  }
}
