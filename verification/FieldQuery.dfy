/** Scan and search through the field indexes against filtering every object
    (crates/latlng-core/src/lib.rs, queries.rs). */
module FieldQuery {
  import opened Types
  import opened Catalog
  import opened FieldIndexing
  import opened Filters
  import JsonPath

  predicate IsTopLevel(field: string) {
    field != "z" && '.' !in field
  }

  predicate ParsesToZero(env: SearchEnv, s: string) {
    env.parseNumber(s) == Some(0.0)
  }

  /** `where_filter_matches_zero`. */
  predicate MatchesZero(env: SearchEnv, filter: WhereFilter) {
    match filter.comparison
    case Range(min, max) => min <= 0.0 <= max
    case EqualsText(expected) => ParsesToZero(env, expected)
    case Regex(_) => true
  }

  /** What the index says about one filter. An ordered map refuses a range whose
      start is above its end. */
  datatype Answer = Unusable | Ids(ids: set<string>) | Panics

  function InRange(index: Index<real>, field: string, min: real, max: real): set<string> {
    if field in index then set v, id | v in index[field] && min <= v <= max && id in index[field][v] :: id else {}
  }

  function WithValue<K>(index: Index<K>, field: string, value: K): set<string> {
    if field in index && value in index[field] then index[field][value] else {}
  }

  /** `ids_for_where_filter`. */
  function IdsForWhere(env: SearchEnv, numeric: Index<real>, text: Index<string>, filter: WhereFilter): Answer {
    if !IsTopLevel(filter.field) || MatchesZero(env, filter) then Unusable
    else
      match filter.comparison
      case Range(min, max) =>
        if filter.field !in numeric then Unusable
        else if min > max then Panics
        else Ids(InRange(numeric, filter.field, min, max))
      case EqualsText(expected) => Ids(WithValue(text, filter.field, expected))
      case Regex(_) => Unusable
  }

  function ParsedIds(env: SearchEnv, numeric: Index<real>, field: string, values: seq<string>): set<string> {
    set v, id | v in values && env.parseNumber(v).Some? && id in WithValue(numeric, field, env.parseNumber(v).value) :: id
  }

  function TextIds(text: Index<string>, field: string, values: seq<string>): set<string> {
    set v, id | v in values && id in WithValue(text, field, v) :: id
  }

  /** `ids_for_where_in_filter`. */
  function IdsForWhereIn(env: SearchEnv, numeric: Index<real>, text: Index<string>, filter: WhereIn): Answer {
    if !IsTopLevel(filter.field) || exists i :: 0 <= i < |filter.values| && ParsesToZero(env, filter.values[i]) then Unusable
    else Ids(TextIds(text, filter.field, filter.values) + ParsedIds(env, numeric, filter.field, filter.values))
  }

  // Candidate sets.

  /** Everything the index can say about the options, one answer a filter. */
  function Answers(env: SearchEnv, numeric: Index<real>, text: Index<string>, options: SearchOptions): (a: seq<Answer>)
    ensures |a| == |options.whereFilters| + |options.whereIn|
    ensures forall i :: 0 <= i < |options.whereFilters| ==>
      a[i] == IdsForWhere(env, numeric, text, options.whereFilters[i])
    ensures forall i :: 0 <= i < |options.whereIn| ==>
      a[|options.whereFilters| + i] == IdsForWhereIn(env, numeric, text, options.whereIn[i])
  {
    var n := |options.whereFilters|;
    seq(n + |options.whereIn|, i requires 0 <= i < n + |options.whereIn| =>
      if i < n then IdsForWhere(env, numeric, text, options.whereFilters[i])
      else IdsForWhereIn(env, numeric, text, options.whereIn[i - n]))
  }

  predicate NoPanic(answers: seq<Answer>) {
    forall a :: a in answers ==> !a.Panics?
  }

  predicate Usable(answers: seq<Answer>) {
    exists a :: a in answers && a.Ids?
  }

  predicate InAll(answers: seq<Answer>, id: string) {
    forall a :: a in answers && a.Ids? ==> id in a.ids
  }

  /** The intersection loop of `candidate_ids`; a range that panics takes the whole
      query with it. */
  method CandidateIds(answers: seq<Answer>) returns (r: Answer)
    ensures r.Panics? <==> !NoPanic(answers)
    ensures r.Ids? <==> NoPanic(answers) && Usable(answers)
    ensures r.Ids? ==> forall id :: id in r.ids <==> InAll(answers, id)
  {
    r := Unusable;
    for i := 0 to |answers|
      invariant !r.Panics? && NoPanic(answers[..i])
      invariant r.Ids? <==> Usable(answers[..i])
      invariant r.Ids? ==> forall id :: id in r.ids <==> InAll(answers[..i], id)
    {
      assert answers[..i + 1] == answers[..i] + [answers[i]];
      assert forall a :: a in answers[..i + 1] <==> a in answers[..i] || a == answers[i];
      assert answers[i] in answers;
      if answers[i].Panics? {
        return Panics;
      }
      if answers[i].Ids? {
        assert answers[i] in answers[..i + 1];
        r := Ids(if r.Ids? then r.ids * answers[i].ids else answers[i].ids);
      }
    }
    assert answers[..|answers|] == answers;
  }

  // The two ways to answer a query.

  predicate Live(objects: Objects, now: nat, stringsOnly: bool, id: string) {
    id in objects && !Expired(objects[id], now) && (stringsOnly ==> objects[id].geo.Str?)
  }

  predicate Selected(env: SearchEnv, objects: Objects, now: nat, stringsOnly: bool, options: SearchOptions, id: string) {
    Live(objects, now, stringsOnly, id) && AllMatch(env, objects[id], options)
  }

  /** Filtering every live object. */
  ghost function FullScan(env: SearchEnv, objects: Objects, now: nat, stringsOnly: bool, options: SearchOptions): set<string> {
    set id | id in objects && Selected(env, objects, now, stringsOnly, options, id)
  }

  /** What a query is to find: the objects that have time left, are strings where only those
      are searched, and meet every filter. */
  lemma FullScanMeans(
      env: SearchEnv, objects: Objects, now: nat, stringsOnly: bool, options: SearchOptions, id: string)
    ensures id in FullScan(env, objects, now, stringsOnly, options) <==>
      id in objects && AllMatch(env, objects[id], options) &&
      (objects[id].geo.Str? || !stringsOnly) && (objects[id].expiresAt.Some? ==> now < objects[id].expiresAt.value)
  {
    hide AllMatch;
  }

  /** Filtering only the candidates all usable answers name. */
  ghost function CandidateScan(
      env: SearchEnv, objects: Objects, answers: seq<Answer>, now: nat, stringsOnly: bool, options: SearchOptions): set<string> {
    set id | id in objects && (Usable(answers) ==> InAll(answers, id)) &&
             Selected(env, objects, now, stringsOnly, options, id)
  }

  datatype Scan = Panicked | Found(ids: set<string>)

  /** The query through the index. */
  ghost function IndexedScan(
      env: SearchEnv, objects: Objects, numeric: Index<real>, text: Index<string>,
      now: nat, stringsOnly: bool, options: SearchOptions): Scan {
    var answers := Answers(env, numeric, text, options);
    if NoPanic(answers) then Found(CandidateScan(env, objects, answers, now, stringsOnly, options)) else Panicked
  }

  // What the index sees of a matching object.

  /** Printing a number and parsing it gives the number back. */
  ghost predicate Lawful(env: SearchEnv) {
    forall n :: env.parseNumber(env.showNumber(n)) == Some(n)
  }

  /** The filter compares the field with the type it is stored with: ranges want
      a number, text wants a text or a JSON text in its own rendering. */
  predicate Covered(env: SearchEnv, o: Object, filter: WhereFilter) {
    filter.field in o.fields &&
    match filter.comparison
    case Range(_, _) => o.fields[filter.field].Number?
    case EqualsText(_) => o.fields[filter.field].Text? || CanonicalJson(env, o.fields[filter.field])
    case Regex(_) => true
  }

  predicate CanonicalJson(env: SearchEnv, v: FieldValue) {
    v.JsonText? && StringValue(env, FromField(env, v)) == v.raw
  }

  predicate CoveredIn(env: SearchEnv, o: Object, filter: WhereIn) {
    filter.field in o.fields && (o.fields[filter.field].JsonText? ==> o.fields[filter.field].raw in filter.values)
  }

  lemma {:induction false} InRangeMeaning(
      objects: Objects, numeric: Index<real>, text: Index<string>, field: string, min: real, max: real, id: string)
    requires Exact(objects, numeric, text)
    ensures id in InRange(numeric, field, min, max) <==>
      id in objects && field in objects[id].fields && objects[id].fields[field].Number? &&
      min <= objects[id].fields[field].number <= max
  {
    if id in InRange(numeric, field, min, max) {
      var v :| v in numeric[field] && min <= v <= max && id in numeric[field][v];
      assert Holds(numeric, field, v, id);
    }
    if id in objects && field in objects[id].fields && objects[id].fields[field].Number? {
      var v := objects[id].fields[field].number;
      assert HasNumber(objects[id], field, v);
      assert Holds(numeric, field, v, id);
    }
  }

  lemma {:induction false} WithTextMeaning(
      objects: Objects, numeric: Index<real>, text: Index<string>, field: string, value: string, id: string)
    requires Exact(objects, numeric, text)
    ensures id in WithValue(text, field, value) <==> id in objects && HasText(objects[id], field, value)
  {
    assert Holds(text, field, value, id) <==> id in objects && HasText(objects[id], field, value);
  }

  lemma {:induction false} WithNumberMeaning(
      objects: Objects, numeric: Index<real>, text: Index<string>, field: string, value: real, id: string)
    requires Exact(objects, numeric, text)
    ensures id in WithValue(numeric, field, value) <==> id in objects && HasNumber(objects[id], field, value)
  {
    assert Holds(numeric, field, value, id) <==> id in objects && HasNumber(objects[id], field, value);
  }

  /** A matching object is in the filter's answer exactly when it is covered. */
  lemma {:induction false} WhereAnswerIff(
      env: SearchEnv, objects: Objects, numeric: Index<real>, text: Index<string>, filter: WhereFilter, id: string)
    requires Exact(objects, numeric, text) && id in objects
    requires MatchesWhere(env, objects[id], filter) == Known(true)
    requires IdsForWhere(env, numeric, text, filter).Ids?
    ensures id in IdsForWhere(env, numeric, text, filter).ids <==> Covered(env, objects[id], filter)
  {
    var o := objects[id];
    match filter.comparison {
      case Range(min, max) =>
        InRangeMeaning(objects, numeric, text, filter.field, min, max, id);
      case EqualsText(expected) =>
        WithTextMeaning(objects, numeric, text, filter.field, expected, id);
      case Regex(_) =>
    }
  }

  lemma {:induction false} WhereInAnswerIff(
      env: SearchEnv, objects: Objects, numeric: Index<real>, text: Index<string>, filter: WhereIn, id: string)
    requires Exact(objects, numeric, text) && Lawful(env) && id in objects
    requires MatchesWhereIn(env, objects[id], filter)
    requires IdsForWhereIn(env, numeric, text, filter).Ids?
    ensures id in IdsForWhereIn(env, numeric, text, filter).ids <==> CoveredIn(env, objects[id], filter)
  {
    var o, field, values := objects[id], filter.field, filter.values;
    forall v ensures id in WithValue(text, field, v) <==> HasText(o, field, v) {
      WithTextMeaning(objects, numeric, text, field, v, id);
    }
    forall n ensures id in WithValue(numeric, field, n) <==> HasNumber(o, field, n) {
      WithNumberMeaning(objects, numeric, text, field, n, id);
    }
    hide Exact, WithValue, Resolve;
    TextIdsMeaning(text, field, values, o, id);
    ParsedIdsMeaning(env, numeric, field, values, o, id);
    hide TextIds, ParsedIds;
    if field in o.fields {
      ResolveStored(env, o, field);
    }
    if field in o.fields && o.fields[field].Number? {
      var n := o.fields[field].number;
      assert env.showNumber(n) in values && env.parseNumber(env.showNumber(n)) == Some(n);
    } else if field in o.fields && o.fields[field].Text? {
      assert o.fields[field].text in values;
    }
  }

  lemma ResolveStored(env: SearchEnv, o: Object, field: string)
    requires field != "z" && field in o.fields
    ensures Resolve(env, o, field) == FromField(env, o.fields[field])
  {
  }

  lemma {:induction false} TextIdsMeaning(text: Index<string>, field: string, values: seq<string>, o: Object, id: string)
    requires forall v :: id in WithValue(text, field, v) <==> HasText(o, field, v)
    ensures id in TextIds(text, field, values) <==>
      field in o.fields && ((o.fields[field].Text? && o.fields[field].text in values) ||
                            (o.fields[field].JsonText? && o.fields[field].raw in values))
  {
    hide WithValue;
    if field in o.fields && o.fields[field].Text? {
      assert HasText(o, field, o.fields[field].text);
    } else if field in o.fields && o.fields[field].JsonText? {
      assert HasText(o, field, o.fields[field].raw);
    }
  }

  lemma {:induction false} ParsedIdsMeaning(
      env: SearchEnv, numeric: Index<real>, field: string, values: seq<string>, o: Object, id: string)
    requires forall n :: id in WithValue(numeric, field, n) <==> HasNumber(o, field, n)
    ensures id in ParsedIds(env, numeric, field, values) <==>
      field in o.fields && o.fields[field].Number? &&
      exists v :: v in values && env.parseNumber(v) == Some(o.fields[field].number)
  {
    hide WithValue;
    if id in ParsedIds(env, numeric, field, values) {
      var v :| v in values && env.parseNumber(v).Some? && id in WithValue(numeric, field, env.parseNumber(v).value);
      assert HasNumber(o, field, env.parseNumber(v).value);
    }
    if field in o.fields && o.fields[field].Number? {
      var n := o.fields[field].number;
      assert HasNumber(o, field, n) && id in WithValue(numeric, field, n);
      if v :| v in values && env.parseNumber(v) == Some(n) {
        assert id in WithValue(numeric, field, env.parseNumber(v).value);
      }
    }
  }

  predicate CoveredFor(env: SearchEnv, numeric: Index<real>, text: Index<string>, options: SearchOptions, o: Object) {
    (forall f :: f in options.whereFilters && IdsForWhere(env, numeric, text, f).Ids? ==> Covered(env, o, f)) &&
    (forall f :: f in options.whereIn && IdsForWhereIn(env, numeric, text, f).Ids? ==> CoveredIn(env, o, f))
  }

  /** Every live match is covered for every filter the index answers. */
  ghost predicate AllCovered(
      env: SearchEnv, objects: Objects, numeric: Index<real>, text: Index<string>,
      now: nat, stringsOnly: bool, options: SearchOptions) {
    forall id :: id in objects && Selected(env, objects, now, stringsOnly, options, id) ==>
      CoveredFor(env, numeric, text, options, objects[id])
  }

  lemma {:induction false} CoveredMeansInAll(
      env: SearchEnv, objects: Objects, numeric: Index<real>, text: Index<string>, options: SearchOptions, id: string)
    requires Exact(objects, numeric, text) && Lawful(env) && id in objects && AllMatch(env, objects[id], options)
    ensures InAll(Answers(env, numeric, text, options), id) <==> CoveredFor(env, numeric, text, options, objects[id])
  {
    var answers := Answers(env, numeric, text, options);
    forall f | f in options.whereFilters && IdsForWhere(env, numeric, text, f).Ids?
      ensures id in IdsForWhere(env, numeric, text, f).ids <==> Covered(env, objects[id], f)
    {
      WhereAnswerIff(env, objects, numeric, text, f, id);
    }
    forall f | f in options.whereIn && IdsForWhereIn(env, numeric, text, f).Ids?
      ensures id in IdsForWhereIn(env, numeric, text, f).ids <==> CoveredIn(env, objects[id], f)
    {
      WhereInAnswerIff(env, objects, numeric, text, f, id);
    }
    hide Exact, AllMatch, IdsForWhere, IdsForWhereIn, Covered, CoveredIn;
    AnswersAre(env, numeric, text, options);
  }

  lemma {:induction false} AnswersAre(env: SearchEnv, numeric: Index<real>, text: Index<string>, options: SearchOptions)
    ensures forall a :: a in Answers(env, numeric, text, options) <==>
      (exists f :: f in options.whereFilters && a == IdsForWhere(env, numeric, text, f)) ||
      (exists f :: f in options.whereIn && a == IdsForWhereIn(env, numeric, text, f))
  {
    hide IdsForWhere, IdsForWhereIn;
    var answers, n := Answers(env, numeric, text, options), |options.whereFilters|;
    forall a | a in answers
      ensures (exists f :: f in options.whereFilters && a == IdsForWhere(env, numeric, text, f)) ||
              (exists f :: f in options.whereIn && a == IdsForWhereIn(env, numeric, text, f))
    {
      var i :| 0 <= i < |answers| && answers[i] == a;
      if i < n {
        assert options.whereFilters[i] in options.whereFilters;
      } else {
        assert options.whereIn[i - n] in options.whereIn && answers[n + (i - n)] == a;
      }
    }
    forall f | f in options.whereFilters ensures IdsForWhere(env, numeric, text, f) in answers {
      var i :| 0 <= i < n && options.whereFilters[i] == f;
      assert answers[i] == IdsForWhere(env, numeric, text, f);
    }
    forall f | f in options.whereIn ensures IdsForWhereIn(env, numeric, text, f) in answers {
      var i :| 0 <= i < |options.whereIn| && options.whereIn[i] == f;
      assert answers[n + i] == IdsForWhereIn(env, numeric, text, f);
    }
  }

  lemma {:induction false} UsableUnlessInAll(answers: seq<Answer>)
    ensures forall id :: !InAll(answers, id) ==> Usable(answers)
  {
  }

  /** A range whose start is above its end, on a field some object stores as a number. */
  predicate Backwards(numeric: Index<real>, filter: WhereFilter) {
    IsTopLevel(filter.field) && filter.field in numeric && filter.comparison.Range? &&
    filter.comparison.min > filter.comparison.max
  }

  /** The query panics exactly when one of its filters is such a range. */
  lemma {:induction false} PanicsIff(env: SearchEnv, numeric: Index<real>, text: Index<string>, options: SearchOptions)
    ensures !NoPanic(Answers(env, numeric, text, options)) <==>
      exists f :: f in options.whereFilters && Backwards(numeric, f)
  {
    AnswersAre(env, numeric, text, options);
    hide InRange, WithValue, Answers;
    assert forall f :: IdsForWhere(env, numeric, text, f).Panics? <==> Backwards(numeric, f);
  }

  lemma {:induction false} CandidatesIff(
      env: SearchEnv, objects: Objects, numeric: Index<real>, text: Index<string>,
      now: nat, stringsOnly: bool, options: SearchOptions)
    requires Exact(objects, numeric, text) && Lawful(env)
    ensures CandidateScan(env, objects, Answers(env, numeric, text, options), now, stringsOnly, options)
         == FullScan(env, objects, now, stringsOnly, options)
       <==> AllCovered(env, objects, numeric, text, now, stringsOnly, options)
  {
    var answers := Answers(env, numeric, text, options);
    forall id | id in objects && Selected(env, objects, now, stringsOnly, options, id)
      ensures InAll(answers, id) <==> CoveredFor(env, numeric, text, options, objects[id])
    {
      CoveredMeansInAll(env, objects, numeric, text, options, id);
    }
    hide Exact, AllMatch, CoveredFor, Selected, Answers, InAll;
    var full := FullScan(env, objects, now, stringsOnly, options);
    UsableUnlessInAll(answers);
    if AllCovered(env, objects, numeric, text, now, stringsOnly, options) {
      assert forall id :: id in full ==> InAll(answers, id);
    } else {
      var id :| id in objects && Selected(env, objects, now, stringsOnly, options, id) && !InAll(answers, id);
      assert id in full && id !in CandidateScan(env, objects, answers, now, stringsOnly, options);
    }
  }

  /** Querying through the index returns what filtering every live object returns
      exactly when no filter is a backwards range and every live match stores the
      filtered fields with the type the filters compare. */
  lemma {:induction false} IndexedScanIff(
      env: SearchEnv, objects: Objects, numeric: Index<real>, text: Index<string>,
      now: nat, stringsOnly: bool, options: SearchOptions)
    requires Exact(objects, numeric, text) && Lawful(env)
    ensures IndexedScan(env, objects, numeric, text, now, stringsOnly, options)
         == Found(FullScan(env, objects, now, stringsOnly, options))
       <==> (forall f :: f in options.whereFilters ==> !Backwards(numeric, f)) &&
            AllCovered(env, objects, numeric, text, now, stringsOnly, options)
  {
    hide Exact, Answers, Backwards, AllCovered, FullScan, CandidateScan, NoPanic;
    PanicsIff(env, numeric, text, options);
    CandidatesIff(env, objects, numeric, text, now, stringsOnly, options);
  }

  // The same with a condition on options and objects alone.

  /** The object's own document does not have the name. */
  predicate Undocumented(o: Object, name: string) {
    o.geo.GeoJson? ==> JsonPath.Get(o.geo.doc, JsonPath.Segments(name)).None?
  }

  /** Where the object stores a filtered field, it does so with the type compared; where it
      does not, its document has nothing under that name. Paths with dots are free. */
  ghost predicate Suits(o: Object, options: SearchOptions) {
    (forall f :: f in options.whereFilters && '.' !in f.field ==>
       if f.field in o.fields then
         (f.comparison.Range? ==> o.fields[f.field].Number?) && (f.comparison.EqualsText? ==> o.fields[f.field].Text?)
       else Undocumented(o, f.field)) &&
    (forall f :: f in options.whereIn && '.' !in f.field ==>
       if f.field in o.fields then !o.fields[f.field].JsonText? else Undocumented(o, f.field))
  }

  lemma MissingIsZero(env: SearchEnv, o: Object, name: string)
    requires '.' !in name && name != "z" && name !in o.fields && Undocumented(o, name)
    ensures Resolve(env, o, name) == RNumber(0.0)
  {
    hide JsonPath.Get, JsonPath.Segments;
  }

  /** A filter the index answers is not met by an object without the field. */
  lemma {:induction false} MissingNeverMatches(
      env: SearchEnv, numeric: Index<real>, text: Index<string>, filter: WhereFilter, o: Object)
    requires Lawful(env) && filter.field !in o.fields && Undocumented(o, filter.field)
    requires IdsForWhere(env, numeric, text, filter).Ids?
    ensures MatchesWhere(env, o, filter) != Known(true)
  {
    MissingIsZero(env, o, filter.field);
    assert env.parseNumber(env.showNumber(0.0)) == Some(0.0);
    hide Resolve, Undocumented;
  }

  lemma {:induction false} MissingNeverMatchesIn(
      env: SearchEnv, numeric: Index<real>, text: Index<string>, filter: WhereIn, o: Object)
    requires Lawful(env) && filter.field !in o.fields && Undocumented(o, filter.field)
    requires IdsForWhereIn(env, numeric, text, filter).Ids?
    ensures !MatchesWhereIn(env, o, filter)
  {
    MissingIsZero(env, o, filter.field);
    assert env.parseNumber(env.showNumber(0.0)) == Some(0.0);
    hide Resolve, Undocumented;
  }

  /** A match that suits the options is covered for every filter the index answers. */
  lemma {:induction false} SuitedIsCovered(
      env: SearchEnv, numeric: Index<real>, text: Index<string>, options: SearchOptions, o: Object)
    requires Lawful(env) && Suits(o, options) && AllMatch(env, o, options)
    ensures CoveredFor(env, numeric, text, options, o)
  {
    forall f | f in options.whereFilters && IdsForWhere(env, numeric, text, f).Ids? ensures Covered(env, o, f) {
      if f.field !in o.fields {
        MissingNeverMatches(env, numeric, text, f, o);
      }
    }
    forall f | f in options.whereIn && IdsForWhereIn(env, numeric, text, f).Ids? ensures CoveredIn(env, o, f) {
      if f.field !in o.fields {
        MissingNeverMatchesIn(env, numeric, text, f, o);
      }
    }
  }

  /** With ranges the right way round and fields stored with the types compared, or not at
      all, querying through the index is filtering every live object. */
  lemma {:induction false} IndexedScanIsFullScan(
      env: SearchEnv, objects: Objects, numeric: Index<real>, text: Index<string>,
      now: nat, stringsOnly: bool, options: SearchOptions)
    requires Exact(objects, numeric, text) && Lawful(env)
    requires forall f :: f in options.whereFilters && f.comparison.Range? ==> f.comparison.min <= f.comparison.max
    requires forall id :: id in objects && Live(objects, now, stringsOnly, id) ==> Suits(objects[id], options)
    ensures IndexedScan(env, objects, numeric, text, now, stringsOnly, options)
         == Found(FullScan(env, objects, now, stringsOnly, options))
  {
    IndexedScanIff(env, objects, numeric, text, now, stringsOnly, options);
    hide Exact, AllMatch, CoveredFor, Suits, FullScan, IndexedScan;
    forall id | id in objects && Selected(env, objects, now, stringsOnly, options, id)
      ensures CoveredFor(env, numeric, text, options, objects[id])
    {
      SuitedIsCovered(env, numeric, text, options, objects[id]);
    }
  }

  /** A number stored as text matches a range by evaluation but is not in the
      numeric index, so the indexed query misses it. */
  lemma {:induction false} TextNumberIsMissed(
      env: SearchEnv, objects: Objects, numeric: Index<real>, text: Index<string>, now: nat, id: string,
      options: SearchOptions, field: string, min: real, max: real)
    requires Exact(objects, numeric, text) && Lawful(env)
    requires WhereFilter(field, Range(min, max)) in options.whereFilters && IsTopLevel(field) && 0.0 < min <= max
    requires field in numeric
    requires id in objects && field in objects[id].fields && objects[id].fields[field].Text?
    requires Selected(env, objects, now, false, options, id)
    ensures id in FullScan(env, objects, now, false, options)
    ensures var scan := IndexedScan(env, objects, numeric, text, now, false, options);
            scan.Found? ==> id !in scan.ids
  {
    var filter := WhereFilter(field, Range(min, max));
    assert IdsForWhere(env, numeric, text, filter).Ids?;
    assert !Covered(env, objects[id], filter);
    CoveredMeansInAll(env, objects, numeric, text, options, id);
    AnswersAre(env, numeric, text, options);
    hide Exact, AllMatch, Covered, CoveredIn, Answers;
    assert IdsForWhere(env, numeric, text, filter) in Answers(env, numeric, text, options);
  }

  /** One object with speed 7, and a query for speeds from 5 down to 1. */
  const CAR := Object("a", Str("x"), map["speed" := Number(7.0)], None)
  const CAR_INDEX: Index<real> := map["speed" := map[7.0 := {"a"}]]
  const BACKWARDS := SearchOptions(0, 10, None, Asc, [WhereFilter("speed", Range(5.0, 1.0))], [], [])

  /** The query is valid and matches nothing, but panics. */
  lemma {:induction false} BackwardsRangePanics(env: SearchEnv, now: nat)
    ensures Exact(map["a" := CAR], CAR_INDEX, map[]) && Filters.Valid(env, BACKWARDS)
    ensures FullScan(env, map["a" := CAR], now, false, BACKWARDS) == {}
    ensures IndexedScan(env, map["a" := CAR], CAR_INDEX, map[], now, false, BACKWARDS) == Panicked
  {
    CarIndexIsExact();
    var filter := BACKWARDS.whereFilters[0];
    assert Backwards(CAR_INDEX, filter);
    assert filter in BACKWARDS.whereFilters;
    PanicsIff(env, CAR_INDEX, map[], BACKWARDS);
    assert MatchesWhere(env, CAR, filter) != Known(true);
    hide Answers, IdsForWhere, IdsForWhereIn, Backwards, MatchesWhere, Meaning, MatchesWhereIn, Exact;
    assert !AllMatch(env, CAR, BACKWARDS);
  }

  lemma CarIndexIsExact()
    ensures Exact(map["a" := CAR], CAR_INDEX, map[])
  {
    var objects := map["a" := CAR];
    forall f, v, id ensures Holds(CAR_INDEX, f, v, id) <==> id in objects && HasNumber(objects[id], f, v) {
    }
    assert CAR_INDEX["speed"][7.0] != {} && CAR_INDEX["speed"] != map[];
  }
}
