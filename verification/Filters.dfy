/** Filter validation and evaluation (crates/latlng-index/src/lib.rs). */
module Filters {
  import opened Types
  import opened Clauses
  import JsonPath

  /** Number, JSON, glob and regex code the engine calls. */
  datatype SearchEnv = SearchEnv(
    glob: (string, string) -> bool,
    parseNumber: string -> Option<real>,
    showNumber: real -> string,
    parseJson: string -> Option<Json>,
    showJson: Json -> string,
    regexOk: string -> bool,
    regexMatches: (string, string) -> bool)

  datatype FilterError = BadRegex(pattern: string) | InvalidExpression(text: string)

  datatype Outcome = Known(holds: bool) | Failed(error: FilterError)

  // Values.

  datatype Resolved = RNumber(n: real) | RText(s: string) | RJson(j: Json)

  function FromJson(j: Json): Resolved {
    match j
    case JNumber(n) => RNumber(n)
    case JString(s) => RText(s)
    case _ => RJson(j)
  }

  function FromField(env: SearchEnv, v: FieldValue): Resolved {
    match v
    case Number(n) => RNumber(n)
    case Text(s) => RText(s)
    case JsonText(raw) => if env.parseJson(raw).Some? then RJson(env.parseJson(raw).value) else RText(raw)
  }

  /** The field as the document `get_json_path` descends into. */
  function FieldDocument(env: SearchEnv, v: FieldValue): Option<Json> {
    match v
    case Number(n) => Some(JNumber(n))
    case Text(s) => Some(JString(s))
    case JsonText(raw) => env.parseJson(raw)
  }

  function DotIndex(path: string): (i: nat)
    ensures i <= |path|
    ensures i < |path| ==> path[i] == '.'
    ensures '.' !in path[..i]
  {
    if path == "" then 0
    else if path[0] == '.' then 0
    else
      var i := DotIndex(path[1..]);
      assert path[..i + 1] == [path[0]] + path[1..][..i];
      i + 1
  }

  function NestedValue(env: SearchEnv, o: Object, path: string): Option<Json> {
    var dot := DotIndex(path);
    if dot == |path| || path[..dot] !in o.fields then None
    else
      var doc := FieldDocument(env, o.fields[path[..dot]]);
      if doc.None? then None else JsonPath.Get(doc.value, JsonPath.Segments(path[dot + 1..]))
  }

  /** `resolve_value`: what does not resolve reads as the number 0. */
  function Resolve(env: SearchEnv, o: Object, path: string): Resolved {
    if path == "z" && o.geo.Point? && o.geo.z.Some? then RNumber(o.geo.z.value)
    else if path in o.fields then FromField(env, o.fields[path])
    else if NestedValue(env, o, path).Some? then FromJson(NestedValue(env, o, path).value)
    else if o.geo.GeoJson? && JsonPath.Get(o.geo.doc, JsonPath.Segments(path)).Some? then
      FromJson(JsonPath.Get(o.geo.doc, JsonPath.Segments(path)).value)
    else RNumber(0.0)
  }

  function NumericValue(env: SearchEnv, v: Resolved): Option<real> {
    match v
    case RNumber(n) => Some(n)
    case RText(s) => env.parseNumber(s)
    case RJson(j) => if j.JNumber? then Some(j.n) else None
  }

  function StringValue(env: SearchEnv, v: Resolved): string {
    match v
    case RNumber(n) => env.showNumber(n)
    case RText(s) => s
    case RJson(j) => env.showJson(j)
  }

  // Clauses.

  const OPERATORS: seq<string> := ["=~", ">=", "<=", "==", "!=", ">", "<"]

  predicate Occurs(s: string, needle: string, j: nat) {
    j + |needle| <= |s| && s[j..j + |needle|] == needle
  }

  lemma SliceOfTail(s: string, j: nat, n: nat)
    requires 0 < j && j + n <= |s|
    ensures s[j..j + n] == s[1..][j - 1..j - 1 + n]
  {
    var a, b := s[j..j + n], s[1..][j - 1..j - 1 + n];
    assert |a| == |b|;
    forall k | 0 <= k < n ensures a[k] == b[k] {
    }
  }

  lemma OccursLater(s: string, needle: string)
    requires s != ""
    ensures forall j: nat :: j > 0 ==> (Occurs(s, needle, j) <==> Occurs(s[1..], needle, j - 1))
  {
    forall j: nat | j > 0 ensures Occurs(s, needle, j) <==> Occurs(s[1..], needle, j - 1) {
      if j + |needle| <= |s| {
        SliceOfTail(s, j, |needle|);
      }
    }
  }

  /** Where `needle` first occurs in `s`, or |s| + 1. */
  function Find(s: string, needle: string): (i: nat)
    ensures i <= |s| ==> Occurs(s, needle, i)
    ensures i <= |s| + 1 && forall j: nat :: j < i ==> !Occurs(s, needle, j)
  {
    if Occurs(s, needle, 0) then 0
    else if s == "" then 1
    else
      OccursLater(s, needle);
      Find(s[1..], needle) + 1
  }

  datatype Cut = Cut(operator: string, left: string, right: string)

  /** The first operator of the list that the clause contains, cut at its first occurrence. */
  function CutFrom(clause: string, k: nat): Option<Cut>
    requires k <= |OPERATORS|
    decreases |OPERATORS| - k
  {
    if k == |OPERATORS| then None
    else
      var operator := OPERATORS[k];
      var i := Find(clause, operator);
      if i <= |clause| then Some(Cut(operator, clause[..i], clause[i + |operator|..]))
      else CutFrom(clause, k + 1)
  }

  function CutClause(clause: string): Option<Cut> {
    CutFrom(clause, 0)
  }

  function StripLeft(s: string, c: char): string {
    if s != "" && s[0] == c then StripLeft(s[1..], c) else s
  }

  function StripRight(s: string, c: char): string {
    if s != "" && s[|s| - 1] == c then StripRight(s[..|s| - 1], c) else s
  }

  function Strip(s: string, c: char): string {
    StripRight(StripLeft(s, c), c)
  }

  function TrimQuotes(s: string): string {
    Strip(Strip(Trim(s), '"'), '\'')
  }

  datatype Bound = MinusInfinity | Finite(value: real) | PlusInfinity

  function ParseBound(env: SearchEnv, s: string): Bound {
    var t := TrimQuotes(s);
    if t == "+inf" || t == "inf" then PlusInfinity
    else if t == "-inf" then MinusInfinity
    else if env.parseNumber(t).Some? then Finite(env.parseNumber(t).value)
    else Finite(0.0)
  }

  predicate Above(n: real, b: Bound) {
    b.MinusInfinity? || (b.Finite? && n > b.value)
  }

  predicate Below(n: real, b: Bound) {
    b.PlusInfinity? || (b.Finite? && n < b.value)
  }

  predicate Compares(env: SearchEnv, operator: string, value: Resolved, right: string) {
    var n := NumericValue(env, value);
    var b := ParseBound(env, right);
    if operator == "==" then StringValue(env, value) == TrimQuotes(right)
    else if operator == "!=" then StringValue(env, value) != TrimQuotes(right)
    else if operator == ">" then n.Some? && Above(n.value, b)
    else if operator == "<" then n.Some? && Below(n.value, b)
    else if operator == ">=" then n.Some? && !Below(n.value, b)
    else n.Some? && !Above(n.value, b)
  }

  /** `evaluate_clause`. */
  function EvaluateClause(env: SearchEnv, o: Object, clause: string): Outcome {
    var cut := CutClause(clause);
    if cut.None? then Failed(InvalidExpression(clause))
    else
      var value := Resolve(env, o, Trim(cut.value.left));
      var right := Trim(cut.value.right);
      if cut.value.operator == "=~" then
        var pattern := TrimQuotes(right);
        if env.regexOk(pattern) then Known(env.regexMatches(pattern, StringValue(env, value)))
        else Failed(BadRegex(pattern))
      else Known(Compares(env, cut.value.operator, value, right))
  }

  /** What the validator demands of one clause. */
  function CheckClause(env: SearchEnv, clause: string): Option<FilterError> {
    var cut := CutClause(clause);
    if cut.None? then Some(InvalidExpression(clause))
    else if cut.value.operator == "=~" && !env.regexOk(TrimQuotes(cut.value.right)) then
      Some(BadRegex(TrimQuotes(cut.value.right)))
    else None
  }

  // Expressions.

  function FirstError(env: SearchEnv, clauses: seq<string>): Option<FilterError> {
    if clauses == [] then None
    else if CheckClause(env, clauses[0]).Some? then CheckClause(env, clauses[0])
    else FirstError(env, clauses[1..])
  }

  function Validation(env: SearchEnv, expression: string): Option<FilterError> {
    var clauses := ValidatorClauses(expression);
    if FirstError(env, clauses).Some? then FirstError(env, clauses)
    else if clauses == [] then Some(InvalidExpression(expression))
    else None
  }

  /** `validate_expression`: None is success. */
  method ValidateExpression(env: SearchEnv, expression: string) returns (error: Option<FilterError>)
    ensures error == Validation(env, expression)
  {
    var clauses := ValidatorClauses(expression);
    var anyClause := false;
    for i := 0 to |clauses|
      invariant anyClause == (i > 0)
      invariant FirstError(env, clauses) == FirstError(env, clauses[i..])
    {
      anyClause := true;
      assert clauses[i..][0] == clauses[i] && clauses[i..][1..] == clauses[i + 1..];
      error := CheckClause(env, clauses[i]);
      if error.Some? {
        return;
      }
    }
    return if anyClause then None else Some(InvalidExpression(expression));
  }

  /** A branch stops at its first false or failing clause. */
  function BranchOutcome(env: SearchEnv, o: Object, clauses: seq<string>): Outcome {
    if clauses == [] then Known(true)
    else
      var r := EvaluateClause(env, o, clauses[0]);
      if r == Known(true) then BranchOutcome(env, o, clauses[1..]) else r
  }

  /** The expression stops at its first true or failing branch. */
  function BranchesOutcome(env: SearchEnv, o: Object, branches: seq<string>): Outcome {
    if branches == [] then Known(false)
    else
      var r := BranchOutcome(env, o, ClausesOf(branches[0]));
      if r == Known(false) then BranchesOutcome(env, o, branches[1..]) else r
  }

  function Evaluation(env: SearchEnv, o: Object, expression: string): Outcome {
    if Branches(expression) == [] then Failed(InvalidExpression(expression))
    else BranchesOutcome(env, o, Branches(expression))
  }

  /** `evaluate_expression`, with its flags and early exits. */
  method EvaluateExpression(env: SearchEnv, o: Object, expression: string) returns (r: Outcome)
    ensures r == Evaluation(env, o, expression)
  {
    hide EvaluateClause, ClausesOf, Branches;
    var branches := Branches(expression);
    var anyBranch := false;
    for i := 0 to |branches|
      invariant anyBranch == (i > 0)
      invariant BranchesOutcome(env, o, branches) == BranchesOutcome(env, o, branches[i..])
    {
      anyBranch := true;
      assert branches[i..][0] == branches[i] && branches[i..][1..] == branches[i + 1..];
      var clauses := ClausesOf(branches[i]);
      var branchOk := true;
      var j := 0;
      while j < |clauses| && branchOk
        invariant 0 <= j <= |clauses|
        invariant branchOk ==> BranchOutcome(env, o, clauses) == BranchOutcome(env, o, clauses[j..])
        invariant !branchOk ==> BranchOutcome(env, o, clauses) == Known(false)
      {
        assert clauses[j..][0] == clauses[j] && clauses[j..][1..] == clauses[j + 1..];
        var c := EvaluateClause(env, o, clauses[j]);
        if c.Failed? {
          return c;
        }
        branchOk := c.holds;
        j := j + 1;
      }
      if branchOk {
        return Known(true);
      }
    }
    return if anyBranch then Known(false) else Failed(InvalidExpression(expression));
  }

  // Validation makes evaluation total, and short-circuiting unobservable.

  lemma {:induction false} CheckedClauseEvaluates(env: SearchEnv, o: Object, clause: string)
    ensures CheckClause(env, clause).None? <==> EvaluateClause(env, o, clause).Known?
  {
    var cut := CutClause(clause);
    if cut.Some? {
      TrimIdempotent(cut.value.right);
    }
  }

  predicate ClauseTrue(env: SearchEnv, o: Object, clause: string) {
    EvaluateClause(env, o, clause) == Known(true)
  }

  predicate AllTrue(env: SearchEnv, o: Object, clauses: seq<string>) {
    forall i :: 0 <= i < |clauses| ==> ClauseTrue(env, o, clauses[i])
  }

  lemma {:induction false} BranchMeaning(env: SearchEnv, o: Object, clauses: seq<string>)
    requires FirstError(env, clauses).None?
    ensures BranchOutcome(env, o, clauses) == Known(AllTrue(env, o, clauses))
  {
    if clauses != [] {
      CheckedClauseEvaluates(env, o, clauses[0]);
      BranchMeaning(env, o, clauses[1..]);
      hide EvaluateClause, CheckClause, AllTrue;
      AllTrueCons(env, o, clauses);
    }
  }

  lemma {:induction false} AllTrueCons(env: SearchEnv, o: Object, clauses: seq<string>)
    requires clauses != []
    ensures AllTrue(env, o, clauses) <==> ClauseTrue(env, o, clauses[0]) && AllTrue(env, o, clauses[1..])
  {
    hide ClauseTrue;
    if ClauseTrue(env, o, clauses[0]) && AllTrue(env, o, clauses[1..]) {
      forall i | 0 <= i < |clauses| ensures ClauseTrue(env, o, clauses[i]) {
        if i > 0 {
          assert clauses[i] == clauses[1..][i - 1];
        }
      }
    }
  }

  lemma {:induction false} FirstErrorConcat(env: SearchEnv, a: seq<string>, b: seq<string>)
    ensures FirstError(env, a + b) == if FirstError(env, a).Some? then FirstError(env, a) else FirstError(env, b)
  {
    if a == [] {
      assert a + b == b;
    } else {
      assert (a + b)[1..] == a[1..] + b;
      FirstErrorConcat(env, a[1..], b);
    }
  }

  /** Some branch has all its clauses true. */
  predicate Meaning(env: SearchEnv, o: Object, branches: seq<string>) {
    exists i :: 0 <= i < |branches| && AllTrue(env, o, ClausesOf(branches[i]))
  }

  lemma {:induction false} BranchesMeaning(env: SearchEnv, o: Object, branches: seq<string>)
    requires FirstError(env, EvaluatorClauses(branches)).None?
    ensures BranchesOutcome(env, o, branches) == Known(Meaning(env, o, branches))
  {
    if branches != [] {
      var first, rest := branches[0], branches[1..];
      FirstErrorConcat(env, ClausesOf(first), EvaluatorClauses(rest));
      BranchMeaning(env, o, ClausesOf(first));
      BranchesMeaning(env, o, rest);
      hide AllTrue, ClausesOf;
      assert Meaning(env, o, branches) <==> AllTrue(env, o, ClausesOf(first)) || Meaning(env, o, rest) by {
        if i :| 0 <= i < |rest| && AllTrue(env, o, ClausesOf(rest[i])) {
          assert branches[i + 1] == rest[i];
        }
        if i :| 0 < i < |branches| && AllTrue(env, o, ClausesOf(branches[i])) {
          assert rest[i - 1] == branches[i];
        }
      }
    }
  }

  /** An expression that validates never fails to evaluate, on any object, and
      means: some branch has all its clauses true. */
  lemma {:induction false} ValidatedMeaning(env: SearchEnv, o: Object, expression: string)
    requires Validation(env, expression).None?
    ensures Evaluation(env, o, expression) == Known(Meaning(env, o, Branches(expression)))
  {
    SameClauses(expression);
    hide ValidatorClauses;
    assert Branches(expression) != [] by {
      assert EvaluatorClauses([]) == [];
    }
    BranchesMeaning(env, o, Branches(expression));
  }

  // Whole options.

  function MatchesWhere(env: SearchEnv, o: Object, filter: WhereFilter): Outcome {
    var value := Resolve(env, o, filter.field);
    match filter.comparison
    case Range(min, max) =>
      var n := NumericValue(env, value);
      Known(n.Some? && min <= n.value <= max)
    case EqualsText(expected) => Known(StringValue(env, value) == expected)
    case Regex(pattern) =>
      if env.regexOk(pattern) then Known(env.regexMatches(pattern, StringValue(env, value))) else Failed(BadRegex(pattern))
  }

  predicate MatchesWhereIn(env: SearchEnv, o: Object, filter: WhereIn) {
    StringValue(env, Resolve(env, o, filter.field)) in filter.values
  }

  function WhereOutcome(env: SearchEnv, o: Object, filters: seq<WhereFilter>): Outcome {
    if filters == [] then Known(true)
    else
      var r := MatchesWhere(env, o, filters[0]);
      if r == Known(true) then WhereOutcome(env, o, filters[1..]) else r
  }

  function ExprOutcome(env: SearchEnv, o: Object, expressions: seq<string>): Outcome {
    if expressions == [] then Known(true)
    else
      var r := Evaluation(env, o, expressions[0]);
      if r == Known(true) then ExprOutcome(env, o, expressions[1..]) else r
  }

  /** `matches_candidate`. */
  function MatchesCandidate(env: SearchEnv, o: Object, options: SearchOptions): Outcome {
    if options.matchPattern.Some? && !env.glob(options.matchPattern.value, o.id) then Known(false)
    else
      var w := WhereOutcome(env, o, options.whereFilters);
      if w != Known(true) then w
      else if exists i :: 0 <= i < |options.whereIn| && !MatchesWhereIn(env, o, options.whereIn[i]) then Known(false)
      else ExprOutcome(env, o, options.whereExpr)
  }

  /** `SearchOptions::validate` succeeds. */
  predicate Valid(env: SearchEnv, options: SearchOptions) {
    (forall f :: f in options.whereFilters && f.comparison.Regex? ==> env.regexOk(f.comparison.pattern)) &&
    (forall e :: e in options.whereExpr ==> Validation(env, e).None?)
  }

  /** The plain conjunction of all filters. */
  predicate AllMatch(env: SearchEnv, o: Object, options: SearchOptions) {
    (options.matchPattern.Some? ==> env.glob(options.matchPattern.value, o.id)) &&
    (forall f :: f in options.whereFilters ==> MatchesWhere(env, o, f) == Known(true)) &&
    (forall f :: f in options.whereIn ==> MatchesWhereIn(env, o, f)) &&
    (forall e :: e in options.whereExpr ==> Meaning(env, o, Branches(e)))
  }

  lemma {:induction false} WhereMeaning(env: SearchEnv, o: Object, filters: seq<WhereFilter>)
    requires forall f :: f in filters && f.comparison.Regex? ==> env.regexOk(f.comparison.pattern)
    ensures WhereOutcome(env, o, filters) == Known(forall f :: f in filters ==> MatchesWhere(env, o, f) == Known(true))
  {
    if filters != [] {
      WhereMeaning(env, o, filters[1..]);
      assert filters[0] in filters;
      assert MatchesWhere(env, o, filters[0]).Known?;
      hide MatchesWhere;
      assert forall f :: f in filters <==> f == filters[0] || f in filters[1..];
      assert (forall f :: f in filters ==> MatchesWhere(env, o, f) == Known(true)) <==>
        MatchesWhere(env, o, filters[0]) == Known(true) && forall f :: f in filters[1..] ==> MatchesWhere(env, o, f) == Known(true);
    }
  }

  lemma {:induction false} ExprMeaning(env: SearchEnv, o: Object, expressions: seq<string>)
    requires forall e :: e in expressions ==> Validation(env, e).None?
    ensures ExprOutcome(env, o, expressions) == Known(forall e :: e in expressions ==> Meaning(env, o, Branches(e)))
  {
    if expressions != [] {
      ExprMeaning(env, o, expressions[1..]);
      ValidatedMeaning(env, o, expressions[0]);
      hide Evaluation, Meaning, Validation, Branches;
      assert forall e :: e in expressions <==> e == expressions[0] || e in expressions[1..];
    }
  }

  /** Validated options never fail on any object, and a match is the conjunction of the filters. */
  lemma {:induction false} ValidatedNeverFails(env: SearchEnv, o: Object, options: SearchOptions)
    requires Valid(env, options)
    ensures MatchesCandidate(env, o, options) == Known(AllMatch(env, o, options))
  {
    WhereMeaning(env, o, options.whereFilters);
    ExprMeaning(env, o, options.whereExpr);
    hide MatchesWhere, MatchesWhereIn, Meaning, Validation, Branches, WhereOutcome, ExprOutcome;
    assert (exists i :: 0 <= i < |options.whereIn| && !MatchesWhereIn(env, o, options.whereIn[i]))
      <==> !forall f :: f in options.whereIn ==> MatchesWhereIn(env, o, f);
  }

  // No filter reads a deadline.

  ghost predicate SameContents(a: Object, b: Object) {
    a.(expiresAt := None) == b.(expiresAt := None)
  }

  lemma ResolveIgnoresDeadlines(env: SearchEnv, a: Object, b: Object, path: string)
    requires SameContents(a, b)
    ensures Resolve(env, a, path) == Resolve(env, b, path)
  {
  }

  lemma ClauseIgnoresDeadlines(env: SearchEnv, a: Object, b: Object, clause: string)
    requires SameContents(a, b)
    ensures EvaluateClause(env, a, clause) == EvaluateClause(env, b, clause)
  {
    if CutClause(clause).Some? {
      ResolveIgnoresDeadlines(env, a, b, Trim(CutClause(clause).value.left));
    }
    hide Resolve, Compares;
  }

  lemma {:induction false} BranchIgnoresDeadlines(env: SearchEnv, a: Object, b: Object, clauses: seq<string>)
    requires SameContents(a, b)
    ensures BranchOutcome(env, a, clauses) == BranchOutcome(env, b, clauses)
  {
    hide EvaluateClause;
    if clauses != [] {
      ClauseIgnoresDeadlines(env, a, b, clauses[0]);
      BranchIgnoresDeadlines(env, a, b, clauses[1..]);
    }
  }

  lemma {:induction false} BranchesIgnoreDeadlines(env: SearchEnv, a: Object, b: Object, branches: seq<string>)
    requires SameContents(a, b)
    ensures BranchesOutcome(env, a, branches) == BranchesOutcome(env, b, branches)
  {
    hide BranchOutcome, ClausesOf;
    if branches != [] {
      BranchIgnoresDeadlines(env, a, b, ClausesOf(branches[0]));
      BranchesIgnoreDeadlines(env, a, b, branches[1..]);
    }
  }

  lemma {:induction false} ExprsIgnoreDeadlines(env: SearchEnv, a: Object, b: Object, expressions: seq<string>)
    requires SameContents(a, b)
    ensures ExprOutcome(env, a, expressions) == ExprOutcome(env, b, expressions)
  {
    hide BranchesOutcome, Branches;
    if expressions != [] {
      BranchesIgnoreDeadlines(env, a, b, Branches(expressions[0]));
      ExprsIgnoreDeadlines(env, a, b, expressions[1..]);
    }
  }

  lemma {:induction false} WheresIgnoreDeadlines(env: SearchEnv, a: Object, b: Object, filters: seq<WhereFilter>)
    requires SameContents(a, b)
    ensures WhereOutcome(env, a, filters) == WhereOutcome(env, b, filters)
  {
    hide Resolve;
    if filters != [] {
      ResolveIgnoresDeadlines(env, a, b, filters[0].field);
      WheresIgnoreDeadlines(env, a, b, filters[1..]);
    }
  }

  lemma {:induction false} FiltersIgnoreDeadlines(env: SearchEnv, a: Object, b: Object, options: SearchOptions)
    requires SameContents(a, b)
    ensures MatchesCandidate(env, a, options) == MatchesCandidate(env, b, options)
  {
    WheresIgnoreDeadlines(env, a, b, options.whereFilters);
    ExprsIgnoreDeadlines(env, a, b, options.whereExpr);
    forall i | 0 <= i < |options.whereIn|
      ensures MatchesWhereIn(env, a, options.whereIn[i]) == MatchesWhereIn(env, b, options.whereIn[i])
    {
      ResolveIgnoresDeadlines(env, a, b, options.whereIn[i].field);
    }
    hide MatchesWhereIn, WhereOutcome, ExprOutcome;
  }
}
