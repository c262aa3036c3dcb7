/** What a filter expression means, for expressions written from comparisons
    (crates/latlng-index/src/lib.rs). */
module Expressions {
  import opened Types
  import opened Clauses
  import opened Filters
  import JsonPath

  // Comparisons and how they are written.

  datatype Operator = Like | Ge | Le | Eq | Ne | Gt | Lt

  function Sign(op: Operator): string {
    match op
    case Like => "=~"
    case Ge => ">="
    case Le => "<="
    case Eq => "=="
    case Ne => "!="
    case Gt => ">"
    case Lt => "<"
  }

  function Blank(n: nat): string {
    if n == 0 then "" else Blank(n - 1) + " "
  }

  datatype Quote = Bare | Double | Single

  function Quoted(quote: Quote, text: string): string {
    match quote
    case Bare => text
    case Double => "\"" + text + "\""
    case Single => "'" + text + "'"
  }

  /** A comparison of what a path resolves to with a text, and how it is written: the
      quotes, and the blanks in front, around the operator and behind. */
  datatype Atom = Atom(
    path: string, op: Operator, text: string, quote: Quote, lead: nat, left: nat, right: nat, trail: nat)

  predicate IsOperatorChar(c: char) {
    c == '=' || c == '~' || c == '<' || c == '>' || c == '!'
  }

  /** No operator, separator or quote. */
  predicate Plain(s: string) {
    forall i :: 0 <= i < |s| ==>
      !IsOperatorChar(s[i]) && s[i] != '&' && s[i] != '|' && s[i] != '"' && s[i] != '\''
  }

  predicate Tidy(s: string) {
    s != "" && !IsSpace(s[0]) && !IsSpace(s[|s| - 1])
  }

  /** Without quotes a text begins and ends with something to read. */
  predicate Writable(a: Atom) {
    Plain(a.path) && Plain(a.text) && Tidy(a.path) && (a.quote.Bare? ==> Tidy(a.text))
  }

  function LeftOf(a: Atom): string {
    a.path + Blank(a.left)
  }

  function RightOf(a: Atom): string {
    Blank(a.right) + Quoted(a.quote, a.text)
  }

  function Core(a: Atom): string {
    LeftOf(a) + Sign(a.op) + RightOf(a)
  }

  function Written(a: Atom): string {
    Blank(a.lead) + Core(a) + Blank(a.trail)
  }

  // Its meaning.

  function AsNumber(env: SearchEnv, v: Resolved): Option<real> {
    if v.RNumber? then Some(v.n)
    else if v.RText? then env.parseNumber(v.s)
    else if v.j.JNumber? then Some(v.j.n)
    else None
  }

  function AsText(env: SearchEnv, v: Resolved): string {
    if v.RNumber? then env.showNumber(v.n) else if v.RText? then v.s else env.showJson(v.j)
  }

  /** The number a text stands for; one that is no number stands for 0. */
  function NumberOf(env: SearchEnv, text: string): real {
    if env.parseNumber(text).Some? then env.parseNumber(text).value else 0.0
  }

  predicate IsPlusInfinity(text: string) {
    text == "inf" || text == "+inf"
  }

  /** The comparison holds of the object. Every number lies between the infinities. */
  predicate Satisfies(env: SearchEnv, o: Object, a: Atom) {
    var value := Resolve(env, o, a.path);
    var n, b := AsNumber(env, value), NumberOf(env, a.text);
    match a.op
    case Like => env.regexMatches(a.text, AsText(env, value))
    case Eq => AsText(env, value) == a.text
    case Ne => AsText(env, value) != a.text
    case Gt => n.Some? && !IsPlusInfinity(a.text) && (a.text == "-inf" || n.value > b)
    case Ge => n.Some? && !IsPlusInfinity(a.text) && (a.text == "-inf" || n.value >= b)
    case Lt => n.Some? && a.text != "-inf" && (IsPlusInfinity(a.text) || n.value < b)
    case Le => n.Some? && a.text != "-inf" && (IsPlusInfinity(a.text) || n.value <= b)
  }

  // What a path resolves to.

  function ValueOf(v: Json): Resolved {
    if v.JNumber? then RNumber(v.n) else if v.JString? then RText(v.s) else RJson(v)
  }

  /** The coordinate `z` of a point that has one. */
  lemma ResolvesHeight(env: SearchEnv, o: Object)
    requires o.geo.Point? && o.geo.z.Some?
    ensures Resolve(env, o, "z") == RNumber(o.geo.z.value)
  {
  }

  predicate IsHeight(o: Object, path: string) {
    path == "z" && o.geo.Point? && o.geo.z.Some?
  }

  /** A stored field of that very name, whatever dots are in it. */
  lemma ResolvesField(env: SearchEnv, o: Object, path: string)
    requires path in o.fields && !IsHeight(o, path)
    ensures o.fields[path].Number? ==> Resolve(env, o, path) == RNumber(o.fields[path].number)
    ensures o.fields[path].Text? ==> Resolve(env, o, path) == RText(o.fields[path].text)
    ensures o.fields[path].JsonText? ==>
      Resolve(env, o, path) == match env.parseJson(o.fields[path].raw)
                               case Some(doc) => RJson(doc)
                               case None => RText(o.fields[path].raw)
  {
  }

  predicate ProperNames(names: seq<string>) {
    names != [] && (forall i :: 0 <= i < |names| ==> names[i] != "" && '.' !in names[i]) && names[0][0] != '$'
  }

  lemma {:induction false} DotOf(root: string, rest: string)
    requires '.' !in root
    ensures DotIndex(root + "." + rest) == |root|
  {
    var path := root + "." + rest;
    if root == "" {
      assert path[0] == '.';
    } else {
      assert path[0] == root[0] && root[0] in root && path[1..] == root[1..] + "." + rest;
      DotOf(root[1..], rest);
    }
  }

  /** A member inside a field that holds a document. */
  lemma {:induction false} ResolvesNested(env: SearchEnv, o: Object, root: string, names: seq<string>, doc: Json, v: Json)
    requires ProperNames(names) && '.' !in root && root in o.fields && root + "." + JsonPath.Joined(names) !in o.fields
    requires o.fields[root].JsonText? && env.parseJson(o.fields[root].raw) == Some(doc)
    requires JsonPath.Get(doc, names) == Some(v)
    ensures Resolve(env, o, root + "." + JsonPath.Joined(names)) == ValueOf(v)
  {
    var rest := JsonPath.Joined(names);
    var path := root + "." + rest;
    DotOf(root, rest);
    JsonPath.SegmentsOfNames(names);
    assert path[|root|] == '.' && path != "z";
    assert path[..|root|] == root && path[|root| + 1..] == rest;
    hide JsonPath.Segments, JsonPath.Joined, JsonPath.Get, DotIndex;
  }

  /** A member of the object's own document, where no field has the name. */
  lemma {:induction false} ResolvesDocument(env: SearchEnv, o: Object, names: seq<string>, v: Json)
    requires ProperNames(names) && JsonPath.Joined(names) !in o.fields && names[0] !in o.fields
    requires o.geo.GeoJson? && JsonPath.Get(o.geo.doc, names) == Some(v)
    ensures Resolve(env, o, JsonPath.Joined(names)) == ValueOf(v)
  {
    var path := JsonPath.Joined(names);
    JsonPath.SegmentsOfNames(names);
    if |names| == 1 {
      NoDot(path);
    } else {
      DotOf(names[0], JsonPath.Joined(names[1..]));
      assert path[..|names[0]|] == names[0];
    }
    hide JsonPath.Segments, JsonPath.Get, DotIndex;
  }

  lemma NoDot(path: string)
    requires '.' !in path
    ensures DotIndex(path) == |path|
  {
  }

  /** Everything else reads as 0: a plain name that is no field and that the object's
      document does not have. */
  lemma ResolvesMissing(env: SearchEnv, o: Object, name: string)
    requires '.' !in name && name !in o.fields && !IsHeight(o, name)
    requires o.geo.GeoJson? ==> JsonPath.Get(o.geo.doc, JsonPath.Segments(name)).None?
    ensures Resolve(env, o, name) == RNumber(0.0)
  {
    NoDot(name);
    hide DotIndex, JsonPath.Get, JsonPath.Segments;
  }

  // Filters on one field.

  /** A range holds of the number a value stands for, both ends included. */
  lemma RangeMeans(env: SearchEnv, o: Object, field: string, min: real, max: real)
    ensures
      var n := AsNumber(env, Resolve(env, o, field));
      MatchesWhere(env, o, WhereFilter(field, Range(min, max))) == Known(n.Some? && min <= n.value && n.value <= max)
  {
    ValuesAgree(env, Resolve(env, o, field));
    hide Resolve, AsNumber, NumericValue;
  }

  /** Text filters compare the rendering of the value. */
  lemma TextMeans(env: SearchEnv, o: Object, field: string, text: string, values: seq<string>)
    ensures
      var rendered := AsText(env, Resolve(env, o, field));
      MatchesWhere(env, o, WhereFilter(field, EqualsText(text))) == Known(rendered == text) &&
      (MatchesWhereIn(env, o, WhereIn(field, values)) <==> exists i :: 0 <= i < |values| && values[i] == rendered) &&
      (env.regexOk(text) ==>
         MatchesWhere(env, o, WhereFilter(field, Regex(text))) == Known(env.regexMatches(text, rendered)))
  {
    ValuesAgree(env, Resolve(env, o, field));
    hide Resolve, AsText, StringValue;
  }

  // Cutting a clause at its operator.

  lemma {:induction false} BlankChars(n: nat)
    ensures |Blank(n)| == n && forall i :: 0 <= i < n ==> Blank(n)[i] == ' '
  {
    if n > 0 {
      BlankChars(n - 1);
    }
  }

  /** No character of the string is one an operator is made of. */
  predicate NoOperator(s: string) {
    forall i :: 0 <= i < |s| ==> !IsOperatorChar(s[i])
  }

  lemma SidesHaveNoOperator(a: Atom)
    requires Writable(a)
    ensures NoOperator(LeftOf(a)) && NoOperator(RightOf(a))
  {
    BlankChars(a.left);
    BlankChars(a.right);
    hide Blank, IsSpace;
  }

  lemma OperatorChars(k: nat)
    requires k < |OPERATORS|
    ensures 1 <= |OPERATORS[k]| <= 2 && forall i :: 0 <= i < |OPERATORS[k]| ==> IsOperatorChar(OPERATORS[k][i])
  {
  }

  lemma OperatorCharAt(left: string, sign: string, right: string, k: nat)
    requires NoOperator(left) && NoOperator(right) && k < |left + sign + right|
    requires IsOperatorChar((left + sign + right)[k])
    ensures |left| <= k < |left| + |sign|
  {
    hide IsOperatorChar;
  }

  /** An operator occurs only where the sign is. */
  lemma {:induction false} OccursInSign(left: string, sign: string, right: string, w: string, j: nat)
    requires NoOperator(left) && NoOperator(right) && w != ""
    requires forall i :: 0 <= i < |w| ==> IsOperatorChar(w[i])
    requires Occurs(left + sign + right, w, j)
    ensures |left| <= j && j + |w| <= |left| + |sign| && sign[j - |left|..j - |left| + |w|] == w
  {
    var all := left + sign + right;
    hide IsOperatorChar;
    assert all[j] == w[0] && all[j + |w| - 1] == w[|w| - 1];
    OperatorCharAt(left, sign, right, j);
    OperatorCharAt(left, sign, right, j + |w| - 1);
    assert all[j..j + |w|] == sign[j - |left|..j - |left| + |w|];
  }

  lemma {:induction false} OtherSignsAbsent(left: string, sign: string, right: string, w: string)
    requires NoOperator(left) && NoOperator(right) && w != "" && w != sign && |sign| <= |w|
    requires forall i :: 0 <= i < |w| ==> IsOperatorChar(w[i])
    ensures Find(left + sign + right, w) > |left + sign + right|
  {
    var all := left + sign + right;
    var i := Find(all, w);
    hide Find, IsOperatorChar, Occurs;
    if i <= |all| {
      OccursInSign(left, sign, right, w, i);
      assert false;
    }
  }

  lemma {:induction false} SignIsFound(left: string, sign: string, right: string)
    requires NoOperator(left) && NoOperator(right) && sign != ""
    requires forall i :: 0 <= i < |sign| ==> IsOperatorChar(sign[i])
    ensures Find(left + sign + right, sign) == |left|
  {
    var all := left + sign + right;
    var i := Find(all, sign);
    hide Find, IsOperatorChar;
    assert all[|left|..|left| + |sign|] == sign;
    assert Occurs(all, sign, |left|);
    OccursInSign(left, sign, right, sign, i);
  }

  function Place(op: Operator): (k: nat)
    ensures k < |OPERATORS| && OPERATORS[k] == Sign(op)
  {
    match op
    case Like => 0
    case Ge => 1
    case Le => 2
    case Eq => 3
    case Ne => 4
    case Gt => 5
    case Lt => 6
  }

  lemma EarlierSigns(op: Operator, k: nat)
    requires k < Place(op)
    ensures OPERATORS[k] != Sign(op) && |Sign(op)| <= |OPERATORS[k]|
  {
  }

  lemma {:induction false} CutFound(op: Operator, left: string, right: string, k: nat)
    requires NoOperator(left) && NoOperator(right) && k <= Place(op)
    ensures CutFrom(left + Sign(op) + right, k) == Some(Cut(Sign(op), left, right))
    decreases Place(op) - k
  {
    var all := left + Sign(op) + right;
    OperatorChars(k);
    hide Find, IsOperatorChar, Sign, NoOperator;
    if k == Place(op) {
      SignIsFound(left, Sign(op), right);
      assert all[..|left|] == left && all[|left| + |Sign(op)|..] == right;
    } else {
      EarlierSigns(op, k);
      OtherSignsAbsent(left, Sign(op), right, OPERATORS[k]);
      CutFound(op, left, right, k + 1);
    }
  }

  // Trimming what is left.

  lemma SpaceIsSpace()
    ensures IsSpace(' ')
  {
  }

  lemma TrimTidy(s: string)
    requires Tidy(s)
    ensures Trim(s) == s
  {
    hide IsSpace;
  }

  lemma QuotesAreTidy(quote: Quote, text: string)
    requires quote.Bare? ==> Tidy(text)
    ensures Tidy(Quoted(quote, text))
  {
    assert !IsSpace('"') && !IsSpace('\'');
    hide IsSpace;
  }

  lemma StripNothing(s: string, c: char)
    requires c !in s
    ensures Strip(s, c) == s && StripLeft([c] + s, c) == s && StripRight(s + [c], c) == s
  {
    assert ([c] + s)[1..] == s && (s + [c])[..|s|] == s;
    assert s != "" ==> s[0] in s && s[|s| - 1] in s;
  }

  /** One pair of quotes is taken off. */
  lemma {:induction false} StripQuotes(s: string, c: char)
    requires c !in s
    ensures Strip([c] + s + [c], c) == s
  {
    StripNothing(s, c);
    if s == "" {
      assert [c] + s + [c] == [c, c] && [c, c][1..] == [c] && [c][1..] == "";
      assert StripLeft([c], c) == "";
    } else {
      assert s[0] in s;
      assert ([c] + s + [c])[1..] == s + [c];
      assert StripLeft([c] + s + [c], c) == StripLeft(s + [c], c) == s + [c];
    }
  }

  /** Trimming blanks and quotes leaves the text. */
  lemma {:induction false} TrimQuoted(quote: Quote, text: string)
    requires Plain(text) && (quote.Bare? ==> Tidy(text))
    ensures Trim(Quoted(quote, text)) == Quoted(quote, text) && TrimQuotes(Quoted(quote, text)) == text
  {
    QuotesAreTidy(quote, text);
    TrimTidy(Quoted(quote, text));
    assert '"' !in text && '\'' !in text;
    StripNothing(text, '"');
    StripNothing(text, '\'');
    StripQuotes(text, '"');
    StripQuotes(text, '\'');
    if quote.Single? {
      StripNothing(Quoted(quote, text), '"');
    }
    hide Strip, Trim, Plain, Tidy, StripLeft, StripRight;
  }

  lemma {:induction false} TrimBehind(s: string, n: nat)
    ensures Trim(s + Blank(n)) == Trim(s)
  {
    if n == 0 {
      assert s + Blank(0) == s;
    } else {
      SpaceIsSpace();
      hide Trim, IsSpace;
      TrimBehind(s, n - 1);
      TrimRightSpace(s + Blank(n - 1), ' ');
      assert s + Blank(n) == s + Blank(n - 1) + [' '];
    }
  }

  lemma {:induction false} BlankInFront(n: nat)
    requires n > 0
    ensures Blank(n) == " " + Blank(n - 1)
  {
    if n > 1 {
      BlankInFront(n - 1);
    }
  }

  lemma {:induction false} TrimInFront(n: nat, s: string)
    ensures Trim(Blank(n) + s) == Trim(s)
  {
    if n == 0 {
      assert Blank(0) + s == s;
    } else {
      SpaceIsSpace();
      BlankInFront(n);
      hide Trim, IsSpace, Blank;
      TrimInFront(n - 1, s);
      TrimLeftSpace(' ', Blank(n - 1) + s);
      assert Blank(n) + s == [' '] + (Blank(n - 1) + s);
    }
  }

  // One clause.

  /** The comparison can be evaluated: a pattern must be one. */
  predicate Evaluable(env: SearchEnv, a: Atom) {
    a.op.Like? ==> env.regexOk(a.text)
  }

  lemma ValuesAgree(env: SearchEnv, v: Resolved)
    ensures NumericValue(env, v) == AsNumber(env, v) && StringValue(env, v) == AsText(env, v)
  {
  }

  lemma ComparesMeans(env: SearchEnv, o: Object, a: Atom)
    requires !a.op.Like? && TrimQuotes(Quoted(a.quote, a.text)) == a.text
    ensures Compares(env, Sign(a.op), Resolve(env, o, a.path), Quoted(a.quote, a.text)) == Satisfies(env, o, a)
  {
    ValuesAgree(env, Resolve(env, o, a.path));
    hide Resolve, TrimQuotes, NumericValue, StringValue, AsNumber, AsText, Quoted;
  }

  lemma EvaluateMeans(env: SearchEnv, o: Object, clause: string, cut: Cut, path: string, right: string)
    requires CutClause(clause) == Some(cut) && Trim(cut.left) == path && Trim(cut.right) == right
    ensures EvaluateClause(env, o, clause) ==
      if cut.operator != "=~" then Known(Compares(env, cut.operator, Resolve(env, o, path), right))
      else if env.regexOk(TrimQuotes(right)) then
        Known(env.regexMatches(TrimQuotes(right), StringValue(env, Resolve(env, o, path))))
      else Failed(BadRegex(TrimQuotes(right)))
  {
    hide CutClause, Trim, TrimQuotes, Compares, Resolve, StringValue;
  }

  lemma LikeIsLike(a: Atom)
    ensures Sign(a.op) == "=~" <==> a.op.Like?
  {
  }

  lemma LikeMeans(env: SearchEnv, o: Object, a: Atom)
    requires a.op.Like?
    ensures env.regexMatches(a.text, AsText(env, Resolve(env, o, a.path))) == Satisfies(env, o, a)
  {
    hide AsText, Resolve, AsNumber, NumberOf;
  }

  lemma CutAtom(a: Atom)
    requires Writable(a)
    ensures CutClause(Core(a)) == Some(Cut(Sign(a.op), LeftOf(a), RightOf(a)))
    ensures Trim(LeftOf(a)) == a.path && Trim(RightOf(a)) == Quoted(a.quote, a.text)
    ensures TrimQuotes(Quoted(a.quote, a.text)) == a.text
  {
    SidesHaveNoOperator(a);
    CutFound(a.op, LeftOf(a), RightOf(a), 0);
    TrimBehind(a.path, a.left);
    TrimInFront(a.right, Quoted(a.quote, a.text));
    TrimTidy(a.path);
    TrimQuoted(a.quote, a.text);
    hide CutFrom, Trim, TrimQuotes, Blank, Plain, Quoted, Tidy, Sign;
  }

  /** Evaluating `path op text` is the comparison of what the path resolves to with the
      text, for every operator. */
  lemma {:induction false} ClauseMeans(env: SearchEnv, o: Object, a: Atom)
    requires Writable(a)
    ensures EvaluateClause(env, o, Core(a)) ==
      if a.op.Like? && !env.regexOk(a.text) then Failed(BadRegex(a.text)) else Known(Satisfies(env, o, a))
  {
    hide *;
    CutAtom(a);
    LikeIsLike(a);
    EvaluateMeans(env, o, Core(a), Cut(Sign(a.op), LeftOf(a), RightOf(a)), a.path, Quoted(a.quote, a.text));
    if a.op.Like? {
      ValuesAgree(env, Resolve(env, o, a.path));
      LikeMeans(env, o, a);
    } else {
      ComparesMeans(env, o, a);
    }
  }

  // Whole expressions.

  function Glued(sep: string, parts: seq<string>): string {
    if parts == [] then "" else if |parts| == 1 then parts[0] else parts[0] + sep + Glued(sep, parts[1..])
  }

  lemma {:induction false} PiecesOfPart(c: char, piece: string, part: string, rest: string)
    requires c !in part
    ensures rest == "" ==> Pieces(c, piece, part + rest) == [piece + part]
    ensures |rest| >= 2 && rest[0] == rest[1] == c ==>
      Pieces(c, piece, part + rest) == [piece + part] + Pieces(c, "", rest[2..])
    decreases |part|
  {
    var s := part + rest;
    if part == "" {
      assert s == rest && piece + part == piece;
    } else if |s| >= 2 {
      assert s[0] == part[0] && s[1..] == part[1..] + rest && part[0] in part;
      assert piece + [part[0]] + part[1..] == piece + part;
      PiecesOfPart(c, piece + [part[0]], part[1..], rest);
    } else {
      assert s == part;
    }
  }

  /** Splitting undoes gluing. */
  lemma {:induction false} SplitGlued(c: char, parts: seq<string>)
    requires parts != [] && forall i :: 0 <= i < |parts| ==> c !in parts[i]
    ensures Split(c, Glued([c, c], parts)) == parts
  {
    var part := parts[0];
    assert "" + part == part;
    if |parts| == 1 {
      PiecesOfPart(c, "", part, "");
      assert part + "" == part && parts == [part];
    } else {
      var rest := [c, c] + Glued([c, c], parts[1..]);
      PiecesOfPart(c, "", part, rest);
      assert Glued([c, c], parts) == part + rest && rest[2..] == Glued([c, c], parts[1..]);
      SplitGlued(c, parts[1..]);
      assert parts == [part] + parts[1..];
    }
  }

  type Branch = seq<Atom>

  ghost predicate WritableAll(atoms: Branch) {
    atoms != [] && forall i :: 0 <= i < |atoms| ==> Writable(atoms[i])
  }

  function WrittenAll(atoms: Branch): (texts: seq<string>)
    ensures |texts| == |atoms| && forall i :: 0 <= i < |atoms| ==> texts[i] == Written(atoms[i])
  {
    seq(|atoms|, i requires 0 <= i < |atoms| => Written(atoms[i]))
  }

  function Cores(atoms: Branch): (texts: seq<string>)
    ensures |texts| == |atoms| && forall i :: 0 <= i < |atoms| ==> texts[i] == Core(atoms[i])
  {
    seq(|atoms|, i requires 0 <= i < |atoms| => Core(atoms[i]))
  }

  /** Comparisons joined by "&&". */
  function Conjunction(atoms: Branch): string {
    Glued("&&", WrittenAll(atoms))
  }

  function Conjunctions(branches: seq<Branch>): (texts: seq<string>)
    ensures |texts| == |branches| && forall i :: 0 <= i < |branches| ==> texts[i] == Conjunction(branches[i])
  {
    seq(|branches|, i requires 0 <= i < |branches| => Conjunction(branches[i]))
  }

  /** Branches joined by "||". */
  function Disjunction(branches: seq<Branch>): string {
    Glued("||", Conjunctions(branches))
  }

  lemma WrittenHasNo(a: Atom, c: char)
    requires Writable(a) && (c == '&' || c == '|')
    ensures c !in Written(a) && c !in Core(a)
  {
    BlankChars(a.lead);
    BlankChars(a.left);
    BlankChars(a.right);
    BlankChars(a.trail);
    hide Blank, IsSpace;
    assert c !in Sign(a.op);
  }

  lemma {:induction false} GluedHasNo(sep: string, parts: seq<string>, c: char)
    requires c !in sep && forall i :: 0 <= i < |parts| ==> c !in parts[i]
    ensures c !in Glued(sep, parts)
  {
    if |parts| > 1 {
      GluedHasNo(sep, parts[1..], c);
    }
  }

  /** The core is what trimming leaves. */
  lemma {:induction false} TrimWritten(a: Atom)
    requires Writable(a)
    ensures Trim(Written(a)) == Core(a) && Core(a) != ""
  {
    TrimBehind(Blank(a.lead) + Core(a), a.trail);
    TrimInFront(a.lead, Core(a));
    QuotesAreTidy(a.quote, a.text);
    hide Blank, Trim, IsSpace, Quoted, Sign;
    assert Core(a)[0] == a.path[0] && Core(a)[|Core(a)| - 1] == Quoted(a.quote, a.text)[|Quoted(a.quote, a.text)| - 1];
    TrimTidy(Core(a));
  }

  lemma {:induction false} CleanWritten(atoms: Branch)
    requires forall i :: 0 <= i < |atoms| ==> Writable(atoms[i])
    ensures Clean(WrittenAll(atoms)) == Cores(atoms)
  {
    hide Trim, Writable, Written, Core;
    if atoms != [] {
      TrimWritten(atoms[0]);
      assert WrittenAll(atoms)[1..] == WrittenAll(atoms[1..]);
      CleanWritten(atoms[1..]);
      assert Cores(atoms) == [Core(atoms[0])] + Cores(atoms[1..]);
    }
  }

  /** The clauses of a conjunction are its comparisons. */
  lemma {:induction false} ClausesOfConjunction(atoms: Branch)
    requires WritableAll(atoms)
    ensures ClausesOf(Conjunction(atoms)) == Cores(atoms) && '|' !in Conjunction(atoms)
  {
    forall i | 0 <= i < |atoms| ensures '&' !in Written(atoms[i]) && '|' !in Written(atoms[i]) {
      WrittenHasNo(atoms[i], '&');
      WrittenHasNo(atoms[i], '|');
    }
    hide Written, Core, Writable;
    GluedHasNo("&&", WrittenAll(atoms), '|');
    SplitGlued('&', WrittenAll(atoms));
    CleanWritten(atoms);
    assert ['&', '&'] == "&&";
  }

  lemma {:induction false} NotBlank(s: string)
    requires ClausesOf(s) != []
    ensures Trim(s) != ""
  {
    TrimClauses(s);
    EmptyHasNoClauses();
    hide ClausesOf, Trim;
  }

  /** The branches of a disjunction are its conjunctions, trimmed. */
  lemma {:induction false} BranchesOfDisjunction(branches: seq<Branch>)
    requires branches != [] && forall i :: 0 <= i < |branches| ==> WritableAll(branches[i])
    ensures
      var bs := Branches(Disjunction(branches));
      |bs| == |branches| && forall i :: 0 <= i < |branches| ==> ClausesOf(bs[i]) == Cores(branches[i])
  {
    forall i | 0 <= i < |branches| ensures '|' !in Conjunction(branches[i]) {
      ClausesOfConjunction(branches[i]);
    }
    hide Conjunction, ClausesOf, Cores;
    SplitGlued('|', Conjunctions(branches));
    assert ['|', '|'] == "||";
    CleanConjunctions(branches);
  }

  lemma {:induction false} CleanKeeps(texts: seq<string>)
    requires forall i :: 0 <= i < |texts| ==> Trim(texts[i]) != ""
    ensures |Clean(texts)| == |texts| && forall i :: 0 <= i < |texts| ==> Clean(texts)[i] == Trim(texts[i])
  {
    hide Trim;
    if texts != [] {
      CleanKeeps(texts[1..]);
    }
  }

  lemma {:induction false} CleanConjunctions(branches: seq<Branch>)
    requires forall i :: 0 <= i < |branches| ==> WritableAll(branches[i])
    ensures
      var bs := Clean(Conjunctions(branches));
      |bs| == |branches| && forall i :: 0 <= i < |branches| ==> ClausesOf(bs[i]) == Cores(branches[i])
  {
    var texts := Conjunctions(branches);
    hide Conjunction, ClausesOf, Trim, Clean, WritableAll;
    forall i | 0 <= i < |branches| ensures Trim(texts[i]) != "" && ClausesOf(Trim(texts[i])) == Cores(branches[i]) {
      ClausesOfConjunction(branches[i]);
      SomeCore(branches[i]);
      NotBlank(texts[i]);
      TrimClauses(texts[i]);
    }
    CleanKeeps(texts);
  }

  lemma SomeCore(atoms: Branch)
    requires WritableAll(atoms)
    ensures Cores(atoms) != []
  {
    hide Writable;
  }

  ghost predicate AllSatisfied(env: SearchEnv, o: Object, atoms: Branch) {
    forall j :: 0 <= j < |atoms| ==> Satisfies(env, o, atoms[j])
  }

  /** Some branch has all its comparisons true. */
  ghost predicate Holds(env: SearchEnv, o: Object, branches: seq<Branch>) {
    exists i :: 0 <= i < |branches| && AllSatisfied(env, o, branches[i])
  }

  ghost predicate EvaluableAll(env: SearchEnv, branches: seq<Branch>) {
    forall i, j :: 0 <= i < |branches| && 0 <= j < |branches[i]| ==> Evaluable(env, branches[i][j])
  }

  lemma {:induction false} CoresAreTrue(env: SearchEnv, o: Object, atoms: Branch)
    requires WritableAll(atoms) && forall j :: 0 <= j < |atoms| ==> Evaluable(env, atoms[j])
    ensures AllTrue(env, o, Cores(atoms)) <==> AllSatisfied(env, o, atoms)
    ensures FirstError(env, Cores(atoms)).None?
  {
    forall j | 0 <= j < |atoms|
      ensures EvaluateClause(env, o, Cores(atoms)[j]) == Known(Satisfies(env, o, atoms[j]))
    {
      ClauseMeans(env, o, atoms[j]);
    }
    hide Satisfies, EvaluateClause, Core, Cores, Writable;
    NoErrors(env, o, Cores(atoms));
  }

  lemma {:induction false} NoErrors(env: SearchEnv, o: Object, clauses: seq<string>)
    requires forall i :: 0 <= i < |clauses| ==> EvaluateClause(env, o, clauses[i]).Known?
    ensures FirstError(env, clauses).None?
  {
    hide EvaluateClause, CheckClause;
    if clauses != [] {
      CheckedClauseEvaluates(env, o, clauses[0]);
      NoErrors(env, o, clauses[1..]);
    }
  }

  lemma {:induction false} NoErrorsIn(env: SearchEnv, bs: seq<string>)
    requires forall i :: 0 <= i < |bs| ==> FirstError(env, ClausesOf(bs[i])).None?
    ensures FirstError(env, EvaluatorClauses(bs)).None?
  {
    hide FirstError, ClausesOf;
    if bs == [] {
      NoErrorInNothing(env);
    } else {
      NoErrorsIn(env, bs[1..]);
      FirstErrorConcat(env, ClausesOf(bs[0]), EvaluatorClauses(bs[1..]));
    }
  }

  lemma NoErrorInNothing(env: SearchEnv)
    ensures FirstError(env, []).None?
  {
  }

  lemma {:induction false} MeaningIsHolds(env: SearchEnv, o: Object, branches: seq<Branch>, bs: seq<string>)
    requires |bs| == |branches|
    requires forall i :: 0 <= i < |branches| ==>
      (AllTrue(env, o, ClausesOf(bs[i])) <==> AllSatisfied(env, o, branches[i]))
    ensures Meaning(env, o, bs) <==> Holds(env, o, branches)
  {
    hide AllTrue, ClausesOf, AllSatisfied;
  }

  /** The written expression's branches can be checked and mean what they say. */
  ghost predicate Reads(env: SearchEnv, o: Object, branches: seq<Branch>, bs: seq<string>) {
    |bs| == |branches| && forall i :: 0 <= i < |branches| ==>
      ClausesOf(bs[i]) != [] && FirstError(env, ClausesOf(bs[i])).None? &&
      (AllTrue(env, o, ClausesOf(bs[i])) <==> AllSatisfied(env, o, branches[i]))
  }

  lemma {:induction false} DisjunctionReads(env: SearchEnv, o: Object, branches: seq<Branch>)
    requires branches != [] && forall i :: 0 <= i < |branches| ==> WritableAll(branches[i])
    requires EvaluableAll(env, branches)
    ensures Reads(env, o, branches, Branches(Disjunction(branches)))
  {
    var bs := Branches(Disjunction(branches));
    BranchesOfDisjunction(branches);
    hide Branches, ClausesOf, FirstError, AllSatisfied, Disjunction, AllTrue, Writable;
    forall i | 0 <= i < |branches|
      ensures FirstError(env, ClausesOf(bs[i])).None?
      ensures AllTrue(env, o, ClausesOf(bs[i])) <==> AllSatisfied(env, o, branches[i])
    {
      CoresAreTrue(env, o, branches[i]);
    }
  }

  /** Evaluating a written expression on any object says whether some branch has all its
      comparisons true; and the expression is valid. */
  lemma {:induction false} ExpressionMeans(env: SearchEnv, o: Object, branches: seq<Branch>)
    requires branches != [] && forall i :: 0 <= i < |branches| ==> WritableAll(branches[i])
    requires EvaluableAll(env, branches)
    ensures Validation(env, Disjunction(branches)).None?
    ensures Evaluation(env, o, Disjunction(branches)) == Known(Holds(env, o, branches))
  {
    var text := Disjunction(branches);
    var bs := Branches(text);
    DisjunctionReads(env, o, branches);
    SameClauses(text);
    hide Branches, ClausesOf, FirstError, Disjunction, AllTrue, ValidatorClauses, WritableAll, AllSatisfied, Holds, Meaning,
      BranchesOutcome, EvaluableAll;
    NoErrorsIn(env, bs);
    SomeClause(bs);
    BranchesMeaning(env, o, bs);
    MeaningIsHolds(env, o, branches, bs);
  }

  lemma SomeClause(bs: seq<string>)
    requires bs != [] && ClausesOf(bs[0]) != []
    ensures EvaluatorClauses(bs) != []
  {
    hide ClausesOf;
  }
}
