/** JSON path get, set and delete (crates/latlng-geo/src/lib.rs). */
module JsonPath {
  import opened Types

  const USIZE_LIMIT: nat := 0x1_0000_0000_0000_0000

  // Path strings.

  function TrimStart(s: string, c: char): string {
    if s != [] && s[0] == c then TrimStart(s[1..], c) else s
  }

  /** The dot-separated pieces of `s` that are not empty; `piece` is the piece read so far. */
  function Pieces(piece: string, s: string): (r: seq<string>)
    ensures forall p :: p in r ==> p != ""
    decreases |s|
  {
    var done := if piece == "" then [] else [piece];
    if s == [] then done
    else if s[0] == '.' then done + Pieces("", s[1..])
    else Pieces(piece + [s[0]], s[1..])
  }

  function Segments(path: string): seq<string> {
    Pieces("", TrimStart(TrimStart(path, '$'), '.'))
  }

  // What a path string means: its names between the dots.

  /** The names with dots between them. */
  function Joined(names: seq<string>): string {
    if names == [] then "" else if |names| == 1 then names[0] else names[0] + "." + Joined(names[1..])
  }

  function NonEmpty(names: seq<string>): seq<string> {
    if names == [] then [] else (if names[0] == "" then [] else [names[0]]) + NonEmpty(names[1..])
  }

  lemma {:induction false} PiecesOfName(piece: string, name: string, rest: string)
    requires '.' !in name
    ensures Pieces(piece, name + rest) == Pieces(piece + name, rest)
    decreases |name|
  {
    if name == "" {
      assert name + rest == rest && piece + name == piece;
    } else {
      assert (name + rest)[0] == name[0] && (name + rest)[1..] == name[1..] + rest;
      assert piece + [name[0]] + name[1..] == piece + name;
      assert name[0] in name;
      PiecesOfName(piece + [name[0]], name[1..], rest);
    }
  }

  lemma {:induction false} PiecesOfJoined(names: seq<string>)
    requires names != [] && forall n :: n in names ==> '.' !in n
    ensures Pieces("", Joined(names)) == NonEmpty(names)
  {
    var name := names[0];
    assert name in names && "" + name == name;
    if |names| == 1 {
      PiecesOfName("", name, "");
      assert name + "" == name && NonEmpty(names[1..]) == [];
    } else {
      var rest := "." + Joined(names[1..]);
      PiecesOfName("", name, rest);
      assert Joined(names) == name + rest && rest[1..] == Joined(names[1..]);
      PiecesOfJoined(names[1..]);
    }
  }

  lemma {:induction false} LeadingDots(s: string)
    ensures Pieces("", TrimStart(s, '.')) == Pieces("", s)
  {
    if s != [] && s[0] == '.' {
      LeadingDots(s[1..]);
    }
  }

  /** The segments of names joined by dots are the names that are not empty. */
  lemma {:induction false} SegmentsOfJoined(names: seq<string>)
    requires names != [] && forall n :: n in names ==> '.' !in n
    requires names[0] == "" || names[0][0] != '$'
    ensures Segments(Joined(names)) == NonEmpty(names)
  {
    var path := Joined(names);
    assert path == [] || path[0] != '$';
    LeadingDots(path);
    PiecesOfJoined(names);
  }

  /** In particular, of proper names they are just those. */
  lemma {:induction false} SegmentsOfNames(names: seq<string>)
    requires names != [] && forall i :: 0 <= i < |names| ==> names[i] != "" && '.' !in names[i]
    requires names[0][0] != '$'
    ensures Segments(Joined(names)) == names
  {
    SegmentsOfJoined(names);
    AllNonEmpty(names);
  }

  lemma {:induction false} AllNonEmpty(names: seq<string>)
    requires forall i :: 0 <= i < |names| ==> names[i] != ""
    ensures NonEmpty(names) == names
  {
    if names != [] {
      AllNonEmpty(names[1..]);
      assert names == [names[0]] + names[1..];
    }
  }

  /** A dollar sign in front changes nothing. */
  lemma DollarIgnored(path: string)
    ensures Segments("$" + path) == Segments(path)
  {
    assert ("$" + path)[1..] == path;
  }

  function Digits(s: string): Option<nat> {
    if s == [] then Some(0)
    else
      var d := s[|s| - 1];
      var rest := Digits(s[..|s| - 1]);
      if '0' <= d <= '9' && rest.Some? then Some(10 * rest.value + (d as int - '0' as int)) else None
  }

  /** `str::parse::<usize>`: an optional plus sign, then decimal digits, within 64 bits. */
  function ParseIndex(segment: string): Option<nat> {
    var digits := if segment != [] && segment[0] == '+' then segment[1..] else segment;
    if digits == [] then None
    else
      var n := Digits(digits);
      if n.Some? && n.value < USIZE_LIMIT then n else None
  }

  /** A number in decimal. */
  function Decimal(n: nat): string {
    var digit := [('0' as int + n % 10) as char];
    if n < 10 then digit else Decimal(n / 10) + digit
  }

  lemma {:induction false} DigitsOfDecimal(n: nat)
    ensures Decimal(n) != [] && '0' <= Decimal(n)[0] <= '9' && Digits(Decimal(n)) == Some(n)
  {
    var s := Decimal(n);
    if n >= 10 {
      DigitsOfDecimal(n / 10);
      assert s[..|s| - 1] == Decimal(n / 10);
    } else {
      assert s[..|s| - 1] == [];
    }
  }

  /** An array index is read as the number it spells. */
  lemma {:induction false} IndexOfDecimal(n: nat)
    ensures ParseIndex(Decimal(n)) == if n < USIZE_LIMIT then Some(n) else None
  {
    DigitsOfDecimal(n);
    hide Decimal, Digits;
  }

  lemma {:induction false} DigitsOnly(s: string)
    ensures Digits(s).Some? <==> forall i :: 0 <= i < |s| ==> '0' <= s[i] <= '9'
  {
    if s != [] {
      DigitsOnly(s[..|s| - 1]);
    }
  }

  // Reading.

  function Child(v: Json, segment: string): Option<Json> {
    match v
    case JObject(members) => Lookup(members, segment)
    case JArray(items) =>
      var i := ParseIndex(segment);
      if i.Some? && i.value < |items| then Some(items[i.value]) else None
    case _ => None
  }

  function Get(v: Json, segments: seq<string>): Option<Json> {
    if segments == [] then Some(v)
    else
      var c := Child(v, segments[0]);
      if c.None? then None else Get(c.value, segments[1..])
  }

  // Writing. An outcome carries the document as it stands after the call,
  // on failure too, since the edit happens in place.

  datatype SetOutcome = SetOutcome(doc: Json, ok: bool)

  const EMPTY_OBJECT: Json := JObject(map[])

  function Set(v: Json, segments: seq<string>, x: Json): SetOutcome
    decreases |segments|
  {
    if segments == [] then SetOutcome(x, true)
    else
      var segment, rest := segments[0], segments[1..];
      match v
      case JObject(members) =>
        if rest == [] then SetOutcome(JObject(members[segment := x]), true)
        else
          var child := if segment in members then members[segment] else EMPTY_OBJECT;
          var inner := Set(child, rest, x);
          SetOutcome(JObject(members[segment := inner.doc]), inner.ok)
      case JArray(items) =>
        var i := ParseIndex(segment);
        if i.None? || i.value >= |items| then SetOutcome(v, false)
        else
          var inner := Set(items[i.value], rest, x);
          SetOutcome(JArray(items[i.value := inner.doc]), inner.ok)
      case _ => SetOutcome(v, false)
  }

  datatype Removal = Deleted | Absent | BadPath

  datatype DeleteOutcome = DeleteOutcome(doc: Json, removal: Removal)

  function Delete(v: Json, segments: seq<string>): DeleteOutcome {
    if segments == [] then DeleteOutcome(v, Absent)
    else
      var segment, rest := segments[0], segments[1..];
      match v
      case JObject(members) =>
        if rest == [] then
          DeleteOutcome(JObject(members - {segment}), if segment in members then Deleted else Absent)
        else if segment !in members then DeleteOutcome(v, BadPath)
        else
          var inner := Delete(members[segment], rest);
          DeleteOutcome(JObject(members[segment := inner.doc]), inner.removal)
      case JArray(items) =>
        var i := ParseIndex(segment);
        if i.None? then DeleteOutcome(v, BadPath)
        else if i.value >= |items| then DeleteOutcome(v, if rest == [] then Absent else BadPath)
        else if rest == [] then DeleteOutcome(JArray(items[..i.value] + items[i.value + 1..]), Deleted)
        else
          var inner := Delete(items[i.value], rest);
          DeleteOutcome(JArray(items[i.value := inner.doc]), inner.removal)
      case _ => DeleteOutcome(v, BadPath)
  }

  // The mutable cursor. A frame is a container with a hole where the cursor
  // points; `Plug` is the whole document as it stands.

  datatype Frame =
    | InObject(members: map<string, Json>, key: string)
    | InArray(items: seq<Json>, index: nat)

  predicate FrameOk(f: Frame) {
    f.InArray? ==> f.index < |f.items|
  }

  function Fill(f: Frame, v: Json): Json
    requires FrameOk(f)
  {
    match f
    case InObject(members, key) => JObject(members[key := v])
    case InArray(items, index) => JArray(items[index := v])
  }

  function Plug(frames: seq<Frame>, v: Json): Json
    requires forall f :: f in frames ==> FrameOk(f)
    decreases |frames|
  {
    if frames == [] then v
    else Plug(frames[..|frames| - 1], Fill(frames[|frames| - 1], v))
  }

  lemma PlugPush(frames: seq<Frame>, f: Frame, v: Json)
    requires FrameOk(f) && forall g :: g in frames ==> FrameOk(g)
    ensures forall g :: g in frames + [f] ==> FrameOk(g)
    ensures Plug(frames + [f], v) == Plug(frames, Fill(f, v))
  {
    assert (frames + [f])[..|frames|] == frames;
  }

  /** `set_json_path`: descend with a cursor, creating missing objects, then assign. */
  method SetJsonPath(target: Json, path: string, x: Json) returns (doc: Json, ok: bool)
    ensures SetOutcome(doc, ok) == Set(target, Segments(path), x)
  {
    var segments := Segments(path);
    if segments == [] {
      return x, true;
    }
    var frames: seq<Frame> := [];
    var cursor := target;
    var i := 0;
    while i < |segments| - 1
      invariant 0 <= i <= |segments| - 1
      invariant forall f :: f in frames ==> FrameOk(f)
      invariant var rest := Set(cursor, segments[i..], x);
                Set(target, segments, x) == SetOutcome(Plug(frames, rest.doc), rest.ok)
    {
      var segment := segments[i];
      assert segments[i..][1..] == segments[i + 1..];
      ghost var before := Set(cursor, segments[i..], x);
      var frame;
      var next;
      match cursor {
        case JObject(members) =>
          next := if segment in members then members[segment] else EMPTY_OBJECT;
          frame := InObject(members, segment);
        case JArray(items) =>
          var index := ParseIndex(segment);
          if index.None? || index.value >= |items| {
            return Plug(frames, cursor), false;
          }
          next := items[index.value];
          frame := InArray(items, index.value);
        case _ =>
          return Plug(frames, cursor), false;
      }
      ghost var after := Set(next, segments[i + 1..], x);
      assert before == SetOutcome(Fill(frame, after.doc), after.ok);
      PlugPush(frames, frame, after.doc);
      frames := frames + [frame];
      cursor := next;
      i := i + 1;
    }
    var segment := segments[i];
    assert segments[i..] == [segment];
    match cursor {
      case JObject(members) =>
        return Plug(frames, JObject(members[segment := x])), true;
      case JArray(items) =>
        var index := ParseIndex(segment);
        if index.None? || index.value >= |items| {
          return Plug(frames, cursor), false;
        }
        return Plug(frames, JArray(items[index.value := x])), true;
      case _ =>
        return Plug(frames, cursor), false;
    }
  }

  /** `delete_json_path`: descend with a cursor, then remove. */
  method DeleteJsonPath(target: Json, path: string) returns (doc: Json, removal: Removal)
    ensures DeleteOutcome(doc, removal) == Delete(target, Segments(path))
  {
    var segments := Segments(path);
    if segments == [] {
      return target, Absent;
    }
    var frames: seq<Frame> := [];
    var cursor := target;
    var i := 0;
    while i < |segments| - 1
      invariant 0 <= i <= |segments| - 1
      invariant forall f :: f in frames ==> FrameOk(f)
      invariant var rest := Delete(cursor, segments[i..]);
                Delete(target, segments) == DeleteOutcome(Plug(frames, rest.doc), rest.removal)
    {
      var segment := segments[i];
      assert segments[i..][1..] == segments[i + 1..];
      ghost var before := Delete(cursor, segments[i..]);
      var frame;
      var next;
      match cursor {
        case JObject(members) =>
          if segment !in members {
            return Plug(frames, cursor), BadPath;
          }
          next := members[segment];
          frame := InObject(members, segment);
        case JArray(items) =>
          var index := ParseIndex(segment);
          if index.None? || index.value >= |items| {
            return Plug(frames, cursor), BadPath;
          }
          next := items[index.value];
          frame := InArray(items, index.value);
        case _ =>
          return Plug(frames, cursor), BadPath;
      }
      ghost var after := Delete(next, segments[i + 1..]);
      assert before == DeleteOutcome(Fill(frame, after.doc), after.removal);
      PlugPush(frames, frame, after.doc);
      frames := frames + [frame];
      cursor := next;
      i := i + 1;
    }
    var segment := segments[i];
    assert segments[i..] == [segment];
    match cursor {
      case JObject(members) =>
        return Plug(frames, JObject(members - {segment})), if segment in members then Deleted else Absent;
      case JArray(items) =>
        var index := ParseIndex(segment);
        if index.None? {
          return Plug(frames, cursor), BadPath;
        }
        if index.value >= |items| {
          return Plug(frames, cursor), Absent;
        }
        return Plug(frames, JArray(items[..index.value] + items[index.value + 1..])), Deleted;
      case _ =>
        return Plug(frames, cursor), BadPath;
    }
  }

  // Laws of set.

  lemma {:induction false} SetThenGet(v: Json, segments: seq<string>, x: Json)
    requires Set(v, segments, x).ok
    ensures Get(Set(v, segments, x).doc, segments) == Some(x)
    decreases |segments|
  {
    if segments != [] {
      var segment, rest := segments[0], segments[1..];
      match v {
        case JObject(members) =>
          if rest != [] {
            SetThenGet(if segment in members then members[segment] else EMPTY_OBJECT, rest, x);
          }
        case JArray(items) =>
          SetThenGet(items[ParseIndex(segment).value], rest, x);
        case _ =>
      }
    }
  }

  /** Once the cursor stands in a freshly created object nothing can fail. */
  lemma {:induction false} SetIntoEmptySucceeds(segments: seq<string>, x: Json)
    ensures Set(EMPTY_OBJECT, segments, x).ok
  {
    if segments != [] && segments[1..] != [] {
      SetIntoEmptySucceeds(segments[1..], x);
    }
  }

  lemma {:induction false} FailedSetChangesNothing(v: Json, segments: seq<string>, x: Json)
    requires !Set(v, segments, x).ok
    ensures Set(v, segments, x).doc == v
  {
    var segment, rest := segments[0], segments[1..];
    match v {
      case JObject(members) =>
        if segment in members {
          FailedSetChangesNothing(members[segment], rest, x);
        } else {
          SetIntoEmptySucceeds(rest, x);
          assert false;
        }
      case JArray(items) =>
        var i := ParseIndex(segment);
        if i.Some? && i.value < |items| {
          FailedSetChangesNothing(items[i.value], rest, x);
        }
      case _ =>
    }
  }

  /** The two paths part at some container of `v`: different members of one
      object or different indices of one array ("1" and "01" are one index). */
  predicate Diverge(v: Json, p: seq<string>, q: seq<string>)
    decreases |p|
  {
    p != [] && q != [] &&
    match v
    case JObject(members) =>
      p[0] != q[0] ||
      Diverge(if p[0] in members then members[p[0]] else EMPTY_OBJECT, p[1..], q[1..])
    case JArray(items) =>
      var i := ParseIndex(p[0]);
      i != ParseIndex(q[0]) || (i.Some? && i.value < |items| && Diverge(items[i.value], p[1..], q[1..]))
    case _ => false
  }

  /** A set leaves every location it does not lead to as it was. */
  lemma {:induction false} SetFrame(v: Json, p: seq<string>, x: Json, q: seq<string>)
    requires Diverge(v, p, q)
    ensures Get(Set(v, p, x).doc, q) == Get(v, q)
    decreases |p|
  {
    match v {
      case JObject(members) =>
        if p[0] == q[0] {
          if p[0] in members {
            SetFrame(members[p[0]], p[1..], x, q[1..]);
          } else {
            SetFrame(EMPTY_OBJECT, p[1..], x, q[1..]);
          }
        }
      case JArray(items) =>
        var i := ParseIndex(p[0]);
        if i == ParseIndex(q[0]) {
          SetFrame(items[i.value], p[1..], x, q[1..]);
        }
      case _ =>
    }
  }

  /** Paths that do not diverge name nested locations: the shorter one is, up
      to the spelling of indices, a prefix of the longer one. */
  lemma {:induction false} NestedUnlessDiverging(v: Json, p: seq<string>, x: Json, q: seq<string>)
    requires Set(v, p, x).ok && Get(v, q).Some? && !Diverge(v, p, q)
    ensures |q| <= |p| ==> Get(v, p[..|q|]) == Get(v, q)
    ensures |p| <= |q| ==> Get(v, p + q[|p|..]) == Get(v, q)
  {
    if p == [] {
      assert p + q[|p|..] == q;
    } else if q == [] {
      assert p[..|q|] == [];
    } else {
      var c := Child(v, q[0]);
      assert Child(v, p[0]) == c;
      NestedUnlessDiverging(c.value, p[1..], x, q[1..]);
      if |q| <= |p| {
        assert p[..|q|][1..] == p[1..][..|q[1..]|];
      }
      if |p| <= |q| {
        assert (p + q[|p|..])[1..] == p[1..] + q[1..][|p[1..]|..];
      }
    }
  }

  // Laws of delete.

  lemma {:induction false} DeletesExactlyWhatResolves(v: Json, segments: seq<string>)
    ensures Delete(v, segments).removal == Deleted <==> segments != [] && Get(v, segments).Some?
  {
    if segments != [] && Child(v, segments[0]).Some? && segments[1..] != [] {
      DeletesExactlyWhatResolves(Child(v, segments[0]).value, segments[1..]);
    }
  }

  lemma {:induction false} UnsuccessfulDeleteChangesNothing(v: Json, segments: seq<string>)
    requires Delete(v, segments).removal != Deleted
    ensures Delete(v, segments).doc == v
  {
    if segments != [] {
      var segment, rest := segments[0], segments[1..];
      var c := Child(v, segment);
      if c.Some? && rest != [] {
        UnsuccessfulDeleteChangesNothing(c.value, rest);
      } else if v.JObject? && rest == [] {
        assert v.members - {segment} == v.members;
      }
    }
  }

  /** The location's container is an object. */
  predicate IsMember(v: Json, segments: seq<string>) {
    segments != [] &&
    var parent := Get(v, segments[..|segments| - 1]);
    parent.Some? && parent.value.JObject?
  }

  lemma IsMemberTail(v: Json, segments: seq<string>)
    requires IsMember(v, segments) && |segments| > 1
    ensures Child(v, segments[0]).Some? && IsMember(Child(v, segments[0]).value, segments[1..])
  {
    assert segments[..|segments| - 1][1..] == segments[1..][..|segments[1..]| - 1];
  }

  /** Deleting an object member and setting it back restores the document. */
  lemma {:induction false} DeleteThenSetRestores(v: Json, segments: seq<string>)
    requires IsMember(v, segments) && Delete(v, segments).removal == Deleted
    ensures Get(v, segments).Some?
    ensures Get(Delete(v, segments).doc, segments) == None
    ensures Set(Delete(v, segments).doc, segments, Get(v, segments).value) == SetOutcome(v, true)
  {
    DeletesExactlyWhatResolves(v, segments);
    var segment, rest := segments[0], segments[1..];
    if rest == [] {
      assert segments[..|segments| - 1] == [];
      assert v.members == (v.members - {segment})[segment := v.members[segment]];
    } else {
      IsMemberTail(v, segments);
      var c := Child(v, segment).value;
      DeleteThenSetRestores(c, rest);
      var d := Delete(c, rest);
      match v {
        case JObject(members) =>
          assert members[segment := d.doc][segment := c] == members;
        case JArray(items) =>
          var i := ParseIndex(segment).value;
          assert items[i := d.doc][i := c] == items;
        case _ =>
      }
    }
  }

  lemma {:induction false} DeleteMemberFrame(v: Json, p: seq<string>, q: seq<string>)
    requires IsMember(v, p) && Delete(v, p).removal == Deleted && Diverge(v, p, q)
    ensures Get(Delete(v, p).doc, q) == Get(v, q)
  {
    if p[1..] == [] {
      assert p[..|p| - 1] == [];
    } else {
      IsMemberTail(v, p);
      DeletesExactlyWhatResolves(v, p);
      match v {
        case JObject(members) =>
          if p[0] == q[0] { DeleteMemberFrame(members[p[0]], p[1..], q[1..]); }
        case JArray(items) =>
          var i := ParseIndex(p[0]);
          if i == ParseIndex(q[0]) { DeleteMemberFrame(items[i.value], p[1..], q[1..]); }
        case _ =>
      }
    }
  }

  /** Deleting an array element closes the gap: later elements move down by one. */
  lemma {:induction false} DeleteElementShifts(v: Json, p: seq<string>, parent: seq<Json>, i: nat)
    requires p != [] && Get(v, p[..|p| - 1]) == Some(JArray(parent))
    requires ParseIndex(p[|p| - 1]) == Some(i) && i < |parent|
    ensures Delete(v, p).removal == Deleted
    ensures Get(Delete(v, p).doc, p[..|p| - 1]) == Some(JArray(parent[..i] + parent[i + 1..]))
  {
    if |p| == 1 {
      assert p[..|p| - 1] == [];
    } else {
      var init := p[..|p| - 1];
      assert init[1..] == p[1..][..|p[1..]| - 1];
      var c := Child(v, p[0]).value;
      DeleteElementShifts(c, p[1..], parent, i);
    }
  }
}
