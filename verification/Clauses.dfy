/** How the validator and the evaluator cut an expression into clauses
    (crates/latlng-index/src/lib.rs). */
module Clauses {
  /** The Unicode White_Space characters that `str::trim` removes. */
  predicate IsSpace(c: char) {
    var n := c as int;
    9 <= n <= 13 || n == 0x20 || n == 0x85 || n == 0xA0 || n == 0x1680 || 0x2000 <= n <= 0x200A ||
    n == 0x2028 || n == 0x2029 || n == 0x202F || n == 0x205F || n == 0x3000
  }

  function TrimLeft(s: string): (r: string)
    ensures r == "" || !IsSpace(r[0])
  {
    if s != [] && IsSpace(s[0]) then TrimLeft(s[1..]) else s
  }

  function TrimRight(s: string): (r: string)
    ensures r == "" || !IsSpace(r[|r| - 1])
  {
    if s != [] && IsSpace(s[|s| - 1]) then TrimRight(s[..|s| - 1]) else s
  }

  function Trim(s: string): string {
    TrimRight(TrimLeft(s))
  }

  /** `str::split` on the separator `cc`; `piece` is the piece read so far. */
  function Pieces(c: char, piece: string, s: string): (r: seq<string>)
    ensures r != []
    decreases |s|
  {
    if |s| < 2 then [piece + s]
    else if s[0] == c && s[1] == c then [piece] + Pieces(c, "", s[2..])
    else Pieces(c, piece + [s[0]], s[1..])
  }

  function Split(c: char, s: string): (r: seq<string>)
    ensures r != []
  {
    Pieces(c, "", s)
  }

  /** Trimmed pieces that are not empty. */
  function Clean(pieces: seq<string>): seq<string> {
    if pieces == [] then []
    else (if Trim(pieces[0]) == "" then [] else [Trim(pieces[0])]) + Clean(pieces[1..])
  }

  function Branches(expression: string): seq<string> {
    Clean(Split('|', expression))
  }

  function ClausesOf(branch: string): seq<string> {
    Clean(Split('&', branch))
  }

  /** The evaluator's clauses: trim each branch, then cut it. */
  function EvaluatorClauses(branches: seq<string>): seq<string> {
    if branches == [] then [] else ClausesOf(branches[0]) + EvaluatorClauses(branches[1..])
  }

  function SplitAll(pieces: seq<string>): seq<string> {
    if pieces == [] then [] else Split('&', pieces[0]) + SplitAll(pieces[1..])
  }

  /** The validator's clauses: cut every branch, then trim the pieces. */
  function ValidatorClauses(expression: string): seq<string> {
    Clean(SplitAll(Split('|', expression)))
  }

  // Trimming.

  lemma {:induction false} TrimRightFirst(s: string)
    requires s != "" && !IsSpace(s[0])
    ensures TrimRight(s) != "" && TrimRight(s)[0] == s[0]
  {
    if IsSpace(s[|s| - 1]) {
      TrimRightFirst(s[..|s| - 1]);
    }
  }

  lemma {:induction false} TrimIdempotent(s: string)
    ensures Trim(Trim(s)) == Trim(s)
  {
    var left := TrimLeft(s);
    if left != "" {
      TrimRightFirst(left);
    }
  }

  lemma {:induction false} TrimLeftSpace(c: char, s: string)
    requires IsSpace(c)
    ensures Trim([c] + s) == Trim(s)
  {
    assert ([c] + s)[1..] == s;
  }

  lemma {:induction false} TrimLeftPush(s: string, c: char)
    requires IsSpace(c)
    ensures TrimLeft(s + [c]) == TrimLeft(s) + [c] || (TrimLeft(s) == "" && TrimLeft(s + [c]) == "")
  {
    if s == "" {
      assert s + [c] == [c];
      assert [c][1..] == "";
    } else if IsSpace(s[0]) {
      assert (s + [c])[1..] == s[1..] + [c];
      TrimLeftPush(s[1..], c);
    }
  }

  lemma {:induction false} TrimRightSpace(s: string, c: char)
    requires IsSpace(c)
    ensures Trim(s + [c]) == Trim(s)
  {
    TrimLeftPush(s, c);
    var left := TrimLeft(s);
    assert (left + [c])[..|left|] == left;
  }

  // Cutting.

  lemma {:induction false} PiecesPrefix(c: char, x: string, piece: string, s: string)
    ensures Pieces(c, x + piece, s) == [x + Pieces(c, piece, s)[0]] + Pieces(c, piece, s)[1..]
    decreases |s|
  {
    if |s| < 2 {
      assert x + piece + s == x + (piece + s);
    } else if s[0] == c && s[1] == c {
    } else {
      assert x + piece + [s[0]] == x + (piece + [s[0]]);
      PiecesPrefix(c, x, piece + [s[0]], s[1..]);
    }
  }

  lemma {:induction false} PiecesSuffix(c: char, piece: string, s: string, x: char)
    requires x != c
    ensures var p := Pieces(c, piece, s);
            Pieces(c, piece, s + [x]) == p[..|p| - 1] + [p[|p| - 1] + [x]]
    decreases |s|
  {
    var t := s + [x];
    if |s| == 0 {
      assert piece + t == piece + s + [x];
    } else if |s| == 1 {
      assert t[1..] == [x];
      assert piece + [s[0]] + [x] == piece + s + [x];
    } else if s[0] == c && s[1] == c {
      assert t[2..] == s[2..] + [x];
      PiecesSuffix(c, "", s[2..], x);
      var p := Pieces(c, "", s[2..]);
      assert [piece] + (p[..|p| - 1] + [p[|p| - 1] + [x]]) == ([piece] + p)[..|p|] + [([piece] + p)[|p|] + [x]];
    } else {
      assert t[1..] == s[1..] + [x];
      PiecesSuffix(c, piece + [s[0]], s[1..], x);
    }
  }

  lemma {:induction false} CleanConcat(a: seq<string>, b: seq<string>)
    ensures Clean(a + b) == Clean(a) + Clean(b)
  {
    hide Trim;
    if a == [] {
      assert a + b == b;
    } else {
      assert (a + b)[1..] == a[1..] + b;
      CleanConcat(a[1..], b);
    }
  }

  lemma {:induction false} CleanOne(p: string, q: string)
    requires Trim(p) == Trim(q)
    ensures Clean([p]) == Clean([q])
  {
  }

  /** A space in front of a branch does not change its clauses. */
  lemma {:induction false} LeadingSpace(x: char, s: string)
    requires IsSpace(x)
    ensures ClausesOf([x] + s) == ClausesOf(s)
  {
    var t := [x] + s;
    var p := Split('&', s);
    PiecesPrefix('&', [x], "", s);
    assert [x] + "" == [x];
    if |t| < 2 {
      assert s == "";
      assert "" + t == [x] && "" + s == "";
    } else {
      assert t[1..] == s;
      assert "" + [t[0]] == [x];
      assert Split('&', t) == [[x] + p[0]] + p[1..];
    }
    TrimLeftSpace(x, p[0]);
    CleanOne([x] + p[0], p[0]);
    CleanConcat([[x] + p[0]], p[1..]);
    CleanConcat([p[0]], p[1..]);
    assert [p[0]] + p[1..] == p;
    assert Split('&', t) == [[x] + p[0]] + p[1..];
  }

  /** Nor does one behind it. */
  lemma {:induction false} TrailingSpace(s: string, x: char)
    requires IsSpace(x)
    ensures ClausesOf(s + [x]) == ClausesOf(s)
  {
    var p := Split('&', s);
    PiecesSuffix('&', "", s, x);
    var n := |p| - 1;
    TrimRightSpace(p[n], x);
    CleanOne(p[n] + [x], p[n]);
    CleanConcat(p[..n], [p[n] + [x]]);
    CleanConcat(p[..n], [p[n]]);
    assert p[..n] + [p[n]] == p;
  }

  lemma {:induction false} TrimLeftClauses(s: string)
    ensures ClausesOf(TrimLeft(s)) == ClausesOf(s)
  {
    hide ClausesOf, IsSpace;
    if s != "" && IsSpace(s[0]) {
      TrimLeftClauses(s[1..]);
      LeadingSpace(s[0], s[1..]);
      assert [s[0]] + s[1..] == s;
    }
  }

  lemma {:induction false} TrimRightClauses(s: string)
    ensures ClausesOf(TrimRight(s)) == ClausesOf(s)
  {
    hide ClausesOf, IsSpace;
    if s != "" && IsSpace(s[|s| - 1]) {
      var n := |s| - 1;
      TrimRightClauses(s[..n]);
      TrailingSpace(s[..n], s[n]);
      assert s[..n] + [s[n]] == s;
    }
  }

  lemma {:induction false} TrimClauses(s: string)
    ensures ClausesOf(Trim(s)) == ClausesOf(s)
  {
    TrimLeftClauses(s);
    TrimRightClauses(TrimLeft(s));
  }

  lemma EmptyHasNoClauses()
    ensures ClausesOf("") == []
  {
    assert "" + "" == "";
    assert [""][1..] == [];
  }

  lemma {:induction false} SameClausesOfPieces(pieces: seq<string>)
    ensures Clean(SplitAll(pieces)) == EvaluatorClauses(Clean(pieces))
  {
    if pieces != [] {
      var first, rest := pieces[0], pieces[1..];
      SameClausesOfPieces(rest);
      CleanConcat(Split('&', first), SplitAll(rest));
      TrimClauses(first);
      if Trim(first) == "" {
        EmptyHasNoClauses();
        assert Clean(pieces) == Clean(rest);
      } else {
        assert Clean(pieces) == [Trim(first)] + Clean(rest);
        assert Clean(pieces)[1..] == Clean(rest);
      }
    }
  }

  /** Validator and evaluator see the same clauses of every string. */
  lemma {:induction false} SameClauses(expression: string)
    ensures ValidatorClauses(expression) == EvaluatorClauses(Branches(expression))
  {
    SameClausesOfPieces(Split('|', expression));
  }
}
