/** The order of `String` keys and the sorted enumeration of a finite key set,
    which every `BTreeMap` iteration and every `sort()` of names uses. */
module Order {

  /** Lexicographic order by code point. */
  predicate Less(a: string, b: string) {
    if b == [] then false
    else if a == [] then true
    else a[0] < b[0] || (a[0] == b[0] && Less(a[1..], b[1..]))
  }

  /** The first difference decides, and a proper prefix comes first. */
  lemma {:induction false} LessMeans(a: string, b: string)
    ensures Less(a, b) <==> exists k: nat :: FirstDifference(a, b, k) && (|a| == k || a[k] < b[k])
  {
    if a != [] && b != [] && a[0] == b[0] {
      LessMeans(a[1..], b[1..]);
      if k: nat :| FirstDifference(a[1..], b[1..], k) && (|a[1..]| == k || a[1..][k] < b[1..][k]) {
        assert a[..k + 1] == [a[0]] + a[1..][..k] && b[..k + 1] == [b[0]] + b[1..][..k];
        assert FirstDifference(a, b, k + 1);
      }
      if k: nat :| FirstDifference(a, b, k) && (|a| == k || a[k] < b[k]) {
        assert a[1..][..k - 1] == a[..k][1..] && b[1..][..k - 1] == b[..k][1..];
        assert FirstDifference(a[1..], b[1..], k - 1);
      }
    } else {
      assert a[..0] == b[..0];
      assert b != [] && (a == [] || a[0] != b[0]) ==> FirstDifference(a, b, 0);
    }
  }

  /** Both start with the same `k` characters and `b` goes on differently. */
  ghost predicate FirstDifference(a: string, b: string, k: nat) {
    k <= |a| && k < |b| && a[..k] == b[..k] && (k < |a| ==> a[k] != b[k])
  }

  lemma {:induction false} LessIsStrict(a: string, b: string)
    ensures !(Less(a, b) && Less(b, a))
    ensures Less(a, b) ==> a != b
  {
    if a != [] && b != [] && a[0] == b[0] {
      LessIsStrict(a[1..], b[1..]);
    }
  }

  lemma {:induction false} LessIsTotal(a: string, b: string)
    ensures a == b || Less(a, b) || Less(b, a)
  {
    if a != [] && b != [] && a[0] == b[0] {
      LessIsTotal(a[1..], b[1..]);
      if a[1..] == b[1..] {
        assert a == [a[0]] + a[1..] && b == [b[0]] + b[1..];
      }
    }
  }

  lemma {:induction false} LessIsTransitive(a: string, b: string, c: string)
    requires Less(a, b) && Less(b, c)
    ensures Less(a, c)
  {
    if a != [] && a[0] == b[0] && b[0] == c[0] {
      LessIsTransitive(a[1..], b[1..], c[1..]);
    }
  }

  predicate IsLeast(x: string, keys: set<string>) {
    x in keys && forall y :: y in keys && y != x ==> Less(x, y)
  }

  lemma {:induction false} LeastExists(keys: set<string>)
    requires keys != {}
    ensures exists x :: IsLeast(x, keys)
  {
    var k :| k in keys;
    var rest := keys - {k};
    if rest == {} {
      assert keys == {k};
      assert IsLeast(k, keys);
    } else {
      LeastExists(rest);
      var m :| IsLeast(m, rest);
      LessIsTotal(k, m);
      if Less(k, m) {
        forall y | y in keys && y != k ensures Less(k, y) {
          if y != m { LessIsTransitive(k, m, y); }
        }
        assert IsLeast(k, keys);
      } else {
        assert IsLeast(m, keys);
      }
    }
  }

  ghost function Least(keys: set<string>): (x: string)
    requires keys != {}
    ensures IsLeast(x, keys)
  {
    LeastExists(keys);
    var x :| IsLeast(x, keys);
    x
  }

  /** The keys in ascending order. */
  ghost function SortedKeys(keys: set<string>): (s: seq<string>)
    ensures forall k :: k in s <==> k in keys
    ensures |s| == |keys|
    ensures forall i, j :: 0 <= i < j < |s| ==> Less(s[i], s[j])
    decreases keys
  {
    if keys == {} then []
    else
      var x := Least(keys);
      [x] + SortedKeys(keys - {x})
  }

  lemma LeastFirst(keys: set<string>, x: string)
    requires IsLeast(x, keys)
    ensures SortedKeys(keys) == [x] + SortedKeys(keys - {x})
  {
    LessIsStrict(x, Least(keys));
    hide Less;
  }

  lemma NoKeys()
    ensures SortedKeys({}) == []
  {
  }

  /** `sort()` of a collected key set. */
  method Sort(keys: set<string>) returns (s: seq<string>)
    ensures s == SortedKeys(keys)
  {
    hide *;
    s := [];
    var left := keys;
    while left != {}
      invariant s + SortedKeys(left) == SortedKeys(keys)
      decreases |left|
    {
      LeastExists(left);
      var x :| IsLeast(x, left);
      LeastFirst(left, x);
      assert x in left by {
        LeastIsIn(left, x);
      }
      s, left := s + [x], left - {x};
    }
    NoKeys();
  }

  lemma LeastIsIn(keys: set<string>, x: string)
    requires IsLeast(x, keys)
    ensures x in keys
  {
  }

  ghost predicate Distinct(s: seq<string>) {
    forall i, j :: 0 <= i < j < |s| ==> s[i] != s[j]
  }

  lemma SortedKeysDistinct(keys: set<string>)
    ensures Distinct(SortedKeys(keys))
  {
    var s := SortedKeys(keys);
    forall i, j | 0 <= i < j < |s| ensures s[i] != s[j] {
      LessIsStrict(s[i], s[j]);
    }
  }

  lemma {:induction false} SubsetSize(a: set<string>, b: set<string>)
    requires a <= b
    ensures |a| <= |b|
  {
    if a != {} {
      var x :| x in a;
      SubsetSize(a - {x}, b - {x});
    }
  }

  lemma {:induction false} SameSize(a: set<string>, b: set<string>)
    requires a <= b && |a| == |b|
    ensures a == b
  {
    if a != b {
      var x :| x in b && x !in a;
      SubsetSize(a, b - {x});
    }
  }

  /** The elements of a set, in whatever order it yields them. */
  method Listed(keys: set<string>) returns (names: seq<string>)
    ensures Distinct(names) && forall n :: n in names <==> n in keys
  {
    names := [];
    var left := keys;
    while left != {}
      invariant left <= keys && Distinct(names)
      invariant forall n :: n in names <==> n in keys - left
      decreases |left|
    {
      var n :| n in left;
      assert n !in names;
      names, left := names + [n], left - {n};
    }
  }
}
