/** Sorting, partial sorting and cursor paging of search results
    (crates/latlng-index/src/lib.rs). */
module Paging {
  import opened Types
  import opened Order

  datatype Candidate = Candidate(id: string, distance: Option<real>)

  const PARTIAL_SORT_THRESHOLD: nat := 256
  const U32_LIMIT: nat := 0x1_0000_0000

  /** `compare_candidates` says Less: by distance where both have one, then by id. */
  predicate Ahead(a: Candidate, b: Candidate) {
    if a.distance.Some? && b.distance.Some? && a.distance.value != b.distance.value
    then a.distance.value < b.distance.value
    else Less(a.id, b.id)
  }

  predicate Precedes(a: Candidate, b: Candidate, descending: bool) {
    if descending then Ahead(b, a) else Ahead(a, b)
  }

  /** Distinct ids, and distances on all candidates or on none. */
  ghost predicate Comparable(items: seq<Candidate>) {
    (forall i, j :: 0 <= i < j < |items| ==> items[i].id != items[j].id) &&
    ((forall c :: c in items ==> c.distance.Some?) || (forall c :: c in items ==> c.distance.None?))
  }

  ghost predicate Sorted(items: seq<Candidate>, descending: bool) {
    forall i, j :: 0 <= i < j < |items| ==> Precedes(items[i], items[j], descending)
  }

  /** Two candidates of one comparable list. */
  ghost predicate Peers(a: Candidate, b: Candidate) {
    (a.distance.Some? <==> b.distance.Some?) && (a.id == b.id ==> a == b)
  }

  lemma AheadIsTotal(a: Candidate, b: Candidate)
    requires Peers(a, b)
    ensures a == b || Ahead(a, b) || Ahead(b, a)
    ensures !(Ahead(a, b) && Ahead(b, a))
  {
    LessIsTotal(a.id, b.id);
    LessIsStrict(a.id, b.id);
  }

  lemma AheadIsTransitive(a: Candidate, b: Candidate, c: Candidate)
    requires Peers(a, b) && Peers(b, c) && Peers(a, c) && Ahead(a, b) && Ahead(b, c)
    ensures Ahead(a, c)
  {
    if Less(a.id, b.id) && Less(b.id, c.id) {
      LessIsTransitive(a.id, b.id, c.id);
    }
  }

  lemma PrecedesIsTotal(a: Candidate, b: Candidate, descending: bool)
    requires Peers(a, b)
    ensures a == b || Precedes(a, b, descending) || Precedes(b, a, descending)
    ensures !(Precedes(a, b, descending) && Precedes(b, a, descending))
  {
    AheadIsTotal(a, b);
  }

  lemma PrecedesIsTransitive(a: Candidate, b: Candidate, c: Candidate, descending: bool)
    requires Peers(a, b) && Peers(b, c) && Peers(a, c)
    requires Precedes(a, b, descending) && Precedes(b, c, descending)
    ensures Precedes(a, c, descending)
  {
    if descending {
      AheadIsTransitive(c, b, a);
    } else {
      AheadIsTransitive(a, b, c);
    }
  }

  lemma {:induction false} ArePeers(items: seq<Candidate>, a: Candidate, b: Candidate)
    requires Comparable(items) && a in items && b in items
    ensures Peers(a, b)
  {
  }

  lemma {:induction false} ComparablePermutes(items: seq<Candidate>, other: seq<Candidate>)
    requires Comparable(items) && multiset(items) == multiset(other)
    ensures Comparable(other) && |other| == |items|
    ensures forall c :: c in items <==> c in other
  {
    assert |items| == |multiset(items)| == |multiset(other)| == |other|;
    assert forall c :: c in items <==> c in multiset(items);
    assert forall c :: c in other <==> c in multiset(other);
    forall i, j | 0 <= i < j < |other| ensures other[i].id != other[j].id {
      if other[i].id == other[j].id {
        assert other[i] in items && other[j] in items;
        ArePeers(items, other[i], other[j]);
        TwiceMeansTwice(other, i, j);
        OnceEach(items, other[i]);
        assert false;
      }
    }
  }

  lemma {:induction false} TwiceMeansTwice(items: seq<Candidate>, i: nat, j: nat)
    requires i < j < |items| && items[i] == items[j]
    ensures multiset(items)[items[i]] >= 2
  {
    assert items == items[..j] + [items[j]] + items[j + 1..];
    assert items[i] in items[..j];
  }

  lemma {:induction false} OnceEach(items: seq<Candidate>, c: Candidate)
    requires Comparable(items)
    ensures multiset(items)[c] <= 1
  {
    if items != [] {
      var init, last := items[..|items| - 1], items[|items| - 1];
      OnceEach(init, c);
      assert items == init + [last];
      if c == last {
        assert c !in init;
      }
    }
  }

  // The fully sorted list.

  function Insert(c: Candidate, sorted: seq<Candidate>, descending: bool): (r: seq<Candidate>)
    ensures |r| == |sorted| + 1
  {
    if sorted == [] || Precedes(c, sorted[0], descending) then [c] + sorted
    else [sorted[0]] + Insert(c, sorted[1..], descending)
  }

  function Ranked(items: seq<Candidate>, descending: bool): (r: seq<Candidate>)
    ensures |r| == |items|
  {
    if items == [] then [] else Insert(items[0], Ranked(items[1..], descending), descending)
  }

  lemma {:induction false} InsertKeeps(c: Candidate, sorted: seq<Candidate>, descending: bool)
    ensures multiset(Insert(c, sorted, descending)) == multiset{c} + multiset(sorted)
  {
    if sorted != [] && !Precedes(c, sorted[0], descending) {
      InsertKeeps(c, sorted[1..], descending);
      assert sorted == [sorted[0]] + sorted[1..];
    }
  }

  lemma {:induction false} RankedKeeps(items: seq<Candidate>, descending: bool)
    ensures multiset(Ranked(items, descending)) == multiset(items)
  {
    if items != [] {
      RankedKeeps(items[1..], descending);
      InsertKeeps(items[0], Ranked(items[1..], descending), descending);
      assert items == [items[0]] + items[1..];
    }
  }

  lemma {:induction false} InsertSorts(c: Candidate, sorted: seq<Candidate>, descending: bool)
    requires Comparable([c] + sorted) && Sorted(sorted, descending)
    ensures Sorted(Insert(c, sorted, descending), descending)
  {
    var all := [c] + sorted;
    if sorted != [] {
      var head, rest := sorted[0], sorted[1..];
      assert head in all && c in all;
      ArePeers(all, c, head);
      PrecedesIsTotal(c, head, descending);
      assert c != head by {
        assert all[0].id != all[1].id;
      }
      if Precedes(c, head, descending) {
        SmallestFirst(c, sorted, descending);
      } else {
        ComparableTail(c, sorted);
        InsertSorts(c, rest, descending);
        InsertKeeps(c, rest, descending);
        HeadStaysFirst(c, sorted, Insert(c, rest, descending), descending);
      }
    }
  }

  lemma {:induction false} SmallestFirst(c: Candidate, sorted: seq<Candidate>, descending: bool)
    requires sorted != [] && Comparable([c] + sorted) && Sorted(sorted, descending)
    requires Precedes(c, sorted[0], descending)
    ensures Sorted([c] + sorted, descending)
  {
    hide Precedes;
    var all := [c] + sorted;
    forall i | 1 <= i < |sorted| ensures Precedes(c, sorted[i], descending) {
      assert sorted[i] in all && sorted[0] in all && c in all;
      ArePeers(all, c, sorted[0]);
      ArePeers(all, c, sorted[i]);
      ArePeers(all, sorted[0], sorted[i]);
      PrecedesIsTransitive(c, sorted[0], sorted[i], descending);
    }
  }

  lemma {:induction false} HeadStaysFirst(
      c: Candidate, sorted: seq<Candidate>, inner: seq<Candidate>, descending: bool)
    requires sorted != [] && Sorted(sorted, descending) && Sorted(inner, descending)
    requires multiset(inner) == multiset{c} + multiset(sorted[1..])
    requires Precedes(sorted[0], c, descending)
    ensures Sorted([sorted[0]] + inner, descending)
  {
    hide Precedes;
    forall i | 0 <= i < |inner| ensures Precedes(sorted[0], inner[i], descending) {
      assert inner[i] in multiset(inner);
      if inner[i] != c {
        assert inner[i] in sorted[1..];
        var j :| 0 <= j < |sorted[1..]| && sorted[1..][j] == inner[i];
        assert sorted[j + 1] == inner[i];
      }
    }
  }

  lemma {:induction false} ComparableTail(c: Candidate, sorted: seq<Candidate>)
    requires sorted != [] && Comparable([c] + sorted)
    ensures Comparable([c] + sorted[1..])
  {
    var all, tail := [c] + sorted, [c] + sorted[1..];
    forall i | 0 <= i < |tail| ensures tail[i] == all[if i == 0 then 0 else i + 1] {
    }
    assert forall x :: x in tail ==> x in all;
  }

  lemma {:induction false} RankedSorts(items: seq<Candidate>, descending: bool)
    requires Comparable(items)
    ensures Sorted(Ranked(items, descending), descending)
  {
    if items != [] {
      var rest := items[1..];
      RankedSorts(rest, descending);
      RankedKeeps(rest, descending);
      assert items == [items[0]] + rest;
      assert multiset([items[0]] + Ranked(rest, descending)) == multiset(items);
      ComparablePermutes(items, [items[0]] + Ranked(rest, descending));
      InsertSorts(items[0], Ranked(rest, descending), descending);
    }
  }

  /** The nearer candidate comes first; among those at the same distance, or without
      one, the order is that of the ids. Descending, both are reversed. */
  lemma {:induction false} RankedOrder(items: seq<Candidate>, descending: bool, i: nat, j: nat)
    requires Comparable(items) && i < j < |items|
    ensures |Ranked(items, descending)| == |items|
    ensures
      var all := Ranked(items, descending);
      var first, second := if descending then all[j] else all[i], if descending then all[i] else all[j];
      first in items && second in items &&
      (first.distance.Some? <==> second.distance.Some?) &&
      (first.distance.Some? ==> first.distance.value <= second.distance.value) &&
      (first.distance == second.distance ==> Less(first.id, second.id))
  {
    RankedSorts(items, descending);
    RankedKeeps(items, descending);
    ComparablePermutes(items, Ranked(items, descending));
    hide Ranked;
  }

  /** A sorted arrangement of given candidates is unique, even prefix by prefix:
      if the first `end` are in order and precede all others, they are the first
      `end` of the fully sorted list. */
  lemma {:induction false} PrefixIsRanked(
      items: seq<Candidate>, out: seq<Candidate>, full: seq<Candidate>, end: nat, descending: bool)
    requires Comparable(items) && multiset(out) == multiset(items) == multiset(full)
    requires end <= |out| && Sorted(out[..end], descending) && Sorted(full, descending)
    requires forall i, j :: 0 <= i < end <= j < |out| ==> Precedes(out[i], out[j], descending)
    ensures |full| == |out| && out[..end] == full[..end]
    decreases end
  {
    ComparablePermutes(items, out);
    ComparablePermutes(items, full);
    if end > 0 {
      var k := end - 1;
      forall i, j | 0 <= i < k <= j < |out| ensures Precedes(out[i], out[j], descending) {
        if j == k {
          assert Precedes(out[..end][i], out[..end][j], descending);
        }
      }
      assert out[..k] == out[..end][..k];
      PrefixIsRanked(items, out, full, k, descending);
      SameAt(items, out, full, k, descending);
      assert out[..end] == out[..k] + [out[k]] && full[..end] == full[..k] + [full[k]];
    }
  }

  /** With equal prefixes, both sequences continue with the least of what is left. */
  lemma {:induction false} SameAt(items: seq<Candidate>, out: seq<Candidate>, full: seq<Candidate>, k: nat, descending: bool)
    requires Comparable(items) && multiset(out) == multiset(items) == multiset(full)
    requires Comparable(out) && Comparable(full) && k < |out| == |full| && out[..k] == full[..k]
    requires forall c :: c in out <==> c in full
    requires forall j :: k < j < |out| ==> Precedes(out[k], out[j], descending)
    requires forall j :: k < j < |full| ==> Precedes(full[k], full[j], descending)
    ensures out[k] == full[k]
  {
    if out[k] != full[k] {
      assert out[k] in out && full[k] in full;
      var p :| 0 <= p < |full| && full[p] == out[k];
      var q :| 0 <= q < |out| && out[q] == full[k];
      assert forall i :: 0 <= i < k ==> out[i] == out[..k][i] && full[i] == full[..k][i];
      assert p > k && q > k;
      ArePeers(out, out[k], out[q]);
      PrecedesIsTotal(out[k], out[q], descending);
    }
  }

  // `sort_candidates_for_page`. What `select_nth_unstable_by` leaves behind is a
  // parameter: any permutation with the wanted element in place.

  predicate ShouldPartialSort(total: nat, end: nat) {
    total >= PARTIAL_SORT_THRESHOLD && end * 2 < total
  }

  ghost predicate Selection(items: seq<Candidate>, n: nat, selected: seq<Candidate>, descending: bool) {
    multiset(selected) == multiset(items) && n < |selected| == |items| &&
    (forall i :: 0 <= i < n ==> Precedes(selected[i], selected[n], descending)) &&
    (forall j :: n < j < |selected| ==> Precedes(selected[n], selected[j], descending))
  }

  method CopyInto(a: array<Candidate>, s: seq<Candidate>)
    requires a.Length == |s|
    modifies a
    ensures a[..] == s
  {
    for i := 0 to |s|
      invariant a[..i] == s[..i]
    {
      a[i] := s[i];
      assert a[..i + 1] == a[..i] + [a[i]];
    }
    assert a[..] == a[..a.Length] && s[..|s|] == s;
  }

  method SortCandidatesForPage(a: array<Candidate>, descending: bool, end: nat, selected: seq<Candidate>)
    requires Comparable(a[..]) && end <= a.Length
    requires 0 < end < a.Length ==> Selection(a[..], end - 1, selected, descending)
    modifies a
    ensures multiset(a[..]) == multiset(old(a[..]))
    ensures a[..end] == Ranked(old(a[..]), descending)[..end]
  {
    hide Ranked, Comparable, Precedes;
    ghost var items := a[..];
    RankedKeeps(items, descending);
    if a.Length <= 1 {
      SmallIsRanked(items, descending);
      return;
    }
    if end == 0 || end >= a.Length || !ShouldPartialSort(a.Length, end) {
      CopyInto(a, Ranked(a[..], descending));
      assert a[..end] == a[..][..end];
      return;
    }
    var prefix := Ranked(selected[..end], descending);
    RankedKeeps(selected[..end], descending);
    PageSorted(items, selected, end, descending);
    CopyInto(a, prefix + selected[end..]);
    assert a[..end] == (prefix + selected[end..])[..end];
    assert selected == selected[..end] + selected[end..];
  }

  lemma SmallIsRanked(items: seq<Candidate>, descending: bool)
    requires |items| <= 1
    ensures Ranked(items, descending) == items
  {
    if items != [] {
      assert items[1..] == [];
      assert items == [items[0]];
    }
  }

  /** Selecting the page boundary and sorting only the page gives the page of the
      fully sorted list. */
  lemma {:induction false} PageSorted(items: seq<Candidate>, selected: seq<Candidate>, end: nat, descending: bool)
    requires Comparable(items) && 0 < end && Selection(items, end - 1, selected, descending)
    ensures |Ranked(items, descending)| == |items|
    ensures Ranked(selected[..end], descending) == Ranked(items, descending)[..end]
  {
    var prefix := Ranked(selected[..end], descending);
    var out := prefix + selected[end..];
    ComparablePermutes(items, selected);
    assert selected == selected[..end] + selected[end..];
    ComparablePrefix(selected, end);
    RankedKeeps(selected[..end], descending);
    RankedSorts(selected[..end], descending);
    RankedKeeps(items, descending);
    RankedSorts(items, descending);
    assert multiset(out) == multiset(items);
    forall i, j | 0 <= i < end <= j < |out| ensures Precedes(out[i], out[j], descending) {
      PageBeforeRest(selected, prefix, end, i, j, descending);
    }
    assert out[..end] == prefix;
    PrefixIsRanked(items, out, Ranked(items, descending), end, descending);
  }

  lemma {:induction false} PageBeforeRest(
      selected: seq<Candidate>, prefix: seq<Candidate>, end: nat, i: nat, j: nat, descending: bool)
    requires Comparable(selected) && 0 < end && Selection(selected, end - 1, selected, descending)
    requires multiset(prefix) == multiset(selected[..end]) && |prefix| == end
    requires i < end <= j < |selected|
    ensures Precedes(prefix[i], (prefix + selected[end..])[j], descending)
  {
    var n := end - 1;
    var b := selected[j];
    assert (prefix + selected[end..])[j] == selected[end..][j - end] == b;
    assert prefix[i] in multiset(selected[..end]);
    var p :| 0 <= p < end && selected[p] == prefix[i];
    if p < n {
      ArePeers(selected, selected[p], selected[n]);
      ArePeers(selected, selected[n], b);
      ArePeers(selected, selected[p], b);
      PrecedesIsTransitive(selected[p], selected[n], b, descending);
    }
  }

  lemma {:induction false} ComparablePrefix(items: seq<Candidate>, end: nat)
    requires Comparable(items) && end <= |items|
    ensures Comparable(items[..end])
  {
    assert forall c :: c in items[..end] ==> c in items;
  }

  // Cursors.

  /** What a query asks for: the number of matches, or the matches, with the number of
      all of them or of those on the page. */
  datatype Form = CountOnly | WithItems(includeCount: bool)

  datatype Page = Page(items: seq<Candidate>, cursor: nat, count: nat)

  function PageEnd(total: nat, cursor: nat, limit: nat): nat {
    Min(cursor + AtLeastOne(limit), total)
  }

  /** One call of `apply_search_options` on the matches: the page, and the cursor for
      the next one and the count, both truncated to 32 bits. */
  function PageAt(matches: seq<Candidate>, cursor: nat, limit: nat, form: Form): Page {
    var total, end := |matches|, PageEnd(|matches|, cursor, limit);
    var next := if end < total then end % U32_LIMIT else 0;
    var items := if cursor <= end then matches[cursor..end] else [];
    if form.CountOnly? then Page([], next, total % U32_LIMIT)
    else Page(items, next, (if form.includeCount then total else |items|) % U32_LIMIT)
  }

  /** `apply_search_options` on the matching candidates, in whatever order they
      were found: the page of the fully sorted matches. */
  method ApplySearchOptions(
      a: array<Candidate>, cursor: nat, limit: nat, descending: bool, form: Form, selected: seq<Candidate>)
    returns (page: Page)
    requires Comparable(a[..])
    requires
      var end := PageEnd(a.Length, cursor, limit);
      0 < end < a.Length ==> Selection(a[..], end - 1, selected, descending)
    modifies a
    ensures page == PageAt(Ranked(old(a[..]), descending), cursor, limit, form)
  {
    hide Ranked, Comparable;
    var total := a.Length % U32_LIMIT;
    var end := PageEnd(a.Length, cursor, limit);
    var next := if end < a.Length then end % U32_LIMIT else 0;
    if form.CountOnly? {
      return Page([], next, total);
    }
    SortCandidatesForPage(a, descending, end, selected);
    var items: seq<Candidate> := [];
    if cursor <= end {
      ghost var full := Ranked(old(a[..]), descending);
      assert a[cursor..end] == a[..end][cursor..] == full[..end][cursor..] == full[cursor..end];
      items := a[cursor..end];
    }
    page := Page(items, next, if form.includeCount then total else |items| % U32_LIMIT);
  }

  /** The order in which candidates were found does not matter. */
  lemma RankedIgnoresOrder(items: seq<Candidate>, other: seq<Candidate>, descending: bool)
    requires Comparable(items) && multiset(items) == multiset(other)
    ensures Comparable(other) && Ranked(items, descending) == Ranked(other, descending)
  {
    ComparablePermutes(items, other);
    RankedKeeps(items, descending);
    RankedKeeps(other, descending);
    RankedSorts(items, descending);
    RankedSorts(other, descending);
    var out, full := Ranked(items, descending), Ranked(other, descending);
    assert out[..|out|] == out && full[..|full|] == full;
    PrefixIsRanked(items, out, full, |out|, descending);
  }

  // Following cursors from 0 until the returned cursor is 0.

  /** The end of the `k`-th page. */
  function Boundary(limit: nat, k: nat): nat {
    k * AtLeastOne(limit)
  }

  lemma BoundariesGrow(limit: nat, a: nat, b: nat)
    requires a <= b
    ensures Boundary(limit, a) <= Boundary(limit, b)
    ensures Boundary(limit, 0) == 0 && Boundary(limit, a + 1) == Boundary(limit, a) + AtLeastOne(limit)
  {
    var d := b - a;
    assert d * AtLeastOne(limit) >= 0;
    assert Boundary(limit, b) == Boundary(limit, a) + d * AtLeastOne(limit);
  }

  /** How many boundaries lie below `n`. */
  function PagesBelow(limit: nat, n: nat): nat {
    (n + AtLeastOne(limit) - 1) / AtLeastOne(limit)
  }

  lemma {:induction false} PagesBelowMeans(limit: nat, n: nat, k: nat)
    ensures k < PagesBelow(limit, n) <==> Boundary(limit, k) < n
  {
    var step, c := AtLeastOne(limit), PagesBelow(limit, n);
    assert c * step <= n + step - 1 < (c + 1) * step;
    BoundariesGrow(limit, c, c);
    BoundariesGrow(limit, k, k);
    if k < c {
      BoundariesGrow(limit, k + 1, c);
    } else {
      BoundariesGrow(limit, c, k);
    }
  }

  /** The first page boundary that does not fit a cursor. */
  function FirstWrap(limit: nat): nat {
    Boundary(limit, PagesBelow(limit, U32_LIMIT))
  }

  lemma {:induction false} FirstWrapIsFirst(limit: nat, k: nat)
    ensures FirstWrap(limit) >= U32_LIMIT
    ensures Boundary(limit, k) >= U32_LIMIT <==> Boundary(limit, k) >= FirstWrap(limit)
  {
    var c := PagesBelow(limit, U32_LIMIT);
    PagesBelowMeans(limit, U32_LIMIT, c);
    PagesBelowMeans(limit, U32_LIMIT, k);
    hide Boundary, PagesBelow;
    if c <= k {
      BoundariesGrow(limit, c, k);
    }
  }

  /** The items collected and the cursor returned after `n` requests. */
  function Followed(matches: seq<Candidate>, limit: nat, n: nat): (seq<Candidate>, nat)
    requires n >= 1
  {
    if n == 1 then
      var page := PageAt(matches, 0, limit, WithItems(false));
      (page.items, page.cursor)
    else
      var (all, cursor) := Followed(matches, limit, n - 1);
      var page := PageAt(matches, cursor, limit, WithItems(false));
      (all + page.items, page.cursor)
  }

  /** The `n`-th request is the first to return cursor 0. */
  ghost predicate Stops(matches: seq<Candidate>, limit: nat, n: nat) {
    n >= 1 && Followed(matches, limit, n).1 == 0 && forall m :: 1 <= m < n ==> Followed(matches, limit, m).1 != 0
  }

  ghost predicate Complete(matches: seq<Candidate>, limit: nat, n: nat) {
    Stops(matches, limit, n) && Followed(matches, limit, n).0 == matches
  }

  lemma PageIs(matches: seq<Candidate>, cursor: nat, limit: nat)
    requires cursor <= |matches|
    ensures var page, end := PageAt(matches, cursor, limit, WithItems(false)), cursor + AtLeastOne(limit);
            if end < |matches| then page.items == matches[cursor..end] && page.cursor == end % U32_LIMIT
            else page.items == matches[cursor..] && page.cursor == 0
  {
  }

  /** Up to the first boundary that wraps, the requests collect a prefix. */
  lemma {:induction false} FollowedPrefix(matches: seq<Candidate>, limit: nat, n: nat)
    requires n >= 1 && Boundary(limit, n - 1) < U32_LIMIT && Boundary(limit, n) < |matches|
    ensures Followed(matches, limit, n) == (matches[..Boundary(limit, n)], Boundary(limit, n) % U32_LIMIT)
  {
    hide Boundary, PageAt;
    BoundariesGrow(limit, n - 1, n);
    var before, end := Boundary(limit, n - 1), Boundary(limit, n);
    PageIs(matches, before, limit);
    if n > 1 {
      BoundariesGrow(limit, n - 2, n - 1);
      FollowedPrefix(matches, limit, n - 1);
      assert matches[..before] + matches[before..end] == matches[..end];
    } else {
      assert matches[0..end] == matches[..end];
    }
  }

  lemma {:induction false} FollowedAll(matches: seq<Candidate>, limit: nat, n: nat)
    requires n >= 1 && Boundary(limit, n - 1) < U32_LIMIT && Boundary(limit, n) >= |matches|
    requires Boundary(limit, n - 1) < |matches| || n == 1
    ensures Followed(matches, limit, n) == (matches, 0)
  {
    hide Boundary, PageAt;
    BoundariesGrow(limit, n - 1, n);
    var before := Boundary(limit, n - 1);
    PageIs(matches, before, limit);
    if n > 1 {
      BoundariesGrow(limit, n - 2, n - 1);
      FollowedPrefix(matches, limit, n - 1);
      assert matches[..before] + matches[before..] == matches;
    }
  }

  /** Once a boundary has wrapped to a cursor other than 0, an item is repeated. */
  lemma {:induction false} FollowedRepeats(matches: seq<Candidate>, limit: nat, k: nat, n: nat)
    requires 1 <= k < n && U32_LIMIT <= Boundary(limit, k) < |matches| && Boundary(limit, k - 1) < U32_LIMIT
    ensures var f := Boundary(limit, k);
            |Followed(matches, limit, n).0| > f && Followed(matches, limit, n).0[f] == matches[f % U32_LIMIT]
  {
    hide Boundary, PageAt;
    var f := Boundary(limit, k);
    if n == k + 1 {
      FollowedPrefix(matches, limit, k);
      PageIs(matches, f % U32_LIMIT, limit);
    } else {
      FollowedRepeats(matches, limit, k, n - 1);
    }
  }

  /** Following cursors ends with all matches in order, each once, if and only if no
      page boundary before the last match is too large for a cursor. */
  lemma {:induction false} CursorsCompleteIff(matches: seq<Candidate>, limit: nat)
    requires Comparable(matches)
    ensures (exists n :: Complete(matches, limit, n)) <==> |matches| <= FirstWrap(limit)
  {
    if |matches| <= FirstWrap(limit) {
      CompletesWithin(matches, limit);
    } else {
      forall n | Complete(matches, limit, n) ensures false {
        NeverComplete(matches, limit, n);
      }
    }
  }

  lemma {:induction false} CompletesWithin(matches: seq<Candidate>, limit: nat)
    requires |matches| <= FirstWrap(limit)
    ensures exists n :: Complete(matches, limit, n)
  {
    var n := if |matches| == 0 then 1 else PagesBelow(limit, |matches|);
    PagesBelowMeans(limit, |matches|, 0);
    PagesBelowMeans(limit, |matches|, n);
    BoundariesGrow(limit, 0, 0);
    hide Boundary, PagesBelow;
    if |matches| != 0 {
      PagesBelowMeans(limit, |matches|, n - 1);
    }
    FirstWrapIsFirst(limit, n - 1);
    hide FirstWrap;
    FollowedAll(matches, limit, n);
    forall m | 1 <= m < n ensures Followed(matches, limit, m).1 != 0 {
      PagesBelowMeans(limit, |matches|, m);
      GoesOn(matches, limit, m);
    }
    assert Complete(matches, limit, n);
  }

  lemma NotZero(n: nat)
    requires 0 < n < U32_LIMIT
    ensures n % U32_LIMIT != 0
  {
  }

  lemma {:induction false} GoesOn(matches: seq<Candidate>, limit: nat, m: nat)
    requires m >= 1 && Boundary(limit, m) < |matches| <= FirstWrap(limit)
    ensures Followed(matches, limit, m).1 != 0
  {
    assert AtLeastOne(limit) >= 1;
    hide *;
    FirstWrapIsFirst(limit, m);
    BoundariesGrow(limit, m - 1, m);
    FollowedPrefix(matches, limit, m);
    NotZero(Boundary(limit, m));
  }

  lemma {:induction false} NeverComplete(matches: seq<Candidate>, limit: nat, n: nat)
    requires Comparable(matches) && |matches| > FirstWrap(limit)
    ensures !Complete(matches, limit, n)
  {
    var k, f := PagesBelow(limit, U32_LIMIT), FirstWrap(limit);
    BoundariesGrow(limit, 0, 0);
    PagesBelowMeans(limit, U32_LIMIT, 0);
    PagesBelowMeans(limit, U32_LIMIT, k);
    hide Boundary, PagesBelow, Comparable;
    PagesBelowMeans(limit, U32_LIMIT, k - 1);
    if 1 <= n <= k {
      BeforeTheWrap(matches, limit, k, n);
    } else if n > k {
      FollowedRepeats(matches, limit, k, n);
      DifferentItems(matches, f % U32_LIMIT, f);
    }
  }

  lemma {:induction false} BeforeTheWrap(matches: seq<Candidate>, limit: nat, k: nat, n: nat)
    requires 1 <= n <= k && Boundary(limit, k) < |matches| && Boundary(limit, k - 1) < U32_LIMIT
    ensures Followed(matches, limit, n).0 != matches
  {
    BoundariesGrow(limit, n, k);
    BoundariesGrow(limit, n - 1, k - 1);
    hide Boundary;
    FollowedPrefix(matches, limit, n);
  }

  lemma DifferentItems(matches: seq<Candidate>, i: nat, j: nat)
    requires Comparable(matches) && i < j < |matches|
    ensures matches[i] != matches[j]
  {
  }

  /** The first request that returns cursor 0 is determined. */
  lemma StopsOnce(matches: seq<Candidate>, limit: nat, m: nat, n: nat)
    requires Stops(matches, limit, m) && Stops(matches, limit, n)
    ensures m == n
  {
    hide Followed;
  }

  lemma {:induction false} StopsWithAll(matches: seq<Candidate>, limit: nat, n: nat)
    requires |matches| <= FirstWrap(limit) && Stops(matches, limit, n)
    ensures Followed(matches, limit, n).0 == matches
  {
    hide Followed, Stops, FirstWrap;
    CompletesWithin(matches, limit);
    var m :| Complete(matches, limit, m);
    StopsOnce(matches, limit, m, n);
  }

  /** A client that follows cursors, for at most `patience` requests: the pages it
      collects are `Followed`, and where no boundary wraps they are all matches in
      order, each once. `found(k)` is the order in which the k-th request finds the
      matches, `select` the library's selection. */
  method FollowCursors(
      items: seq<Candidate>, descending: bool, limit: nat, patience: nat,
      found: nat -> seq<Candidate>, select: (seq<Candidate>, nat) -> seq<Candidate>)
    returns (all: seq<Candidate>, cursor: nat, requests: nat)
    requires Comparable(items) && patience >= 1
    requires forall k :: multiset(found(k)) == multiset(items)
    requires forall s, n: nat :: Comparable(s) && n < |s| ==> Selection(s, n, select(s, n), descending)
    ensures 1 <= requests <= patience && (all, cursor) == Followed(Ranked(items, descending), limit, requests)
    ensures if cursor == 0 then Stops(Ranked(items, descending), limit, requests) else requests == patience
    ensures cursor == 0 && |items| <= FirstWrap(limit) ==>
      all == Ranked(items, descending) && Sorted(all, descending) && multiset(all) == multiset(items)
  {
    hide Ranked, PageAt, Sorted, Comparable, FirstWrap;
    ghost var matches := Ranked(items, descending);
    RankedKeeps(items, descending);
    RankedSorts(items, descending);
    var page := OnePage(items, descending, limit, found(0), 0, select);
    all, cursor, requests := page.items, page.cursor, 1;
    while cursor != 0 && requests < patience
      invariant 1 <= requests <= patience && (all, cursor) == Followed(matches, limit, requests)
      invariant forall m :: 1 <= m < requests ==> Followed(matches, limit, m).1 != 0
      decreases patience - requests
    {
      page := OnePage(items, descending, limit, found(requests), cursor, select);
      all, cursor, requests := all + page.items, page.cursor, requests + 1;
    }
    if cursor == 0 && |items| <= FirstWrap(limit) {
      StopsWithAll(matches, limit, requests);
    }
  }

  method OnePage(
      ghost items: seq<Candidate>, descending: bool, limit: nat,
      found: seq<Candidate>, cursor: nat, select: (seq<Candidate>, nat) -> seq<Candidate>)
    returns (page: Page)
    requires Comparable(items) && multiset(found) == multiset(items)
    requires forall s, n: nat :: Comparable(s) && n < |s| ==> Selection(s, n, select(s, n), descending)
    ensures page == PageAt(Ranked(items, descending), cursor, limit, WithItems(false))
  {
    hide Ranked, PageAt, Comparable, Selection;
    RankedIgnoresOrder(items, found, descending);
    var a := new Candidate[|found|](i requires 0 <= i < |found| => found[i]);
    assert a[..] == found;
    var end := PageEnd(a.Length, cursor, limit);
    var selected := if 0 < end < a.Length then select(found, end - 1) else [];
    page := ApplySearchOptions(a, cursor, limit, descending, WithItems(false), selected);
  }
}
