/**
 * Merging histories: the first copy of every item is kept and the result is put
 * in cursor order. However the merge is staged, the outcome is the same.
 */
module MergedHistory {
  import opened Base

  // ---------------------------------------------------------------------
  // Keeping the first of each kind, in cursor order
  // ---------------------------------------------------------------------

  /** The distinct keys of a list, in the order they first appear. */
  function Keys<T(==), K(==)>(s: seq<T>, keyOf: T -> K): set<K> { set x | x in s :: keyOf(x) }

  /** The first element of every key, in order. */
  function Dedupe<T(==), K(==)>(s: seq<T>, keyOf: T -> K): seq<T> {
    if s == [] then []
    else
      var (rest, x) := (s[..|s| - 1], s[|s| - 1]);
      Dedupe(rest, keyOf) + if keyOf(x) in Keys(rest, keyOf) then [] else [x]
  }

  method DedupeBy<T(==), K(==)>(values: seq<T>, keyOf: T -> K) returns (r: seq<T>)
    ensures r == Dedupe(values, keyOf)
  {
    var seen: set<K> := {};
    r := [];
    for i := 0 to |values|
      invariant seen == Keys(values[..i], keyOf)
      invariant r == Dedupe(values[..i], keyOf)
    {
      var key := keyOf(values[i]);
      assert values[..i + 1] == values[..i] + [values[i]];
      if key !in seen {
        seen := seen + {key};
        r := r + [values[i]];
      }
    }
    assert values[..|values|] == values;
  }

  lemma DedupeStep<T, K>(rest: seq<T>, x: T, keyOf: T -> K)
    ensures Dedupe(rest + [x], keyOf) == Dedupe(rest, keyOf) + if keyOf(x) in Keys(rest, keyOf) then [] else [x]
    ensures Keys(rest + [x], keyOf) == Keys(rest, keyOf) + {keyOf(x)}
  {
    assert (rest + [x])[..|rest|] == rest;
  }

  ghost predicate OneEach<T, K>(s: seq<T>, keyOf: T -> K) {
    forall i, j :: 0 <= i < j < |s| ==> keyOf(s[i]) != keyOf(s[j])
  }

  /** Every key of the list is there exactly once. */
  lemma {:induction false} DedupeIs<T, K>(s: seq<T>, keyOf: T -> K)
    ensures OneEach(Dedupe(s, keyOf), keyOf)
    ensures Keys(Dedupe(s, keyOf), keyOf) == Keys(s, keyOf)
    ensures forall x | x in Dedupe(s, keyOf) :: x in s
  {
    if s != [] {
      var rest, x := s[..|s| - 1], s[|s| - 1];
      DedupeIs(rest, keyOf);
      assert s == rest + [x];
      var d := Dedupe(rest, keyOf);
      assert Keys(s, keyOf) == Keys(rest, keyOf) + {keyOf(x)};
      if keyOf(x) !in Keys(rest, keyOf) {
        assert Keys(d + [x], keyOf) == Keys(d, keyOf) + {keyOf(x)};
        forall i | 0 <= i < |d|
          ensures keyOf(d[i]) != keyOf(x)
        {
          assert keyOf(d[i]) in Keys(d, keyOf);
        }
      } else {
        assert Dedupe(s, keyOf) == d;
      }
    }
  }

  lemma {:induction false} DedupeOfDistinct<T, K>(s: seq<T>, keyOf: T -> K)
    requires OneEach(s, keyOf)
    ensures Dedupe(s, keyOf) == s
  {
    if s != [] {
      var rest, x := s[..|s| - 1], s[|s| - 1];
      DedupeOfDistinct(rest, keyOf);
      assert s == rest + [x];
    }
  }

  /** Removing repeats early changes nothing. */
  lemma {:induction false} DedupeEarly<T, K>(a: seq<T>, b: seq<T>, keyOf: T -> K)
    ensures Dedupe(Dedupe(a, keyOf) + b, keyOf) == Dedupe(a + b, keyOf)
    ensures Keys(Dedupe(a, keyOf) + b, keyOf) == Keys(a + b, keyOf)
    decreases b
  {
    DedupeIs(a, keyOf);
    var d := Dedupe(a, keyOf);
    if b == [] {
      assert d + b == d && a + b == a;
      DedupeOfDistinct(d, keyOf);
    } else {
      var rest, x := b[..|b| - 1], b[|b| - 1];
      DedupeEarly(a, rest, keyOf);
      assert d + b == (d + rest) + [x] && a + b == (a + rest) + [x];
      DedupeStep(d + rest, x, keyOf);
      DedupeStep(a + rest, x, keyOf);
    }
  }

  // ---------------------------------------------------------------------
  // The stable sort
  // ---------------------------------------------------------------------

  ghost predicate Ascending<T>(s: seq<T>, at: T -> nat) {
    forall i, j :: 0 <= i < j < |s| ==> at(s[i]) <= at(s[j])
  }

  function OnesAt<T>(at: T -> nat, n: nat): T -> bool { x => at(x) == n }

  function InsertBy<T>(x: T, s: seq<T>, at: T -> nat): seq<T> {
    if s == [] || at(x) <= at(s[0]) then [x] + s else [s[0]] + InsertBy(x, s[1..], at)
  }

  function SortBy<T>(s: seq<T>, at: T -> nat): seq<T> {
    if s == [] then [] else InsertBy(s[0], SortBy(s[1..], at), at)
  }

  lemma {:induction false} InsertHolds<T>(x: T, s: seq<T>, at: T -> nat)
    ensures multiset(InsertBy(x, s, at)) == multiset{x} + multiset(s)
  {
    if s != [] && at(x) > at(s[0]) {
      InsertHolds(x, s[1..], at);
      assert s == [s[0]] + s[1..];
    }
  }

  lemma {:induction false} InsertKeepsOrder<T>(x: T, s: seq<T>, at: T -> nat)
    requires Ascending(s, at)
    ensures Ascending(InsertBy(x, s, at), at)
  {
    if s == [] || at(x) <= at(s[0]) {
      assert forall i :: 0 < i < |[x] + s| ==> ([x] + s)[i] == s[i - 1];
    } else {
      InsertKeepsOrder(x, s[1..], at);
      InsertHolds(x, s[1..], at);
      hide InsertBy;
      NoneBelow(s, InsertBy(x, s[1..], at), x, at);
      AscendingCons(s[0], InsertBy(x, s[1..], at), at);
      InsertLater(x, s, at);
    }
  }

  lemma InsertLater<T>(x: T, s: seq<T>, at: T -> nat)
    requires s != [] && at(x) > at(s[0])
    ensures InsertBy(x, s, at) == [s[0]] + InsertBy(x, s[1..], at)
  {
  }

  lemma NoneBelow<T>(s: seq<T>, t: seq<T>, x: T, at: T -> nat)
    requires s != [] && Ascending(s, at) && at(x) > at(s[0]) && multiset(t) == multiset{x} + multiset(s[1..])
    ensures forall y | y in t :: at(s[0]) <= at(y)
  {
    forall y | y in t
      ensures at(s[0]) <= at(y)
    {
      assert y in multiset(t);
      assert y == x || y in s[1..];
    }
  }

  lemma AscendingCons<T>(x: T, t: seq<T>, at: T -> nat)
    requires Ascending(t, at) && forall y | y in t :: at(x) <= at(y)
    ensures Ascending([x] + t, at)
  {
    var all := [x] + t;
    forall i, j | 0 <= i < j < |all|
      ensures at(all[i]) <= at(all[j])
    {
      assert all[j] == t[j - 1] && t[j - 1] in t;
      assert i > 0 ==> all[i] == t[i - 1];
    }
  }

  lemma {:induction false} InsertIsStable<T>(x: T, s: seq<T>, at: T -> nat, n: nat)
    ensures Filter(InsertBy(x, s, at), OnesAt(at, n)) == Filter([x] + s, OnesAt(at, n))
  {
    assert ([x] + s)[1..] == s;
    if s != [] && at(x) > at(s[0]) {
      InsertIsStable(x, s[1..], at, n);
      assert ([x] + s[1..])[1..] == s[1..];
      assert ([s[0]] + InsertBy(x, s[1..], at))[1..] == InsertBy(x, s[1..], at);
    }
  }

  /** The sort reorders, puts in order, and leaves equals in the order they were. */
  lemma {:induction false} SortIs<T>(s: seq<T>, at: T -> nat)
    ensures multiset(SortBy(s, at)) == multiset(s)
    ensures Ascending(SortBy(s, at), at)
    ensures forall n: nat :: Filter(SortBy(s, at), OnesAt(at, n)) == Filter(s, OnesAt(at, n))
  {
    if s != [] {
      var rest := SortBy(s[1..], at);
      SortIs(s[1..], at);
      InsertHolds(s[0], rest, at);
      InsertKeepsOrder(s[0], rest, at);
      assert s == [s[0]] + s[1..];
      forall n: nat
        ensures Filter(SortBy(s, at), OnesAt(at, n)) == Filter(s, OnesAt(at, n))
      {
        InsertIsStable(s[0], rest, at, n);
        assert ([s[0]] + rest)[1..] == rest;
      }
    }
  }

  lemma {:induction false} SortOfSorted<T>(s: seq<T>, at: T -> nat)
    requires Ascending(s, at)
    ensures SortBy(s, at) == s
  {
    if s != [] {
      SortOfSorted(s[1..], at);
    }
  }

  lemma SameElements<T>(a: seq<T>, b: seq<T>, x: T)
    requires multiset(a) == multiset(b)
    ensures x in a <==> x in b
  {
    assert x in a <==> x in multiset(a);
  }

  lemma {:induction false} InsertKeepsOneEach<T, K>(x: T, s: seq<T>, at: T -> nat, keyOf: T -> K)
    requires OneEach(s, keyOf) && forall y | y in s :: keyOf(y) != keyOf(x)
    ensures OneEach(InsertBy(x, s, at), keyOf)
  {
    if s != [] && at(x) > at(s[0]) {
      InsertKeepsOneEach(x, s[1..], at, keyOf);
      InsertHolds(x, s[1..], at);
      var t := InsertBy(x, s[1..], at);
      forall j | 0 <= j < |t|
        ensures keyOf(t[j]) != keyOf(s[0])
      {
        assert t[j] in multiset(t);
        if t[j] in s[1..] {
          var k :| 0 <= k < |s| - 1 && s[1..][k] == t[j];
          assert keyOf(s[0]) != keyOf(s[k + 1]);
        }
      }
    }
  }

  lemma {:induction false} SortKeepsOneEach<T, K>(s: seq<T>, at: T -> nat, keyOf: T -> K)
    requires OneEach(s, keyOf)
    ensures OneEach(SortBy(s, at), keyOf)
  {
    if s != [] {
      var rest := SortBy(s[1..], at);
      SortKeepsOneEach(s[1..], at, keyOf);
      SortIs(s[1..], at);
      forall y | y in rest
        ensures keyOf(y) != keyOf(s[0])
      {
        SameElements(rest, s[1..], y);
        var j :| 0 <= j < |s| - 1 && s[1..][j] == y;
        assert keyOf(s[0]) != keyOf(s[j + 1]);
      }
      InsertKeepsOneEach(s[0], rest, at, keyOf);
    }
  }

  lemma KeysReordered<T, K>(a: seq<T>, b: seq<T>, keyOf: T -> K)
    requires multiset(a) == multiset(b)
    ensures Keys(a, keyOf) == Keys(b, keyOf)
  {
    forall x
      ensures x in a <==> x in b
    {
      SameElements(a, b, x);
    }
  }

  // ---------------------------------------------------------------------
  // Histories
  // ---------------------------------------------------------------------

  /** A stored message, named by cursor and id, or a sync issue, named by cursor and detail. */
  datatype Item = Item(cursor: nat, name: nat, body: nat)

  function NameOf(x: Item): (nat, nat) { (x.cursor, x.name) }

  function CursorOf(x: Item): nat { x.cursor }

  function AtCursor(c: nat): Item -> bool { OnesAt(CursorOf, c) }

  lemma AtCursorIs(c: nat, x: Item)
    ensures AtCursor(c)(x) == (x.cursor == c)
  {
    assert CursorOf(x) == x.cursor;
  }

  lemma FilterAtIn(s: seq<Item>, c: nat, x: Item)
    ensures x in Filter(s, AtCursor(c)) <==> x in s && x.cursor == c
  {
    FilterIn(s, AtCursor(c), x);
    AtCursorIs(c, x);
  }

  /** Merging keeps the first copy of each item and puts them in cursor order. */
  function Tidy(s: seq<Item>): seq<Item> { SortBy(Dedupe(s, NameOf), CursorOf) }

  lemma TidyIs(s: seq<Item>)
    ensures Ascending(Tidy(s), CursorOf) && OneEach(Tidy(s), NameOf)
    ensures Keys(Tidy(s), NameOf) == Keys(s, NameOf)
    ensures forall x | x in Tidy(s) :: x in s
  {
    var d := Dedupe(s, NameOf);
    DedupeIs(s, NameOf);
    SortIs(d, CursorOf);
    SortKeepsOneEach(d, CursorOf, NameOf);
    KeysReordered(Tidy(s), d, NameOf);
    forall x | x in Tidy(s)
      ensures x in s
    {
      SameElements(Tidy(s), d, x);
    }
  }

  /**
   * Every item of the history is still there, known by its cursor and its name
   * together, and only once; of several copies the first one stays.
   */
  lemma TidyKeepsFirstOfEach(s: seq<Item>, i: nat)
    requires i < |s|
    ensures exists y :: y in Tidy(s) && y.cursor == s[i].cursor && y.name == s[i].name
    ensures (forall j :: 0 <= j < i ==> !(s[j].cursor == s[i].cursor && s[j].name == s[i].name)) ==> s[i] in Tidy(s)
    ensures var t := Tidy(s);
            forall m, n :: 0 <= m < n < |t| ==> t[m].cursor <= t[n].cursor && !(t[m].cursor == t[n].cursor && t[m].name == t[n].name)
  {
    TidyIs(s);
    var t := Tidy(s);
    assert NameOf(s[i]) in Keys(s, NameOf);
    var y :| y in t && NameOf(y) == NameOf(s[i]);
    if forall j :: 0 <= j < i ==> !(s[j].cursor == s[i].cursor && s[j].name == s[i].name) {
      DedupeKeepsFirst(s, NameOf, i);
      SortIs(Dedupe(s, NameOf), CursorOf);
      SameElements(t, Dedupe(s, NameOf), s[i]);
    }
    forall m, n | 0 <= m < n < |t|
      ensures t[m].cursor <= t[n].cursor && !(t[m].cursor == t[n].cursor && t[m].name == t[n].name)
    {
      assert CursorOf(t[m]) <= CursorOf(t[n]) && NameOf(t[m]) != NameOf(t[n]);
    }
  }

  lemma {:induction false} DedupeKeepsFirst<T, K>(s: seq<T>, keyOf: T -> K, i: nat)
    requires i < |s| && forall j :: 0 <= j < i ==> keyOf(s[j]) != keyOf(s[i])
    ensures s[i] in Dedupe(s, keyOf)
  {
    if i < |s| - 1 {
      DedupeKeepsFirst(s[..|s| - 1], keyOf, i);
    }
  }

  lemma TailsAgree(x: Item, a: seq<Item>, b: seq<Item>, c: nat)
    requires Filter([x] + a, AtCursor(c)) == Filter([x] + b, AtCursor(c))
    ensures Filter(a, AtCursor(c)) == Filter(b, AtCursor(c))
  {
    FilterAppend([x], a, AtCursor(c));
    FilterAppend([x], b, AtCursor(c));
    var head := Filter([x], AtCursor(c));
    hide Filter;
    assert (head + Filter(a, AtCursor(c)))[|head|..] == Filter(a, AtCursor(c));
    assert (head + Filter(b, AtCursor(c)))[|head|..] == Filter(b, AtCursor(c));
  }

  lemma NothingAnywhere(b: seq<Item>)
    requires forall c: nat :: Filter([], AtCursor(c)) == Filter(b, AtCursor(c))
    ensures b == []
  {
    if b != [] {
      assert Filter([], AtCursor(b[0].cursor)) == [];
      FilterAtIn(b, b[0].cursor, b[0]);
    }
  }

  /** Two ordered lists that agree at every cursor are the same list. */
  lemma {:induction false} OrderDetermines(a: seq<Item>, b: seq<Item>)
    requires Ascending(a, CursorOf) && Ascending(b, CursorOf)
    requires forall c: nat :: Filter(a, AtCursor(c)) == Filter(b, AtCursor(c))
    ensures a == b
    decreases |a|
  {
    hide Filter, AtCursor;
    if a == [] {
      NothingAnywhere(b);
    } else {
      FilterAtIn(a, a[0].cursor, a[0]);
      SomethingThere(b, a[0]);
      HeadsAgree(a, b);
      assert a == [a[0]] + a[1..] && b == [a[0]] + b[1..];
      forall c: nat
        ensures Filter(a[1..], AtCursor(c)) == Filter(b[1..], AtCursor(c))
      {
        TailsAgree(a[0], a[1..], b[1..], c);
      }
      OrderDetermines(a[1..], b[1..]);
    }
  }

  lemma SomethingThere(b: seq<Item>, x: Item)
    requires x in Filter(b, AtCursor(x.cursor))
    ensures b != []
  {
  }

  lemma HeadComesFirst(s: seq<Item>, c: nat)
    requires s != [] && s[0].cursor == c
    ensures Filter(s, AtCursor(c)) == [s[0]] + Filter(s[1..], AtCursor(c))
  {
    AtCursorIs(c, s[0]);
  }

  lemma HeadsAgree(a: seq<Item>, b: seq<Item>)
    requires Ascending(a, CursorOf) && Ascending(b, CursorOf) && a != [] && b != []
    requires forall c: nat :: Filter(a, AtCursor(c)) == Filter(b, AtCursor(c))
    ensures a[0] == b[0]
  {
    hide Filter, AtCursor;
    var low, high := a[0].cursor, b[0].cursor;
    FilterAtIn(a, low, a[0]);
    FilterAtIn(b, low, a[0]);
    FilterAtIn(b, high, b[0]);
    FilterAtIn(a, high, b[0]);
    var i :| 0 <= i < |b| && b[i] == a[0];
    var j :| 0 <= j < |a| && a[j] == b[0];
    assert CursorOf(b[0]) <= CursorOf(b[i]) && CursorOf(a[0]) <= CursorOf(a[j]);
    HeadComesFirst(a, low);
    HeadComesFirst(b, low);
    assert ([a[0]] + Filter(a[1..], AtCursor(low)))[0] == ([b[0]] + Filter(b[1..], AtCursor(low)))[0];
  }

  lemma NamesAtCursor(s: seq<Item>, x: Item)
    ensures NameOf(x) in Keys(s, NameOf) <==> NameOf(x) in Keys(Filter(s, AtCursor(x.cursor)), NameOf)
  {
    if NameOf(x) in Keys(s, NameOf) {
      var y :| y in s && NameOf(y) == NameOf(x);
      FilterAtIn(s, x.cursor, y);
    }
    if NameOf(x) in Keys(Filter(s, AtCursor(x.cursor)), NameOf) {
      var y :| y in Filter(s, AtCursor(x.cursor)) && NameOf(y) == NameOf(x);
      FilterAtIn(s, x.cursor, y);
    }
  }

  lemma FilterLast(rest: seq<Item>, x: Item, c: nat)
    ensures Filter(rest + [x], AtCursor(c)) == Filter(rest, AtCursor(c)) + if x.cursor == c then [x] else []
  {
    FilterAppend(rest, [x], AtCursor(c));
    AtCursorIs(c, x);
    assert Filter([x], AtCursor(c)) == if x.cursor == c then [x] else [];
  }

  lemma DedupeAtCursorStep(rest: seq<Item>, x: Item, c: nat)
    requires Filter(Dedupe(rest, NameOf), AtCursor(c)) == Dedupe(Filter(rest, AtCursor(c)), NameOf)
    ensures Filter(Dedupe(rest + [x], NameOf), AtCursor(c)) == Dedupe(Filter(rest + [x], AtCursor(c)), NameOf)
  {
    var f, d := Filter(rest, AtCursor(c)), Dedupe(rest, NameOf);
    var known := NameOf(x) in Keys(rest, NameOf);
    DedupeStep(rest, x, NameOf);
    FilterLast(rest, x, c);
    hide *;
    assert known ==> d + [] == d;
    if x.cursor != c {
      assert f + [] == f;
      if !known {
        FilterLast(d, x, c);
        assert Dedupe(f, NameOf) + [] == Dedupe(f, NameOf);
      }
    } else {
      DedupeStep(f, x, NameOf);
      NamesAtCursor(rest, x);
      assert known ==> Dedupe(f, NameOf) + [] == Dedupe(f, NameOf);
      if !known {
        FilterLast(d, x, c);
      }
    }
  }

  lemma {:induction false} DedupeAtCursor(s: seq<Item>, c: nat)
    ensures Filter(Dedupe(s, NameOf), AtCursor(c)) == Dedupe(Filter(s, AtCursor(c)), NameOf)
  {
    if s != [] {
      DedupeAtCursor(s[..|s| - 1], c);
      DedupeAtCursorStep(s[..|s| - 1], s[|s| - 1], c);
      assert s == s[..|s| - 1] + [s[|s| - 1]];
    }
  }

  /** Tidying part of a history before the rest arrives gives the same history. */
  lemma TidyEarly(a: seq<Item>, b: seq<Item>)
    ensures Tidy(Tidy(a) + b) == Tidy(a + b)
  {
    var d := Dedupe(a, NameOf);
    SortIs(d, CursorOf);
    SortIs(Dedupe(Tidy(a) + b, NameOf), CursorOf);
    SortIs(Dedupe(a + b, NameOf), CursorOf);
    forall c: nat
      ensures Filter(Tidy(Tidy(a) + b), AtCursor(c)) == Filter(Tidy(a + b), AtCursor(c))
    {
      var here := AtCursor(c);
      DedupeAtCursor(Tidy(a) + b, c);
      FilterAppend(Tidy(a), b, here);
      DedupeAtCursor(a, c);
      DedupeEarly(Filter(a, here), Filter(b, here), NameOf);
      FilterAppend(a, b, here);
      DedupeAtCursor(a + b, c);
    }
    OrderDetermines(Tidy(Tidy(a) + b), Tidy(a + b));
  }
}
