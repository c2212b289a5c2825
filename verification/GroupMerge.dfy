/**
 * Bringing saved groups back. Older snapshots could hold one group under several
 * aliases; its saved copies are folded into a single group.
 */
module GroupMerge {
  import opened Base
  import opened MergedHistory
  import opened SessionStore

  // ---------------------------------------------------------------------
  // Groups
  // ---------------------------------------------------------------------

  /** What a newer epoch brings with it: the saved client state and the facts saved beside it. */
  datatype Standing = Standing(epoch: nat, state: nat, coordinator: Key, active: bool, removedAt: Option<nat>)

  datatype Group = Group(alias: Key, gid: nat, standing: Standing, lastCursor: nat, fetchCursor: nat,
                         messages: seq<Item>, issues: seq<Item>)

  datatype Failure = DuplicateGroupAlias | DuplicateKeyPackageAlias

  function Newer(a: Standing, b: Standing): Standing { if b.epoch > a.epoch then b else a }

  function Later(a: nat, b: nat): nat { if a < b then b else a }

  function Merge(e: Group, g: Group): Group {
    e.(standing := Newer(e.standing, g.standing),
       lastCursor := Later(e.lastCursor, g.lastCursor),
       fetchCursor := Later(e.fetchCursor, g.fetchCursor),
       messages := Tidy(e.messages + g.messages),
       issues := Tidy(e.issues + g.issues))
  }

  /** Where the group with an id is held, or the length of the list. */
  function IndexOf(gs: seq<Group>, gid: nat): (i: nat)
    ensures i <= |gs| && (i < |gs| ==> gs[i].gid == gid)
    ensures forall j :: 0 <= j < i ==> gs[j].gid != gid
  {
    if gs == [] then 0 else if gs[0].gid == gid then 0 else 1 + IndexOf(gs[1..], gid)
  }

  predicate AliasTaken(gs: seq<Group>, alias: Key) { exists i :: 0 <= i < |gs| && gs[i].alias == alias }

  /** The groups brought back so far, and under which alias each saved alias now lives. */
  datatype Restored = Restored(groups: seq<Group>, canonical: Table<Key>)

  function PlaceGroup(r: Restored, g: Group): Result<Restored, Failure> {
    var i := IndexOf(r.groups, g.gid);
    if i < |r.groups| then
      Ok(Restored(r.groups[i := Merge(r.groups[i], g)], Put(r.canonical, g.alias, r.groups[i].alias)))
    else if AliasTaken(r.groups, g.alias) then
      Err(DuplicateGroupAlias)
    else
      Ok(Restored(r.groups + [g], Put(r.canonical, g.alias, g.alias)))
  }

  function PlaceGroups(entries: seq<Group>): Result<Restored, Failure> {
    if entries == [] then Ok(Restored([], []))
    else
      match PlaceGroups(entries[..|entries| - 1])
      case Err(e) => Err(e)
      case Ok(r) => PlaceGroup(r, entries[|entries| - 1])
  }

  // ---------------------------------------------------------------------
  // What the merge comes to
  // ---------------------------------------------------------------------

  function OfGroup(gid: nat): Group -> bool { (g: Group) => g.gid == gid }

  function MergeAll(s: seq<Group>): Group
    requires s != []
  {
    if |s| == 1 then s[0] else Merge(MergeAll(s[..|s| - 1]), s[|s| - 1])
  }

  predicate DistinctGroups(gs: seq<Group>) {
    forall i, j :: 0 <= i < j < |gs| ==> gs[i].gid != gs[j].gid && gs[i].alias != gs[j].alias
  }

  lemma FilterLast(s: seq<Group>, g: Group, gid: nat)
    ensures Filter(s + [g], OfGroup(gid)) == Filter(s, OfGroup(gid)) + if g.gid == gid then [g] else []
  {
    FilterAppend(s, [g], OfGroup(gid));
    assert Filter([g], OfGroup(gid)) == if g.gid == gid then [g] else [];
  }

  /** In a list with one group per id, that group is all a filter by id finds. */
  lemma {:induction false} FilterDistinct(gs: seq<Group>, gid: nat)
    requires DistinctGroups(gs)
    ensures var i := IndexOf(gs, gid);
            Filter(gs, OfGroup(gid)) == if i < |gs| then [gs[i]] else []
  {
    if gs != [] {
      if gs[0].gid == gid {
        forall x | x in gs[1..]
          ensures !OfGroup(gid)(x)
        {
          var k :| 0 <= k < |gs| - 1 && gs[1..][k] == x;
          assert gs[0].gid != gs[k + 1].gid;
        }
        FilterNone(gs[1..], OfGroup(gid));
      } else {
        FilterDistinct(gs[1..], gid);
      }
    }
  }

  lemma PlaceKeepsDistinct(r: Restored, g: Group)
    requires DistinctGroups(r.groups) && PlaceGroup(r, g).Ok?
    ensures DistinctGroups(PlaceGroup(r, g).value.groups)
  {
    hide Tidy;
  }

  lemma {:induction false} GroupsAreDistinct(entries: seq<Group>)
    requires PlaceGroups(entries).Ok?
    ensures DistinctGroups(PlaceGroups(entries).value.groups)
  {
    if entries != [] {
      GroupsAreDistinct(entries[..|entries| - 1]);
      PlaceKeepsDistinct(PlaceGroups(entries[..|entries| - 1]).value, entries[|entries| - 1]);
    }
  }

  lemma MergeIs(e: Group, g: Group)
    ensures Merge(e, g).alias == e.alias && Merge(e, g).gid == e.gid
    ensures Merge(e, g).standing == if g.standing.epoch > e.standing.epoch then g.standing else e.standing
    ensures Merge(e, g).lastCursor == if e.lastCursor < g.lastCursor then g.lastCursor else e.lastCursor
    ensures Merge(e, g).fetchCursor == if e.fetchCursor < g.fetchCursor then g.fetchCursor else e.fetchCursor
  {
  }

  lemma PlacedGroups(r: Restored, g: Group)
    requires PlaceGroup(r, g).Ok?
    ensures var (gs, i) := (r.groups, IndexOf(r.groups, g.gid));
            PlaceGroup(r, g).value.groups == if i < |gs| then gs[i := Merge(gs[i], g)] else gs + [g]
  {
    hide Put, Tidy;
  }

  /** Placing a group leaves every other id where it was. */
  lemma PlacedIndex(r: Restored, g: Group, gid: nat)
    requires PlaceGroup(r, g).Ok?
    ensures var (gs, i) := (r.groups, IndexOf(r.groups, gid));
            var after := PlaceGroup(r, g).value.groups;
            IndexOf(after, gid) == if i < |gs| || g.gid == gid then i else |after|
  {
    PlacedGroups(r, g);
    if IndexOf(r.groups, g.gid) < |r.groups| {
      MergeIs(r.groups[IndexOf(r.groups, g.gid)], g);
    }
    hide *;
    var after := PlaceGroup(r, g).value.groups;
    assert forall k | 0 <= k < |r.groups| :: after[k].gid == r.groups[k].gid;
    var i, j := IndexOf(r.groups, gid), IndexOf(after, gid);
    assert j < |r.groups| ==> r.groups[j].gid == gid && i <= j;
    if i < |r.groups| {
      assert after[i].gid == gid && j <= i;
    } else if |after| > |r.groups| {
      assert after[i] == g;
    }
  }

  lemma PlaceOneGroup(r: Restored, g: Group, gid: nat)
    requires DistinctGroups(r.groups) && PlaceGroup(r, g).Ok?
    ensures var held := Filter(r.groups, OfGroup(gid));
            |held| <= 1
            && Filter(PlaceGroup(r, g).value.groups, OfGroup(gid))
               == if g.gid != gid then held else if held == [] then [g] else [Merge(held[0], g)]
  {
    var after := PlaceGroup(r, g).value.groups;
    FilterDistinct(r.groups, gid);
    PlaceKeepsDistinct(r, g);
    FilterDistinct(after, gid);
    PlacedGroups(r, g);
    PlacedIndex(r, g, gid);
    hide *;
  }

  lemma PlacedLast(entries: seq<Group>)
    requires entries != [] && PlaceGroups(entries).Ok?
    ensures var rest := PlaceGroups(entries[..|entries| - 1]);
            rest.Ok? && PlaceGroups(entries) == PlaceGroup(rest.value, entries[|entries| - 1])
  {
  }

  lemma MergeAllLast(s: seq<Group>, g: Group)
    ensures MergeAll(s + [g]) == if s == [] then g else Merge(MergeAll(s), g)
  {
    assert (s + [g])[..|s|] == s;
  }

  /** After a restore each group id has exactly one group: all its saved copies, merged in order. */
  lemma {:induction false} OneGroupPerId(entries: seq<Group>, gid: nat)
    requires PlaceGroups(entries).Ok?
    ensures var copies := Filter(entries, OfGroup(gid));
            Filter(PlaceGroups(entries).value.groups, OfGroup(gid)) == if copies == [] then [] else [MergeAll(copies)]
  {
    if entries != [] {
      var rest, g := entries[..|entries| - 1], entries[|entries| - 1];
      OneGroupPerId(rest, gid);
      GroupsAreDistinct(rest);
      OneMoreCopy(entries, gid);
    }
  }

  lemma OneMoreCopy(entries: seq<Group>, gid: nat)
    requires entries != [] && PlaceGroups(entries).Ok? && PlaceGroups(entries[..|entries| - 1]).Ok?
    requires var copies := Filter(entries[..|entries| - 1], OfGroup(gid));
             var r := PlaceGroups(entries[..|entries| - 1]).value;
             DistinctGroups(r.groups) && Filter(r.groups, OfGroup(gid)) == if copies == [] then [] else [MergeAll(copies)]
    ensures var copies := Filter(entries, OfGroup(gid));
            Filter(PlaceGroups(entries).value.groups, OfGroup(gid)) == if copies == [] then [] else [MergeAll(copies)]
  {
    hide *;
    var rest, g := entries[..|entries| - 1], entries[|entries| - 1];
    var copies := Filter(rest, OfGroup(gid));
    PlacedLast(entries);
    PlaceOneGroup(PlaceGroups(rest).value, g, gid);
    FilterLast(rest, g, gid);
    MergeAllLast(copies, g);
    assert entries == rest + [g];
    assert copies + [] == copies;
  }

  /** The first copy with the greatest epoch. */
  ghost predicate FirstGreatest(s: seq<Group>, k: nat) {
    && k < |s|
    && (forall i :: 0 <= i < |s| ==> s[i].standing.epoch <= s[k].standing.epoch)
    && (forall i :: 0 <= i < k ==> s[i].standing.epoch < s[k].standing.epoch)
  }

  lemma OneMoreStanding(s: seq<Group>, k: nat)
    requires |s| > 1 && k < |s| && FirstGreatest(s[..|s| - 1], k)
    ensures FirstGreatest(s, if s[|s| - 1].standing.epoch > s[k].standing.epoch then |s| - 1 else k)
  {
    assert forall i :: 0 <= i < |s| - 1 ==> s[..|s| - 1][i] == s[i];
  }

  lemma {:induction false} MergeTakesGreatest(s: seq<Group>) returns (k: nat)
    requires s != []
    ensures MergeAll(s).alias == s[0].alias && MergeAll(s).gid == s[0].gid
    ensures k < |s| && FirstGreatest(s, k) && MergeAll(s).standing == s[k].standing
  {
    k := 0;
    assert |s| == 1 ==> MergeAll(s) == s[0] && FirstGreatest(s, 0);
    hide *;
    if |s| > 1 {
      var n := |s| - 1;
      k := MergeTakesGreatest(s[..n]);
      MergeAllLast(s[..n], s[n]);
      MergeIs(MergeAll(s[..n]), s[n]);
      assert s[..n] + [s[n]] == s && s[..n][k] == s[k] && s[..n][0] == s[0];
      OneMoreStanding(s, k);
      k := if s[n].standing.epoch > s[k].standing.epoch then n else k;
    }
  }

  lemma {:induction false} MergeTakesLatest(s: seq<Group>) returns (last: nat, fetch: nat)
    requires s != []
    ensures last < |s| && MergeAll(s).lastCursor == s[last].lastCursor
    ensures fetch < |s| && MergeAll(s).fetchCursor == s[fetch].fetchCursor
    ensures forall i :: 0 <= i < |s| ==> s[i].lastCursor <= s[last].lastCursor && s[i].fetchCursor <= s[fetch].fetchCursor
  {
    last, fetch := 0, 0;
    assert |s| == 1 ==> MergeAll(s) == s[0];
    hide MergeAll, Merge;
    if |s| > 1 {
      var n := |s| - 1;
      last, fetch := MergeTakesLatest(s[..n]);
      MergeAllLast(s[..n], s[n]);
      MergeIs(MergeAll(s[..n]), s[n]);
      assert s[..n] + [s[n]] == s;
      assert forall i :: 0 <= i < n ==> s[..n][i] == s[i];
      last := if s[n].lastCursor > s[last].lastCursor then n else last;
      fetch := if s[n].fetchCursor > s[fetch].fetchCursor then n else fetch;
    }
  }

  function Messages(s: seq<Group>): seq<Item> {
    if s == [] then [] else Messages(s[..|s| - 1]) + s[|s| - 1].messages
  }

  function Issues(s: seq<Group>): seq<Item> {
    if s == [] then [] else Issues(s[..|s| - 1]) + s[|s| - 1].issues
  }

  /** A lone copy keeps its history as it is; several have theirs joined and tidied once. */
  lemma {:induction false} MergedHistoryIs(s: seq<Group>)
    requires s != []
    ensures |s| == 1 ==> MergeAll(s) == s[0]
    ensures |s| > 1 ==> MergeAll(s).messages == Tidy(Messages(s)) && MergeAll(s).issues == Tidy(Issues(s))
  {
    if |s| > 1 {
      hide Tidy;
      var rest, g := s[..|s| - 1], s[|s| - 1];
      MergedHistoryIs(rest);
      if |rest| == 1 {
        assert Messages(rest) == Messages(rest[..0]) + rest[0].messages == rest[0].messages;
        assert Issues(rest) == Issues(rest[..0]) + rest[0].issues == rest[0].issues;
      } else {
        TidyEarly(Messages(rest), g.messages);
        TidyEarly(Issues(rest), g.issues);
      }
    }
  }

  lemma PlacedAlias(r: Restored, g: Group, alias: Key)
    requires PlaceGroup(r, g).Ok?
    ensures var i := IndexOf(r.groups, g.gid);
            Get(PlaceGroup(r, g).value.canonical, alias)
            == if alias != g.alias then Get(r.canonical, alias)
               else Some(if i < |r.groups| then r.groups[i].alias else g.alias)
  {
    hide Put, Get, Tidy;
    var i := IndexOf(r.groups, g.gid);
    var held: Key := if i < |r.groups| then r.groups[i].alias else g.alias;
    assert PlaceGroup(r, g).value.canonical == Put(r.canonical, g.alias, held);
    PutThenGet(r.canonical, g.alias, held, alias);
  }

  /** The alias a group is held under is the one it was first saved under. */
  lemma HeldUnderFirst(entries: seq<Group>, gid: nat)
    requires PlaceGroups(entries).Ok?
    ensures var (gs, copies) := (PlaceGroups(entries).value.groups, Filter(entries, OfGroup(gid)));
            var i := IndexOf(gs, gid);
            (i < |gs| <==> copies != []) && (i < |gs| ==> gs[i].alias == copies[0].alias)
  {
    var gs, copies := PlaceGroups(entries).value.groups, Filter(entries, OfGroup(gid));
    GroupsAreDistinct(entries);
    OneGroupPerId(entries, gid);
    FilterDistinct(gs, gid);
    hide *;
    if copies != [] {
      var k := MergeTakesGreatest(copies);
      assert [MergeAll(copies)][0] == [gs[IndexOf(gs, gid)]][0];
    }
  }

  /** An alias leads to the group its last saved copy was merged into. */
  lemma {:induction false} CanonicalIs(entries: seq<Group>, i: nat)
    requires PlaceGroups(entries).Ok? && i < |entries|
    requires forall j :: i < j < |entries| ==> entries[j].alias != entries[i].alias
    ensures Filter(entries, OfGroup(entries[i].gid)) != []
    ensures Get(PlaceGroups(entries).value.canonical, entries[i].alias)
            == Some(Filter(entries, OfGroup(entries[i].gid))[0].alias)
    decreases |entries|
  {
    hide *;
    var rest, g := entries[..|entries| - 1], entries[|entries| - 1];
    var gid := entries[i].gid;
    var copies := Filter(rest, OfGroup(gid));
    PlacedLast(entries);
    PlacedAlias(PlaceGroups(rest).value, g, entries[i].alias);
    FilterLast(rest, g, gid);
    HeldUnderFirst(rest, gid);
    if i < |rest| {
      CanonicalIs(rest, i);
    }
    assert entries == rest + [g];
    assert copies != [] ==> (copies + [g])[0] == copies[0] && (copies + [])[0] == copies[0];
  }

  // ---------------------------------------------------------------------
  // When groups can be brought back
  // ---------------------------------------------------------------------

  ghost predicate FirstOfGroup(entries: seq<Group>, i: nat) {
    i < |entries| && forall j :: 0 <= j < i ==> entries[j].gid != entries[i].gid
  }

  /** An alias is taken exactly when the first copy of some group was saved under it. */
  lemma {:induction false} TakenByFirsts(entries: seq<Group>, alias: Key)
    requires PlaceGroups(entries).Ok?
    ensures AliasTaken(PlaceGroups(entries).value.groups, alias)
            <==> SomeFirst(entries, alias)
  {
    if entries != [] {
      var n := |entries| - 1;
      var rest, g := entries[..n], entries[n];
      TakenByFirsts(rest, alias);
      PlacedLast(entries);
      TakenAfter(PlaceGroups(rest).value, g, alias);
      NewGroupIsFirst(entries);
      FirstsGrow(entries, alias);
    }
  }

  lemma TakenAfter(r: Restored, g: Group, alias: Key)
    requires PlaceGroup(r, g).Ok?
    ensures AliasTaken(PlaceGroup(r, g).value.groups, alias)
            <==> AliasTaken(r.groups, alias) || (IndexOf(r.groups, g.gid) == |r.groups| && g.alias == alias)
  {
    hide Tidy, Put;
    var after := PlaceGroup(r, g).value.groups;
    assert forall k | 0 <= k < |r.groups| :: after[k].alias == r.groups[k].alias;
    if IndexOf(r.groups, g.gid) == |r.groups| {
      assert after[|r.groups|] == g;
    }
  }

  lemma NewGroupIsFirst(entries: seq<Group>)
    requires entries != [] && PlaceGroups(entries[..|entries| - 1]).Ok?
    ensures var gs := PlaceGroups(entries[..|entries| - 1]).value.groups;
            IndexOf(gs, entries[|entries| - 1].gid) == |gs| <==> FirstOfGroup(entries, |entries| - 1)
  {
    var n := |entries| - 1;
    var rest, gid := entries[..n], entries[n].gid;
    HeldUnderFirst(rest, gid);
    forall j | 0 <= j < n
      ensures rest[j] in Filter(rest, OfGroup(gid)) <==> entries[j].gid == gid
    {
      FilterIn(rest, OfGroup(gid), rest[j]);
    }
    var copies := Filter(rest, OfGroup(gid));
    if copies != [] {
      FilterIn(rest, OfGroup(gid), copies[0]);
      var j :| 0 <= j < n && rest[j] == copies[0];
      assert entries[j].gid == gid;
    }
  }

  ghost predicate SomeFirst(entries: seq<Group>, alias: Key) {
    exists i: nat :: FirstOfGroup(entries, i) && entries[i].alias == alias
  }

  lemma FirstsGrow(entries: seq<Group>, alias: Key)
    requires entries != []
    ensures SomeFirst(entries, alias)
            <==> SomeFirst(entries[..|entries| - 1], alias)
                 || (FirstOfGroup(entries, |entries| - 1) && entries[|entries| - 1].alias == alias)
  {
    var rest := entries[..|entries| - 1];
    forall i: nat | i < |rest|
      ensures FirstOfGroup(rest, i) <==> FirstOfGroup(entries, i)
    {
    }
    hide FirstOfGroup;
    if SomeFirst(entries, alias) {
      var i: nat :| FirstOfGroup(entries, i) && i < |entries| && entries[i].alias == alias;
      assert i < |rest| ==> FirstOfGroup(rest, i) && rest[i].alias == alias;
    }
    if SomeFirst(rest, alias) {
      var i: nat :| FirstOfGroup(rest, i) && i < |rest| && rest[i].alias == alias;
      assert FirstOfGroup(entries, i) && entries[i].alias == alias;
    }
  }

  ghost predicate FirstsDiffer(entries: seq<Group>) {
    forall i: nat, j: nat :: i < j && FirstOfGroup(entries, i) && FirstOfGroup(entries, j) ==> entries[i].alias != entries[j].alias
  }

  lemma OneMoreFirst(entries: seq<Group>)
    requires entries != []
    ensures var (rest, g) := (entries[..|entries| - 1], entries[|entries| - 1]);
            FirstsDiffer(entries)
            <==> (FirstsDiffer(rest)
                  && (FirstOfGroup(entries, |entries| - 1) ==> !SomeFirst(rest, g.alias)))
  {
    var rest := entries[..|entries| - 1];
    assert forall i: nat | i < |rest| :: FirstOfGroup(rest, i) <==> FirstOfGroup(entries, i);
  }

  /** Restoring groups fails exactly when two groups were first saved under one alias. */
  lemma {:induction false} GroupsRestoreIff(entries: seq<Group>)
    ensures PlaceGroups(entries).Ok? <==> FirstsDiffer(entries)
  {
    if entries != [] {
      var rest, g := entries[..|entries| - 1], entries[|entries| - 1];
      GroupsRestoreIff(rest);
      OneMoreFirst(entries);
      if PlaceGroups(rest).Ok? {
        TakenByFirsts(rest, g.alias);
        NewGroupIsFirst(entries);
        hide FirstsDiffer, FirstOfGroup, AliasTaken;
        assert PlaceGroups(entries) == PlaceGroup(PlaceGroups(rest).value, g);
      }
    }
    hide FirstsDiffer, FirstOfGroup, AliasTaken, Tidy, Put;
  }

  /** A list with one alias and one copy per group comes back as it is, every alias standing for itself. */
  lemma {:induction false} DistinctGroupsComeBack(gs: seq<Group>)
    requires DistinctGroups(gs)
    ensures PlaceGroups(gs).Ok? && PlaceGroups(gs).value.groups == gs
    ensures forall alias: Key :: Get(PlaceGroups(gs).value.canonical, alias) in {None, Some(alias)}
  {
    if gs != [] {
      var rest, g := gs[..|gs| - 1], gs[|gs| - 1];
      DistinctGroupsComeBack(rest);
      var r := PlaceGroups(rest).value;
      assert gs == rest + [g];
      assert forall i | 0 <= i < |rest| :: gs[i].gid != g.gid && gs[i].alias != g.alias;
      assert IndexOf(rest, g.gid) == |rest| && !AliasTaken(rest, g.alias);
      forall alias: Key
        ensures Get(PlaceGroups(gs).value.canonical, alias) in {None, Some(alias)}
      {
        PutThenGet(r.canonical, g.alias, g.alias, alias);
      }
    }
  }
}
