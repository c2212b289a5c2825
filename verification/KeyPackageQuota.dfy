/**
 * The quota on published key packages. The check counts the very array that its
 * own removals shrink.
 */
module KeyPackageQuota {
  import opened Base
  import opened Storage
  import opened InMemoryStorage

  datatype Limits = Limits(perIdentity: int, lastResort: int)

  function RemoveRefs(rows: seq<KeyPackage>, list: seq<KeyPackage>): seq<KeyPackage>
    decreases list
  {
    if list == [] then rows else RemoveRefs(Without(rows, list[0].ref), list[1..])
  }

  /** The oldest last-resort packages, so many that one more fits the limit. */
  function Evicted(existing: seq<KeyPackage>, limit: int): seq<KeyPackage> {
    if limit > 0 && |existing| >= limit then existing[..|existing| - limit + 1] else []
  }

  /** The total the check arrives at for one more last-resort package, given how many records it counts. */
  function Total(counted: int, existing: int, limit: int): int { counted - existing + Min(existing, limit - 1) + 1 }

  /** Make room for a package and say whether it may be published. */
  function Enforce(rows: seq<KeyPackage>, owner: Id, lastResort: bool, limits: Limits): (seq<KeyPackage>, bool) {
    var records := OwnedBy(rows, owner);
    if lastResort then
      var existing := LastResorts(records);
      var left := RemoveRefs(rows, Evicted(existing, limits.lastResort));
      (left, !(limits.perIdentity > 0
               && Total(|OwnedBy(left, owner)|, |existing|, limits.lastResort) > limits.perIdentity))
    else
      (rows, !(limits.perIdentity > 0 && |records| >= limits.perIdentity))
  }

  function Publish(rows: seq<KeyPackage>, k: KeyPackage, limits: Limits): (seq<KeyPackage>, bool) {
    var (left, ok) := Enforce(rows, k.owner, k.lastResort, limits);
    (if ok then left + [k] else left, ok)
  }

  /** `records` is the storage's own array: after the removals its length is already the smaller one. */
  method EnforceKeyPackageQuota(m: InMemoryStorage, owner: Id, lastResort: bool, limits: Limits) returns (ok: bool)
    requires m.Valid()
    modifies m, m.keyPackagesByIdentity.Values
    ensures m.Valid() && m.rows == old(m.rows).(keyPackages := m.rows.keyPackages)
    ensures (m.rows.keyPackages, ok) == Enforce(old(m.rows).keyPackages, owner, lastResort, limits)
    ensures m.keyPackagesByIdentity.Values <= old(m.keyPackagesByIdentity.Values)
  {
    hide m.Valid;
    var records := m.ListKeyPackagesForIdentity(owner);
    if !lastResort {
      return !(limits.perIdentity > 0 && |records.items| >= limits.perIdentity);
    }
    var existing := LastResorts(records.items);
    var evicted := Evicted(existing, limits.lastResort);
    RemoveListed(m, owner, records, evicted);
    var nonLastResort := |records.items| - |existing|;
    return !(limits.perIdentity > 0
             && nonLastResort + Min(|existing|, limits.lastResort - 1) + 1 > limits.perIdentity);
  }

  /** Remove records one after the other; the identity's array `records` shrinks along. */
  method RemoveListed(m: InMemoryStorage, owner: Id, records: SharedArray<KeyPackage>, list: seq<KeyPackage>)
    requires m.Valid() && records.items == OwnedBy(m.rows.keyPackages, owner)
    requires owner in m.keyPackagesByIdentity ==> m.keyPackagesByIdentity[owner] == records
    requires owner !in m.keyPackagesByIdentity ==> records !in m.keyPackagesByIdentity.Values
    requires list <= LastResorts(records.items)
    modifies m, m.keyPackagesByIdentity.Values
    ensures m.Valid() && m.rows == old(m.rows).(keyPackages := RemoveRefs(old(m.rows).keyPackages, list))
    ensures records.items == OwnedBy(m.rows.keyPackages, owner)
    ensures m.keyPackagesByIdentity.Values <= old(m.keyPackagesByIdentity.Values)
  {
    var todo := list;
    while todo != []
      invariant m.Valid() && m.rows == old(m.rows).(keyPackages := m.rows.keyPackages)
      invariant records.items == OwnedBy(m.rows.keyPackages, owner)
      invariant todo != [] && owner in m.keyPackagesByIdentity ==> m.keyPackagesByIdentity[owner] == records
      invariant owner !in m.keyPackagesByIdentity ==> records !in m.keyPackagesByIdentity.Values
      invariant RemoveRefs(m.rows.keyPackages, todo) == RemoveRefs(old(m.rows).keyPackages, list)
      invariant todo <= LastResorts(records.items)
      invariant m.keyPackagesByIdentity.Values <= old(m.keyPackagesByIdentity.Values)
      decreases |todo|
    {
      assert LastResorts(records.items)[0] == todo[0];
      FirstLastResort(m.rows.keyPackages, owner);
      OwnerHasArray(m, owner);
      RemoveIs(m.rows, todo[0].ref);
      hide m.Valid, OwnedBy, LastResorts, Without, ByRef, Perform;
      var _ := m.RemoveKeyPackage(todo[0].ref);
      todo := todo[1..];
    }
  }

  lemma OwnerHasArray(m: InMemoryStorage, owner: Id)
    requires m.Valid()
    ensures OwnedBy(m.rows.keyPackages, owner) != [] ==> owner in m.keyPackagesByIdentity
  {
  }

  method PublishKeyPackage(m: InMemoryStorage, k: KeyPackage, limits: Limits) returns (ok: bool)
    requires m.Valid() && ByRef(m.rows.keyPackages, k.ref).None?
    modifies m, m.keyPackagesByIdentity.Values
    ensures m.Valid() && m.rows == old(m.rows).(keyPackages := m.rows.keyPackages)
    ensures (m.rows.keyPackages, ok) == Publish(old(m.rows).keyPackages, k, limits)
  {
    hide m.Valid;
    ok := EnforceKeyPackageQuota(m, k.owner, k.lastResort, limits);
    if ok {
      EnforceKeepsFresh(old(m.rows).keyPackages, k.owner, k.lastResort, limits, k.ref);
      PublishIs(m.rows, k);
      hide Perform, Enforce, ByRef;
      m.PublishKeyPackage(k);
    }
  }

  // ---------------------------------------------------------------------
  // Counting
  // ---------------------------------------------------------------------

  lemma WithoutKeepsFresh(rows: seq<KeyPackage>, gone: Id, ref: Id)
    requires ByRef(rows, ref).None?
    ensures ByRef(Without(rows, gone), ref).None?
  {
    ByRefFinds(rows, ref);
    ByRefFinds(Without(rows, gone), ref);
    if ByRef(Without(rows, gone), ref).Some? {
      FilterIn(rows, (k: KeyPackage) => k.ref != gone, ByRef(Without(rows, gone), ref).value);
    }
  }

  lemma {:induction false} RemoveKeepsFresh(rows: seq<KeyPackage>, list: seq<KeyPackage>, ref: Id)
    requires ByRef(rows, ref).None?
    ensures ByRef(RemoveRefs(rows, list), ref).None?
    decreases list
  {
    if list != [] {
      WithoutKeepsFresh(rows, list[0].ref, ref);
      RemoveKeepsFresh(Without(rows, list[0].ref), list[1..], ref);
    }
  }

  lemma EnforceKeepsFresh(rows: seq<KeyPackage>, owner: Id, lastResort: bool, limits: Limits, ref: Id)
    requires ByRef(rows, ref).None?
    ensures ByRef(Enforce(rows, owner, lastResort, limits).0, ref).None?
  {
    RemoveKeepsFresh(rows, Evicted(LastResorts(OwnedBy(rows, owner)), limits.lastResort), ref);
  }

  /** Removing the oldest last-resort package of an identity takes the head off its list and touches no other identity. */
  lemma FirstLastResort(rows: seq<KeyPackage>, owner: Id)
    requires UniqueRefs(rows) && LastResorts(OwnedBy(rows, owner)) != []
    ensures var first := LastResorts(OwnedBy(rows, owner))[0];
            var left := Without(rows, first.ref);
            && ByRef(rows, first.ref) == Some(first) && first.owner == owner
            && UniqueRefs(left)
            && LastResorts(OwnedBy(left, owner)) == LastResorts(OwnedBy(rows, owner))[1..]
            && |OwnedBy(left, owner)| == |OwnedBy(rows, owner)| - 1
            && forall o: Id | o != owner :: OwnedBy(left, o) == OwnedBy(rows, o)
  {
    var owned := OwnedBy(rows, owner);
    var first := LastResorts(owned)[0];
    FilterIn(owned, (k: KeyPackage) => k.lastResort, first);
    FoundIsStored(rows, owner, first);
    FilterKeepsUnique(rows, (k: KeyPackage) => k.ref != first.ref);
    FilterKeepsUnique(rows, (k: KeyPackage) => k.owner == owner);
    DropFirstLastResort(owned);
    hide LastResorts, Without, UniqueRefs, ByRef;
    var i :| 0 <= i < |owned| && owned[i] == first;
    OwnedWithout(rows, owner, i);
    DropRow(owned, i);
  }

  lemma DropFirstLastResort(owned: seq<KeyPackage>)
    requires UniqueRefs(owned) && LastResorts(owned) != []
    ensures LastResorts(Without(owned, LastResorts(owned)[0].ref)) == LastResorts(owned)[1..]
  {
    var list := LastResorts(owned);
    var ref := list[0].ref;
    FilterKeepsUnique(owned, (k: KeyPackage) => k.lastResort);
    LastResortsWithout(owned, ref);
    hide Without, LastResorts, UniqueRefs;
    DropRow(list, 0);
    assert list[..0] + list[1..] == list[1..];
  }

  lemma LastResortsWithout(owned: seq<KeyPackage>, ref: Id)
    ensures LastResorts(Without(owned, ref)) == Without(LastResorts(owned), ref)
  {
    FilterCommutes(owned, (k: KeyPackage) => k.ref != ref, (k: KeyPackage) => k.lastResort);
  }

  lemma {:induction false} Evicting(rows: seq<KeyPackage>, owner: Id, list: seq<KeyPackage>)
    requires UniqueRefs(rows) && list <= LastResorts(OwnedBy(rows, owner))
    ensures var left := RemoveRefs(rows, list);
            && UniqueRefs(left)
            && LastResorts(OwnedBy(left, owner)) == LastResorts(OwnedBy(rows, owner))[|list|..]
            && |OwnedBy(left, owner)| == |OwnedBy(rows, owner)| - |list|
            && forall o: Id | o != owner :: OwnedBy(left, o) == OwnedBy(rows, o)
    decreases list
  {
    if list != [] {
      var all := LastResorts(OwnedBy(rows, owner));
      assert all[0] == list[0];
      FirstLastResort(rows, owner);
      hide UniqueRefs, OwnedBy, LastResorts, Without;
      Evicting(Without(rows, list[0].ref), owner, list[1..]);
      assert all[1..][|list[1..]|..] == all[|list|..];
    }
  }

  /** Last-resort and regular packages together are all packages. */
  lemma {:induction false} Halves(rows: seq<KeyPackage>)
    ensures |LastResorts(rows)| + |Regulars(rows)| == |rows|
  {
    if rows != [] {
      Halves(rows[1..]);
    }
  }

  // ---------------------------------------------------------------------
  // The limits hold
  // ---------------------------------------------------------------------

  ghost predicate Within(rows: seq<KeyPackage>, limits: Limits) {
    forall o: Id :: |OwnedBy(rows, o)| <= limits.perIdentity && |LastResorts(OwnedBy(rows, o))| <= limits.lastResort
  }

  lemma OneMore(rows: seq<KeyPackage>, k: KeyPackage, o: Id)
    ensures var more := OwnedBy(rows + [k], o);
            && (o != k.owner ==> more == OwnedBy(rows, o))
            && (o == k.owner ==> |more| == |OwnedBy(rows, o)| + 1)
            && |LastResorts(more)| == |LastResorts(OwnedBy(rows, o))| + (if o == k.owner && k.lastResort then 1 else 0)
  {
    OwnedByAppend(rows, k);
    hide OwnedBy;
    if o == k.owner {
      FilterAppend(OwnedBy(rows, o), [k], (x: KeyPackage) => x.lastResort);
    }
  }

  /**
   * With both limits at least 1 a publish keeps every identity within both, and
   * a rejected publish removes nothing, although the check counts an array that
   * its removals have already shrunk.
   */
  lemma PublishKeepsLimits(rows: seq<KeyPackage>, k: KeyPackage, limits: Limits)
    requires limits.perIdentity >= 1 && limits.lastResort >= 1
    requires UniqueRefs(rows) && ByRef(rows, k.ref).None? && Within(rows, limits)
    ensures var (after, ok) := Publish(rows, k, limits);
            && Within(after, limits) && UniqueRefs(after)
            && (!ok ==> after == rows)
  {
    var existing := LastResorts(OwnedBy(rows, k.owner));
    var evicted := if k.lastResort then Evicted(existing, limits.lastResort) else [];
    assert |OwnedBy(rows, k.owner)| <= limits.perIdentity && |existing| <= limits.lastResort;
    Evicting(rows, k.owner, evicted);
    RemoveKeepsFresh(rows, evicted, k.ref);
    var left := RemoveRefs(rows, evicted);
    PublishKeepsUnique(left, k);
    hide UniqueRefs, OwnedBy, LastResorts, ByRef;
    var (after, ok) := Publish(rows, k, limits);
    assert ok ==> after == left + [k];
    forall o: Id
      ensures |OwnedBy(after, o)| <= limits.perIdentity && |LastResorts(OwnedBy(after, o))| <= limits.lastResort
    {
      assert |OwnedBy(rows, o)| <= limits.perIdentity && |LastResorts(OwnedBy(rows, o))| <= limits.lastResort;
      OneMore(left, k, o);
    }
  }

  lemma RegularsWithout(rows: seq<KeyPackage>, owner: Id)
    requires UniqueRefs(rows) && LastResorts(OwnedBy(rows, owner)) != []
    ensures var first := LastResorts(OwnedBy(rows, owner))[0];
            Regulars(OwnedBy(Without(rows, first.ref), owner)) == Regulars(OwnedBy(rows, owner))
  {
    var owned := OwnedBy(rows, owner);
    var first := LastResorts(owned)[0];
    FilterIn(owned, (k: KeyPackage) => k.lastResort, first);
    FilterKeepsUnique(rows, (k: KeyPackage) => k.owner == owner);
    FilterCommutes(rows, (k: KeyPackage) => k.ref != first.ref, (k: KeyPackage) => k.owner == owner);
    FilterCommutes(owned, (k: KeyPackage) => k.ref != first.ref, (k: KeyPackage) => !k.lastResort);
    forall k | k in Regulars(owned)
      ensures k.ref != first.ref
    {
      FilterIn(owned, (x: KeyPackage) => !x.lastResort, k);
      if k.ref == first.ref {
        ByRefUnique(owned, k);
        ByRefUnique(owned, first);
      }
    }
    FilterAll(Regulars(owned), (k: KeyPackage) => k.ref != first.ref);
  }

  lemma {:induction false} EvictingKeepsRegulars(rows: seq<KeyPackage>, owner: Id, list: seq<KeyPackage>)
    requires UniqueRefs(rows) && list <= LastResorts(OwnedBy(rows, owner))
    ensures Regulars(OwnedBy(RemoveRefs(rows, list), owner)) == Regulars(OwnedBy(rows, owner))
    decreases list
  {
    if list != [] {
      assert LastResorts(OwnedBy(rows, owner))[0] == list[0];
      FirstLastResort(rows, owner);
      RegularsWithout(rows, owner);
      hide UniqueRefs, OwnedBy, LastResorts, Regulars, Without;
      EvictingKeepsRegulars(Without(rows, list[0].ref), owner, list[1..]);
    }
  }

  /** The newest `n` of a list, or all of it. */
  function LastOf(list: seq<KeyPackage>, n: nat): seq<KeyPackage> { if |list| <= n then list else list[|list| - n..] }

  lemma AcceptedGoesLast(left: seq<KeyPackage>, k: KeyPackage)
    ensures LastResorts(OwnedBy(left + [k], k.owner)) == LastResorts(OwnedBy(left, k.owner)) + (if k.lastResort then [k] else [])
    ensures Regulars(OwnedBy(left + [k], k.owner)) == Regulars(OwnedBy(left, k.owner)) + (if k.lastResort then [] else [k])
    ensures forall o: Id | o != k.owner :: OwnedBy(left + [k], o) == OwnedBy(left, o)
  {
    OwnedByAppend(left, k);
    FilterAppend(OwnedBy(left, k.owner), [k], (x: KeyPackage) => x.lastResort);
    FilterAppend(OwnedBy(left, k.owner), [k], (x: KeyPackage) => !x.lastResort);
    forall o: Id | o != k.owner
      ensures OwnedBy(left + [k], o) == OwnedBy(left, o)
    {
      FilterAppend(left, [k], (x: KeyPackage) => x.owner == o);
    }
  }

  /**
   * Within the limits a package is refused if and only if its identity holds as
   * many as it may and none of them makes room: a last resort takes the place of
   * the oldest one when there are as many as allowed. An accepted package goes
   * last, every regular one stays, and no other identity is touched.
   */
  lemma RefusedIffFull(rows: seq<KeyPackage>, k: KeyPackage, limits: Limits)
    requires limits.perIdentity >= 1 && limits.lastResort >= 1
    requires UniqueRefs(rows) && ByRef(rows, k.ref).None? && Within(rows, limits)
    ensures var (after, ok) := Publish(rows, k, limits);
            var before, owned := OwnedBy(rows, k.owner), OwnedBy(after, k.owner);
            && (!ok <==> |before| == limits.perIdentity && (!k.lastResort || |LastResorts(before)| < limits.lastResort))
            && (!ok ==> after == rows)
            && (ok ==>
                  && Regulars(owned) == Regulars(before) + (if k.lastResort then [] else [k])
                  && LastResorts(owned)
                     == (if k.lastResort then LastOf(LastResorts(before) + [k], limits.lastResort) else LastResorts(before))
                  && forall o: Id | o != k.owner :: OwnedBy(after, o) == OwnedBy(rows, o))
  {
    hide UniqueRefs, OwnedBy, LastResorts, Regulars, ByRef, RemoveRefs;
    var existing := LastResorts(OwnedBy(rows, k.owner));
    var evicted := if k.lastResort then Evicted(existing, limits.lastResort) else [];
    assert |OwnedBy(rows, k.owner)| <= limits.perIdentity && |existing| <= limits.lastResort;
    Evicting(rows, k.owner, evicted);
    EvictingKeepsRegulars(rows, k.owner, evicted);
    PublishKeepsLimits(rows, k, limits);
    var left := RemoveRefs(rows, evicted);
    AcceptedGoesLast(left, k);
    var (after, ok) := Publish(rows, k, limits);
    NothingEvicted(rows);
    assert ok ==> after == left + [k];
  }

  lemma NothingEvicted(rows: seq<KeyPackage>)
    ensures RemoveRefs(rows, []) == rows
  {
  }

  /** A limit per identity that is switched off refuses nothing. */
  lemma SwitchedOffRefusesNothing(rows: seq<KeyPackage>, k: KeyPackage, limits: Limits)
    requires limits.perIdentity <= 0
    ensures Publish(rows, k, limits).1
  {
  }

  datatype Step = Offer(k: KeyPackage) | Withdraw(ref: Id) | HandOut(identifier: Id)

  function Take(rows: seq<KeyPackage>, s: Step, limits: Limits): seq<KeyPackage> {
    match s
    case Offer(k) => Publish(rows, k, limits).0
    case Withdraw(ref) => Without(rows, ref)
    case HandOut(id) => Consume(rows, id).0
  }

  function TakeAll(steps: seq<Step>, limits: Limits): seq<KeyPackage> {
    if steps == [] then [] else Take(TakeAll(steps[..|steps| - 1], limits), steps[|steps| - 1], limits)
  }

  ghost predicate FreshOffers(steps: seq<Step>, limits: Limits) {
    forall i | 0 <= i < |steps| :: steps[i].Offer? ==> ByRef(TakeAll(steps[..i], limits), steps[i].k.ref).None?
  }

  lemma DroppingStaysWithin(rows: seq<KeyPackage>, keep: KeyPackage -> bool, limits: Limits)
    requires Within(rows, limits)
    ensures Within(Filter(rows, keep), limits)
  {
    forall o: Id
      ensures |OwnedBy(Filter(rows, keep), o)| <= limits.perIdentity
      ensures |LastResorts(OwnedBy(Filter(rows, keep), o))| <= limits.lastResort
    {
      var owned := OwnedBy(rows, o);
      assert |owned| <= limits.perIdentity && |LastResorts(owned)| <= limits.lastResort;
      FilterCommutes(rows, keep, (k: KeyPackage) => k.owner == o);
      FilterShorter(owned, keep);
      FilterCommutes(owned, keep, (k: KeyPackage) => k.lastResort);
      FilterShorter(LastResorts(owned), keep);
    }
  }

  /** Every state reachable from an empty store keeps each identity within both limits. */
  lemma {:induction false} QuotaHolds(steps: seq<Step>, limits: Limits)
    requires limits.perIdentity >= 1 && limits.lastResort >= 1 && FreshOffers(steps, limits)
    ensures Within(TakeAll(steps, limits), limits) && UniqueRefs(TakeAll(steps, limits))
  {
    if steps != [] {
      var n := |steps| - 1;
      forall i | 0 <= i < n
        ensures steps[..n][..i] == steps[..i]
      {
      }
      QuotaHolds(steps[..n], limits);
      var rows := TakeAll(steps[..n], limits);
      hide Within, UniqueRefs, Publish;
      match steps[n] {
        case Offer(k) =>
          PublishKeepsLimits(rows, k, limits);
        case Withdraw(ref) =>
          DroppingStaysWithin(rows, (k: KeyPackage) => k.ref != ref, limits);
          FilterKeepsUnique(rows, (k: KeyPackage) => k.ref != ref);
        case HandOut(id) =>
          var got := Consume(rows, id).1;
          if got.Some? {
            DroppingStaysWithin(rows, (k: KeyPackage) => k.ref != got.value.ref, limits);
            FilterKeepsUnique(rows, (k: KeyPackage) => k.ref != got.value.ref);
          }
      }
    } else {
      assert forall o: Id :: OwnedBy([], o) == [];
    }
  }

  // ---------------------------------------------------------------------
  // What the aliased count changes, and when the total limit fails
  // ---------------------------------------------------------------------

  /**
   * Against a count taken before the removals, the shrunken count lets a
   * last-resort package through exactly when packages were evicted and the
   * honest total exceeds the limit by no more than their number. Within the
   * limits that never happens.
   */
  lemma AliasedCountDiffersIff(rows: seq<KeyPackage>, owner: Id, limits: Limits)
    requires UniqueRefs(rows) && limits.perIdentity >= 1 && limits.lastResort >= 1
    ensures var records := OwnedBy(rows, owner);
            var existing := LastResorts(records);
            var honest := Total(|records|, |existing|, limits.lastResort);
            var ok := Enforce(rows, owner, true, limits).1;
            && (ok <==> honest - |Evicted(existing, limits.lastResort)| <= limits.perIdentity)
            && (ok != (honest <= limits.perIdentity) <==>
                  limits.perIdentity < honest <= limits.perIdentity + |Evicted(existing, limits.lastResort)|)
            && (Within(rows, limits) ==> ok == (honest <= limits.perIdentity))
  {
    var existing := LastResorts(OwnedBy(rows, owner));
    Evicting(rows, owner, Evicted(existing, limits.lastResort));
    Halves(OwnedBy(rows, owner));
    hide UniqueRefs, OwnedBy, LastResorts;
    if Within(rows, limits) {
      assert |OwnedBy(rows, owner)| <= limits.perIdentity && |existing| <= limits.lastResort;
    }
  }

  function Spares(n: nat): seq<KeyPackage> { seq(n, (i: nat) => KeyPackage(0, i, true, 0, 0)) }

  function Offers(n: nat): seq<Step> { seq(n, (i: nat) => Offer(KeyPackage(0, i, true, 0, 0))) }

  lemma {:induction false} SparesAreSpare(n: nat)
    ensures OwnedBy(Spares(n), 0) == Spares(n) && LastResorts(Spares(n)) == Spares(n)
    ensures forall ref: Id | ref >= n :: ByRef(Spares(n), ref).None?
  {
    FilterAll(Spares(n), (k: KeyPackage) => k.owner == 0);
    FilterAll(Spares(n), (k: KeyPackage) => k.lastResort);
    forall ref: Id | ref >= n
      ensures ByRef(Spares(n), ref).None?
    {
      ByRefFinds(Spares(n), ref);
    }
  }

  /** With the last-resort limit switched off, last-resort packages are accepted without end. */
  lemma {:induction false} SparesPileUp(n: nat, limits: Limits)
    requires limits.lastResort <= 0
    ensures TakeAll(Offers(n), limits) == Spares(n) && FreshOffers(Offers(n), limits)
  {
    if n > 0 {
      SparesPileUp(n - 1, limits);
      SparesAreSpare(n - 1);
      assert Offers(n)[..n - 1] == Offers(n - 1);
      var k := KeyPackage(0, n - 1, true, 0, 0);
      assert Publish(Spares(n - 1), k, limits) == (Spares(n - 1) + [k], true);
      assert Spares(n) == Spares(n - 1) + [k];
      forall i | 0 <= i < n
        ensures ByRef(TakeAll(Offers(n)[..i], limits), Offers(n)[i].k.ref).None?
      {
        if i < n - 1 {
          assert Offers(n)[..i] == Offers(n - 1)[..i] && Offers(n)[i] == Offers(n - 1)[i];
        }
      }
    }
  }

  ghost predicate TotalLimitHolds(limits: Limits) {
    forall steps: seq<Step>, o: Id | FreshOffers(steps, limits) ::
      |OwnedBy(TakeAll(steps, limits), o)| <= limits.perIdentity
  }

  /** The limit per identity holds in every run if and only if the last-resort limit is switched on. */
  lemma TotalLimitHoldsIff(limits: Limits)
    requires limits.perIdentity >= 1
    ensures TotalLimitHolds(limits) <==> limits.lastResort >= 1
  {
    if limits.lastResort >= 1 {
      forall steps: seq<Step>, o: Id | FreshOffers(steps, limits)
        ensures |OwnedBy(TakeAll(steps, limits), o)| <= limits.perIdentity
      {
        QuotaHolds(steps, limits);
      }
    } else {
      var n := limits.perIdentity + 1;
      SparesPileUp(n, limits);
      SparesAreSpare(n);
      assert |OwnedBy(TakeAll(Offers(n), limits), 0)| == n;
    }
  }
}
