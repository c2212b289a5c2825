/**
 * The content-addressed store of group documents and the walks along `prev`.
 * A document's address is its hash, so the store is a partial map that is never
 * overwritten; an address missing from it is one that cannot be read. Address 0
 * stands for "no address".
 */
module Documents {
  import opened Base
  import opened Mls

  type Address = nat

  const NO_ADDRESS: Address := 0

  const MAX_HOPS := 1000

  /** `state` is what the document's client state decodes to, if it decodes. */
  datatype Document =
    | GroupDocument(gid: nat, cursor: nat, state: Option<ClientState>, prev: Address)
    | MetaDocument

  type Store = map<Address, Document>

  datatype Link = Link(address: Address, doc: Document)

  /** The documents met by following `prev` from `address`, newest first. */
  function Walk(store: Store, address: Address, hops: nat): seq<Link>
    decreases hops, 0
  {
    if hops == 0 || address == NO_ADDRESS || address !in store then []
    else [Link(address, store[address])] + Onward(store, store[address], hops - 1)
  }

  function Onward(store: Store, doc: Document, hops: nat): seq<Link>
    decreases hops, 1
  {
    if doc.GroupDocument? then Walk(store, doc.prev, hops) else []
  }

  /** The walk that starts at a document already in hand. */
  function WalkFrom(store: Store, start: Option<Document>, address: Address): seq<Link> {
    match start
    case None => Walk(store, address, MAX_HOPS)
    case Some(doc) =>
      if address == NO_ADDRESS then []
      else [Link(address, doc)] + Onward(store, doc, MAX_HOPS - 1)
  }

  predicate Decodes(l: Link) { l.doc.GroupDocument? && l.doc.state.Some? }

  function EpochOf(l: Link): nat
    requires Decodes(l)
  {
    l.doc.state.value.epoch
  }

  /** The leading part of a walk that decodes and has not dropped below `epoch`. */
  function Reach(links: seq<Link>, epoch: nat): (r: seq<Link>)
    ensures r <= links
    ensures forall l | l in r :: Decodes(l) && EpochOf(l) >= epoch
  {
    if links == [] || !Decodes(links[0]) || EpochOf(links[0]) < epoch then []
    else [links[0]] + Reach(links[1..], epoch)
  }

  datatype Placed = Placed(cursor: nat, address: Address)

  function Better(best: Option<Placed>, l: Link, epoch: nat): Option<Placed>
    requires Decodes(l)
  {
    if EpochOf(l) == epoch && (best.None? || l.doc.cursor < best.value.cursor)
    then Some(Placed(l.doc.cursor, l.address))
    else best
  }

  /** The lowest-cursor document at `epoch`, the first met among equals. */
  function Lowest(links: seq<Link>, epoch: nat, best: Option<Placed>): Option<Placed>
    requires forall l | l in links :: Decodes(l)
  {
    if links == [] then best
    else Lowest(links[1..], epoch, Better(best, links[0], epoch))
  }

  function LowestAt(links: seq<Link>, epoch: nat): Option<Placed> { Lowest(Reach(links, epoch), epoch, None) }

  /** `LowestAt` is a minimum over the documents at that epoch, and finds one whenever there is one. */
  lemma {:induction false} LowestIsMinimum(links: seq<Link>, epoch: nat, best: Option<Placed>)
    requires forall l | l in links :: Decodes(l)
    ensures var r := Lowest(links, epoch, best);
            && (r.None? <==> best.None? && forall l | l in links :: EpochOf(l) != epoch)
            && (r.Some? ==>
                  && (best.Some? ==> r.value.cursor <= best.value.cursor)
                  && (forall l | l in links && EpochOf(l) == epoch :: r.value.cursor <= l.doc.cursor)
                  && (r == best || exists l | l in links ::
                        EpochOf(l) == epoch && r == Some(Placed(l.doc.cursor, l.address))))
  {
    if links != [] {
      LowestIsMinimum(links[1..], epoch, Better(best, links[0], epoch));
    }
  }

  lemma LowestAtIsMinimum(links: seq<Link>, epoch: nat)
    ensures var r := LowestAt(links, epoch);
            && (r.None? <==> forall l | l in Reach(links, epoch) :: EpochOf(l) != epoch)
            && (r.Some? ==>
                  && (forall l | l in Reach(links, epoch) && EpochOf(l) == epoch :: r.value.cursor <= l.doc.cursor)
                  && exists l | l in Reach(links, epoch) ::
                       EpochOf(l) == epoch && r.value == Placed(l.doc.cursor, l.address))
  {
    LowestIsMinimum(Reach(links, epoch), epoch, None);
  }

  /** Among documents of equal cursor the first one met is kept. */
  ghost predicate FirstMet(links: seq<Link>, epoch: nat, p: Placed, i: nat)
    requires forall l | l in links :: Decodes(l)
  {
    && i < |links| && EpochOf(links[i]) == epoch && p == Placed(links[i].doc.cursor, links[i].address)
    && forall j :: 0 <= j < i && Decodes(links[j]) && EpochOf(links[j]) == epoch ==> links[j].doc.cursor > p.cursor
  }

  lemma {:induction false} LowestIsFirst(links: seq<Link>, epoch: nat, best: Option<Placed>)
    requires forall l | l in links :: Decodes(l)
    ensures var r := Lowest(links, epoch, best);
            r == best || (r.Some? && (best.Some? ==> r.value.cursor < best.value.cursor)
                          && exists i: nat :: FirstMet(links, epoch, r.value, i))
  {
    if links != [] {
      var r, better := Lowest(links, epoch, best), Better(best, links[0], epoch);
      LowestIsFirst(links[1..], epoch, better);
      if r == better {
        assert r == best || FirstMet(links, epoch, r.value, 0);
      } else {
        var i: nat :| FirstMet(links[1..], epoch, r.value, i);
        forall j | 0 <= j < i + 1 && Decodes(links[j]) && EpochOf(links[j]) == epoch
          ensures links[j].doc.cursor > r.value.cursor
        {
          assert j > 0 ==> links[1..][j - 1] == links[j];
        }
        assert FirstMet(links, epoch, r.value, i + 1);
      }
    }
  }

  lemma LowestAtIsFirstMet(links: seq<Link>, epoch: nat)
    ensures LowestAt(links, epoch).Some? ==>
              exists i: nat :: FirstMet(Reach(links, epoch), epoch, LowestAt(links, epoch).value, i)
  {
    LowestIsFirst(Reach(links, epoch), epoch, None);
  }

  /** One hop: the head of the walk, and where the walk goes on. */
  lemma WalkHead(store: Store, address: Address, hops: nat)
    requires hops > 0 && address != NO_ADDRESS
    ensures address !in store ==> Walk(store, address, hops) == []
    ensures address in store ==>
              Walk(store, address, hops) == [Link(address, store[address])] + Onward(store, store[address], hops - 1)
  {
  }

  lemma ReachHead(head: Link, tail: seq<Link>, epoch: nat, best: Option<Placed>)
    ensures !Decodes(head) || EpochOf(head) < epoch ==> Reach([head] + tail, epoch) == []
    ensures Decodes(head) && EpochOf(head) >= epoch ==>
              Lowest(Reach([head] + tail, epoch), epoch, best) == Lowest(Reach(tail, epoch), epoch, Better(best, head, epoch))
  {
    assert ([head] + tail)[1..] == tail;
    if Decodes(head) && EpochOf(head) >= epoch {
      assert Reach([head] + tail, epoch)[1..] == Reach(tail, epoch);
    }
  }

  /** Walk the `prev` chain for the lowest-cursor document at `epoch`. */
  method LowestDocumentAtEpoch(store: Store, start: Option<Document>, from: Address, epoch: nat)
    returns (best: Option<Placed>)
    ensures best == LowestAt(WalkFrom(store, start, from), epoch)
  {
    best := None;
    var doc := start;
    var address := from;
    var hop := 0;
    ghost var rest := WalkFrom(store, start, from);
    while hop < MAX_HOPS && address != NO_ADDRESS
      invariant 0 <= hop <= MAX_HOPS
      invariant doc.Some? ==> hop == 0
      invariant doc.Some? && address != NO_ADDRESS ==>
                  rest == [Link(address, doc.value)] + Onward(store, doc.value, MAX_HOPS - 1)
      invariant doc.Some? && address == NO_ADDRESS ==> rest == []
      invariant doc.None? ==> rest == Walk(store, address, MAX_HOPS - hop)
      invariant LowestAt(WalkFrom(store, start, from), epoch) == Lowest(Reach(rest, epoch), epoch, best)
      decreases MAX_HOPS - hop
    {
      WalkHead(store, address, MAX_HOPS - hop);
      if doc.None? {
        if address !in store {
          return;
        }
        doc := Some(store[address]);
      }
      ghost var head := Link(address, doc.value);
      ReachHead(head, Onward(store, doc.value, MAX_HOPS - hop - 1), epoch, best);
      if doc.value.MetaDocument? || doc.value.state.None? {
        return;
      }
      var docEpoch := doc.value.state.value.epoch;
      if docEpoch < epoch {
        return;
      }
      if docEpoch == epoch && (best.None? || doc.value.cursor < best.value.cursor) {
        best := Some(Placed(doc.value.cursor, address));
      }
      rest := Onward(store, doc.value, MAX_HOPS - hop - 1);
      address := doc.value.prev;
      doc := None;
      hop := hop + 1;
    }
  }

  // ---------------------------------------------------------------------
  // Where a newer document's chain meets the states a device has held
  // ---------------------------------------------------------------------

  datatype Meeting = Descends | ForkedAt(epoch: nat) | Unknown

  predicate SameGroup(l: Link, gid: nat) { Decodes(l) && l.doc.gid == gid }

  predicate MeetsHeld(l: Link, localEpoch: nat, held: map<nat, Fingerprint>)
    requires Decodes(l)
  {
    && EpochOf(l) <= localEpoch
    && EpochOf(l) in held
    && held[EpochOf(l)] == FingerprintOf(l.doc.state.value)
  }

  function Meet(links: seq<Link>, gid: nat, localEpoch: nat, held: map<nat, Fingerprint>): Meeting {
    if links == [] || !SameGroup(links[0], gid) then Unknown
    else if MeetsHeld(links[0], localEpoch, held) then
      if EpochOf(links[0]) == localEpoch then Descends else ForkedAt(EpochOf(links[0]))
    else Meet(links[1..], gid, localEpoch, held)
  }

  method ChainMeetsLocal(store: Store, from: Address, gid: nat, localEpoch: nat, held: map<nat, Fingerprint>)
    returns (meeting: Meeting)
    ensures meeting == Meet(Walk(store, from, MAX_HOPS), gid, localEpoch, held)
  {
    var address := from;
    var hop := 0;
    while hop < MAX_HOPS && address != NO_ADDRESS
      invariant 0 <= hop <= MAX_HOPS
      invariant Meet(Walk(store, from, MAX_HOPS), gid, localEpoch, held)
             == Meet(Walk(store, address, MAX_HOPS - hop), gid, localEpoch, held)
      decreases MAX_HOPS - hop
    {
      if address !in store {
        return Unknown;
      }
      var doc := store[address];
      ghost var rest := Walk(store, address, MAX_HOPS - hop);
      assert rest == [Link(address, doc)] + Onward(store, doc, MAX_HOPS - hop - 1);
      if doc.MetaDocument? || doc.gid != gid || doc.state.None? {
        return Unknown;
      }
      var epoch := doc.state.value.epoch;
      if epoch <= localEpoch {
        if epoch in held && held[epoch] == FingerprintOf(doc.state.value) {
          return if epoch == localEpoch then Descends else ForkedAt(epoch);
        }
      }
      assert rest[1..] == Walk(store, doc.prev, MAX_HOPS - hop - 1);
      address := doc.prev;
      hop := hop + 1;
    }
    return Unknown;
  }

  /** Going back along the chain the epoch never rises. */
  ghost predicate EpochsFall(links: seq<Link>) {
    && (forall l | l in links :: Decodes(l))
    && forall i, j :: 0 <= i < j < |links| ==> EpochOf(links[j]) <= EpochOf(links[i])
  }

  /** The leading part of a walk that is readable as documents of the group. */
  function Readable(links: seq<Link>, gid: nat): (r: seq<Link>)
    ensures r <= links
    ensures forall l | l in r :: SameGroup(l, gid)
  {
    if links == [] || !SameGroup(links[0], gid) then []
    else [links[0]] + Readable(links[1..], gid)
  }

  /** The epochs at which the readable chain and the held fingerprints agree. */
  ghost predicate AgreeAt(links: seq<Link>, gid: nat, localEpoch: nat, held: map<nat, Fingerprint>, epoch: nat) {
    exists l :: l in Readable(links, gid) && EpochOf(l) == epoch && MeetsHeld(l, localEpoch, held)
  }

  lemma AgreeAtCons(links: seq<Link>, gid: nat, localEpoch: nat, held: map<nat, Fingerprint>, e: nat)
    requires links != [] && SameGroup(links[0], gid)
    ensures AgreeAt(links, gid, localEpoch, held, e) <==>
              (EpochOf(links[0]) == e && MeetsHeld(links[0], localEpoch, held)) || AgreeAt(links[1..], gid, localEpoch, held, e)
  {
    assert forall l :: l in Readable(links, gid) <==> l == links[0] || l in Readable(links[1..], gid);
  }

  lemma FallingTail(links: seq<Link>)
    requires links != [] && EpochsFall(links)
    ensures EpochsFall(links[1..])
    ensures forall l | l in links :: EpochOf(l) <= EpochOf(links[0])
  {
    forall i, j | 0 <= i < j < |links[1..]|
      ensures EpochOf(links[1..][j]) <= EpochOf(links[1..][i])
    {
      assert links[1..][i] == links[i + 1] && links[1..][j] == links[j + 1];
    }
  }

  /** The first agreement met is the greatest one, because epochs fall along the chain. */
  lemma {:induction false} FirstAgreementIsGreatest(links: seq<Link>, gid: nat, localEpoch: nat, held: map<nat, Fingerprint>)
    requires EpochsFall(Readable(links, gid))
    ensures match Meet(links, gid, localEpoch, held)
            case Descends => AgreeAt(links, gid, localEpoch, held, localEpoch)
            case ForkedAt(e) => (
              && e < localEpoch && AgreeAt(links, gid, localEpoch, held, e)
              && forall f: nat :: e < f ==> !AgreeAt(links, gid, localEpoch, held, f))
            case Unknown => forall f: nat :: !AgreeAt(links, gid, localEpoch, held, f)
  {
    if links != [] && SameGroup(links[0], gid) {
      forall e: nat
        ensures AgreeAt(links, gid, localEpoch, held, e) <==>
                  (EpochOf(links[0]) == e && MeetsHeld(links[0], localEpoch, held))
                  || AgreeAt(links[1..], gid, localEpoch, held, e)
        ensures AgreeAt(links, gid, localEpoch, held, e) ==> e <= EpochOf(links[0])
      {
        AgreeAtCons(links, gid, localEpoch, held, e);
        FallingTail(Readable(links, gid));
      }
      FallingTail(Readable(links, gid));
      assert Readable(links, gid)[1..] == Readable(links[1..], gid);
      if !MeetsHeld(links[0], localEpoch, held) {
        FirstAgreementIsGreatest(links[1..], gid, localEpoch, held);
      }
    }
  }

  /**
   * The answer is the greatest epoch, up to the local one, at which chain and
   * held states agree: `Descends` exactly when that is the local epoch itself,
   * `ForkedAt` exactly when it is an earlier one, `Unknown` when there is none.
   */
  lemma MeetingIsGreatestAgreement(links: seq<Link>, gid: nat, localEpoch: nat, held: map<nat, Fingerprint>, e: nat)
    requires EpochsFall(Readable(links, gid))
    ensures Meet(links, gid, localEpoch, held) == Descends <==> AgreeAt(links, gid, localEpoch, held, localEpoch)
    ensures Meet(links, gid, localEpoch, held) == ForkedAt(e) <==>
              && e < localEpoch
              && AgreeAt(links, gid, localEpoch, held, e)
              && forall f: nat :: e < f ==> !AgreeAt(links, gid, localEpoch, held, f)
    ensures Meet(links, gid, localEpoch, held) == Unknown <==>
              forall f: nat :: !AgreeAt(links, gid, localEpoch, held, f)
  {
    FirstAgreementIsGreatest(links, gid, localEpoch, held);
  }

  // ---------------------------------------------------------------------
  // Retained fingerprints
  // ---------------------------------------------------------------------

  const RETAINED_FINGERPRINTS := 16

  ghost predicate IsLeast(s: set<nat>, e: nat) { e in s && forall x | x in s :: e <= x }

  lemma {:induction false} LeastExists(s: set<nat>)
    requires s != {}
    ensures exists e :: IsLeast(s, e)
    decreases |s|
  {
    var x :| x in s;
    if s == {x} {
      assert IsLeast(s, x);
    } else {
      LeastExists(s - {x});
      var e :| IsLeast(s - {x}, e);
      assert s == (s - {x}) + {x};
      assert IsLeast(s, if e < x then e else x);
    }
  }

  ghost function Least(s: set<nat>): (e: nat)
    requires s != {}
    ensures IsLeast(s, e)
  {
    LeastExists(s);
    var e :| IsLeast(s, e);
    e
  }

  /** Drop the smallest epochs until at most the retained number are left. */
  ghost function Trim(held: map<nat, Fingerprint>): map<nat, Fingerprint>
    decreases |held|
  {
    if |held| <= RETAINED_FINGERPRINTS then held
    else Trim(held - {Least(held.Keys)})
  }

  ghost function Note(held: map<nat, Fingerprint>, f: Fingerprint): map<nat, Fingerprint> {
    Trim(held[f.epoch := f])
  }

  method TrimFingerprints(noted: map<nat, Fingerprint>) returns (held: map<nat, Fingerprint>)
    ensures held == Trim(noted)
  {
    held := noted;
    while |held| > RETAINED_FINGERPRINTS
      invariant Trim(noted) == Trim(held)
      decreases |held|
    {
      var least :| least in held;
      var rest := held.Keys - {least};
      while rest != {}
        invariant least in held && rest <= held.Keys
        invariant forall e | e in held && e !in rest :: least <= e
        decreases |rest|
      {
        var e :| e in rest;
        if e < least {
          least := e;
        }
        rest := rest - {e};
      }
      assert IsLeast(held.Keys, least);
      held := held - {least};
    }
  }

  /** The latest fingerprint noted for each epoch. */
  function Latest(notes: seq<Fingerprint>): map<nat, Fingerprint> {
    if notes == [] then map[]
    else Latest(notes[..|notes| - 1])[notes[|notes| - 1].epoch := notes[|notes| - 1]]
  }

  /** What a device holds after a history of notes. */
  ghost function Retained(notes: seq<Fingerprint>): map<nat, Fingerprint> {
    if notes == [] then map[]
    else Note(Retained(notes[..|notes| - 1]), notes[|notes| - 1])
  }

  /** `held` is `all` cut down to its greatest epochs, at most sixteen of them. */
  ghost predicate GreatestOf(held: map<nat, Fingerprint>, all: map<nat, Fingerprint>) {
    && (forall e | e in held :: e in all && held[e] == all[e])
    && (forall e, f | e in held && f in all && f !in held :: f < e)
    && |held| <= 16
    && (held.Keys != all.Keys ==> |held| == 16)
  }

  lemma {:induction false} TrimKeepsGreatest(held: map<nat, Fingerprint>)
    ensures GreatestOf(Trim(held), held)
    decreases |held|
  {
    if |held| > RETAINED_FINGERPRINTS {
      var least := Least(held.Keys);
      var smaller := held - {least};
      assert smaller.Keys == held.Keys - {least};
      TrimKeepsGreatest(smaller);
      if Trim(smaller).Keys == smaller.Keys {
        assert |Trim(smaller)| == |smaller.Keys| >= RETAINED_FINGERPRINTS;
      }
    }
  }

  lemma NoteKeepsGreatest(held: map<nat, Fingerprint>, all: map<nat, Fingerprint>, f: Fingerprint)
    requires GreatestOf(held, all)
    ensures GreatestOf(Note(held, f), all[f.epoch := f])
  {
    var grown, grownAll := held[f.epoch := f], all[f.epoch := f];
    TrimKeepsGreatest(grown);
    var kept := Trim(grown);
    if held.Keys == all.Keys {
      assert grown.Keys == grownAll.Keys;
    } else {
      assert held.Keys <= grown.Keys;
      SubsetCard(held.Keys, grown.Keys);
      if kept.Keys == grown.Keys {
        assert |kept.Keys| == |grown.Keys|;
      }
      forall e, x | e in kept && x in grownAll && x !in kept
        ensures x < e
      {
        if x !in grown {
          assert x in all && x !in held;
        }
      }
    }
  }

  lemma SubsetCard(a: set<nat>, b: set<nat>)
    requires a <= b
    ensures |a| <= |b|
  {
    var rest := b - a;
    assert b == a + rest && a * rest == {};
  }

  /**
   * Over any history of notes a device retains at most sixteen epochs, always
   * the greatest ones noted, each with the latest fingerprint noted for it.
   */
  lemma {:induction false} RetainsGreatest(notes: seq<Fingerprint>)
    ensures GreatestOf(Retained(notes), Latest(notes))
  {
    if notes != [] {
      var front := notes[..|notes| - 1];
      RetainsGreatest(front);
      NoteKeepsGreatest(Retained(front), Latest(front), notes[|notes| - 1]);
    }
  }
}
