/**
 * The TLV layer of a group reference: entries of a type byte, a length byte and
 * a value, what a list of them has to hold to be a reference, and how long its
 * string may be. Text is UTF-8 bytes; of the bech32 wrapping only the length
 * is modelled.
 */
module GroupRef {
  import opened Base
  import opened ByteText

  datatype Tlv = Tlv(kind: Byte, value: Bytes)

  datatype Error =
    | EmptyGid | GidTooLong | BadPubkey | RelaysWithoutPubkey | ValueTooLong(kind: Byte)
    | TruncatedHeader | TruncatedValue(of: Byte) | MissingGid | ManyGids | ManyPubkeys | NotText
    | TooLong

  const GID: Byte := 0

  const PUBKEY: Byte := 1

  const RELAY: Byte := 2

  const MAX_VALUE := 255

  /** Characters a reference's string may have. */
  const MAX_LENGTH := 5000

  datatype Ref = Ref(gid: Bytes, pubkey: Option<Bytes>, relays: seq<Bytes>)

  // ---------------------------------------------------------------------
  // Entries
  // ---------------------------------------------------------------------

  function EncodeEntry(e: Tlv): Result<Bytes, Error> {
    if |e.value| > MAX_VALUE then Err(ValueTooLong(e.kind)) else Ok([e.kind, |e.value|] + e.value)
  }

  function EncodeEntries(entries: seq<Tlv>): Result<Bytes, Error> {
    if entries == [] then Ok([])
    else
      match EncodeEntry(entries[0])
      case Err(error) => Err(error)
      case Ok(head) =>
        match EncodeEntries(entries[1..])
        case Err(error) => Err(error)
        case Ok(tail) => Ok(head + tail)
  }

  /** The entries from `offset` on, in order. */
  function ParseEntries(data: Bytes, offset: nat): Result<seq<Tlv>, Error>
    decreases |data| - offset
  {
    if offset >= |data| then Ok([])
    else if offset + 2 > |data| then Err(TruncatedHeader)
    else
      var start := offset + 2;
      var end := start + data[offset + 1];
      if end > |data| then Err(TruncatedValue(data[offset]))
      else
        match ParseEntries(data, end)
        case Err(error) => Err(error)
        case Ok(rest) => Ok([Tlv(data[offset], data[start..end])] + rest)
  }

  /** The values of one type, in the order they stand. */
  function OfType(entries: seq<Tlv>, kind: Byte): seq<Bytes> {
    if entries == [] then []
    else (if entries[0].kind == kind then [entries[0].value] else []) + OfType(entries[1..], kind)
  }

  /** The buckets hold, per type, exactly the values of that type in order. */
  ghost predicate Buckets(buckets: map<Byte, seq<Bytes>>, entries: seq<Tlv>) {
    forall kind: Byte :: (if kind in buckets then buckets[kind] else []) == OfType(entries, kind)
  }

  lemma {:induction false} OfTypeAppend(a: seq<Tlv>, b: seq<Tlv>, kind: Byte)
    ensures OfType(a + b, kind) == OfType(a, kind) + OfType(b, kind)
  {
    if a == [] {
      assert a + b == b;
    } else {
      assert (a + b)[0] == a[0] && (a + b)[1..] == a[1..] + b;
      OfTypeAppend(a[1..], b, kind);
      var head := if a[0].kind == kind then [a[0].value] else [];
      assert head + (OfType(a[1..], kind) + OfType(b, kind)) == (head + OfType(a[1..], kind)) + OfType(b, kind);
    }
  }

  /** Prepend what was parsed so far to what is still to come. */
  function After(seen: seq<Tlv>, rest: Result<seq<Tlv>, Error>): Result<seq<Tlv>, Error> {
    match rest
    case Ok(entries) => Ok(seen + entries)
    case Err(error) => Err(error)
  }

  method ParseTlv(data: Bytes) returns (buckets: Result<map<Byte, seq<Bytes>>, Error>)
    ensures match ParseEntries(data, 0)
            case Ok(entries) => buckets.Ok? && Buckets(buckets.value, entries)
            case Err(error) => buckets == Err(error)
  {
    var result: map<Byte, seq<Bytes>> := map[];
    var offset: nat := 0;
    ghost var seen: seq<Tlv> := [];
    NothingSeen(data);
    hide Buckets;
    while offset < |data|
      invariant offset <= |data| && Buckets(result, seen)
      invariant ParseEntries(data, 0) == After(seen, ParseEntries(data, offset))
      decreases |data| - offset
    {
      if offset + 2 > |data| {
        return Err(TruncatedHeader);
      }
      var kind, length := data[offset], data[offset + 1];
      var start := offset + 2;
      var end := start + length;
      if end > |data| {
        return Err(TruncatedValue(kind));
      }
      var bucket := if kind in result then result[kind] else [];
      var value := data[start..end];
      ParseOne(data, offset);
      BucketGrows(result, seen, Tlv(kind, value));
      AfterOneMore(seen, Tlv(kind, value), ParseEntries(data, end));
      hide ParseEntries, After;
      result := result[kind := bucket + [value]];
      seen := seen + [Tlv(kind, value)];
      offset := end;
    }
    assert After(seen, Ok([])) == Ok(seen + []) && seen + [] == seen;
    return Ok(result);
  }

  lemma NothingSeen(data: Bytes)
    ensures ParseEntries(data, 0) == After([], ParseEntries(data, 0)) && Buckets(map[], [])
  {
    if ParseEntries(data, 0).Ok? {
      assert [] + ParseEntries(data, 0).value == ParseEntries(data, 0).value;
    }
  }

  lemma BucketGrows(buckets: map<Byte, seq<Bytes>>, seen: seq<Tlv>, e: Tlv)
    requires Buckets(buckets, seen)
    ensures var bucket := if e.kind in buckets then buckets[e.kind] else [];
            Buckets(buckets[e.kind := bucket + [e.value]], seen + [e])
  {
    forall kind: Byte
      ensures OfType(seen + [e], kind) == if kind == e.kind then OfType(seen, kind) + [e.value] else OfType(seen, kind)
    {
      OfTypeAppend(seen, [e], kind);
      OfOne(e, kind);
      assert OfType(seen, kind) + [] == OfType(seen, kind);
    }
    hide OfType;
  }

  lemma AfterOneMore(seen: seq<Tlv>, e: Tlv, rest: Result<seq<Tlv>, Error>)
    ensures After(seen, After([e], rest)) == After(seen + [e], rest)
  {
    if rest.Ok? {
      assert seen + ([e] + rest.value) == (seen + [e]) + rest.value;
    }
  }

  /** One entry of the parse. */
  lemma ParseOne(data: Bytes, offset: nat)
    requires offset + 2 <= |data| && offset + 2 + data[offset + 1] <= |data|
    ensures var end := offset + 2 + data[offset + 1];
            ParseEntries(data, offset) == After([Tlv(data[offset], data[offset + 2..end])], ParseEntries(data, end))
  {
  }

  // ---------------------------------------------------------------------
  // Printing and parsing are inverse
  // ---------------------------------------------------------------------

  lemma {:induction false} EncodesWhenShort(entries: seq<Tlv>)
    ensures EncodeEntries(entries).Ok? <==> forall e | e in entries :: |e.value| <= MAX_VALUE
  {
    if entries != [] {
      EncodesWhenShort(entries[1..]);
      assert forall e :: e in entries <==> e == entries[0] || e in entries[1..];
    }
  }

  /** Any list of entries parses back to itself, wherever its bytes stand. */
  lemma {:induction false} ParseUndoesEncode(before: Bytes, entries: seq<Tlv>)
    requires EncodeEntries(entries).Ok?
    ensures ParseEntries(before + EncodeEntries(entries).value, |before|) == Ok(entries)
    decreases entries
  {
    if entries == [] {
      assert before + [] == before;
    } else {
      var head, tail := EncodeEntry(entries[0]).value, EncodeEntries(entries[1..]).value;
      EncodedHead(entries);
      assert before + (head + tail) == (before + head) + tail;
      assert [entries[0]] + entries[1..] == entries;
      ParseUndoesEncode(before + head, entries[1..]);
      hide ParseEntries, EncodeEntries, EncodeEntry;
      ParseHead(before, entries[0], tail, entries[1..]);
    }
  }

  lemma EncodedHead(entries: seq<Tlv>)
    requires entries != [] && EncodeEntries(entries).Ok?
    ensures EncodeEntry(entries[0]).Ok? && EncodeEntries(entries[1..]).Ok?
    ensures EncodeEntries(entries).value == EncodeEntry(entries[0]).value + EncodeEntries(entries[1..]).value
  {
  }

  lemma ParseHead(before: Bytes, e: Tlv, tail: Bytes, rest: seq<Tlv>)
    requires EncodeEntry(e).Ok?
    requires ParseEntries((before + EncodeEntry(e).value) + tail, |before| + |EncodeEntry(e).value|) == Ok(rest)
    ensures ParseEntries((before + EncodeEntry(e).value) + tail, |before|) == Ok([e] + rest)
  {
    var data, at, n := (before + EncodeEntry(e).value) + tail, |before|, |e.value|;
    assert data[at] == e.kind && data[at + 1] == n;
    assert data[at + 2..at + 2 + n] == e.value;
  }

  /** Whatever parses is exactly the bytes of its entries. */
  lemma {:induction false} EncodeUndoesParse(data: Bytes, offset: nat)
    requires offset <= |data| && ParseEntries(data, offset).Ok?
    ensures EncodeEntries(ParseEntries(data, offset).value) == Ok(data[offset..])
    decreases |data| - offset
  {
    if offset == |data| {
      assert data[offset..] == [];
    } else {
      var end := offset + 2 + data[offset + 1];
      EncodeUndoesParse(data, end);
      var e, rest := Tlv(data[offset], data[offset + 2..end]), ParseEntries(data, end).value;
      EncodeCons(e, rest);
      assert data[offset..] == ([e.kind, |e.value|] + e.value) + data[end..];
    }
  }

  lemma EncodeCons(e: Tlv, rest: seq<Tlv>)
    requires |e.value| <= MAX_VALUE && EncodeEntries(rest).Ok?
    ensures EncodeEntries([e] + rest) == Ok(([e.kind, |e.value|] + e.value) + EncodeEntries(rest).value)
  {
    assert ([e] + rest)[1..] == rest;
  }

  // ---------------------------------------------------------------------
  // References
  // ---------------------------------------------------------------------

  function RelayEntries(relays: seq<Bytes>): seq<Tlv> {
    if relays == [] then [] else [Tlv(RELAY, relays[0])] + RelayEntries(relays[1..])
  }

  /** Entries go out in descending order of type. */
  function EntriesOf(r: Ref): seq<Tlv> {
    RelayEntries(r.relays) + (if r.pubkey.Some? then [Tlv(PUBKEY, r.pubkey.value)] else []) + [Tlv(GID, r.gid)]
  }

  /** Characters around `n` bytes: prefix, separator, five bits a character, checksum. */
  function CodeLength(n: nat): nat {
    |"cordn"| + 1 + (8 * n + 4) / 5 + 6
  }

  function Wrapped(data: Result<Bytes, Error>): Result<Bytes, Error> {
    if data.Ok? && CodeLength(|data.value|) > MAX_LENGTH then Err(TooLong) else data
  }

  function EncodeRef(r: Ref): Result<Bytes, Error> {
    if r.gid == [] then Err(EmptyGid)
    else if |r.gid| > MAX_VALUE then Err(GidTooLong)
    else if r.pubkey.Some? && |r.pubkey.value| != 32 then Err(BadPubkey)
    else if r.relays != [] && r.pubkey.None? then Err(RelaysWithoutPubkey)
    else Wrapped(EncodeEntries(EntriesOf(r)))
  }

  /** One entry, written into a byte array of its size. */
  method EncodeTlvEntry(kind: Byte, value: Bytes) returns (r: Result<Bytes, Error>)
    ensures r == EncodeEntry(Tlv(kind, value))
  {
    if |value| > MAX_VALUE {
      return Err(ValueTooLong(kind));
    }
    var entry := new Byte[|value| + 2](_ => 0);
    entry[0] := kind;
    entry[1] := |value|;
    var i := 0;
    while i < |value|
      invariant 0 <= i <= |value|
      invariant entry[0] == kind && entry[1] == |value|
      invariant forall j :: 0 <= j < i ==> entry[2 + j] == value[j]
    {
      entry[2 + i] := value[i];
      i := i + 1;
    }
    assert entry[..] == [kind, |value|] + value;
    return Ok(entry[..]);
  }

  method EncodeGroupRef(r: Ref) returns (data: Result<Bytes, Error>)
    ensures data == EncodeRef(r)
  {
    if r.gid == [] {
      return Err(EmptyGid);
    }
    if |r.gid| > MAX_VALUE {
      return Err(GidTooLong);
    }
    if r.pubkey.Some? && |r.pubkey.value| != 32 {
      return Err(BadPubkey);
    }
    if |r.relays| > 0 && r.pubkey.None? {
      return Err(RelaysWithoutPubkey);
    }
    var todo, bytes: Bytes := EntriesOf(r), [];
    OntoNothing(EncodeEntries(todo));
    while todo != []
      invariant EncodeEntries(EntriesOf(r)) == Onto(bytes, EncodeEntries(todo))
      decreases |todo|
    {
      var entry := EncodeTlvEntry(todo[0].kind, todo[0].value);
      if entry.Err? {
        return Err(entry.error);
      }
      OntoOneMore(bytes, entry.value, EncodeEntries(todo[1..]));
      bytes := bytes + entry.value;
      todo := todo[1..];
    }
    assert bytes + [] == bytes;
    if CodeLength(|bytes|) > MAX_LENGTH {
      return Err(TooLong);
    }
    return Ok(bytes);
  }

  function Onto(before: Bytes, rest: Result<Bytes, Error>): Result<Bytes, Error> {
    match rest
    case Ok(bytes) => Ok(before + bytes)
    case Err(error) => Err(error)
  }

  lemma OntoNothing(rest: Result<Bytes, Error>)
    ensures Onto([], rest) == rest
  {
    if rest.Ok? {
      assert [] + rest.value == rest.value;
    }
  }

  lemma OntoOneMore(before: Bytes, one: Bytes, rest: Result<Bytes, Error>)
    ensures Onto(before, Onto(one, rest)) == Onto(before + one, rest)
  {
    if rest.Ok? {
      assert before + (one + rest.value) == (before + one) + rest.value;
    }
  }

  function AllUnmarked(texts: seq<Bytes>): seq<Bytes> {
    seq(|texts|, i requires 0 <= i < |texts| => Unmarked(texts[i]))
  }

  /** What the entries say; `text` tells which bytes are UTF-8. Types it does not know are passed over. */
  function RefOf(entries: seq<Tlv>, text: Bytes -> bool): Result<Ref, Error> {
    var gids, pubkeys, relays := OfType(entries, GID), OfType(entries, PUBKEY), OfType(entries, RELAY);
    if gids == [] then Err(MissingGid)
    else if |gids| > 1 then Err(ManyGids)
    else if gids[0] == [] then Err(EmptyGid)
    else if |pubkeys| > 1 then Err(ManyPubkeys)
    else if pubkeys != [] && |pubkeys[0]| != 32 then Err(BadPubkey)
    else if relays != [] && pubkeys == [] then Err(RelaysWithoutPubkey)
    else if !text(gids[0]) || exists relay :: relay in relays && !text(relay) then Err(NotText)
    else Ok(Ref(Unmarked(gids[0]), if pubkeys == [] then None else Some(pubkeys[0]), AllUnmarked(relays)))
  }

  function DecodeRef(data: Bytes, text: Bytes -> bool): Result<Ref, Error> {
    if CodeLength(|data|) > MAX_LENGTH then Err(TooLong)
    else
      match ParseEntries(data, 0)
      case Err(error) => Err(error)
      case Ok(entries) => RefOf(entries, text)
  }

  /** A reference the format can carry. */
  ghost predicate Carriable(r: Ref) {
    && 1 <= |r.gid| <= MAX_VALUE
    && (r.pubkey.Some? ==> |r.pubkey.value| == 32)
    && (r.relays != [] ==> r.pubkey.Some?)
    && forall relay | relay in r.relays :: |relay| <= MAX_VALUE
  }

  ghost predicate IsText(r: Ref, text: Bytes -> bool) { text(r.gid) && forall relay | relay in r.relays :: text(relay) }

  ghost predicate Marked(r: Ref) { MARK <= r.gid || exists relay | relay in r.relays :: MARK <= relay }

  /** Bytes of the entries with these values. */
  function SizeOfAll(values: seq<Bytes>): nat {
    if values == [] then 0 else 2 + |values[0]| + SizeOfAll(values[1..])
  }

  function SizeOf(r: Ref): nat {
    2 + |r.gid| + (if r.pubkey.Some? then 2 + |r.pubkey.value| else 0) + SizeOfAll(r.relays)
  }

  lemma {:induction false} RelaysOfType(relays: seq<Bytes>)
    ensures OfType(RelayEntries(relays), RELAY) == relays
    ensures OfType(RelayEntries(relays), GID) == [] && OfType(RelayEntries(relays), PUBKEY) == []
    ensures (forall e | e in RelayEntries(relays) :: |e.value| <= MAX_VALUE) <==> forall r | r in relays :: |r| <= MAX_VALUE
  {
    if relays != [] {
      RelaysOfType(relays[1..]);
      assert forall r :: r in relays <==> r == relays[0] || r in relays[1..];
      var head, tail := Tlv(RELAY, relays[0]), RelayEntries(relays[1..]);
      assert forall e :: e in [head] + tail <==> e == head || e in tail;
    }
  }

  lemma EntriesByType(r: Ref)
    ensures OfType(EntriesOf(r), GID) == [r.gid] && OfType(EntriesOf(r), RELAY) == r.relays
    ensures OfType(EntriesOf(r), PUBKEY) == if r.pubkey.Some? then [r.pubkey.value] else []
  {
    RelaysOfType(r.relays);
    EntriesOfKind(r, GID);
    EntriesOfKind(r, RELAY);
    EntriesOfKind(r, PUBKEY);
    assert OfType(RelayEntries(r.relays), RELAY) + [] + [] == r.relays;
    hide OfType, RelayEntries, EntriesOf;
  }

  lemma EntriesOfKind(r: Ref, kind: Byte)
    ensures OfType(EntriesOf(r), kind) == OfType(RelayEntries(r.relays), kind)
              + (if kind == PUBKEY && r.pubkey.Some? then [r.pubkey.value] else [])
              + (if kind == GID then [r.gid] else [])
  {
    var relays := RelayEntries(r.relays);
    var pubkeys: seq<Tlv> := if r.pubkey.Some? then [Tlv(PUBKEY, r.pubkey.value)] else [];
    OfTypeAppend(relays, pubkeys, kind);
    OfTypeAppend(relays + pubkeys, [Tlv(GID, r.gid)], kind);
    OfOne(Tlv(GID, r.gid), kind);
    if r.pubkey.Some? {
      OfOne(Tlv(PUBKEY, r.pubkey.value), kind);
    }
  }

  lemma OfOne(e: Tlv, kind: Byte)
    ensures OfType([e], kind) == if e.kind == kind then [e.value] else []
  {
    assert [e][1..] == [];
  }

  /** The values of all entries, whatever their type. */
  function ValuesOf(entries: seq<Tlv>): seq<Bytes> {
    if entries == [] then [] else [entries[0].value] + ValuesOf(entries[1..])
  }

  lemma {:induction false} EncodedSize(entries: seq<Tlv>)
    requires EncodeEntries(entries).Ok?
    ensures |EncodeEntries(entries).value| == SizeOfAll(ValuesOf(entries))
  {
    if entries != [] {
      EncodedSize(entries[1..]);
    }
  }

  lemma {:induction false} SizesAdd(a: seq<Bytes>, b: seq<Bytes>)
    ensures SizeOfAll(a + b) == SizeOfAll(a) + SizeOfAll(b)
  {
    if a == [] {
      assert a + b == b;
    } else {
      assert (a + b)[0] == a[0] && (a + b)[1..] == a[1..] + b;
      SizesAdd(a[1..], b);
    }
  }

  lemma {:induction false} ValuesAppend(a: seq<Tlv>, b: seq<Tlv>)
    ensures ValuesOf(a + b) == ValuesOf(a) + ValuesOf(b)
  {
    if a == [] {
      assert a + b == b;
    } else {
      assert (a + b)[0] == a[0] && (a + b)[1..] == a[1..] + b;
      ValuesAppend(a[1..], b);
    }
  }

  lemma {:induction false} ValuesOfRelays(relays: seq<Bytes>)
    ensures ValuesOf(RelayEntries(relays)) == relays
  {
    if relays != [] {
      ValuesOfRelays(relays[1..]);
    }
  }

  lemma SizeIs(r: Ref)
    ensures SizeOfAll(ValuesOf(EntriesOf(r))) == SizeOf(r)
  {
    var relays, gid := RelayEntries(r.relays), [Tlv(GID, r.gid)];
    var pubkeys: seq<Tlv> := if r.pubkey.Some? then [Tlv(PUBKEY, r.pubkey.value)] else [];
    ValuesOfRelays(r.relays);
    ValuesAppend(relays, pubkeys);
    ValuesAppend(relays + pubkeys, gid);
    SizesAdd(ValuesOf(relays), ValuesOf(pubkeys));
    SizesAdd(ValuesOf(relays + pubkeys), ValuesOf(gid));
    assert ValuesOf(gid) == [r.gid];
    assert ValuesOf(pubkeys) == if r.pubkey.Some? then [r.pubkey.value] else [];
  }

  /** Exactly the carriable references whose string is short enough can be encoded. */
  lemma EncodesIffCarriable(r: Ref)
    ensures EncodeRef(r).Ok? <==> Carriable(r) && CodeLength(SizeOf(r)) <= MAX_LENGTH
    ensures EncodeRef(r).Ok? <==> Carriable(r) && 8 * SizeOf(r) <= 5 * (5000 - |"cordn1"| - 6)
    ensures EncodeRef(r).Ok? ==> |EncodeRef(r).value| == SizeOf(r)
  {
    EncodesWhenShort(EntriesOf(r));
    RelaysOfType(r.relays);
    EntriesAreShort(r);
    if EncodeEntries(EntriesOf(r)).Ok? {
      EncodedSize(EntriesOf(r));
    }
    SizeIs(r);
    hide EncodeEntries, EntriesOf, RelayEntries, OfType, SizeOf, SizeOfAll, ValuesOf;
  }

  /** The bytes of the relays: type 2, length, address. */
  function RelayBytes(relays: seq<Bytes>): Bytes
    requires forall relay | relay in relays :: |relay| <= 255
  {
    if relays == [] then [] else assert relays[0] in relays; [2, |relays[0]|] + relays[0] + RelayBytes(relays[1..])
  }

  lemma {:induction false} RelaysEncode(relays: seq<Bytes>, rest: seq<Tlv>)
    requires (forall relay | relay in relays :: |relay| <= 255) && EncodeEntries(rest).Ok?
    ensures EncodeEntries(RelayEntries(relays) + rest) == Ok(RelayBytes(relays) + EncodeEntries(rest).value)
  {
    hide EncodeEntries, RelayEntries, RelayBytes;
    if relays == [] {
      NoRelays(rest);
    } else {
      RelaysEncode(relays[1..], rest);
      FirstRelay(relays, rest);
      EncodeCons(Tlv(RELAY, relays[0]), RelayEntries(relays[1..]) + rest);
      Regrouped([2, |relays[0]|] + relays[0], RelayBytes(relays[1..]), EncodeEntries(rest).value);
    }
  }

  lemma NoRelays(rest: seq<Tlv>)
    requires EncodeEntries(rest).Ok?
    ensures RelayEntries([]) + rest == rest && RelayBytes([]) + EncodeEntries(rest).value == EncodeEntries(rest).value
  {
    hide EncodeEntries;
  }

  lemma Regrouped(a: Bytes, b: Bytes, c: Bytes)
    ensures a + (b + c) == (a + b) + c
  {
  }

  lemma FirstRelay(relays: seq<Bytes>, rest: seq<Tlv>)
    requires relays != [] && forall relay | relay in relays :: |relay| <= 255
    ensures relays[0] in relays
    ensures RelayEntries(relays) + rest == [Tlv(RELAY, relays[0])] + (RelayEntries(relays[1..]) + rest)
    ensures RelayBytes(relays) == [2, |relays[0]|] + relays[0] + RelayBytes(relays[1..])
  {
  }

  /** The bytes of an encoded reference: the relays as type 2, then the key as type 1, then the group as type 0. */
  lemma EncodedBytes(r: Ref)
    requires EncodeRef(r).Ok?
    ensures Carriable(r)
    ensures EncodeRef(r).value == RelayBytes(r.relays) + (if r.pubkey.Some? then [1, 32] + r.pubkey.value else []) + ([0, |r.gid|] + r.gid)
  {
    hide EncodeEntries, RelayEntries, RelayBytes, SizeOf, CodeLength;
    EncodesIffCarriable(r);
    var tail := (if r.pubkey.Some? then [Tlv(PUBKEY, r.pubkey.value)] else []) + [Tlv(GID, r.gid)];
    assert EntriesOf(r) == RelayEntries(r.relays) + tail;
    TailEncodes(r, tail);
    RelaysEncode(r.relays, tail);
    Regrouped(RelayBytes(r.relays), if r.pubkey.Some? then [1, 32] + r.pubkey.value else [], [0, |r.gid|] + r.gid);
    hide EntriesOf;
  }

  lemma TailEncodes(r: Ref, tail: seq<Tlv>)
    requires Carriable(r) && tail == (if r.pubkey.Some? then [Tlv(PUBKEY, r.pubkey.value)] else []) + [Tlv(GID, r.gid)]
    ensures EncodeEntries(tail)
         == Ok((if r.pubkey.Some? then [1, 32] + r.pubkey.value else []) + ([0, |r.gid|] + r.gid))
  {
    var gid := Tlv(GID, r.gid);
    assert EncodeEntries([gid]) == Ok([0, |r.gid|] + r.gid) by {
      assert [gid][1..] == [] && EncodeEntries([]) == Ok([]);
      assert [0, |r.gid|] + r.gid + [] == [0, |r.gid|] + r.gid;
    }
    if r.pubkey.Some? {
      assert tail[0] == Tlv(PUBKEY, r.pubkey.value) && tail[1..] == [gid];
    } else {
      assert tail == [gid];
      assert [] + ([0, |r.gid|] + r.gid) == [0, |r.gid|] + r.gid;
    }
  }

  lemma EntriesAreShort(r: Ref)
    ensures (forall e | e in EntriesOf(r) :: |e.value| <= MAX_VALUE) <==>
              && (forall e | e in RelayEntries(r.relays) :: |e.value| <= MAX_VALUE)
              && (r.pubkey.Some? ==> |r.pubkey.value| <= MAX_VALUE)
              && |r.gid| <= MAX_VALUE
  {
    var relays, gid := RelayEntries(r.relays), Tlv(GID, r.gid);
    var pubkeys: seq<Tlv> := if r.pubkey.Some? then [Tlv(PUBKEY, r.pubkey.value)] else [];
    hide RelayEntries;
    assert forall e :: e in EntriesOf(r) <==> e in relays || e in pubkeys || e == gid;
    assert gid in EntriesOf(r);
    assert r.pubkey.Some? ==> Tlv(PUBKEY, r.pubkey.value) in pubkeys;
  }

  function UnmarkedRef(r: Ref): Ref { r.(gid := Unmarked(r.gid), relays := AllUnmarked(r.relays)) }

  lemma UnmarkedIsSameIff(r: Ref)
    ensures UnmarkedRef(r) == r <==> !Marked(r)
  {
    if !Marked(r) {
      assert forall i | 0 <= i < |r.relays| :: r.relays[i] in r.relays;
      assert AllUnmarked(r.relays) == r.relays;
    } else if !(MARK <= r.gid) {
      var relay :| relay in r.relays && MARK <= relay;
      var i :| 0 <= i < |r.relays| && r.relays[i] == relay;
      assert |AllUnmarked(r.relays)[i]| < |r.relays[i]|;
    }
  }

  /**
   * Every reference that can be encoded decodes, without the marks of its text;
   * so it decodes to itself exactly when none of its text begins with one.
   */
  lemma DecodeUndoesEncode(r: Ref, text: Bytes -> bool)
    requires EncodeRef(r).Ok? && IsText(r, text)
    ensures DecodeRef(EncodeRef(r).value, text) == Ok(UnmarkedRef(r))
    ensures DecodeRef(EncodeRef(r).value, text) == Ok(r) <==> !Marked(r)
  {
    var data := EncodeRef(r).value;
    ParseUndoesEncode([], EntriesOf(r));
    assert [] + data == data;
    EntriesByType(r);
    EncodesIffCarriable(r);
    UnmarkedIsSameIff(r);
    hide EntriesOf, EncodeEntries, OfType, Unmarked, AllUnmarked, Marked, SizeOf;
  }

  /** A gid that is nothing but the mark comes back empty, and an empty gid cannot be encoded. */
  lemma BareMarkIsLost(text: Bytes -> bool)
    requires text([0xEF, 0xBB, 0xBF])
    ensures var r := Ref([0xEF, 0xBB, 0xBF], None, []);
            && EncodeRef(r).Ok?
            && DecodeRef(EncodeRef(r).value, text) == Ok(Ref([], None, []))
            && EncodeRef(Ref([], None, [])) == Err(EmptyGid)
  {
    var r := Ref(MARK, None, []);
    EncodesIffCarriable(r);
    assert SizeOfAll([]) == 0 && Unmarked(MARK) == [] && AllUnmarked([]) == [];
    DecodeUndoesEncode(r, text);
    hide EncodeEntries, EntriesOf, ParseEntries, RefOf;
  }

  lemma {:induction false} ParsedAreShort(data: Bytes, offset: nat, kind: Byte)
    requires offset <= |data| && ParseEntries(data, offset).Ok?
    ensures forall v | v in OfType(ParseEntries(data, offset).value, kind) :: |v| <= MAX_VALUE
    decreases |data| - offset
  {
    if offset < |data| {
      var end := offset + 2 + data[offset + 1];
      ParsedAreShort(data, end, kind);
      var e, rest := Tlv(data[offset], data[offset + 2..end]), ParseEntries(data, end).value;
      assert ([e] + rest)[1..] == rest;
    }
  }

  /** The values of one type take no more room than all the entries. */
  lemma {:induction false} SizesOfTypes(entries: seq<Tlv>)
    ensures SizeOfAll(OfType(entries, GID)) + SizeOfAll(OfType(entries, PUBKEY)) + SizeOfAll(OfType(entries, RELAY))
         <= SizeOfAll(ValuesOf(entries))
  {
    if entries != [] {
      SizesOfTypes(entries[1..]);
      SizeOfTypeIs(entries, GID);
      SizeOfTypeIs(entries, PUBKEY);
      SizeOfTypeIs(entries, RELAY);
    }
  }

  lemma SizeOfTypeIs(entries: seq<Tlv>, kind: Byte)
    requires entries != []
    ensures SizeOfAll(OfType(entries, kind))
         == (if entries[0].kind == kind then 2 + |entries[0].value| else 0) + SizeOfAll(OfType(entries[1..], kind))
  {
    if entries[0].kind == kind {
      assert OfType(entries, kind)[1..] == OfType(entries[1..], kind);
    } else {
      assert OfType(entries, kind) == OfType(entries[1..], kind);
    }
  }

  lemma {:induction false} UnmarkingShrinks(texts: seq<Bytes>)
    ensures SizeOfAll(AllUnmarked(texts)) <= SizeOfAll(texts)
  {
    if texts != [] {
      UnmarkingShrinks(texts[1..]);
      assert AllUnmarked(texts)[1..] == AllUnmarked(texts[1..]);
    }
  }

  lemma ParsedSize(data: Bytes)
    requires ParseEntries(data, 0).Ok?
    ensures SizeOfAll(ValuesOf(ParseEntries(data, 0).value)) == |data|
  {
    EncodeUndoesParse(data, 0);
    EncodedSize(ParseEntries(data, 0).value);
    assert data[0..] == data;
    hide ParseEntries, EncodeEntries, SizeOfAll, ValuesOf;
  }

  lemma UnmarkedSize(gid: Bytes, pubkeys: seq<Bytes>, relays: seq<Bytes>)
    requires |pubkeys| <= 1
    ensures SizeOf(Ref(Unmarked(gid), if pubkeys == [] then None else Some(pubkeys[0]), AllUnmarked(relays)))
         <= SizeOfAll([gid]) + SizeOfAll(pubkeys) + SizeOfAll(relays)
  {
    hide Unmarked, AllUnmarked;
    UnmarkingShrinks(relays);
    UnmarkedNoLonger(gid);
    SizeOfOne(gid);
    if pubkeys != [] {
      SizeOfOne(pubkeys[0]);
      assert pubkeys == [pubkeys[0]];
    }
  }

  lemma UnmarkedNoLonger(bytes: Bytes)
    ensures |Unmarked(bytes)| <= |bytes|
  {
  }

  lemma SizeOfOne(bytes: Bytes)
    ensures SizeOfAll([bytes]) == 2 + |bytes|
  {
    assert [bytes][1..] == [];
  }

  /** A decoded reference takes no more bytes than what it was decoded from. */
  lemma DecodedFits(data: Bytes, text: Bytes -> bool)
    requires DecodeRef(data, text).Ok?
    ensures SizeOf(DecodeRef(data, text).value) <= |data|
  {
    var entries := ParseEntries(data, 0).value;
    var gids := OfType(entries, GID);
    ParsedSize(data);
    SizesOfTypes(entries);
    assert gids == [gids[0]];
    UnmarkedSize(gids[0], OfType(entries, PUBKEY), OfType(entries, RELAY));
    hide ParseEntries, OfType, AllUnmarked, Unmarked, ValuesOf, SizeOf, SizeOfAll, CodeLength;
  }

  /**
   * Whatever decodes, in any order of entries and with unknown ones among them,
   * can be encoded again exactly when its gid was more than a mark, and that
   * canonical encoding decodes to it again exactly when nothing in it begins
   * with a second mark.
   */
  lemma DecodedIsCanonicalizable(data: Bytes, text: Bytes -> bool)
    requires SurvivesUnmarking(text) && DecodeRef(data, text).Ok?
    ensures var r := DecodeRef(data, text).value;
            && (EncodeRef(r).Ok? <==> OfType(ParseEntries(data, 0).value, GID) != [MARK])
            && (EncodeRef(r).Ok? ==> (DecodeRef(EncodeRef(r).value, text) == Ok(r) <==> !Marked(r)))
  {
    var r, entries := DecodeRef(data, text).value, ParseEntries(data, 0).value;
    ParsedAreShort(data, 0, GID);
    ParsedAreShort(data, 0, RELAY);
    DecodedFits(data, text);
    var gids, relays := OfType(entries, GID), OfType(entries, RELAY);
    assert gids == [gids[0]] && gids[0] in gids;
    UnmarkedText(gids[0], text);
    forall relay | relay in r.relays
      ensures |relay| <= MAX_VALUE && text(relay)
    {
      var i :| 0 <= i < |r.relays| && r.relays[i] == relay;
      assert relays[i] in relays;
      UnmarkedText(relays[i], text);
    }
    EncodesIffCarriable(r);
    if EncodeRef(r).Ok? {
      DecodeUndoesEncode(r, text);
    }
  }
}
