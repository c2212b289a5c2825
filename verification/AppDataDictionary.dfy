/**
 * The app data dictionary of a key package: length-prefixed byte strings
 * (section 2.1.2 of RFC 9420) and the scan for the last-resort component.
 */
module AppDataDictionary {
  import opened Base

  type Byte = x: int | 0 <= x < 256

  datatype Error = TooLarge | EndOfDictionary | EndOfLength | EndOfData | TrailingData

  const DICTIONARY_TYPE := 6

  const LAST_RESORT_ID := 4

  const MAX_LENGTH := 0x4000_0000

  // ---------------------------------------------------------------------
  // Length-prefixed byte strings
  // ---------------------------------------------------------------------

  /** The prefix of a length below 2^30: its two top bits say how many bytes it takes. */
  function Prefix(n: nat): (r: seq<Byte>)
    requires n < MAX_LENGTH
    ensures |r| == if n < 0x40 then 1 else if n < 0x4000 then 2 else 4
  {
    if n < 0x40 then [n]
    else if n < 0x4000 then [0x40 + n / 0x100, n % 0x100]
    else [0x80 + n / 0x100_0000, n / 0x1_0000 % 0x100, n / 0x100 % 0x100, n % 0x100]
  }

  function EncodeVarBytes(bytes: seq<Byte>): Result<seq<Byte>, Error> {
    if |bytes| < MAX_LENGTH then Ok(Prefix(|bytes|) + bytes) else Err(TooLarge)
  }

  function Power(e: nat): nat { if e == 0 then 1 else 2 * Power(e - 1) }

  /** How many bytes the prefix that starts with `first` takes: 1, 2, 4 or 8. */
  function PrefixSize(first: Byte): (r: nat)
    ensures r == if first < 0x40 then 1 else if first < 0x80 then 2 else if first < 0xc0 then 4 else 8
  {
    assert Power(0) == 1 && Power(1) == 2 && Power(2) == 4 && Power(3) == 8;
    Power(first / 0x40)
  }

  /** The low 32 bits of a number as a signed value. */
  function ToInt32(x: int): int { (x + 0x8000_0000) % 0x1_0000_0000 - 0x8000_0000 }

  /** Take in the bytes of a prefix one by one: shift by eight bits within 32, then put the byte in. */
  function Accumulate(length: int, bytes: seq<Byte>): int
    decreases bytes
  {
    if bytes == [] then length else Accumulate(ToInt32(length * 0x100) + bytes[0], bytes[1..])
  }

  function LengthAt(bytes: seq<Byte>, offset: nat): int
    requires offset < |bytes| && offset + PrefixSize(bytes[offset]) <= |bytes|
  {
    Accumulate(bytes[offset] % 0x40, bytes[offset + 1..offset + PrefixSize(bytes[offset])])
  }

  /** The host language's slice: a negative bound counts from the end, bounds are clipped. */
  function Slice(bytes: seq<Byte>, start: nat, end: int): seq<Byte> {
    var hi := if end < 0 then Max(|bytes| + end, 0) else Min(end, |bytes|);
    if start <= hi then bytes[start..hi] else []
  }

  function DecodeVarBytes(bytes: seq<Byte>, offset: nat): Result<(seq<Byte>, int), Error> {
    if offset >= |bytes| then Err(EndOfDictionary)
    else if offset + PrefixSize(bytes[offset]) > |bytes| then Err(EndOfLength)
    else
      var start := offset + PrefixSize(bytes[offset]);
      var end := start + LengthAt(bytes, offset);
      if end > |bytes| then Err(EndOfData) else Ok((Slice(bytes, start, end), end))
  }

  /** Read one length-prefixed string: its bytes and where the next thing starts. */
  method ReadVarBytes(bytes: seq<Byte>, offset: nat) returns (r: Result<(seq<Byte>, int), Error>)
    ensures r == DecodeVarBytes(bytes, offset)
  {
    if offset >= |bytes| {
      return Err(EndOfDictionary);
    }
    var firstByte := bytes[offset];
    var lengthFieldSize := PrefixSize(firstByte);
    if offset + lengthFieldSize > |bytes| {
      return Err(EndOfLength);
    }
    hide ToInt32;
    var length: int := firstByte % 0x40;
    var i := 1;
    while i < lengthFieldSize
      invariant 1 <= i <= lengthFieldSize
      invariant LengthAt(bytes, offset) == Accumulate(length, bytes[offset + i..offset + lengthFieldSize])
    {
      var left := bytes[offset + i..offset + lengthFieldSize];
      assert left[0] == bytes[offset + i] && left[1..] == bytes[offset + i + 1..offset + lengthFieldSize];
      length := ToInt32(length * 0x100) + bytes[offset + i];
      i := i + 1;
    }
    var start := offset + lengthFieldSize;
    var end := start + length;
    if end > |bytes| {
      return Err(EndOfData);
    }
    return Ok((Slice(bytes, start, end), end));
  }

  /** The prefix at `offset` takes one, two or four bytes. */
  predicate Narrow(bytes: seq<Byte>, offset: nat) { offset < |bytes| ==> bytes[offset] < 0xc0 }

  lemma AccumulateThree(length: int, a: Byte, b: Byte, c: Byte)
    requires 0 <= length < 0x40
    ensures Accumulate(length, [a]) == length * 0x100 + a
    ensures Accumulate(length, [a, b, c]) == length * 0x100_0000 + a * 0x1_0000 + b * 0x100 + c
  {
    assert [a][1..] == [] && [a, b, c][1..] == [b, c] && [b, c][1..] == [c] && [c][1..] == [];
    var one := length * 0x100 + a;
    assert ToInt32(length * 0x100) == length * 0x100;
    var two := one * 0x100 + b;
    assert ToInt32(one * 0x100) == one * 0x100;
    assert ToInt32(two * 0x100) == two * 0x100;
    assert Accumulate(two, [c]) == two * 0x100 + c;
    assert Accumulate(one, [b, c]) == Accumulate(two, [c]);
  }

  /** A narrow prefix names a length that is not negative and below 2^30. */
  lemma NarrowLength(bytes: seq<Byte>, offset: nat)
    requires offset < |bytes| && Narrow(bytes, offset) && offset + PrefixSize(bytes[offset]) <= |bytes|
    ensures 0 <= LengthAt(bytes, offset) < MAX_LENGTH
  {
    var first := bytes[offset];
    if first < 0x40 {
      assert bytes[offset + 1..offset + 1] == [];
    } else if first < 0x80 {
      assert bytes[offset + 1..offset + 2] == [bytes[offset + 1]];
      AccumulateThree(first % 0x40, bytes[offset + 1], 0, 0);
    } else {
      assert bytes[offset + 1..offset + 4] == [bytes[offset + 1], bytes[offset + 2], bytes[offset + 3]];
      AccumulateThree(first % 0x40, bytes[offset + 1], bytes[offset + 2], bytes[offset + 3]);
    }
  }

  /** Decoding after a narrow prefix strictly advances, and gives the bytes it passed over. */
  lemma NarrowAdvances(bytes: seq<Byte>, offset: nat)
    requires Narrow(bytes, offset) && DecodeVarBytes(bytes, offset).Ok?
    ensures var (data, next) := DecodeVarBytes(bytes, offset).value;
            && offset < next <= |bytes| && offset + PrefixSize(bytes[offset]) <= next
            && data == bytes[offset + PrefixSize(bytes[offset])..next]
  {
    NarrowLength(bytes, offset);
  }

  /** Shifting in one byte keeps the number within 32 signed bits and right up to a multiple of 2^32. */
  lemma ShiftIn(length: int, b: Byte) returns (wraps: int)
    ensures var next := ToInt32(length * 0x100) + b;
            -0x8000_0000 <= next < 0x8000_0000 && next == length * 0x100 + b + wraps * 0x1_0000_0000
  {
    wraps := -((length * 0x100 + 0x8000_0000) / 0x1_0000_0000);
    var shifted := ToInt32(length * 0x100);
    assert shifted == length * 0x100 + wraps * 0x1_0000_0000;
    assert shifted == 0x100 * (length + wraps * 0x100_0000);
  }

  lemma OnlySigned(x: int, y: int, wraps: int)
    requires -0x8000_0000 <= x < 0x8000_0000 && x == y + wraps * 0x1_0000_0000
    ensures x == ToInt32(y)
  {
    assert (x + 0x8000_0000) % 0x1_0000_0000 == (y + 0x8000_0000) % 0x1_0000_0000;
  }

  /** Whatever was shifted in before, four more bytes leave just these four, read as a signed number. */
  lemma LastFourCount(length: int, a: Byte, b: Byte, c: Byte, d: Byte)
    ensures Accumulate(length, [a, b, c, d]) == ToInt32(a * 0x100_0000 + b * 0x1_0000 + c * 0x100 + d)
  {
    var one: int := ToInt32(length * 0x100) + a;
    var two: int := ToInt32(one * 0x100) + b;
    var three: int := ToInt32(two * 0x100) + c;
    var four: int := ToInt32(three * 0x100) + d;
    var k := ShiftIn(length, a);
    var l := ShiftIn(one, b);
    var m := ShiftIn(two, c);
    var n := ShiftIn(three, d);
    assert [a, b, c, d][1..] == [b, c, d] && [b, c, d][1..] == [c, d] && [c, d][1..] == [d] && [d][1..] == [];
    assert Accumulate(length, [a, b, c, d]) == Accumulate(one, [b, c, d]) == Accumulate(two, [c, d]) == Accumulate(three, [d]) == four;
    hide ToInt32, Accumulate;
    OnlySigned(four, a * 0x100_0000 + b * 0x1_0000 + c * 0x100 + d, length + k * 0x100_0000 + l * 0x1_0000 + m * 0x100 + n);
  }

  /** The last four bytes of an eight-byte prefix, as a number. */
  function LowHalf(bytes: seq<Byte>, offset: nat): nat
    requires offset + 8 <= |bytes|
  {
    bytes[offset + 4] as int * 0x100_0000 + bytes[offset + 5] as int * 0x1_0000
    + bytes[offset + 6] as int * 0x100 + bytes[offset + 7] as int
  }

  /** An eight-byte prefix names the signed value of its low 32 bits; the others are lost. */
  lemma WideLength(bytes: seq<Byte>, offset: nat)
    requires offset + 8 <= |bytes| && bytes[offset] >= 0xc0
    ensures LengthAt(bytes, offset) == ToInt32(LowHalf(bytes, offset))
  {
    var high, low := bytes[offset + 1..offset + 4], bytes[offset + 4..offset + 8];
    assert bytes[offset + 1..offset + 8] == high + low;
    assert low == [bytes[offset + 4], bytes[offset + 5], bytes[offset + 6], bytes[offset + 7]];
    AccumulateAppend(bytes[offset] % 0x40, high, low);
    LastFourCount(Accumulate(bytes[offset] % 0x40, high), low[0], low[1], low[2], low[3]);
    hide Accumulate, ToInt32;
  }

  lemma {:induction false} AccumulateAppend(length: int, a: seq<Byte>, b: seq<Byte>)
    ensures Accumulate(length, a + b) == Accumulate(Accumulate(length, a), b)
    decreases a
  {
    hide ToInt32;
    if a == [] {
      assert a + b == b;
    } else {
      assert (a + b)[0] == a[0] && (a + b)[1..] == a[1..] + b;
      AccumulateAppend(ToInt32(length * 0x100) + a[0], a[1..], b);
    }
  }

  /** After an eight-byte prefix, decoding advances exactly when its low 32 bits are below 2^31 or among the seven greatest. */
  lemma WideAdvancesIff(bytes: seq<Byte>, offset: nat)
    requires offset < |bytes| && !Narrow(bytes, offset) && DecodeVarBytes(bytes, offset).Ok?
    ensures offset + 8 <= |bytes|
    ensures DecodeVarBytes(bytes, offset).value.1 > offset
       <==> LowHalf(bytes, offset) < 0x8000_0000 || LowHalf(bytes, offset) > 0xffff_fff8
  {
    WideLength(bytes, offset);
    hide LengthAt;
  }

  /** A number below 2^30 from its four bytes. */
  lemma FourBytes(n: nat)
    requires n < MAX_LENGTH
    ensures n == n / 0x100_0000 * 0x100_0000 + n / 0x1_0000 % 0x100 * 0x1_0000 + n / 0x100 % 0x100 * 0x100 + n % 0x100
    ensures n / 0x100_0000 < 0x40
  {
    assert n / 0x100 / 0x100 == n / 0x1_0000 && n / 0x1_0000 / 0x100 == n / 0x100_0000;
  }

  lemma ShortPrefix(n: nat)
    requires n < 0x4000
    ensures PrefixSize(Prefix(n)[0]) == |Prefix(n)| && Prefix(n)[0] < 0xc0
    ensures Accumulate(Prefix(n)[0] % 0x40, Prefix(n)[1..]) == n
  {
    if n >= 0x40 {
      assert Prefix(n)[1..] == [n % 0x100];
      AccumulateThree(n / 0x100, n % 0x100, 0, 0);
    }
  }

  lemma LongPrefix(n: nat)
    requires 0x4000 <= n < MAX_LENGTH
    ensures PrefixSize(Prefix(n)[0]) == |Prefix(n)| && Prefix(n)[0] < 0xc0
    ensures Accumulate(Prefix(n)[0] % 0x40, Prefix(n)[1..]) == n
  {
    FourBytes(n);
    var a: Byte, b: Byte, c: Byte, d: Byte := n / 0x100_0000, n / 0x1_0000 % 0x100, n / 0x100 % 0x100, n % 0x100;
    assert Prefix(n)[1..] == [b, c, d];
    hide Accumulate;
    AccumulateThree(a, b, c, d);
  }

  lemma PrefixNamesLength(n: nat)
    requires n < MAX_LENGTH
    ensures PrefixSize(Prefix(n)[0]) == |Prefix(n)| && Prefix(n)[0] < 0xc0
    ensures Accumulate(Prefix(n)[0] % 0x40, Prefix(n)[1..]) == n
  {
    hide Prefix, Accumulate;
    if n < 0x4000 {
      ShortPrefix(n);
    } else {
      LongPrefix(n);
    }
  }

  /** What was encoded is read back, wherever it stands and whatever follows it. */
  lemma DecodeUndoesEncode(before: seq<Byte>, bytes: seq<Byte>, after: seq<Byte>)
    requires EncodeVarBytes(bytes).Ok?
    ensures var encoded := EncodeVarBytes(bytes).value;
            DecodeVarBytes(before + encoded + after, |before|) == Ok((bytes, |before| + |encoded|))
  {
    var n, p := |bytes|, Prefix(|bytes|);
    PrefixNamesLength(n);
    var all, at := before + (p + bytes) + after, |before|;
    assert all[at] == p[0];
    assert all[at + 1..at + |p|] == p[1..];
    assert LengthAt(all, at) == n;
    assert all[at + |p|..at + |p| + n] == bytes;
  }

  // ---------------------------------------------------------------------
  // The dictionary
  // ---------------------------------------------------------------------

  datatype Component = Component(id: nat, data: seq<Byte>)

  function EncodeUint16(value: nat): seq<Byte>
    requires value < 0x1_0000
  {
    [value / 0x100, value % 0x100]
  }

  function DecodeUint16(bytes: seq<Byte>, offset: nat): Result<nat, Error> {
    if offset + 2 > |bytes| then Err(EndOfDictionary) else Ok(bytes[offset] as int * 0x100 + bytes[offset + 1] as int)
  }

  predicate Encodable(c: Component) { c.id < 0x1_0000 && EncodeVarBytes(c.data).Ok? }

  function EncodeComponent(c: Component): seq<Byte>
    requires Encodable(c)
  {
    EncodeUint16(c.id) + EncodeVarBytes(c.data).value
  }

  function EncodeAll(components: seq<Component>): seq<Byte>
    requires forall c | c in components :: Encodable(c)
  {
    if components == [] then [] else EncodeComponent(components[0]) + EncodeAll(components[1..])
  }

  predicate IsMarker(c: Component) { c.id == LAST_RESORT_ID && c.data == [] }

  /** Every turn of the scan from `offset` on, up to its end, moves the offset on. */
  predicate ScansAhead(dictionary: seq<Byte>, offset: nat)
    decreases |dictionary| - offset
  {
    offset < |dictionary| && DecodeUint16(dictionary, offset).Ok? && DecodeVarBytes(dictionary, offset + 2).Ok? ==>
      var (data, next) := DecodeVarBytes(dictionary, offset + 2).value;
      || IsMarker(Component(DecodeUint16(dictionary, offset).value, data))
      || (next > offset && ScansAhead(dictionary, next))
  }

  /** A turn after a narrow prefix does so; after an eight-byte prefix see `WideAdvancesIff`. */
  lemma NarrowTurnsAdvance(dictionary: seq<Byte>, offset: nat)
    requires Narrow(dictionary, offset + 2)
    requires var d := DecodeVarBytes(dictionary, offset + 2); d.Ok? ==> d.value.1 >= 0 && ScansAhead(dictionary, d.value.1)
    ensures ScansAhead(dictionary, offset)
  {
    hide DecodeVarBytes;
    if DecodeVarBytes(dictionary, offset + 2).Ok? {
      NarrowAdvances(dictionary, offset + 2);
    }
  }

  /** Whether the dictionary holds the marker, from `offset` on; the scan stops at the first one. */
  function Scan(dictionary: seq<Byte>, offset: nat): Result<bool, Error>
    requires ScansAhead(dictionary, offset)
    decreases |dictionary| - offset
  {
    if offset >= |dictionary| then Ok(false)
    else
      match DecodeUint16(dictionary, offset)
      case Err(e) => Err(e)
      case Ok(id) =>
        match DecodeVarBytes(dictionary, offset + 2)
        case Err(e) => Err(e)
        case Ok((data, next)) =>
          if IsMarker(Component(id, data)) then Ok(true) else Scan(dictionary, next)
  }

  /** The scan ends where every turn of it moves the offset on. */
  method ScanForMarker(dictionary: seq<Byte>) returns (found: Result<bool, Error>)
    requires ScansAhead(dictionary, 0)
    ensures found == Scan(dictionary, 0)
  {
    var offset: nat := 0;
    while offset < |dictionary|
      invariant ScansAhead(dictionary, offset) && Scan(dictionary, 0) == Scan(dictionary, offset)
      decreases |dictionary| - offset
    {
      if offset + 2 > |dictionary| {
        return Err(EndOfDictionary);
      }
      var componentId := dictionary[offset] as int * 0x100 + dictionary[offset + 1] as int;
      var component := ReadVarBytes(dictionary, offset + 2);
      if component.Err? {
        return Err(component.error);
      }
      var (componentData, nextOffset) := component.value;
      if componentId == LAST_RESORT_ID && |componentData| == 0 {
        return Ok(true);
      }
      offset := nextOffset;
    }
    return Ok(false);
  }

  /** The scan of an encoded dictionary always moves on, and finds the marker exactly when it is there. */
  lemma {:induction false} ScanFindsMarker(before: seq<Byte>, components: seq<Component>)
    requires forall c | c in components :: Encodable(c)
    ensures var all := before + EncodeAll(components);
            ScansAhead(all, |before|) && Scan(all, |before|) == Ok(exists c :: c in components && IsMarker(c))
    decreases components
  {
    hide EncodeComponent, DecodeVarBytes, DecodeUint16, Narrow, ScansAhead, Scan, IsMarker;
    if components == [] {
      ScanEnds(before);
      assert before + [] == before;
    } else {
      var c, rest := components[0], components[1..];
      FirstOrRest(components);
      var head, tail := EncodeComponent(c), EncodeAll(rest);
      Regroup(before, head, tail);
      OneComponent(before, c, tail);
      ScanFindsMarker(before + head, rest);
      hide EncodeAll;
      ScanStep(before + head + tail, |before|, c, |before| + |head|);
    }
  }

  lemma ScanEnds(all: seq<Byte>)
    ensures ScansAhead(all, |all|) && Scan(all, |all|) == Ok(false)
  {
  }

  lemma FirstOrRest(components: seq<Component>)
    requires components != []
    ensures components[0] in components
    ensures (exists c :: c in components && IsMarker(c)) <==>
              IsMarker(components[0]) || exists c :: c in components[1..] && IsMarker(c)
  {
    assert forall c :: c in components <==> c == components[0] || c in components[1..];
  }

  lemma Regroup(a: seq<Byte>, b: seq<Byte>, c: seq<Byte>)
    ensures a + (b + c) == a + b + c == (a + b) + c
  {
  }

  /** One turn of the scan. */
  lemma ScanStep(all: seq<Byte>, at: nat, c: Component, next: nat)
    requires at + 2 < |all| && Narrow(all, at + 2) && at < next && ScansAhead(all, next)
    requires DecodeUint16(all, at) == Ok(c.id) && DecodeVarBytes(all, at + 2) == Ok((c.data, next))
    ensures ScansAhead(all, at) && Scan(all, at) == if IsMarker(c) then Ok(true) else Scan(all, next)
  {
  }

  /** One encoded component, wherever it stands. */
  lemma OneComponent(before: seq<Byte>, c: Component, after: seq<Byte>)
    requires Encodable(c)
    ensures var all, at := before + EncodeComponent(c) + after, |before|;
            && at + 2 < |all| && Narrow(all, at + 2)
            && DecodeUint16(all, at) == Ok(c.id)
            && DecodeVarBytes(all, at + 2) == Ok((c.data, at + |EncodeComponent(c)|))
            && |EncodeComponent(c)| > 2
  {
    var id, data := EncodeUint16(c.id), EncodeVarBytes(c.data).value;
    var all, at := before + EncodeComponent(c) + after, |before|;
    assert all == (before + id) + data + after;
    DecodeUndoesEncode(before + id, c.data, after);
    PrefixNamesLength(|c.data|);
    assert all[at] == id[0] && all[at + 1] == id[1] && all[at + 2] == data[0];
  }

  // ---------------------------------------------------------------------
  // Extensions
  // ---------------------------------------------------------------------

  datatype Extension = Extension(kind: nat, data: seq<Byte>)

  /** The dictionary inside can be scanned. */
  predicate Readable(e: Extension) {
    e.kind == DICTIONARY_TYPE && DecodeVarBytes(e.data, 0).Ok? && DecodeVarBytes(e.data, 0).value.1 == |e.data| ==>
      ScansAhead(DecodeVarBytes(e.data, 0).value.0, 0)
  }

  function IsLastResort(e: Extension): Result<bool, Error>
    requires Readable(e)
  {
    if e.kind != DICTIONARY_TYPE then Ok(false)
    else
      match DecodeVarBytes(e.data, 0)
      case Err(error) => Err(error)
      case Ok((dictionary, end)) => if end != |e.data| then Err(TrailingData) else Scan(dictionary, 0)
  }

  /**
   * For every dictionary that can be encoded, the extension built from it counts
   * as last-resort exactly when the dictionary holds the marker.
   */
  lemma EncodedDictionaryIsLastResortIff(components: seq<Component>)
    requires (forall c | c in components :: Encodable(c)) && EncodeVarBytes(EncodeAll(components)).Ok?
    ensures var e := Extension(DICTIONARY_TYPE, EncodeVarBytes(EncodeAll(components)).value);
            Readable(e) && IsLastResort(e) == Ok(exists c :: c in components && IsMarker(c))
    ensures var e := Extension(6, EncodeVarBytes(EncodeAll(components)).value);
            IsLastResort(e) == Ok(true) <==> exists c :: c in components && c.id == 4 && c.data == []
  {
    MarkerIs(components);
    hide ScansAhead, Scan, EncodeAll, IsMarker, DecodeVarBytes;
    var dictionary := EncodeAll(components);
    var e := Extension(DICTIONARY_TYPE, EncodeVarBytes(dictionary).value);
    DecodeUndoesEncode([], dictionary, []);
    assert [] + e.data + [] == e.data && [] + dictionary == dictionary;
    PrefixNamesLength(|dictionary|);
    ScanFindsMarker([], components);
  }

  lemma MarkerIs(components: seq<Component>)
    ensures (exists c :: c in components && IsMarker(c)) <==> exists c :: c in components && c.id == 4 && c.data == []
  {
    if c :| c in components && c.id == 4 && c.data == [] {
      assert IsMarker(c);
    }
  }

  /** Bytes after the dictionary make the extension unreadable, and no other kind of extension is looked into. */
  lemma TrailingBytesFail(components: seq<Component>, extra: seq<Byte>, kind: nat)
    requires (forall c | c in components :: Encodable(c)) && EncodeVarBytes(EncodeAll(components)).Ok?
    ensures var data := EncodeVarBytes(EncodeAll(components)).value + extra;
            && (extra != [] ==> Readable(Extension(6, data)) && IsLastResort(Extension(6, data)) == Err(TrailingData))
            && (kind != 6 ==> Readable(Extension(kind, data)) && IsLastResort(Extension(kind, data)) == Ok(false))
  {
    hide ScansAhead, Scan, EncodeAll, DecodeVarBytes, EncodeVarBytes;
    var dictionary := EncodeAll(components);
    var encoded := EncodeVarBytes(dictionary).value;
    DecodeUndoesEncode([], dictionary, extra);
    assert [] + encoded + extra == encoded + extra;
  }

  /** Data is carried exactly up to a length of two to the thirtieth, less one. */
  lemma EncodesIffShort(bytes: seq<Byte>)
    ensures EncodeVarBytes(bytes).Ok? <==> |bytes| < 1024 * 1024 * 1024
  {
  }

  const MARKER := Component(LAST_RESORT_ID, [])

  /** The extension a last-resort key package carries. */
  function MarkerExtension(): Extension {
    Extension(DICTIONARY_TYPE, Prefix(3) + (EncodeUint16(LAST_RESORT_ID) + Prefix(0)))
  }

  /** Whether some extension says so; one that cannot be read before that throws. */
  function SomeLastResort(extensions: seq<Extension>): Result<bool, Error>
    requires forall e | e in extensions :: Readable(e)
  {
    if extensions == [] then Ok(false)
    else
      match IsLastResort(extensions[0])
      case Ok(false) => SomeLastResort(extensions[1..])
      case other => other
  }

  function EnsureLastResort(extensions: seq<Extension>): Result<seq<Extension>, Error>
    requires forall e | e in extensions :: Readable(e)
  {
    match SomeLastResort(extensions)
    case Err(error) => Err(error)
    case Ok(true) => Ok(extensions)
    case Ok(false) => Ok(extensions + [MarkerExtension()])
  }

  lemma MarkerIsLastResort()
    ensures Readable(MarkerExtension()) && IsLastResort(MarkerExtension()) == Ok(true)
  {
    var e := EncodeComponent(MARKER);
    assert EncodeAll([MARKER]) == e + [] == e == EncodeUint16(LAST_RESORT_ID) + Prefix(0);
    EncodedDictionaryIsLastResortIff([MARKER]);
    assert MARKER in [MARKER];
  }

  lemma {:induction false} AppendMarker(extensions: seq<Extension>)
    requires (forall e | e in extensions :: Readable(e)) && SomeLastResort(extensions) == Ok(false)
    ensures forall e | e in extensions + [MarkerExtension()] :: Readable(e)
    ensures SomeLastResort(extensions + [MarkerExtension()]) == Ok(true)
  {
    MarkerIsLastResort();
    if extensions != [] {
      AppendMarker(extensions[1..]);
      assert (extensions + [MarkerExtension()])[1..] == extensions[1..] + [MarkerExtension()];
    }
  }

  /** Ensuring the marker makes the key package last-resort, keeps every extension it had, and does nothing the second time. */
  lemma EnsuringIsIdempotent(extensions: seq<Extension>)
    requires (forall e | e in extensions :: Readable(e)) && EnsureLastResort(extensions).Ok?
    ensures var after := EnsureLastResort(extensions).value;
            && extensions <= after
            && (forall e | e in after :: Readable(e))
            && SomeLastResort(after) == Ok(true)
            && EnsureLastResort(after) == Ok(after)
  {
    if SomeLastResort(extensions) == Ok(false) {
      AppendMarker(extensions);
    }
  }
}
