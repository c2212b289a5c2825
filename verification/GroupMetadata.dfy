/**
 * The group metadata extension: a version and five length-prefixed fields, the
 * third of them a list of 32-byte admin keys. Text fields are UTF-8 bytes; keys
 * are the strings a user types.
 */
module GroupMetadata {
  import opened Base
  import opened ByteText

  datatype Error = OutOfRange | EndOfNumber | EndOfField | BadVersion | Trailing | BadAdminLength | BadKey | DuplicateKeys | NotText

  /** Metadata as callers hand it over and get it back. */
  datatype Metadata = Metadata(
    name: Bytes, description: Option<Bytes>, admins: Option<seq<string>>, icon: Option<Bytes>, imageUrl: Option<Bytes>)

  // ---------------------------------------------------------------------
  // Keys
  // ---------------------------------------------------------------------

  predicate IsHex(c: char) { '0' <= c <= '9' || 'a' <= c <= 'f' || 'A' <= c <= 'F' }

  function LowerChar(c: char): char { if 'A' <= c <= 'Z' then c - 'A' + 'a' else c }

  function Lower(s: string): (r: string)
    ensures |r| == |s|
  {
    if s == [] then [] else [LowerChar(s[0])] + Lower(s[1..])
  }

  predicate IsKey(s: string) { |s| == 64 && forall c | c in s :: IsHex(c) }

  /** White space and line terminators, as the host language's `trim` takes them away. */
  predicate IsSpace(c: char) {
    || '\U{0009}' <= c <= '\U{000D}' || c == ' ' || c == '\U{00A0}' || c == '\U{1680}'
    || '\U{2000}' <= c <= '\U{200A}' || c == '\U{2028}' || c == '\U{2029}' || c == '\U{202F}'
    || c == '\U{205F}' || c == '\U{3000}' || c == '\U{FEFF}'
  }

  function TrimStart(s: string): string { if s != [] && IsSpace(s[0]) then TrimStart(s[1..]) else s }

  function TrimEnd(s: string): string {
    if s != [] && IsSpace(s[|s| - 1]) then TrimEnd(s[..|s| - 1]) else s
  }

  function Trim(s: string): string { TrimEnd(TrimStart(s)) }

  /** The keys trimmed, blank ones dropped. */
  function Trimmed(keys: seq<string>): seq<string> {
    if keys == [] then []
    else (if Trim(keys[0]) == [] then [] else [Trim(keys[0])]) + Trimmed(keys[1..])
  }

  predicate Distinct(keys: seq<string>) {
    keys == [] || (keys[0] !in keys[1..] && Distinct(keys[1..]))
  }

  function LowerAll(keys: seq<string>): (r: seq<string>)
    ensures |r| == |keys|
  {
    if keys == [] then [] else [Lower(keys[0])] + LowerAll(keys[1..])
  }

  /** Duplicates are looked for before the keys are lower-cased. */
  function NormalizeKeys(keys: seq<string>): Result<seq<string>, Error> {
    var trimmed := Trimmed(keys);
    if !Distinct(trimmed) then Err(DuplicateKeys)
    else if exists k :: k in trimmed && !IsKey(k) then Err(BadKey)
    else Ok(LowerAll(trimmed))
  }

  function HexValue(c: char): (r: nat)
    requires IsHex(c)
    ensures r < 16
  {
    if c <= '9' then (c - '0') as nat
    else if c <= 'F' then (c - 'A') as nat + 10
    else (c - 'a') as nat + 10
  }

  function HexDigit(v: nat): (r: char)
    requires v < 16
    ensures IsHex(r) && LowerChar(r) == r && HexValue(r) == v
  {
    if v < 10 then '0' + v as char else 'a' + (v - 10) as char
  }

  function HexToBytes(s: string): (r: Bytes)
    requires |s| % 2 == 0 && forall c | c in s :: IsHex(c)
    ensures |r| == |s| / 2
  {
    if s == [] then [] else [HexValue(s[0]) * 16 + HexValue(s[1])] + HexToBytes(s[2..])
  }

  function BytesToHex(bytes: Bytes): (r: string)
    ensures |r| == 2 * |bytes| && forall c | c in r :: IsHex(c)
  {
    if bytes == [] then []
    else [HexDigit(bytes[0] / 16), HexDigit(bytes[0] % 16)] + BytesToHex(bytes[1..])
  }

  // ---------------------------------------------------------------------
  // Fields
  // ---------------------------------------------------------------------

  function EncodeUint16(value: nat): Result<Bytes, Error> {
    if value > 0xffff then Err(OutOfRange) else Ok([value / 0x100, value % 0x100])
  }

  function DecodeUint16(bytes: Bytes, offset: nat): Result<nat, Error> {
    if offset + 2 > |bytes| then Err(EndOfNumber) else Ok(bytes[offset] as int * 0x100 + bytes[offset + 1] as int)
  }

  function EncodeField(bytes: Bytes): Result<Bytes, Error> {
    match EncodeUint16(|bytes|)
    case Ok(prefix) => Ok(prefix + bytes)
    case Err(error) => Err(error)
  }

  function DecodeField(bytes: Bytes, offset: nat): Result<(Bytes, nat), Error> {
    match DecodeUint16(bytes, offset)
    case Err(error) => Err(error)
    case Ok(length) =>
      var end := offset + 2 + length;
      if end > |bytes| then Err(EndOfField) else Ok((bytes[offset + 2..end], end))
  }

  function EncodeFields(fields: seq<Bytes>): Result<Bytes, Error> {
    if fields == [] then Ok([])
    else
      match EncodeField(fields[0])
      case Err(error) => Err(error)
      case Ok(head) =>
        match EncodeFields(fields[1..])
        case Err(error) => Err(error)
        case Ok(tail) => Ok(head + tail)
  }

  /** `count` fields from `offset` on, and where they end. */
  function DecodeFields(bytes: Bytes, offset: nat, count: nat): Result<(seq<Bytes>, nat), Error>
    decreases count
  {
    if count == 0 then Ok(([], offset))
    else
      match DecodeField(bytes, offset)
      case Err(error) => Err(error)
      case Ok((field, next)) =>
        match DecodeFields(bytes, next, count - 1)
        case Err(error) => Err(error)
        case Ok((rest, end)) => Ok(([field] + rest, end))
  }

  lemma {:induction false} FieldsFitIff(fields: seq<Bytes>)
    ensures EncodeFields(fields).Ok? <==> forall f | f in fields :: |f| <= 0xffff
  {
    if fields != [] {
      FieldsFitIff(fields[1..]);
      assert forall f :: f in fields <==> f == fields[0] || f in fields[1..];
    }
  }

  lemma DecodeUndoesField(before: Bytes, field: Bytes, after: Bytes)
    requires |field| <= 0xffff
    ensures DecodeField((before + EncodeField(field).value) + after, |before|)
         == Ok((field, |before| + |EncodeField(field).value|))
  {
    var all, at, n := (before + EncodeField(field).value) + after, |before|, |field|;
    assert all[at] == n / 0x100 && all[at + 1] == n % 0x100;
    assert all[at + 2..at + 2 + n] == field;
  }

  /** Fields read back as they were written, wherever they stand. */
  lemma {:induction false} DecodeUndoesFields(before: Bytes, fields: seq<Bytes>)
    requires EncodeFields(fields).Ok?
    ensures var all := before + EncodeFields(fields).value;
            DecodeFields(all, |before|, |fields|) == Ok((fields, |all|))
    decreases fields
  {
    hide EncodeFields, EncodeField, DecodeField, DecodeFields;
    if fields == [] {
      NoFields(before);
    } else {
      EncodeHead(fields);
      var head, tail := EncodeField(fields[0]).value, EncodeFields(fields[1..]).value;
      Regroup(before, head, tail);
      DecodeUndoesField(before, fields[0], tail);
      DecodeUndoesFields(before + head, fields[1..]);
      DecodeHead((before + head) + tail, |before|, fields, |before| + |head|);
    }
  }

  lemma NoFields(before: Bytes)
    ensures EncodeFields([]) == Ok([]) && before + [] == before && DecodeFields(before, |before|, 0) == Ok(([], |before|))
  {
  }

  lemma Regroup(a: Bytes, b: Bytes, c: Bytes)
    ensures a + (b + c) == (a + b) + c
  {
  }

  lemma DecodeHead(all: Bytes, at: nat, fields: seq<Bytes>, next: nat)
    requires fields != [] && DecodeField(all, at) == Ok((fields[0], next))
    requires DecodeFields(all, next, |fields[1..]|) == Ok((fields[1..], |all|))
    ensures DecodeFields(all, at, |fields|) == Ok((fields, |all|))
  {
    assert [fields[0]] + fields[1..] == fields;
  }

  lemma EncodeHead(fields: seq<Bytes>)
    requires fields != [] && EncodeFields(fields).Ok?
    ensures EncodeField(fields[0]).Ok? && EncodeFields(fields[1..]).Ok? && |fields[0]| <= 0xffff
    ensures EncodeFields(fields).value == EncodeField(fields[0]).value + EncodeFields(fields[1..]).value
  {
  }

  // ---------------------------------------------------------------------
  // Metadata
  // ---------------------------------------------------------------------

  function EncodeKeys(keys: seq<string>): Bytes
    requires forall k | k in keys :: IsKey(k)
  {
    if keys == [] then []
    else
      assert IsKey(keys[0]);
      HexToBytes(keys[0]) + EncodeKeys(keys[1..])
  }

  /** The 32-byte stretches of `bytes`, as lower-case hex. */
  function KeysIn(bytes: Bytes): seq<string> {
    if |bytes| < 32 then [] else [BytesToHex(bytes[..32])] + KeysIn(bytes[32..])
  }

  function DecodeKeys(bytes: Bytes): Result<seq<string>, Error> {
    if |bytes| % 32 != 0 then Err(BadAdminLength) else NormalizeKeys(KeysIn(bytes))
  }

  /** Cut the field into 32-byte keys, one after the other. */
  method DecodeAdminPubkeys(bytes: Bytes) returns (keys: Result<seq<string>, Error>)
    ensures keys == DecodeKeys(bytes)
  {
    if |bytes| % 32 != 0 {
      return Err(BadAdminLength);
    }
    hide BytesToHex;
    var values: seq<string> := [];
    var rest := bytes;
    assert values + KeysIn(rest) == KeysIn(rest);
    while |rest| > 0
      invariant |rest| % 32 == 0 && KeysIn(bytes) == values + KeysIn(rest)
      decreases |rest|
    {
      var key := BytesToHex(rest[..32]);
      assert values + ([key] + KeysIn(rest[32..])) == (values + [key]) + KeysIn(rest[32..]);
      values := values + [key];
      rest := rest[32..];
    }
    assert values + [] == values;
    return NormalizeKeys(values);
  }

  function OrEmpty(field: Option<Bytes>): Bytes { if field.Some? then field.value else [] }

  function UnlessEmpty(field: Bytes): Option<Bytes> { if field == [] then None else Some(field) }

  function KeysOf(m: Metadata): seq<string> { if m.admins.Some? then m.admins.value else [] }

  function FieldsOf(m: Metadata, keys: seq<string>): seq<Bytes>
    requires forall k | k in keys :: IsKey(k)
  {
    [m.name, OrEmpty(m.description), EncodeKeys(keys), OrEmpty(m.icon), OrEmpty(m.imageUrl)]
  }

  function Encode(m: Metadata): Result<Bytes, Error> {
    match NormalizeKeys(KeysOf(m))
    case Err(error) => Err(error)
    case Ok(keys) =>
      NormalizedAreKeys(KeysOf(m));
      match EncodeFields(FieldsOf(m, keys))
      case Err(error) => Err(error)
      case Ok(body) => Ok([0, 1] + body)
  }

  /** The metadata in these bytes; `text` tells which bytes are UTF-8. */
  function Decode(bytes: Bytes, text: Bytes -> bool): Result<Metadata, Error> {
    match DecodeUint16(bytes, 0)
    case Err(error) => Err(error)
    case Ok(version) =>
      if version != 1 then Err(BadVersion)
      else
        match DecodeFields(bytes, 2, 5)
        case Err(error) => Err(error)
        case Ok((fields, end)) =>
          FieldCount(bytes, 2, 5);
          if end != |bytes| then Err(Trailing)
          else
            match DecodeKeys(fields[2])
            case Err(error) => Err(error)
            case Ok(keys) =>
              if !text(fields[0]) || !text(fields[1]) || !text(fields[3]) || !text(fields[4]) then Err(NotText)
              else
                Ok(Metadata(Unmarked(fields[0]), UnlessEmpty(Unmarked(fields[1])),
                            if keys == [] then None else Some(keys),
                            UnlessEmpty(Unmarked(fields[3])), UnlessEmpty(Unmarked(fields[4]))))
  }

  lemma {:induction false} FieldCount(bytes: Bytes, offset: nat, count: nat)
    requires DecodeFields(bytes, offset, count).Ok?
    ensures |DecodeFields(bytes, offset, count).value.0| == count
    decreases count
  {
    if count > 0 {
      FieldCount(bytes, DecodeField(bytes, offset).value.1, count - 1);
    }
  }

  // ---------------------------------------------------------------------
  // Keys round-trip to lower case
  // ---------------------------------------------------------------------

  lemma {:induction false} LowerIsHex(s: string)
    requires forall c | c in s :: IsHex(c)
    ensures forall c | c in Lower(s) :: IsHex(c) && LowerChar(c) == c
    ensures Lower(Lower(s)) == Lower(s)
  {
    if s != [] {
      assert s[0] in s;
      LowerIsHex(s[1..]);
      assert Lower(s)[1..] == Lower(s[1..]);
    }
  }

  lemma {:induction false} LowerAllAreKeys(keys: seq<string>)
    requires forall k | k in keys :: IsKey(k)
    ensures forall k | k in LowerAll(keys) :: IsKey(k) && Lower(k) == k
  {
    if keys != [] {
      assert keys[0] in keys;
      LowerAllAreKeys(keys[1..]);
      LowerIsHex(keys[0]);
    }
  }

  lemma NormalizedAreKeys(keys: seq<string>)
    requires NormalizeKeys(keys).Ok?
    ensures forall k | k in NormalizeKeys(keys).value :: IsKey(k) && Lower(k) == k
  {
    LowerAllAreKeys(Trimmed(keys));
  }

  lemma {:induction false} HexRoundTrip(s: string)
    requires |s| % 2 == 0 && forall c | c in s :: IsHex(c)
    ensures BytesToHex(HexToBytes(s)) == Lower(s)
  {
    if s != [] {
      assert s[0] in s && s[1] in s;
      HexRoundTrip(s[2..]);
      HexOfTwo(s);
      LowerOfTwo(s);
      hide HexToBytes, BytesToHex, Lower, HexValue, HexDigit, LowerChar;
    }
  }

  lemma HexOfTwo(s: string)
    requires s != [] && |s| % 2 == 0 && forall c | c in s :: IsHex(c)
    ensures BytesToHex(HexToBytes(s)) == [LowerChar(s[0]), LowerChar(s[1])] + BytesToHex(HexToBytes(s[2..]))
  {
    assert s[0] in s && s[1] in s;
    ByteOfDigits(s[0], s[1]);
    HexHead(s);
    hide HexToBytes, BytesToHex, HexValue, HexDigit, LowerChar, IsHex;
    BytesHead(HexValue(s[0]) * 16 + HexValue(s[1]), HexToBytes(s[2..]));
  }

  lemma HexHead(s: string)
    requires s != [] && |s| % 2 == 0 && forall c | c in s :: IsHex(c)
    ensures s[0] in s && s[1] in s
    ensures HexToBytes(s) == [HexValue(s[0]) * 16 + HexValue(s[1])] + HexToBytes(s[2..])
  {
    hide HexValue;
  }

  lemma BytesHead(b: Byte, rest: Bytes)
    ensures BytesToHex([b] + rest) == [HexDigit(b / 16), HexDigit(b % 16)] + BytesToHex(rest)
  {
    hide HexDigit;
    assert ([b] + rest)[1..] == rest;
  }

  lemma LowerHead(s: string)
    requires s != []
    ensures Lower(s) == [LowerChar(s[0])] + Lower(s[1..])
  {
  }

  lemma LowerOfTwo(s: string)
    requires |s| >= 2
    ensures Lower(s) == [LowerChar(s[0]), LowerChar(s[1])] + Lower(s[2..])
  {
    var t := s[1..];
    assert t[0] == s[1] && t[1..] == s[2..];
    LowerHead(s);
    LowerHead(t);
    hide Lower;
  }

  lemma ByteOfDigits(a: char, b: char)
    requires IsHex(a) && IsHex(b)
    ensures var v := HexValue(a) * 16 + HexValue(b);
            HexDigit(v / 16) == LowerChar(a) && HexDigit(v % 16) == LowerChar(b)
  {
    assert (HexValue(a) * 16 + HexValue(b)) / 16 == HexValue(a);
  }

  lemma {:induction false} KeysRoundTrip(keys: seq<string>)
    requires forall k | k in keys :: IsKey(k) && Lower(k) == k
    ensures KeysIn(EncodeKeys(keys)) == keys && |EncodeKeys(keys)| == 32 * |keys|
  {
    if keys != [] {
      assert keys[0] in keys;
      KeysRoundTrip(keys[1..]);
      HexRoundTrip(keys[0]);
      var head, tail := HexToBytes(keys[0]), EncodeKeys(keys[1..]);
      assert (head + tail)[..32] == head && (head + tail)[32..] == tail;
    }
  }

  lemma TrimOfKey(k: string)
    requires IsKey(k)
    ensures Trim(k) == k
  {
    assert k[0] in k && k[|k| - 1] in k;
  }

  lemma {:induction false} TrimmedKeys(keys: seq<string>)
    requires forall k | k in keys :: IsKey(k)
    ensures Trimmed(keys) == keys
  {
    if keys != [] {
      TrimOfKey(keys[0]);
      TrimmedKeys(keys[1..]);
    }
  }

  lemma {:induction false} LowerAllFixed(keys: seq<string>)
    requires forall k | k in keys :: Lower(k) == k
    ensures LowerAll(keys) == keys
  {
    if keys != [] {
      LowerAllFixed(keys[1..]);
    }
  }

  /** Normal keys are normal again exactly as long as no two of them are equal. */
  lemma NormalizeNormal(keys: seq<string>)
    requires forall k | k in keys :: IsKey(k) && Lower(k) == k
    ensures NormalizeKeys(keys) == if Distinct(keys) then Ok(keys) else Err(DuplicateKeys)
  {
    TrimmedKeys(keys);
    LowerAllFixed(keys);
  }

  // ---------------------------------------------------------------------
  // Metadata round-trips
  // ---------------------------------------------------------------------

  /** Empty optional fields are absent, keys are trimmed, lower-case and not blank. */
  function NormalForm(m: Metadata): Metadata
    requires NormalizeKeys(KeysOf(m)).Ok?
  {
    var keys := NormalizeKeys(KeysOf(m)).value;
    Metadata(m.name, UnlessEmpty(OrEmpty(m.description)), if keys == [] then None else Some(keys),
             UnlessEmpty(OrEmpty(m.icon)), UnlessEmpty(OrEmpty(m.imageUrl)))
  }

  /** The metadata without the byte-order marks its texts begin with. */
  function WithoutMarks(m: Metadata): Metadata {
    Metadata(Unmarked(m.name), Some(Unmarked(OrEmpty(m.description))), m.admins,
             Some(Unmarked(OrEmpty(m.icon))), Some(Unmarked(OrEmpty(m.imageUrl))))
  }

  ghost predicate Marked(m: Metadata) {
    MARK <= m.name || MARK <= OrEmpty(m.description) || MARK <= OrEmpty(m.icon) || MARK <= OrEmpty(m.imageUrl)
  }

  ghost predicate IsText(m: Metadata, text: Bytes -> bool) {
    text(m.name) && text(OrEmpty(m.description)) && text(OrEmpty(m.icon)) && text(OrEmpty(m.imageUrl))
  }

  /** Metadata can be encoded exactly when its keys are keys, no two typed the same, and every field fits 16 bits. */
  lemma EncodesIffFits(m: Metadata)
    ensures Encode(m).Ok? <==>
              && NormalizeKeys(KeysOf(m)).Ok?
              && |m.name| <= 0xffff && |OrEmpty(m.description)| <= 0xffff
              && |OrEmpty(m.icon)| <= 0xffff && |OrEmpty(m.imageUrl)| <= 0xffff
              && 32 * |NormalizeKeys(KeysOf(m)).value| <= 0xffff
  {
    if NormalizeKeys(KeysOf(m)).Ok? {
      var keys := NormalizeKeys(KeysOf(m)).value;
      NormalizedAreKeys(KeysOf(m));
      KeysRoundTrip(keys);
      var fields := FieldsOf(m, keys);
      FieldsFitIff(fields);
      assert fields[0] in fields && fields[1] in fields && fields[2] in fields && fields[3] in fields && fields[4] in fields;
    }
  }

  lemma FieldsComeBack(m: Metadata)
    requires Encode(m).Ok?
    ensures NormalizeKeys(KeysOf(m)).Ok?
    ensures forall k | k in NormalizeKeys(KeysOf(m)).value :: IsKey(k) && Lower(k) == k
    ensures var bytes := Encode(m).value;
            && DecodeUint16(bytes, 0) == Ok(1)
            && DecodeFields(bytes, 2, 5) == Ok((FieldsOf(m, NormalizeKeys(KeysOf(m)).value), |bytes|))
  {
    NormalizedAreKeys(KeysOf(m));
    DecodeUndoesFields([0, 1], FieldsOf(m, NormalizeKeys(KeysOf(m)).value));
    hide DecodeFields, NormalizeKeys;
  }

  lemma WholeKeys(n: nat)
    ensures 32 * n % 32 == 0
  {
  }

  lemma KeysDecode(keys: seq<string>)
    requires forall k | k in keys :: IsKey(k) && Lower(k) == k
    ensures DecodeKeys(EncodeKeys(keys)) == if Distinct(keys) then Ok(keys) else Err(DuplicateKeys)
  {
    KeysRoundTrip(keys);
    NormalizeNormal(keys);
    WholeKeys(|keys|);
    hide IsKey, Lower, EncodeKeys, KeysIn, NormalizeKeys, Distinct;
  }

  /**
   * Whatever metadata was encoded, it decodes if and only if no two admin keys
   * are equal after lower-casing: duplicates are looked for in the keys as typed,
   * so two spellings of one key pass the encoder and are refused by the decoder.
   * What it decodes to is the normal form without byte-order marks, which is the
   * normal form exactly when no text begins with one.
   */
  lemma DecodesToNormalFormIff(m: Metadata, text: Bytes -> bool)
    requires Encode(m).Ok? && IsText(m, text)
    ensures NormalizeKeys(KeysOf(m)).Ok?
    ensures Decode(Encode(m).value, text)
         == if Distinct(NormalizeKeys(KeysOf(m)).value) then Ok(NormalForm(WithoutMarks(m))) else Err(DuplicateKeys)
    ensures NormalForm(WithoutMarks(m)) == NormalForm(m) <==> !Marked(m)
  {
    FieldsComeBack(m);
    var keys := NormalizeKeys(KeysOf(m)).value;
    KeysDecode(keys);
    UnmarkedIsNormalIff(m);
    hide Encode, EncodeKeys, DecodeKeys, NormalizeKeys, DecodeFields, Distinct, Lower, IsKey, DecodeUint16, Unmarked, Marked;
  }

  lemma UnmarkedIsNormalIff(m: Metadata)
    requires NormalizeKeys(KeysOf(m)).Ok?
    ensures NormalForm(WithoutMarks(m)) == NormalForm(m) <==> !Marked(m)
  {
    hide NormalizeKeys;
  }

  /** Two spellings of one key, one of them lower-case, always lead there: they are encoded, and never decoded again. */
  lemma TwoSpellings(m: Metadata, k: string, text: Bytes -> bool)
    requires IsText(m, text) && m.admins == Some([k, Lower(k)]) && IsKey(k) && Lower(k) != k
    requires |m.name| <= 0xffff && |OrEmpty(m.description)| <= 0xffff && |OrEmpty(m.icon)| <= 0xffff && |OrEmpty(m.imageUrl)| <= 0xffff
    ensures Encode(m).Ok? && Decode(Encode(m).value, text) == Err(DuplicateKeys)
  {
    LowerIsHex(k);
    SpellingsPass(k);
    SpellingsCollide(m, k);
    EncodesIffFits(m);
    hide Encode, NormalizeKeys, Distinct, OrEmpty;
    DecodesToNormalFormIff(m, text);
  }

  lemma SpellingsPass(k: string)
    requires IsKey(k) && IsKey(Lower(k)) && Lower(k) != k
    ensures NormalizeKeys([k, Lower(k)]).Ok? && |NormalizeKeys([k, Lower(k)]).value| == 2
  {
    TrimmedKeys([k, Lower(k)]);
    PairDistinct(k, Lower(k));
    hide Lower, IsKey, Trimmed, Distinct;
  }

  lemma {:induction false} FieldsStandAlone(bytes: Bytes, extra: Bytes, offset: nat, count: nat)
    requires DecodeFields(bytes, offset, count).Ok?
    ensures DecodeFields(bytes + extra, offset, count) == DecodeFields(bytes, offset, count)
    decreases count
  {
    if count > 0 {
      FieldStandsAlone(bytes, extra, offset);
      hide DecodeField;
      FieldsStandAlone(bytes, extra, DecodeField(bytes, offset).value.1, count - 1);
    }
  }

  lemma FieldStandsAlone(bytes: Bytes, extra: Bytes, offset: nat)
    requires DecodeField(bytes, offset).Ok?
    ensures DecodeField(bytes + extra, offset) == DecodeField(bytes, offset)
  {
    var end := DecodeField(bytes, offset).value.1;
    assert (bytes + extra)[offset + 2..end] == bytes[offset + 2..end];
  }

  /** Whatever decodes, nothing may follow it. */
  lemma TrailingBytesAreRefused(bytes: Bytes, extra: Bytes, text: Bytes -> bool)
    requires Decode(bytes, text).Ok? && extra != []
    ensures Decode(bytes + extra, text) == Err(Trailing)
  {
    hide DecodeFields, DecodeKeys, DecodeUint16, Unmarked, UnlessEmpty;
    FieldsStandAlone(bytes, extra, 2, 5);
    VersionStandsAlone(bytes, extra);
    assert |bytes + extra| > |bytes|;
  }

  lemma VersionStandsAlone(bytes: Bytes, extra: Bytes)
    requires DecodeUint16(bytes, 0).Ok?
    ensures DecodeUint16(bytes + extra, 0) == DecodeUint16(bytes, 0)
  {
  }

  lemma SpellingsCollide(m: Metadata, k: string)
    requires m.admins == Some([k, Lower(k)]) && IsKey(k) && IsKey(Lower(k)) && Lower(Lower(k)) == Lower(k)
    ensures NormalizeKeys(KeysOf(m)).Ok? ==> !Distinct(NormalizeKeys(KeysOf(m)).value)
  {
    TrimmedKeys([k, Lower(k)]);
    LowerOfPair(k, Lower(k));
    hide Lower, IsKey, Trimmed, Distinct;
  }

  lemma LowerOfPair(a: string, b: string)
    ensures LowerAll([a, b]) == [Lower(a), Lower(b)]
    ensures Distinct([Lower(a), Lower(b)]) <==> Lower(a) != Lower(b)
  {
    assert [a, b][1..] == [b] && [b][1..] == [];
    PairDistinct(Lower(a), Lower(b));
  }

  lemma PairDistinct(x: string, y: string)
    ensures Distinct([x, y]) <==> x != y
  {
    assert [x, y][0] == x && [x, y][1..] == [y] && [y][1..] == [];
    assert Distinct([y]);
    assert x in [y] <==> x == y;
  }

  /**
   * Decoding gives normal forms: they can be encoded again, and what that decodes
   * to is the same exactly when no text in it begins with a second mark.
   */
  lemma DecodedIsNormal(bytes: Bytes, text: Bytes -> bool)
    requires SurvivesUnmarking(text) && Decode(bytes, text).Ok?
    ensures var m := Decode(bytes, text).value;
            && Encode(m).Ok? && NormalizeKeys(KeysOf(m)).Ok? && NormalForm(m) == m
            && (Decode(Encode(m).value, text) == Ok(m) <==> !Marked(m))
  {
    var m := Decode(bytes, text).value;
    var fields := DecodeFields(bytes, 2, 5).value.0;
    DecodedFields(bytes, text);
    KeysInAreKeys(fields[2]);
    var raw := KeysIn(fields[2]);
    NormalizeNormal(raw);
    assert KeysOf(m) == raw;
    EncodesIffFits(m);
    DecodesToNormalFormIff(m, text);
  }

  lemma DecodedFields(bytes: Bytes, text: Bytes -> bool)
    requires SurvivesUnmarking(text) && Decode(bytes, text).Ok?
    ensures var m, fields := Decode(bytes, text).value, DecodeFields(bytes, 2, 5).value.0;
            && |fields| == 5 && |fields[2]| <= 0xffff && IsText(m, text)
            && |m.name| <= 0xffff && |OrEmpty(m.description)| <= 0xffff
            && |OrEmpty(m.icon)| <= 0xffff && |OrEmpty(m.imageUrl)| <= 0xffff
  {
    hide DecodeFields, DecodeKeys, DecodeUint16, Unmarked, SurvivesUnmarking;
    var fields := DecodeFields(bytes, 2, 5).value.0;
    FieldCount(bytes, 2, 5);
    FieldsFit(bytes, 2, 5);
    assert fields[0] in fields && fields[1] in fields && fields[2] in fields && fields[3] in fields && fields[4] in fields;
    UnmarkedText(fields[0], text);
    UnmarkedText(fields[1], text);
    UnmarkedText(fields[3], text);
    UnmarkedText(fields[4], text);
    AbsentOrText(Unmarked(fields[1]));
    AbsentOrText(Unmarked(fields[3]));
    AbsentOrText(Unmarked(fields[4]));
    hide OrEmpty, UnlessEmpty;
  }

  lemma AbsentOrText(field: Bytes)
    ensures OrEmpty(UnlessEmpty(field)) == field
  {
  }

  lemma {:induction false} FieldsFit(bytes: Bytes, offset: nat, count: nat)
    requires DecodeFields(bytes, offset, count).Ok?
    ensures forall f | f in DecodeFields(bytes, offset, count).value.0 :: |f| <= 0xffff
    decreases count
  {
    if count > 0 {
      FieldsFit(bytes, DecodeField(bytes, offset).value.1, count - 1);
    }
  }

  lemma {:induction false} KeysInAreKeys(bytes: Bytes)
    ensures forall k | k in KeysIn(bytes) :: IsKey(k) && Lower(k) == k
    ensures 32 * |KeysIn(bytes)| <= |bytes|
  {
    if |bytes| >= 32 {
      KeysInAreKeys(bytes[32..]);
      HexIsLower(bytes[..32]);
    }
  }

  lemma {:induction false} HexIsLower(bytes: Bytes)
    ensures Lower(BytesToHex(bytes)) == BytesToHex(bytes)
  {
    if bytes != [] {
      HexIsLower(bytes[1..]);
      var a, b, tail := HexDigit(bytes[0] / 16), HexDigit(bytes[0] % 16), BytesToHex(bytes[1..]);
      assert ([a, b] + tail)[1..] == [b] + tail && ([b] + tail)[1..] == tail;
      assert Lower([b] + tail) == [b] + tail;
    }
  }
}
