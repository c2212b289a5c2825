/** Bytes, and text as the bytes of its UTF-8 form. */
module ByteText {

  type Byte = x: int | 0 <= x < 256

  type Bytes = seq<Byte>

  /** The byte-order mark, which the text decoder drops once from the front. */
  const MARK: Bytes := [0xEF, 0xBB, 0xBF]

  /** Text as the decoder returns it. */
  function Unmarked(bytes: Bytes): Bytes { if MARK <= bytes then bytes[|MARK|..] else bytes }

  /** What is left of text without its mark is text: so it is with UTF-8. */
  ghost predicate SurvivesUnmarking(text: Bytes -> bool) {
    forall bytes :: text(MARK + bytes) ==> text(bytes)
  }

  lemma UnmarkedText(bytes: Bytes, text: Bytes -> bool)
    requires SurvivesUnmarking(text) && text(bytes)
    ensures text(Unmarked(bytes)) && |Unmarked(bytes)| <= |bytes|
    ensures Unmarked(bytes) == bytes <==> !(MARK <= bytes)
    ensures Unmarked(bytes) == [] <==> bytes == [] || bytes == MARK
  {
    if MARK <= bytes {
      assert bytes == MARK + bytes[|MARK|..];
    }
  }
}
