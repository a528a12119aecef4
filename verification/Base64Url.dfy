/**
 * The canonical base64url form of an MLS message (crates/singularis-protocol/src/event.rs).
 * `URL_SAFE_NO_PAD` is sections 3.2, 3.5 and 5 of RFC 4648.
 */
module Base64Url {
  import opened Wrappers
  import opened Octets
  import Text

  const MAX_MLS_MESSAGE_BYTES := 256 * 1024
  const MAX_MLS_MESSAGE_BASE64_CHARS := (MAX_MLS_MESSAGE_BYTES + 2) / 3 * 4

  datatype WireError = Empty | TooLarge | InvalidEncoding

  function Symbol(v: int): (c: char)
    requires 0 <= v < 64
    ensures c as int < 0x80 && Value(c) == Some(v)
  {
    if v < 26 then ('A' as int + v) as char
    else if v < 52 then ('a' as int + v - 26) as char
    else if v < 62 then ('0' as int + v - 52) as char
    else if v == 62 then '-'
    else '_'
  }

  function Value(c: char): (v: Option<int>)
    ensures v.Some? ==> 0 <= v.value < 64 && c as int < 0x80
  {
    if 'A' <= c <= 'Z' then Some(c as int - 'A' as int)
    else if 'a' <= c <= 'z' then Some(c as int - 'a' as int + 26)
    else if '0' <= c <= '9' then Some(c as int - '0' as int + 52)
    else if c == '-' then Some(62)
    else if c == '_' then Some(63)
    else None
  }

  /** Three bytes as four symbols, and back. */
  function EncodeGroup(b0: Byte, b1: Byte, b2: Byte): (text: string)
    ensures |text| == 4
  {
    [Symbol(b0 / 4), Symbol(b0 % 4 * 16 + b1 / 16), Symbol(b1 % 16 * 4 + b2 / 64), Symbol(b2 % 64)]
  }

  function DecodeGroup(text: string): Option<Bytes>
    requires |text| == 4
  {
    var v0, v1, v2, v3 := Value(text[0]), Value(text[1]), Value(text[2]), Value(text[3]);
    if v0.None? || v1.None? || v2.None? || v3.None? then None
    else Some([v0.value * 4 + v1.value / 16, v1.value % 16 * 16 + v2.value / 4, v2.value % 4 * 64 + v3.value])
  }

  function Encode(bytes: Bytes): string {
    if |bytes| == 0 then ""
    else if |bytes| == 1 then [Symbol(bytes[0] / 4), Symbol(bytes[0] % 4 * 16)]
    else if |bytes| == 2 then
      [Symbol(bytes[0] / 4), Symbol(bytes[0] % 4 * 16 + bytes[1] / 16), Symbol(bytes[1] % 16 * 4)]
    else EncodeGroup(bytes[0], bytes[1], bytes[2]) + Encode(bytes[3..])
  }

  /**
   * The engine's decoder. A `strict` decoder rejects a last symbol with unused bits set;
   * a lenient one drops them.
   */
  function Decode(text: string, strict: bool): Option<Bytes> {
    if |text| == 0 then Some([])
    else if |text| == 1 then None
    else if |text| == 2 then
      var v0, v1 := Value(text[0]), Value(text[1]);
      if v0.None? || v1.None? || (strict && v1.value % 16 != 0) then None
      else Some([v0.value * 4 + v1.value / 16])
    else if |text| == 3 then
      var v0, v1, v2 := Value(text[0]), Value(text[1]), Value(text[2]);
      if v0.None? || v1.None? || v2.None? || (strict && v2.value % 4 != 0) then None
      else Some([v0.value * 4 + v1.value / 16, v1.value % 16 * 16 + v2.value / 4])
    else
      var group, rest := DecodeGroup(text[..4]), Decode(text[4..], strict);
      if group.None? || rest.None? then None else Some(group.value + rest.value)
  }

  /** Test vectors of section 10 of RFC 4648, without padding. */
  lemma TestVectors()
    ensures Encode([0x66]) == "Zg" && Encode([0x66, 0x6F]) == "Zm8" && Encode([0x66, 0x6F, 0x6F]) == "Zm9v"
  {
    assert [0x66, 0x6F, 0x6F][3..] == [];
  }

  /** The last two symbols are those of section 5. */
  lemma UrlSafe()
    ensures Encode([0xFB, 0xFF]) == "-_8"
  {
  }

  function EncodedLength(n: nat): nat { n / 3 * 4 + if n % 3 == 0 then 0 else n % 3 + 1 }

  lemma {:induction false} EncodeShape(bytes: Bytes)
    ensures |Encode(bytes)| == EncodedLength(|bytes|)
    ensures Text.IsAscii(Encode(bytes))
  {
    if |bytes| >= 3 {
      EncodeShape(bytes[3..]);
    }
  }

  /** Two numbers in one symbol come apart again. */
  lemma Packed(high: nat, low: nat)
    ensures low < 16 ==> (high * 16 + low) / 16 == high && (high * 16 + low) % 16 == low
    ensures low < 4 ==> (high * 4 + low) / 4 == high && (high * 4 + low) % 4 == low
  {
  }

  lemma GroupRoundTrip(b0: Byte, b1: Byte, b2: Byte)
    ensures DecodeGroup(EncodeGroup(b0, b1, b2)) == Some([b0, b1, b2])
  {
    hide Symbol, Value;
    var v0, v1, v2, v3 := b0 / 4, b0 % 4 * 16 + b1 / 16, b1 % 16 * 4 + b2 / 64, b2 % 64;
    Packed(b0 % 4, b1 / 16);
    Packed(b1 % 16, b2 / 64);
    assert v1 / 16 == b0 % 4 && v1 % 16 == b1 / 16 && v2 / 4 == b1 % 16 && v2 % 4 == b2 / 64;
    assert EncodeGroup(b0, b1, b2) == [Symbol(v0), Symbol(v1), Symbol(v2), Symbol(v3)];
    assert v0 * 4 + v1 / 16 == b0 && v1 % 16 * 16 + v2 / 4 == b1 && v2 % 4 * 64 + v3 == b2;
  }

  lemma TailRoundTrip(bytes: Bytes, strict: bool)
    requires |bytes| < 3
    ensures Decode(Encode(bytes), strict) == Some(bytes)
  {
    if |bytes| == 2 {
      assert bytes == [bytes[0], bytes[1]];
    } else if |bytes| == 1 {
      assert bytes == [bytes[0]];
    }
  }

  /** Decoding an encoding gives the bytes back, whichever decoder is used. */
  lemma {:induction false} DecodeEncode(bytes: Bytes, strict: bool)
    ensures Decode(Encode(bytes), strict) == Some(bytes)
  {
    if |bytes| < 3 {
      TailRoundTrip(bytes, strict);
    } else {
      hide EncodeGroup, DecodeGroup;
      var group, text := EncodeGroup(bytes[0], bytes[1], bytes[2]), Encode(bytes);
      GroupRoundTrip(bytes[0], bytes[1], bytes[2]);
      DecodeEncode(bytes[3..], strict);
      assert text[..4] == group && text[4..] == Encode(bytes[3..]);
      assert bytes == [bytes[0], bytes[1], bytes[2]] + bytes[3..];
    }
  }

  ghost predicate Transportable(bytes: Bytes) { 1 <= |bytes| <= MAX_MLS_MESSAGE_BYTES }

  ghost predicate Canonical(encoded: string) {
    exists bytes :: Transportable(bytes) && Encode(bytes) == encoded
  }

  datatype Encoded = Encoded(encoded: string)

  function Shortest(): (m: Encoded)
    ensures Canonical(m.encoded)
  {
    assert Transportable([0]);
    Encoded(Encode([0]))
  }

  /** A message on the wire; its constructors let no other text through. */
  type OpaqueMlsMessage = m: Encoded | Canonical(m.encoded) witness Shortest()

  function FromBytes(bytes: Bytes): Result<OpaqueMlsMessage, WireError> {
    if |bytes| == 0 then Err(Empty)
    else if |bytes| > MAX_MLS_MESSAGE_BYTES then Err(TooLarge)
    else
      assert Transportable(bytes);
      Ok(Encoded(Encode(bytes)))
  }

  function DecodeMessage(message: OpaqueMlsMessage, strict: bool): Result<Bytes, WireError> {
    match Decode(message.encoded, strict)
    case Some(bytes) => Ok(bytes)
    case None => Err(InvalidEncoding)
  }

  /** `OpaqueMlsMessage::from_encoded`, the check behind every deserialisation. */
  function FromEncoded(encoded: string, strict: bool): Result<OpaqueMlsMessage, WireError> {
    if encoded == "" then Err(Empty)
    else if Text.Utf8Length(encoded) > MAX_MLS_MESSAGE_BASE64_CHARS then Err(TooLarge)
    else
      match Decode(encoded, strict)
      case None => Err(InvalidEncoding)
      case Some(decoded) =>
        if decoded == [] || |decoded| > MAX_MLS_MESSAGE_BYTES then Err(TooLarge)
        else if Encode(decoded) != encoded then Err(InvalidEncoding)
        else
          assert Transportable(decoded);
          Ok(Encoded(encoded))
  }

  /** No transportable message is turned away by the cap on encoded characters. */
  lemma CapAdmitsEveryEncoding(bytes: Bytes)
    requires Transportable(bytes)
    ensures 0 < Text.Utf8Length(Encode(bytes)) <= MAX_MLS_MESSAGE_BASE64_CHARS
  {
    EncodeShape(bytes);
    Text.AsciiLength(Encode(bytes));
  }

  /**
   * `from_bytes` and `from_encoded` accept the same messages: exactly the encodings of
   * 1..262144 bytes, so each message has one text and each accepted text one message.
   */
  lemma WireFormIsCanonical(encoded: string, strict: bool)
    ensures FromEncoded(encoded, strict).Ok? <==>
            exists bytes :: Transportable(bytes) && FromBytes(bytes) == Ok(Encoded(encoded))
    ensures FromEncoded(encoded, strict).Ok? ==>
              && FromEncoded(encoded, strict).value.encoded == encoded
              && DecodeMessage(FromEncoded(encoded, strict).value, strict).Ok?
              && FromBytes(DecodeMessage(FromEncoded(encoded, strict).value, strict).value)
                 == Ok(Encoded(encoded))
  {
    if FromEncoded(encoded, strict).Ok? {
      assert Transportable(Decode(encoded, strict).value);
    }
    forall bytes | Transportable(bytes) && FromBytes(bytes) == Ok(Encoded(encoded))
      ensures FromEncoded(encoded, strict).Ok?
    {
      DecodeEncode(bytes, strict);
      CapAdmitsEveryEncoding(bytes);
    }
  }

  /** `from_bytes` then `decode` is the identity, and `from_bytes` is injective. */
  lemma MessageRoundTrip(bytes: Bytes, other: Bytes, strict: bool)
    requires Transportable(bytes)
    ensures FromBytes(bytes).Ok? && DecodeMessage(FromBytes(bytes).value, strict) == Ok(bytes)
    ensures FromBytes(other) == FromBytes(bytes) ==> other == bytes
  {
    DecodeEncode(bytes, strict);
    DecodeEncode(other, strict);
  }

  /**
   * Ignoring trailing bits changes neither what is accepted nor what it decodes to: the
   * re-encoding comparison alone makes the form canonical.
   */
  lemma LenientDecoderIsHarmless(encoded: string)
    ensures FromEncoded(encoded, true).Ok? <==> FromEncoded(encoded, false).Ok?
    ensures FromEncoded(encoded, true).Ok? ==> Decode(encoded, true) == Decode(encoded, false)
  {
    WireFormIsCanonical(encoded, true);
    WireFormIsCanonical(encoded, false);
    if FromEncoded(encoded, true).Ok? {
      DecodeEncode(Decode(encoded, true).value, false);
    }
  }
}
