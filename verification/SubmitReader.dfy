/** A reader of canonical submissions: it accepts exactly what `SubmitJson.Print` prints. */
module SubmitReader {
  import opened Wrappers
  import opened Protocol
  import opened Identifiers
  import opened SubmitJson
  import opened VaultStore
  import opened OutboxWorker
  import Base64Url
  import Text

  datatype Parsed<+T> = Parsed(value: T, rest: string)

  /** The text behind a key. */
  function Behind(key: string, text: string): (r: Option<string>)
    ensures r.Some? <==> key <= text
    ensures r.Some? ==> key + r.value == text
  {
    if key <= text then Some(text[|key|..]) else None
  }

  lemma BehindKey(key: string, rest: string)
    ensures Behind(key, key + rest) == Some(rest)
  {
    assert (key + rest)[|key|..] == rest;
  }

  function HexValue(c: char): (v: Option<nat>)
    ensures v.Some? ==> v.value < 16
  {
    if '0' <= c <= '9' then Some(c as int - '0' as int)
    else if 'a' <= c <= 'f' then Some(c as int - 'a' as int + 10)
    else None
  }

  function UnHex(text: string): Option<nat> {
    if text == "" then Some(0)
    else
      var last := |text| - 1;
      var high, low := UnHex(text[..last]), HexValue(text[last]);
      if high.None? || low.None? then None else Some(16 * high.value + low.value)
  }

  lemma {:induction false} UnHexHex(n: nat, digits: nat)
    requires n < Power16(digits)
    ensures UnHex(Hex(n, digits)) == Some(n)
  {
    if digits > 0 {
      var text := Hex(n, digits);
      UnHexHex(n / 16, digits - 1);
      assert text[..digits - 1] == Hex(n / 16, digits - 1) && text[digits - 1] == HexDigit(n % 16);
    }
  }

  /** A UUID in lower-case hyphenated form. */
  function ReadUuid(text: string): Option<Parsed<Uuid>> {
    if |text| < 36 then None
    else
      var n := UnHex(Unhyphenate(text[..36]));
      if n.None? || n.value >= 0x1_0000_0000_0000_0000_0000_0000_0000_0000 || UuidText(n.value) != text[..36] then None
      else Some(Parsed(n.value, text[36..]))
  }

  lemma ReadUuidText(id: Uuid, rest: string)
    ensures ReadUuid(UuidText(id) + rest) == Some(Parsed(id, rest))
  {
    var text := UuidText(id) + rest;
    UuidLength(id);
    assert text[..36] == UuidText(id) && text[36..] == rest;
    UnhyphenateHyphenate(Hex(id, 32));
    hide Hyphenate, Unhyphenate, Hex, Power16, UnHex;
    Power16Of32();
    UnHexHex(id, 32);
  }

  lemma ReadUuidPrinted(text: string)
    ensures var r := ReadUuid(text); r.Some? ==> UuidText(r.value.value) + r.value.rest == text
  {
    hide UuidText, UnHex, Unhyphenate;
  }

  /** The text up to a character, and from it on. */
  function Until(end: char, text: string): Option<Parsed<string>> {
    if text == "" then None
    else if text[0] == end then Some(Parsed("", text))
    else
      match Until(end, text[1..])
      case None => None
      case Some(r) => Some(Parsed([text[0]] + r.value, r.rest))
  }

  lemma {:induction false} UntilEnd(end: char, value: string, rest: string)
    requires end !in value && rest != "" && rest[0] == end
    ensures Until(end, value + rest) == Some(Parsed(value, rest))
  {
    if value == "" {
      assert value + rest == rest;
    } else {
      assert (value + rest)[1..] == value[1..] + rest;
      assert value == [value[0]] + value[1..];
      UntilEnd(end, value[1..], rest);
    }
  }

  lemma {:induction false} UntilPrinted(end: char, text: string)
    ensures var r := Until(end, text); r.Some? ==> r.value.value + r.value.rest == text
  {
    if text != "" && text[0] != end {
      UntilPrinted(end, text[1..]);
    }
  }

  function DecimalValue(text: string): Option<nat> {
    if text == "" then Some(0)
    else
      var last := |text| - 1;
      var high := DecimalValue(text[..last]);
      if high.None? || !('0' <= text[last] <= '9') then None
      else Some(10 * high.value + (text[last] as int - '0' as int))
  }

  lemma {:induction false} DecimalReadsBack(n: nat)
    ensures DecimalValue(Decimal(n)) == Some(n)
  {
    var text := Decimal(n);
    if n < 10 {
      assert text[..0] == "";
    } else {
      DecimalReadsBack(n / 10);
      assert text[..|text| - 1] == Decimal(n / 10);
    }
  }

  /** A number without sign or leading zeros, up to the character behind it. */
  function ReadNumber(end: char, text: string): Option<Parsed<nat>> {
    match Until(end, text)
    case None => None
    case Some(r) =>
      var n := DecimalValue(r.value);
      if n.None? || Decimal(n.value) != r.value then None else Some(Parsed(n.value, r.rest))
  }

  lemma ReadDecimal(end: char, n: nat, rest: string)
    requires rest != "" && rest[0] == end && !('0' <= end <= '9')
    ensures ReadNumber(end, Decimal(n) + rest) == Some(Parsed(n, rest))
  {
    UntilEnd(end, Decimal(n), rest);
    DecimalReadsBack(n);
  }

  lemma ReadNumberPrinted(end: char, text: string)
    ensures var r := ReadNumber(end, text); r.Some? ==> Decimal(r.value.value) + r.value.rest == text
  {
    UntilPrinted(end, text);
  }

  /** A key and the UUID behind it. */
  function Field(key: string, text: string): Option<Parsed<Uuid>> {
    match Behind(key, text)
    case None => None
    case Some(rest) => ReadUuid(rest)
  }

  lemma FieldReads(key: string, id: Uuid, rest: string)
    ensures Field(key, key + UuidText(id) + rest) == Some(Parsed(id, rest))
  {
    hide UuidText, ReadUuid;
    assert key + UuidText(id) + rest == key + (UuidText(id) + rest);
    BehindKey(key, UuidText(id) + rest);
    ReadUuidText(id, rest);
  }

  lemma FieldPrinted(key: string, text: string)
    ensures var r := Field(key, text); r.Some? ==> key + UuidText(r.value.value) + r.value.rest == text
  {
    hide UuidText, ReadUuid;
    if key <= text {
      ReadUuidPrinted(Behind(key, text).value);
    }
  }

  function ReadCounter(text: string): Option<Parsed<U64>> {
    match Behind(COUNTER_KEY, text)
    case None => None
    case Some(rest) =>
      match ReadNumber(',', rest)
      case None => None
      case Some(n) => if n.value > U64_MAX then None else Some(Parsed(n.value, n.rest))
  }

  /** The message goes through `OpaqueMlsMessage::from_encoded`. */
  function ReadMessage(text: string): Option<Parsed<OpaqueMlsMessage>> {
    match Behind(MESSAGE_KEY, text)
    case None => None
    case Some(rest) =>
      match Until('\"', rest)
      case None => None
      case Some(r) =>
        match Base64Url.FromEncoded(r.value, true)
        case Err(_) => None
        case Ok(message) => Some(Parsed(message, r.rest))
  }

  /** The TTL goes through `ServerTtl::try_from`; nothing may follow the object. */
  function ReadTtl(text: string): Option<ServerTtl> {
    match Behind(TTL_KEY, text)
    case None => None
    case Some(rest) =>
      match ReadNumber('}', rest)
      case None => None
      case Some(n) => if n.rest != "}" || n.value > U64_MAX then None else ServerTtlFrom(n.value)
  }

  function Read(text: string): Option<SubmitEvent> {
    var eventId := Field(EVENT_KEY, text);
    if eventId.None? then None else
    var community := Field(COMMUNITY_KEY, eventId.value.rest);
    if community.None? then None else
    var channel := Field(CHANNEL_KEY, community.value.rest);
    if channel.None? then None else
    var device := Field(DEVICE_KEY, channel.value.rest);
    if device.None? then None else
    var counter := ReadCounter(device.value.rest);
    if counter.None? then None else
    var message := ReadMessage(counter.value.rest);
    if message.None? then None else
    var ttl := ReadTtl(message.value.rest);
    if ttl.None? then None else
    Some(SubmitEvent(eventId.value.value, community.value.value, channel.value.value, device.value.value,
                     counter.value.value, message.value.value, ttl.value))
  }

  lemma CounterReads(e: SubmitEvent)
    ensures ReadCounter(CounterPart(e)) == Some(Parsed(e.senderCounter, MessagePart(e)))
  {
    hide Decimal;
    assert CounterPart(e) == COUNTER_KEY + (Decimal(e.senderCounter) + MessagePart(e));
    BehindKey(COUNTER_KEY, Decimal(e.senderCounter) + MessagePart(e));
    ReadDecimal(',', e.senderCounter, MessagePart(e));
  }

  lemma MessageReads(e: SubmitEvent)
    ensures ReadMessage(MessagePart(e)) == Some(Parsed(e.mlsMessage, TtlPart(e)))
  {
    hide Decimal;
    assert MessagePart(e) == MESSAGE_KEY + (e.mlsMessage.encoded + TtlPart(e));
    BehindKey(MESSAGE_KEY, e.mlsMessage.encoded + TtlPart(e));
    MessageShape(e.mlsMessage);
    UntilEnd('\"', e.mlsMessage.encoded, TtlPart(e));
    var bytes :| Base64Url.Transportable(bytes) && Base64Url.Encode(bytes) == e.mlsMessage.encoded;
    Base64Url.WireFormIsCanonical(e.mlsMessage.encoded, true);
    assert Base64Url.FromBytes(bytes) == Ok(e.mlsMessage);
  }

  lemma TtlReads(e: SubmitEvent)
    ensures ReadTtl(TtlPart(e)) == Some(e.ttlSeconds)
  {
    hide Decimal;
    assert TtlPart(e) == TTL_KEY + (Decimal(e.ttlSeconds) + "}");
    BehindKey(TTL_KEY, Decimal(e.ttlSeconds) + "}");
    ReadDecimal('}', e.ttlSeconds, "}");
  }

  /** What is printed is read back. */
  lemma ReadPrinted(e: SubmitEvent)
    ensures Read(Print(e)) == Some(e)
  {
    hide UuidText, Decimal, Field, ReadCounter, ReadMessage, ReadTtl;
    FieldReads(EVENT_KEY, e.eventId, CommunityPart(e));
    FieldReads(COMMUNITY_KEY, e.communityId, ChannelPart(e));
    FieldReads(CHANNEL_KEY, e.channelId, DevicePart(e));
    FieldReads(DEVICE_KEY, e.senderDeviceId, CounterPart(e));
    CounterReads(e);
    MessageReads(e);
    TtlReads(e);
  }

  lemma CounterPrinted(text: string)
    ensures var r := ReadCounter(text); r.Some? ==> COUNTER_KEY + Decimal(r.value.value) + r.value.rest == text
  {
    hide Decimal, ReadNumber;
    if COUNTER_KEY <= text {
      ReadNumberPrinted(',', Behind(COUNTER_KEY, text).value);
    }
  }

  lemma MessagePrinted(text: string)
    ensures var r := ReadMessage(text); r.Some? ==> MESSAGE_KEY + r.value.value.encoded + r.value.rest == text
  {
    hide Until;
    if MESSAGE_KEY <= text {
      UntilPrinted('\"', Behind(MESSAGE_KEY, text).value);
    }
  }

  lemma TtlPrinted(text: string)
    ensures var r := ReadTtl(text); r.Some? ==> TTL_KEY + Decimal(r.value) + "}" == text
  {
    hide Decimal, ReadNumber;
    if TTL_KEY <= text {
      ReadNumberPrinted('}', Behind(TTL_KEY, text).value);
    }
  }

  /** The reader accepts a text as a submission exactly if it is that submission's canonical text. */
  lemma ReadsExactlyTheCanonical(text: string, e: SubmitEvent)
    ensures Read(text) == Some(e) <==> text == Print(e)
  {
    ReadPrinted(e);
    if Read(text) == Some(e) {
      hide UuidText, Decimal, Field, ReadCounter, ReadMessage, ReadTtl;
      FieldPrinted(EVENT_KEY, text);
      var a := Field(EVENT_KEY, text).value.rest;
      FieldPrinted(COMMUNITY_KEY, a);
      var b := Field(COMMUNITY_KEY, a).value.rest;
      FieldPrinted(CHANNEL_KEY, b);
      var c := Field(CHANNEL_KEY, b).value.rest;
      FieldPrinted(DEVICE_KEY, c);
      var d := Field(DEVICE_KEY, c).value.rest;
      CounterPrinted(d);
      var f := ReadCounter(d).value.rest;
      MessagePrinted(f);
      TtlPrinted(ReadMessage(f).value.rest);
    }
  }

  /** The text of ASCII bytes. */
  function AsciiText(bytes: Bytes): Option<string> {
    if forall i | 0 <= i < |bytes| :: bytes[i] < 0x80 then
      Some(seq(|bytes|, i requires 0 <= i < |bytes| => bytes[i] as char))
    else None
  }

  lemma AsciiReadsBack(text: string)
    requires Text.IsAscii(text)
    ensures AsciiText(AsciiBytes(text)) == Some(text)
  {
    var bytes := AsciiBytes(text);
    forall i | 0 <= i < |text|
      ensures bytes[i] < 0x80 && bytes[i] as char == text[i]
    {
    }
    assert AsciiText(bytes).value == text;
  }

  function FromSlice(bytes: Bytes): Option<SubmitEvent> {
    match AsciiText(bytes)
    case None => None
    case Some(text) => Read(text)
  }

  function CanonicalCodec(): Codec<SubmitEvent> {
    Codec((e: SubmitEvent) => ToVec(e), (bytes: Bytes) => FromSlice(bytes))
  }

  /** Printer and reader are the faithful codec the other modules assume for submissions. */
  lemma CanonicalCodecIsFaithful()
    ensures Faithful(CanonicalCodec())
  {
    forall e: SubmitEvent
      ensures FromSlice(ToVec(e)) == Some(e)
    {
      hide Read, Print;
      PrintShape(e);
      AsciiReadsBack(Print(e));
      ReadPrinted(e);
    }
  }

  lemma FromSliceIsPrinted(bytes: Bytes)
    ensures FromSlice(bytes).Some? ==> ToVec(FromSlice(bytes).value) == bytes
  {
    hide Read, Print;
    if FromSlice(bytes).Some? {
      var text := AsciiText(bytes).value;
      ReadsExactlyTheCanonical(text, FromSlice(bytes).value);
      assert AsciiBytes(text) == bytes;
    }
  }

  /**
   * Whatever other texts serde's parser reads as a submission: as long as it reads back what
   * serde prints, the worker's check of a row comes out as with the reader here.
   */
  lemma AnyParserWillDo(json: Codec<SubmitEvent>, item: OutboxItem)
    requires Faithful(json) && forall e: SubmitEvent :: json.encode(e) == ToVec(e)
    ensures ValidateOutboxItem(json, item) == ValidateOutboxItem(CanonicalCodec(), item)
  {
    hide FromSlice, ToVec, UuidText;
    CanonicalCodecIsFaithful();
    FromSliceIsPrinted(item.payload);
    var canonical := FromSlice(item.payload);
    if canonical.Some? {
      assert json.decode(json.encode(canonical.value)) == canonical;
    } else if json.decode(item.payload).Some? {
      var e := json.decode(item.payload).value;
      assert CanonicalCodec().decode(CanonicalCodec().encode(e)) == Some(e);
    }
  }

  lemma {:induction false} LoopWithAnyParser(json: Codec<SubmitEvent>, start: Work, items: seq<OutboxItem>,
                                             turn: nat -> Turn)
    requires Faithful(json) && forall e: SubmitEvent :: json.encode(e) == ToVec(e)
    ensures Loop(json, start, items, turn) == Loop(CanonicalCodec(), start, items, turn)
  {
    hide Faithful, ToVec, ValidateOutboxItem, EndTurn, Meanwhile;
    if items != [] {
      var last := |items| - 1;
      LoopWithAnyParser(json, start, items[..last], turn);
      AnyParserWillDo(json, items[last]);
    }
  }

  /** So a flush does not depend on the parser. */
  lemma FlushWithAnyParser(json: Codec<SubmitEvent>, v: Shared, status: Status, env: Environment)
    requires Faithful(json) && forall e: SubmitEvent :: json.encode(e) == ToVec(e)
    ensures Flush(json, v, status, env) == Flush(CanonicalCodec(), v, status, env)
  {
    hide Faithful, ToVec, Loop, ListAll;
    LoopWithAnyParser(json, Starting(v), ListAll(v.db), env.turn);
  }
}
