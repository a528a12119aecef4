/**
 * The canonical JSON of a submission (crates/singularis-protocol/src/event.rs:107-117), as
 * `serde_json::to_vec` prints it: one text per submission, always within the limits of the
 * vault's outbox column and the relay's request body.
 */
module SubmitJson {
  import opened Wrappers
  import opened Protocol
  import opened Identifiers
  import Base64Url
  import Text
  import VaultStore

  const MAX_EVENT_BODY_BYTES := 384 * 1024

  const EVENT_KEY := "{\"event_id\":\""
  const COMMUNITY_KEY := "\",\"community_id\":\""
  const CHANNEL_KEY := "\",\"channel_id\":\""
  const DEVICE_KEY := "\",\"sender_device_id\":\""
  const COUNTER_KEY := "\",\"sender_counter\":"
  const MESSAGE_KEY := ",\"mls_message\":\""
  const TTL_KEY := "\",\"ttl_seconds\":"

  function Digit(v: int): (c: char)
    requires 0 <= v < 10
    ensures '0' <= c <= '9' && c as int - '0' as int == v
  {
    ('0' as int + v) as char
  }

  function Decimal(n: nat): (text: string)
    ensures text != "" && forall i | 0 <= i < |text| :: '0' <= text[i] <= '9'
  {
    if n < 10 then [Digit(n)] else Decimal(n / 10) + [Digit(n % 10)]
  }

  function TtlPart(e: SubmitEvent): string { TTL_KEY + Decimal(e.ttlSeconds) + "}" }

  function MessagePart(e: SubmitEvent): string { MESSAGE_KEY + e.mlsMessage.encoded + TtlPart(e) }

  function CounterPart(e: SubmitEvent): string { COUNTER_KEY + Decimal(e.senderCounter) + MessagePart(e) }

  function DevicePart(e: SubmitEvent): string {
    DEVICE_KEY + UuidText(e.senderDeviceId) + CounterPart(e)
  }

  function ChannelPart(e: SubmitEvent): string { CHANNEL_KEY + UuidText(e.channelId) + DevicePart(e) }

  function CommunityPart(e: SubmitEvent): string {
    COMMUNITY_KEY + UuidText(e.communityId) + ChannelPart(e)
  }

  function Print(e: SubmitEvent): string { EVENT_KEY + UuidText(e.eventId) + CommunityPart(e) }

  lemma UuidLength(id: Uuid)
    ensures |UuidText(id)| == 36 && Text.IsAscii(UuidText(id))
  {
  }

  lemma {:induction false} SymbolsOnly(bytes: Bytes)
    ensures forall c | c in Base64Url.Encode(bytes) :: Base64Url.Value(c).Some?
  {
    if |bytes| >= 3 {
      SymbolsOnly(bytes[3..]);
    }
  }

  lemma MessageShape(m: OpaqueMlsMessage)
    ensures '\"' !in m.encoded && Text.IsAscii(m.encoded)
    ensures |m.encoded| <= Base64Url.MAX_MLS_MESSAGE_BASE64_CHARS
  {
    var bytes :| Base64Url.Transportable(bytes) && Base64Url.Encode(bytes) == m.encoded;
    SymbolsOnly(bytes);
    Base64Url.EncodeShape(bytes);
  }

  function Power10(k: nat): nat { if k == 0 then 1 else 10 * Power10(k - 1) }

  lemma {:induction false} DecimalLength(n: nat, k: nat)
    requires 0 < k && n < Power10(k)
    ensures |Decimal(n)| <= k
  {
    if n >= 10 {
      assert k > 1 by {
        assert Power10(1) == 10;
      }
      DecimalLength(n / 10, k - 1);
    }
  }

  lemma CounterLength(n: U64)
    ensures |Decimal(n)| <= 20
  {
    assert Power10(5) == 100_000;
    assert Power10(10) == 10_000_000_000;
    assert Power10(15) == 1_000_000_000_000_000;
    assert Power10(20) == 100_000_000_000_000_000_000;
    DecimalLength(n, 20);
  }

  lemma TtlLength(n: ServerTtl)
    ensures |Decimal(n)| <= 6
  {
    assert Power10(3) == 1000;
    assert Power10(6) == 1_000_000;
    DecimalLength(n, 6);
  }

  lemma PrintShape(e: SubmitEvent)
    ensures Text.IsAscii(Print(e)) && 0 < |Print(e)| <= 350_000
  {
    UuidLength(e.eventId);
    UuidLength(e.communityId);
    UuidLength(e.channelId);
    UuidLength(e.senderDeviceId);
    CounterLength(e.senderCounter);
    TtlLength(e.ttlSeconds);
    MessageShape(e.mlsMessage);
    DecimalIsAscii(e.ttlSeconds);
    DecimalIsAscii(e.senderCounter);
    hide UuidText, Decimal, Text.IsAscii;
    Keys();
    Join(TTL_KEY, Decimal(e.ttlSeconds), "}");
    Join(MESSAGE_KEY, e.mlsMessage.encoded, TtlPart(e));
    Join(COUNTER_KEY, Decimal(e.senderCounter), MessagePart(e));
    hide TtlPart, MessagePart;
    Join(DEVICE_KEY, UuidText(e.senderDeviceId), CounterPart(e));
    Join(CHANNEL_KEY, UuidText(e.channelId), DevicePart(e));
    hide CounterPart, DevicePart;
    Join(COMMUNITY_KEY, UuidText(e.communityId), ChannelPart(e));
    Join(EVENT_KEY, UuidText(e.eventId), CommunityPart(e));
  }

  lemma Join(key: string, value: string, rest: string)
    requires Text.IsAscii(key) && Text.IsAscii(value) && Text.IsAscii(rest)
    ensures Text.IsAscii(key + value + rest) && |key + value + rest| == |key| + |value| + |rest|
  {
  }

  lemma DecimalIsAscii(n: nat)
    ensures Text.IsAscii(Decimal(n))
  {
  }

  lemma Keys()
    ensures Text.IsAscii(EVENT_KEY) && Text.IsAscii(COMMUNITY_KEY)
    ensures Text.IsAscii(CHANNEL_KEY) && Text.IsAscii(DEVICE_KEY)
    ensures Text.IsAscii(COUNTER_KEY) && Text.IsAscii(MESSAGE_KEY)
    ensures Text.IsAscii(TTL_KEY) && Text.IsAscii("}")
  {
  }

  /** The bytes of an ASCII text. */
  function AsciiBytes(text: string): (bytes: Bytes)
    requires Text.IsAscii(text)
    ensures |bytes| == |text|
  {
    seq(|text|, i requires 0 <= i < |text| => text[i] as int)
  }

  function ToVec(e: SubmitEvent): Bytes
  {
    PrintShape(e);
    AsciiBytes(Print(e))
  }

  /** No submission is too large for the vault's outbox or the relay's request body. */
  lemma FitsEverywhere(e: SubmitEvent)
    ensures VaultStore.ValidPayload(ToVec(e)) && 0 < |ToVec(e)| <= MAX_EVENT_BODY_BYTES == 384 * 1024
  {
    PrintShape(e);
  }
}
