/** Wire types shared by client, worker and relay (crates/singularis-protocol). */
module Protocol {
  import opened Wrappers
  import Base64Url
  import Octets

  type Byte = Octets.Byte
  type Bytes = Octets.Bytes

  type U16 = n: nat | n <= 0xFFFF
  type I64 = n: int | -0x8000_0000_0000_0000 <= n <= 0x7FFF_FFFF_FFFF_FFFF

  const U64_MAX: nat := 0xFFFF_FFFF_FFFF_FFFF
  type U64 = n: nat | n <= U64_MAX

  /** A UUID as its 128-bit number: numeric order is the order of its sixteen bytes. */
  type Uuid = n: nat | n < 0x1_0000_0000_0000_0000_0000_0000_0000_0000
  type EventId = Uuid

  /** A UTC instant in nanoseconds. */
  type Time = int

  const NANOS_PER_SECOND := 1_000_000_000
  const MIN_SERVER_TTL_SECONDS := 5 * 60
  const MAX_SERVER_TTL_SECONDS := 7 * 24 * 60 * 60
  type ServerTtl = n: nat | 300 <= n <= 604800 witness 300

  const MAX_MLS_MESSAGE_BYTES := Base64Url.MAX_MLS_MESSAGE_BYTES

  /** `ServerTtl::try_from`: the only way a TTL enters the system. */
  function ServerTtlFrom(seconds: U64): (r: Option<ServerTtl>)
    ensures r.Some? <==> MIN_SERVER_TTL_SECONDS <= seconds <= MAX_SERVER_TTL_SECONDS
    ensures r.Some? ==> r.value == seconds
  {
    if seconds > 0xFFFF_FFFF || !(MIN_SERVER_TTL_SECONDS <= seconds <= MAX_SERVER_TTL_SECONDS) then None
    else Some(seconds)
  }

  function MinTtl(a: ServerTtl, b: ServerTtl): ServerTtl { if a <= b then a else b }

  /** `u64::saturating_add(1)` */
  function SaturatingIncrement(n: U64): U64 { if n == U64_MAX then U64_MAX else n + 1 }

  /** `+= 1` on a `u64` in the release profile, which has no overflow checks. */
  function WrappingIncrement(n: U64): U64 { if n == U64_MAX then 0 else n + 1 }

  type OpaqueMlsMessage = Base64Url.OpaqueMlsMessage

  datatype SubmitEvent = SubmitEvent(
    eventId: EventId,
    communityId: Uuid,
    channelId: Uuid,
    senderDeviceId: Uuid,
    senderCounter: U64,
    mlsMessage: OpaqueMlsMessage,
    ttlSeconds: ServerTtl)

  datatype AcceptedEvent = AcceptedEvent(
    eventId: EventId,
    channelId: Uuid,
    sequence: U64,
    acceptedAt: Time,
    expiresAt: Time)

  datatype DeliveredEvent = DeliveredEvent(
    receipt: AcceptedEvent,
    communityId: Uuid,
    senderDeviceId: Uuid,
    senderCounter: U64,
    mlsMessage: OpaqueMlsMessage)

  /** A serde codec for one type. */
  datatype Codec<!T> = Codec(encode: T -> Bytes, decode: Bytes -> Option<T>)

  /** Decoding undoes encoding; nothing is assumed of bytes no encoder produced. */
  ghost predicate Faithful<T(!new)>(codec: Codec<T>) {
    forall x: T :: codec.decode(codec.encode(x)) == Some(x)
  }
}
