/**
 * Events, chains and client state (crates/singularis-mls), and the functions the client is
 * handed by other libraries: SHA-256, serde and OpenMLS.
 */
module MlsTypes {
  import opened Wrappers
  import opened Protocol
  import VaultStore
  import Text

  const EVENT_SCHEMA_VERSION := 1
  const MAX_EVENT_PAYLOAD_BYTES := 96 * 1024
  const MAX_TEXT_BYTES := 64 * 1024
  const TRANSPORT_AAD_VERSION := 1
  const CLIENT_SNAPSHOT_VERSION := 1
  const MAX_CLIENT_SNAPSHOT_BYTES := 16 * 1024 * 1024
  const MAX_WELCOME_BYTES := 384 * 1024

  type Digest = b: Bytes | |b| == 32 witness seq(32, i => 0)

  /** The key/value storage of the MLS library, and its states, which only it looks into. */
  type Provider = map<Bytes, Bytes>
  type Group = Bytes
  datatype Signer = Signer(publicKey: Bytes, secretKey: Bytes)

  datatype MlsError =
    | InvalidPayload
    | PayloadEncoding
    | StateStorage
    | InvalidStateSnapshot
    | StateAlreadyExists
    | Vault(cause: VaultStore.VaultError)
    | ChannelAlreadyJoined
    | UnknownChannel
    | InvalidWelcome
    | MessageEncoding
    | MessageRejected
    | UnexpectedMessageType
    | ContextMismatch
    | InvalidSenderCredential
    | ReplayDetected
    | InvalidSenderChain

  datatype EventReferences = EventReferences(
    replyTo: Option<EventId>, replacing: Option<EventId>, deleting: Option<EventId>)

  datatype PlaintextEvent = PlaintextEvent(
    schemaVersion: U16,
    eventId: EventId,
    communityId: Uuid,
    channelId: Uuid,
    senderDeviceId: Uuid,
    senderCounter: U64,
    createdAtMs: I64,
    previousEventHash: Option<Digest>,
    references: EventReferences,
    body: string)

  datatype Metadata = Metadata(
    version: U16,
    eventId: EventId,
    communityId: Uuid,
    channelId: Uuid,
    senderDeviceId: Uuid,
    senderCounter: U64,
    eventSchemaVersion: U16)

  datatype SenderChain = SenderChain(counter: U64, eventHash: Digest)

  datatype ChannelState = ChannelState(
    communityId: Uuid,
    group: Group,
    outgoingChain: Option<SenderChain>,
    incomingChains: map<Uuid, SenderChain>,
    seenEventIds: set<EventId>)

  /** The value of an `MlsClient`. */
  datatype Client = Client(
    deviceId: Uuid,
    provider: Provider,
    signer: Signer,
    channels: map<Uuid, ChannelState>)

  datatype ProviderValue = ProviderValue(key: Bytes, value: Bytes)

  datatype IncomingChainSnapshot = IncomingChainSnapshot(senderDeviceId: Uuid, chain: SenderChain)

  datatype ChannelSnapshot = ChannelSnapshot(
    communityId: Uuid,
    channelId: Uuid,
    outgoingChain: Option<SenderChain>,
    incomingChains: seq<IncomingChainSnapshot>,
    seenEventIds: seq<EventId>)

  datatype ClientSnapshot = ClientSnapshot(
    version: U16,
    deviceId: Uuid,
    signerPublicKey: Bytes,
    providerValues: seq<ProviderValue>,
    channels: seq<ChannelSnapshot>)

  datatype EncryptedEvent = EncryptedEvent(
    eventId: EventId,
    communityId: Uuid,
    channelId: Uuid,
    senderDeviceId: Uuid,
    senderCounter: U64,
    mlsMessage: Bytes)

  /** What an encoded message turns out to be before any decryption. */
  datatype Frame = PrivateMessage(groupId: Option<Uuid>, aad: Bytes) | OtherMessage

  datatype SealOutcome = Rejected | Unencodable | SealedAs(message: Bytes)

  datatype Sealed = Sealed(provider: Provider, group: Group, outcome: SealOutcome)

  /** A processed message: None where it is not from a member, not a UUID, not application data. */
  datatype Content = Content(fromMember: bool, credential: Option<Uuid>, aad: Bytes, payload: Option<Bytes>)

  datatype Opened = Opened(provider: Provider, group: Group, content: Option<Content>)

  datatype Admission = Admission(provider: Provider, group: Option<Group>, groupId: Option<Uuid>)

  datatype Mls = Mls(
    sha256: Bytes -> Digest,
    eventJson: Codec<PlaintextEvent>,
    metadataJson: Codec<Metadata>,
    submitJson: Codec<SubmitEvent>,
    snapshotJson: Codec<ClientSnapshot>,
    parse: Bytes -> Option<Frame>,
    create: (Provider, Signer, Group, Bytes, Bytes) -> Sealed,
    process: (Provider, Group, Bytes) -> Opened,
    load: (Provider, Uuid) -> Option<Group>,
    readSigner: (Provider, Bytes) -> Option<Signer>,
    found: (Provider, Signer, Uuid) -> Admission,
    welcome: (Provider, Bytes) -> Admission)

  /** Storage never holds an empty key or value. */
  ghost predicate Filled(provider: Provider) {
    forall key | key in provider :: key != [] && provider[key] != []
  }

  /** `after` is `before` with the group `id` now `group`: nothing else a client reads has moved. */
  ghost predicate Stores(mls: Mls, before: Provider, after: Provider, id: Uuid, group: Group) {
    && mls.load(after, id) == Some(group)
    && (forall other: Uuid | other != id :: mls.load(after, other) == mls.load(before, other))
    && (forall key: Bytes :: mls.readSigner(after, key) == mls.readSigner(before, key))
    && (Filled(before) ==> Filled(after))
  }

  /** Operations that succeed leave the group they used in storage as they leave it in memory. */
  ghost predicate StoresWhatItSeals(mls: Mls) {
    forall p: Provider, s: Signer, g: Group, aad: Bytes, text: Bytes, id: Uuid ::
      mls.load(p, id) == Some(g) && mls.create(p, s, g, aad, text).outcome.SealedAs? ==>
        Stores(mls, p, mls.create(p, s, g, aad, text).provider, id, mls.create(p, s, g, aad, text).group)
  }

  ghost predicate StoresWhatItOpens(mls: Mls) {
    forall p: Provider, g: Group, message: Bytes, id: Uuid ::
      mls.load(p, id) == Some(g) && mls.process(p, g, message).content.Some?
      && mls.process(p, g, message).content.value.payload.Some? ==>
        Stores(mls, p, mls.process(p, g, message).provider, id, mls.process(p, g, message).group)
  }

  ghost predicate StoresWhatItAdmits(mls: Mls) {
    && (forall p: Provider, s: Signer, id: Uuid :: mls.found(p, s, id).group.Some? ==>
          Stores(mls, p, mls.found(p, s, id).provider, id, mls.found(p, s, id).group.value))
    && (forall p: Provider, welcome: Bytes ::
          mls.welcome(p, welcome).group.Some? && mls.welcome(p, welcome).groupId.Some? ==>
            Stores(mls, p, mls.welcome(p, welcome).provider, mls.welcome(p, welcome).groupId.value,
                   mls.welcome(p, welcome).group.value))
  }

  /** The assumptions about the libraries under which the client's guarantees hold. */
  ghost predicate Lawful(mls: Mls) {
    && Faithful(mls.eventJson) && Faithful(mls.metadataJson)
    && Faithful(mls.submitJson) && Faithful(mls.snapshotJson)
    && StoresWhatItSeals(mls) && StoresWhatItOpens(mls) && StoresWhatItAdmits(mls)
  }

  predicate References(references: EventReferences, eventId: EventId) {
    references.replyTo == Some(eventId) || references.replacing == Some(eventId) || references.deleting == Some(eventId)
  }

  predicate ValidEvent(event: PlaintextEvent) {
    && event.schemaVersion == EVENT_SCHEMA_VERSION
    && event.senderCounter != 0
    && event.createdAtMs >= 0
    && !References(event.references, event.eventId)
    && !Text.IsBlank(event.body) && Text.Utf8Length(event.body) <= MAX_TEXT_BYTES
  }

  function EncodeEvent(mls: Mls, event: PlaintextEvent): Result<Bytes, MlsError> {
    if !ValidEvent(event) then Err(InvalidPayload)
    else
      var encoded := mls.eventJson.encode(event);
      if |encoded| > MAX_EVENT_PAYLOAD_BYTES then Err(InvalidPayload) else Ok(encoded)
  }

  function DecodeEvent(mls: Mls, encoded: Bytes): Result<PlaintextEvent, MlsError> {
    if encoded == [] || |encoded| > MAX_EVENT_PAYLOAD_BYTES then Err(InvalidPayload)
    else
      match mls.eventJson.decode(encoded)
      case None => Err(PayloadEncoding)
      case Some(event) => if ValidEvent(event) then Ok(event) else Err(InvalidPayload)
  }

  /** The hash a sender chains to: SHA-256 over the encoded event. */
  function HashOf(mls: Mls, event: PlaintextEvent): Digest { mls.sha256(mls.eventJson.encode(event)) }

  function MetadataOf(event: PlaintextEvent): Metadata {
    Metadata(TRANSPORT_AAD_VERSION, event.eventId, event.communityId, event.channelId, event.senderDeviceId,
             event.senderCounter, event.schemaVersion)
  }

  predicate ValidForEvent(m: Metadata, event: PlaintextEvent, credential: Uuid, community: Uuid, channel: Uuid) {
    && m.version == TRANSPORT_AAD_VERSION
    && m.eventId == event.eventId
    && m.communityId == event.communityId == community
    && m.channelId == event.channelId == channel
    && m.senderDeviceId == event.senderDeviceId == credential
    && m.senderCounter == event.senderCounter
    && m.eventSchemaVersion == EVENT_SCHEMA_VERSION
  }

  predicate ValidForDelivery(m: Metadata, delivered: DeliveredEvent) {
    && m.eventId == delivered.receipt.eventId
    && m.communityId == delivered.communityId
    && m.channelId == delivered.receipt.channelId
    && m.senderDeviceId == delivered.senderDeviceId
    && m.senderCounter == delivered.senderCounter
  }

  /** The counter and previous hash that continue a chain. */
  function NextLink(chain: Option<SenderChain>): (U64, Option<Digest>) {
    match chain
    case None => (1, None)
    case Some(c) => (SaturatingIncrement(c.counter), Some(c.eventHash))
  }

  predicate Continues(chain: Option<SenderChain>, event: PlaintextEvent) {
    (event.senderCounter, event.previousEventHash) == NextLink(chain)
  }

  function IncomingChain(state: ChannelState, device: Uuid): Option<SenderChain> {
    if device in state.incomingChains then Some(state.incomingChains[device]) else None
  }

  const NO_CHAINS: map<Uuid, SenderChain> := map[]

  function NewChannel(community: Uuid, group: Group): ChannelState {
    ChannelState(community, group, None, NO_CHAINS, {})
  }
}
