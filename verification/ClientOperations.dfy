/**
 * The operations of a client on its value (crates/singularis-mls/src/client.rs): what each
 * answers, and what it leaves in memory, also when it fails half way.
 */
module ClientOperations {
  import opened Wrappers
  import opened Protocol
  import opened MlsTypes
  import opened Snapshot
  import opened VaultStore
  import Base64Url

  datatype Operation =
    | CreateChannel(communityId: Uuid, channelId: Uuid)
    | JoinChannel(communityId: Uuid, channelId: Uuid, welcome: Bytes)
    | Decrypt(channelId: Uuid, message: Bytes)
    | DecryptDelivered(delivered: DeliveredEvent)

  function WithChannel(c: Client, provider: Provider, id: Uuid, state: ChannelState): Client {
    c.(provider := provider, channels := c.channels[id := state])
  }

  function Create(mls: Mls, c: Client, community: Uuid, id: Uuid): (Client, Result<(), MlsError>) {
    if id in c.channels then (c, Err(ChannelAlreadyJoined))
    else
      var founded := mls.found(c.provider, c.signer, id);
      if founded.group.None? then (c.(provider := founded.provider), Err(StateStorage))
      else (WithChannel(c, founded.provider, id, NewChannel(community, founded.group.value)), Ok(()))
  }

  function Join(mls: Mls, c: Client, community: Uuid, id: Uuid, welcome: Bytes): (Client, Result<(), MlsError>) {
    if id in c.channels then (c, Err(ChannelAlreadyJoined))
    else if welcome == [] || |welcome| > MAX_WELCOME_BYTES then (c, Err(InvalidWelcome))
    else
      var joined := mls.welcome(c.provider, welcome);
      if joined.group.None? then (c.(provider := joined.provider), Err(InvalidWelcome))
      else if joined.groupId != Some(id) then (c.(provider := joined.provider), Err(ContextMismatch))
      else (WithChannel(c, joined.provider, id, NewChannel(community, joined.group.value)), Ok(()))
  }

  /** The checks `encrypt_event` makes before it touches the ratchet. */
  function EncryptObjection(mls: Mls, c: Client, event: PlaintextEvent): Option<MlsError> {
    if !ValidEvent(event) then Some(InvalidPayload)
    else if event.senderDeviceId != c.deviceId then Some(ContextMismatch)
    else if event.channelId !in c.channels then Some(UnknownChannel)
    else
      var state := c.channels[event.channelId];
      if event.communityId != state.communityId then Some(ContextMismatch)
      else if !Continues(state.outgoingChain, event) || event.eventId in state.seenEventIds then
        Some(InvalidSenderChain)
      else if EncodeEvent(mls, event).Err? then Some(InvalidPayload)
      else None
  }

  function Sent(mls: Mls, state: ChannelState, group: Group, event: PlaintextEvent): ChannelState {
    state.(group := group,
           outgoingChain := Some(SenderChain(event.senderCounter, HashOf(mls, event))),
           seenEventIds := state.seenEventIds + {event.eventId})
  }

  function Encrypt(mls: Mls, c: Client, event: PlaintextEvent): (Client, Result<EncryptedEvent, MlsError>) {
    var objection := EncryptObjection(mls, c, event);
    if objection.Some? then (c, Err(objection.value))
    else
      var state := c.channels[event.channelId];
      var sealed := mls.create(c.provider, c.signer, state.group, mls.metadataJson.encode(MetadataOf(event)),
                               mls.eventJson.encode(event));
      if sealed.outcome.SealedAs? then
        (WithChannel(c, sealed.provider, event.channelId, Sent(mls, state, sealed.group, event)),
         Ok(EncryptedEvent(event.eventId, event.communityId, event.channelId, event.senderDeviceId,
                           event.senderCounter, sealed.outcome.message)))
      else
        (WithChannel(c, sealed.provider, event.channelId, state.(group := sealed.group)),
         Err(if sealed.outcome.Rejected? then MessageRejected else MessageEncoding))
  }

  function ToSubmitEvent(encrypted: EncryptedEvent, ttl: ServerTtl): Result<SubmitEvent, MlsError> {
    match Base64Url.FromBytes(encrypted.mlsMessage)
    case Err(_) => Err(MessageEncoding)
    case Ok(message) =>
      Ok(SubmitEvent(encrypted.eventId, encrypted.communityId, encrypted.channelId, encrypted.senderDeviceId,
                     encrypted.senderCounter, message, ttl))
  }

  /** `validate_and_record_incoming` */
  function RecordIncoming(mls: Mls, state: ChannelState, event: PlaintextEvent): Result<ChannelState, MlsError> {
    if event.eventId in state.seenEventIds then Err(ReplayDetected)
    else if !Continues(IncomingChain(state, event.senderDeviceId), event) then Err(InvalidSenderChain)
    else if EncodeEvent(mls, event).Err? then Err(InvalidPayload)
    else
      Ok(state.(
         incomingChains := state.incomingChains[event.senderDeviceId :=
                                                  SenderChain(event.senderCounter, HashOf(mls, event))],
         seenEventIds := state.seenEventIds + {event.eventId}))
  }

  /** The checks made on a message before it is decrypted. */
  function OpenObjection(mls: Mls, c: Client, channel: Uuid, message: Bytes, delivered: Option<DeliveredEvent>)
    : Option<MlsError>
  {
    if message == [] || |message| > MAX_MLS_MESSAGE_BYTES then Some(MessageRejected)
    else
      match mls.parse(message)
      case None => Some(MessageRejected)
      case Some(OtherMessage) => Some(UnexpectedMessageType)
      case Some(PrivateMessage(groupId, aad)) =>
        match mls.metadataJson.decode(aad)
        case None => Some(PayloadEncoding)
        case Some(metadata) =>
          if delivered.Some? && !ValidForDelivery(metadata, delivered.value) then Some(ContextMismatch)
          else if channel !in c.channels then Some(UnknownChannel)
          else if groupId != Some(channel) then Some(ContextMismatch)
          else None
  }

  /** What the decrypted content is taken for, before it is held against the sender's chain. */
  function ReadContent(mls: Mls, community: Uuid, channel: Uuid, content: Content, delivered: Option<DeliveredEvent>)
    : Result<PlaintextEvent, MlsError>
  {
    if !content.fromMember || content.credential.None? then Err(InvalidSenderCredential)
    else
      match mls.metadataJson.decode(content.aad)
      case None => Err(PayloadEncoding)
      case Some(metadata) =>
        if content.payload.None? then Err(UnexpectedMessageType)
        else
          match DecodeEvent(mls, content.payload.value)
          case Err(error) => Err(error)
          case Ok(event) =>
            if !ValidForEvent(metadata, event, content.credential.value, community, channel) then
              Err(ContextMismatch)
            else if delivered.Some? && !ValidForDelivery(metadata, delivered.value) then Err(ContextMismatch)
            else Ok(event)
  }

  /** `decrypt_event_with_delivery`: a failure after `process` leaves the ratchet advanced. */
  function Open(mls: Mls, c: Client, channel: Uuid, message: Bytes, delivered: Option<DeliveredEvent>)
    : (Client, Result<PlaintextEvent, MlsError>)
  {
    var objection := OpenObjection(mls, c, channel, message, delivered);
    if objection.Some? then (c, Err(objection.value))
    else
      var state := c.channels[channel];
      var processed := mls.process(c.provider, state.group, message);
      if processed.content.None? then
        match mls.load(processed.provider, channel)
        case None => (WithChannel(c, processed.provider, channel, state.(group := processed.group)), Err(StateStorage))
        case Some(group) => (WithChannel(c, processed.provider, channel, state.(group := group)), Err(MessageRejected))
      else
        var advanced := state.(group := processed.group);
        match ReadContent(mls, state.communityId, channel, processed.content.value, delivered)
        case Err(error) => (WithChannel(c, processed.provider, channel, advanced), Err(error))
        case Ok(event) =>
          match RecordIncoming(mls, advanced, event)
          case Err(error) => (WithChannel(c, processed.provider, channel, advanced), Err(error))
          case Ok(recorded) => (WithChannel(c, processed.provider, channel, recorded), Ok(event))
  }

  /**
   * What is accepted is bound to where it came from: the library vouches for a member whose
   * credential is the event's device, the authenticated data names this event, and so does the
   * relay's envelope if there is one.
   */
  lemma AcceptedIsBound(mls: Mls, c: Client, channel: Uuid, message: Bytes, delivered: Option<DeliveredEvent>)
    returns (content: Content)
    requires Open(mls, c, channel, message, delivered).1.Ok?
    ensures var event := Open(mls, c, channel, message, delivered).1.value;
            && channel in c.channels && event.channelId == channel
            && event.communityId == c.channels[channel].communityId
            && event.eventId !in c.channels[channel].seenEventIds
            && Some(content) == mls.process(c.provider, c.channels[channel].group, message).content
            && content.fromMember && content.credential == Some(event.senderDeviceId)
            && mls.metadataJson.decode(content.aad) == Some(MetadataOf(event))
            && (delivered.Some? ==>
                  && delivered.value.receipt.eventId == event.eventId
                  && delivered.value.receipt.channelId == channel
                  && delivered.value.communityId == event.communityId
                  && delivered.value.senderDeviceId == event.senderDeviceId
                  && delivered.value.senderCounter == event.senderCounter)
  {
    content := mls.process(c.provider, c.channels[channel].group, message).content.value;
    hide EncodeEvent, Continues, HashOf, DecodeEvent;
  }

  /** The group a bare client is left with when the library was reached and the message refused. */
  function GroupAfter(mls: Mls, processed: Opened, channel: Uuid): Group {
    if processed.content.None? && mls.load(processed.provider, channel).Some?
    then mls.load(processed.provider, channel).value
    else processed.group
  }

  /**
   * What a failed decryption leaves of a bare client, exactly: the client as it was, if the
   * message was refused before the library saw it; otherwise only if the library moved neither
   * storage nor group, or moved the group back when it was read again from storage.
   */
  lemma FailedOpenKeepsExactlyIf(mls: Mls, c: Client, channel: Uuid, message: Bytes, delivered: Option<DeliveredEvent>)
    requires Open(mls, c, channel, message, delivered).1.Err?
    ensures Open(mls, c, channel, message, delivered).0 == c <==>
            || OpenObjection(mls, c, channel, message, delivered).Some?
            || var processed := mls.process(c.provider, c.channels[channel].group, message);
               processed.provider == c.provider && GroupAfter(mls, processed, channel) == c.channels[channel].group
  {
    hide RecordIncoming, ReadContent;
    if OpenObjection(mls, c, channel, message, delivered).None? {
      var processed := mls.process(c.provider, c.channels[channel].group, message);
      var state := c.channels[channel].(group := GroupAfter(mls, processed, channel));
      assert Open(mls, c, channel, message, delivered).0 == WithChannel(c, processed.provider, channel, state);
      SameWithChannel(c, processed.provider, channel, state);
    }
  }

  lemma SameWithChannel(c: Client, provider: Provider, id: Uuid, state: ChannelState)
    requires id in c.channels
    ensures WithChannel(c, provider, id, state) == c <==> provider == c.provider && state == c.channels[id]
  {
    if state == c.channels[id] {
      assert c.channels[id := state] == c.channels;
    } else {
      assert c.channels[id := state][id] != c.channels[id];
    }
  }

  /** `mls`, but every message decrypts to a proposal of a member's, and moves the group. */
  function OpensToAProposal(mls: Mls, channel: Uuid, metadata: Metadata): Mls {
    var aad := mls.metadataJson.encode(metadata);
    var content := Content(true, Some(metadata.senderDeviceId), aad, None);
    mls.(parse := (message: Bytes) => Some(PrivateMessage(Some(channel), aad)),
         process := (p: Provider, g: Group, message: Bytes) => Opened(p, g + [0], Some(content)))
  }

  /** It happens, under all the laws assumed of the library: refused, and the ratchet has moved. */
  lemma FailedOpenCanMoveTheRatchet(mls: Mls, c: Client, channel: Uuid, metadata: Metadata)
    requires Lawful(mls) && channel in c.channels
    ensures var other := OpensToAProposal(mls, channel, metadata);
            && Lawful(other)
            && Open(other, c, channel, [0], None).1 == Err(UnexpectedMessageType)
            && Open(other, c, channel, [0], None).0 != c
  {
    var other := OpensToAProposal(mls, channel, metadata);
    assert mls.metadataJson.decode(mls.metadataJson.encode(metadata)) == Some(metadata);
    ProposalIsLawful(mls, channel, metadata);
    hide Lawful, Faithful;
    var group := c.channels[channel].group;
    assert |group + [0]| != |group|;
    FailedOpenKeepsExactlyIf(other, c, channel, [0], None);
  }

  lemma ProposalIsLawful(mls: Mls, channel: Uuid, metadata: Metadata)
    requires Lawful(mls)
    ensures Lawful(OpensToAProposal(mls, channel, metadata))
  {
    var other := OpensToAProposal(mls, channel, metadata);
    forall p: Provider, s: Signer, g: Group, aad: Bytes, text: Bytes, id: Uuid |
      other.load(p, id) == Some(g) && other.create(p, s, g, aad, text).outcome.SealedAs?
      ensures Stores(other, p, other.create(p, s, g, aad, text).provider, id, other.create(p, s, g, aad, text).group)
    {
      assert mls.load(p, id) == Some(g) && mls.create(p, s, g, aad, text).outcome.SealedAs?;
      SameStores(mls, other, p, mls.create(p, s, g, aad, text).provider, id, mls.create(p, s, g, aad, text).group);
    }
    assert StoresWhatItSeals(other);
    assert StoresWhatItOpens(other);
    assert StoresWhatItAdmits(other) by {
      forall p: Provider, s: Signer, id: Uuid | other.found(p, s, id).group.Some?
        ensures Stores(other, p, other.found(p, s, id).provider, id, other.found(p, s, id).group.value)
      {
        SameStores(mls, other, p, mls.found(p, s, id).provider, id, mls.found(p, s, id).group.value);
      }
      forall p: Provider, w: Bytes | other.welcome(p, w).group.Some? && other.welcome(p, w).groupId.Some?
        ensures Stores(other, p, other.welcome(p, w).provider, other.welcome(p, w).groupId.value,
                       other.welcome(p, w).group.value)
      {
        SameStores(mls, other, p, mls.welcome(p, w).provider, mls.welcome(p, w).groupId.value,
                   mls.welcome(p, w).group.value);
      }
    }
  }

  lemma SameStores(mls: Mls, other: Mls, before: Provider, after: Provider, id: Uuid, group: Group)
    requires Stores(mls, before, after, id, group) && other.load == mls.load && other.readSigner == mls.readSigner
    ensures Stores(other, before, after, id, group)
  {
  }

  /** An envelope the relay has altered is refused before the ratchet moves. */
  lemma AlteredEnvelopeConsumesNothing(mls: Mls, c: Client, channel: Uuid, message: Bytes, delivered: DeliveredEvent,
                                       metadata: Metadata)
    requires mls.parse(message).Some? && mls.parse(message).value.PrivateMessage?
    requires mls.metadataJson.decode(mls.parse(message).value.aad) == Some(metadata)
    requires metadata != Metadata(metadata.version, delivered.receipt.eventId, delivered.communityId,
                                  delivered.receipt.channelId, delivered.senderDeviceId, delivered.senderCounter,
                                  metadata.eventSchemaVersion)
    ensures Open(mls, c, channel, message, Some(delivered)).1.Err?
    ensures Open(mls, c, channel, message, Some(delivered)).0 == c
  {
    FailedOpenKeepsExactlyIf(mls, c, channel, message, Some(delivered));
  }

  function OpenDelivered(mls: Mls, c: Client, delivered: DeliveredEvent): (Client, Result<PlaintextEvent, MlsError>) {
    match Base64Url.DecodeMessage(delivered.mlsMessage, true)
    case Err(_) => (c, Err(MessageRejected))
    case Ok(message) => Open(mls, c, delivered.receipt.channelId, message, Some(delivered))
  }

  function Received(r: Result<PlaintextEvent, MlsError>): Result<Option<PlaintextEvent>, MlsError> {
    match r case Ok(event) => Ok(Some(event)) case Err(error) => Err(error)
  }

  function Done(r: Result<(), MlsError>): Result<Option<PlaintextEvent>, MlsError> {
    match r case Ok(_) => Ok(None) case Err(error) => Err(error)
  }

  function Operate(mls: Mls, c: Client, op: Operation): (Client, Result<Option<PlaintextEvent>, MlsError>) {
    match op
    case CreateChannel(community, id) => var (c', r) := Create(mls, c, community, id); (c', Done(r))
    case JoinChannel(community, id, welcome) => var (c', r) := Join(mls, c, community, id, welcome); (c', Done(r))
    case Decrypt(id, message) => var (c', r) := Open(mls, c, id, message, None); (c', Received(r))
    case DecryptDelivered(delivered) => var (c', r) := OpenDelivered(mls, c, delivered); (c', Received(r))
  }

  lemma StoreKeepsLoadable(mls: Mls, c: Client, provider: Provider, id: Uuid, state: ChannelState)
    requires Loadable(mls, c) && Stores(mls, c.provider, provider, id, state.group) && PositiveChains(state)
    ensures Loadable(mls, WithChannel(c, provider, id, state))
  {
    var c' := WithChannel(c, provider, id, state);
    forall other | other in c'.channels
      ensures PositiveChains(c'.channels[other]) && mls.load(provider, other) == Some(c'.channels[other].group)
    {
    }
  }

  lemma OpenKeepsLoadable(mls: Mls, c: Client, channel: Uuid, message: Bytes, delivered: Option<DeliveredEvent>)
    requires Lawful(mls) && Loadable(mls, c) && Open(mls, c, channel, message, delivered).1.Ok?
    ensures Loadable(mls, Open(mls, c, channel, message, delivered).0)
  {
    hide Loadable, Stores, ValidForEvent, ValidForDelivery, HashOf;
    assert channel in c.channels;
    var state := c.channels[channel];
    var processed := mls.process(c.provider, state.group, message);
    var event := Open(mls, c, channel, message, delivered).1.value;
    var recorded := RecordIncoming(mls, state.(group := processed.group), event).value;
    LoadableChannel(mls, c, channel);
    DecodedEventIsValid(mls, processed.content.value.payload.value);
    assert event.senderCounter > 0;
    assert Stores(mls, c.provider, processed.provider, channel, processed.group) by {
      assert StoresWhatItOpens(mls);
    }
    assert PositiveChains(recorded);
    StoreKeepsLoadable(mls, c, processed.provider, channel, recorded);
  }

  lemma LoadableChannel(mls: Mls, c: Client, id: Uuid)
    requires Loadable(mls, c) && id in c.channels
    ensures PositiveChains(c.channels[id]) && mls.load(c.provider, id) == Some(c.channels[id].group)
  {
  }

  lemma DecodedEventIsValid(mls: Mls, payload: Bytes)
    ensures DecodeEvent(mls, payload).Ok? ==> ValidEvent(DecodeEvent(mls, payload).value)
  {
  }

  lemma EncryptKeepsLoadable(mls: Mls, c: Client, event: PlaintextEvent)
    requires Lawful(mls) && Loadable(mls, c) && Encrypt(mls, c, event).1.Ok?
    ensures Loadable(mls, Encrypt(mls, c, event).0)
  {
    hide Loadable, Stores, HashOf;
    var state := c.channels[event.channelId];
    var aad, text := mls.metadataJson.encode(MetadataOf(event)), mls.eventJson.encode(event);
    var sealed := mls.create(c.provider, c.signer, state.group, aad, text);
    LoadableChannel(mls, c, event.channelId);
    assert Stores(mls, c.provider, sealed.provider, event.channelId, sealed.group) by {
      assert StoresWhatItSeals(mls);
    }
    StoreKeepsLoadable(mls, c, sealed.provider, event.channelId, Sent(mls, state, sealed.group, event));
  }

  lemma AdmissionKeepsLoadable(mls: Mls, c: Client, op: Operation)
    requires Lawful(mls) && Loadable(mls, c) && Operate(mls, c, op).1.Ok?
    requires op.CreateChannel? || op.JoinChannel?
    ensures Loadable(mls, Operate(mls, c, op).0)
  {
    hide Loadable, Stores;
    var admission := if op.CreateChannel? then mls.found(c.provider, c.signer, op.channelId)
                     else mls.welcome(c.provider, op.welcome);
    assert Stores(mls, c.provider, admission.provider, op.channelId, admission.group.value) by {
      assert StoresWhatItAdmits(mls);
    }
    StoreKeepsLoadable(mls, c, admission.provider, op.channelId, NewChannel(op.communityId, admission.group.value));
  }

  /** Whatever succeeds leaves a client that can be loaded back from its own storage. */
  lemma OperateKeepsLoadable(mls: Mls, c: Client, op: Operation)
    requires Lawful(mls) && Loadable(mls, c) && Operate(mls, c, op).1.Ok?
    ensures Loadable(mls, Operate(mls, c, op).0)
    ensures Operate(mls, c, op).0.deviceId == c.deviceId
  {
    hide Loadable, Lawful, Open;
    match op
    case CreateChannel(_, _) => AdmissionKeepsLoadable(mls, c, op);
    case JoinChannel(_, _, _) => AdmissionKeepsLoadable(mls, c, op);
    case Decrypt(id, message) =>
      OpenKeepsLoadable(mls, c, id, message, None);
      OpenKeepsDevice(mls, c, id, message, None);
    case DecryptDelivered(delivered) =>
      var message := Base64Url.DecodeMessage(delivered.mlsMessage, true).value;
      OpenKeepsLoadable(mls, c, delivered.receipt.channelId, message, Some(delivered));
      OpenKeepsDevice(mls, c, delivered.receipt.channelId, message, Some(delivered));
  }

  lemma OpenKeepsDevice(mls: Mls, c: Client, channel: Uuid, message: Bytes, delivered: Option<DeliveredEvent>)
    ensures Open(mls, c, channel, message, delivered).0.deviceId == c.deviceId
  {
  }
}
