/**
 * Exactly when a client's operations succeed, and what they then leave, in terms of the event,
 * the message, the client's fields and what the libraries answer.
 */
module ClientAnswers {
  import opened Wrappers
  import opened Protocol
  import opened MlsTypes
  import opened ClientOperations
  import opened SenderChains
  import opened MemberRuns
  import Text

  /** `PlaintextEvent::validate` (crates/singularis-mls/src/event.rs). */
  ghost predicate WellMade(event: PlaintextEvent) {
    && event.schemaVersion == 1 && event.senderCounter > 0 && event.createdAtMs >= 0
    && event.references.replyTo != Some(event.eventId)
    && event.references.replacing != Some(event.eventId)
    && event.references.deleting != Some(event.eventId)
    && (exists i | 0 <= i < |event.body| :: !Text.IsWhitespace(event.body[i]))
    && Text.Utf8Length(event.body) <= 65536
  }

  /** Counter and previous hash follow the last event of the chain; the first has counter 1 and none. */
  ghost predicate Follows(chain: Option<SenderChain>, event: PlaintextEvent) {
    match chain
    case None => event.senderCounter == 1 && event.previousEventHash == None
    case Some(last) =>
      && event.senderCounter == (if last.counter == 0xFFFF_FFFF_FFFF_FFFF then last.counter else last.counter + 1)
      && event.previousEventHash == Some(last.eventHash)
  }

  function SealedBy(mls: Mls, c: Client, event: PlaintextEvent): Sealed
    requires event.channelId in c.channels
  {
    mls.create(c.provider, c.signer, c.channels[event.channelId].group,
               mls.metadataJson.encode(Metadata(1, event.eventId, event.communityId, event.channelId,
                                                event.senderDeviceId, event.senderCounter, event.schemaVersion)),
               mls.eventJson.encode(event))
  }

  /** What `encrypt_event` asks of an event before it touches the ratchet. */
  ghost predicate Sendable(mls: Mls, c: Client, event: PlaintextEvent) {
    && WellMade(event) && |mls.eventJson.encode(event)| <= 98304
    && event.senderDeviceId == c.deviceId && event.channelId in c.channels
    && event.communityId == c.channels[event.channelId].communityId
    && Follows(c.channels[event.channelId].outgoingChain, event)
    && event.eventId !in c.channels[event.channelId].seenEventIds
  }

  /** Nothing of the client has changed but its storage and this channel. */
  ghost predicate OnlyChannelChanged(c: Client, c': Client, channel: Uuid) {
    && c'.deviceId == c.deviceId && c'.signer == c.signer && c'.channels.Keys == c.channels.Keys + {channel}
    && forall other | other in c.channels && other != channel :: c'.channels[other] == c.channels[other]
  }

  /**
   * An event is encrypted if and only if it is well made and fits, it is this device's, its
   * channel is joined under its community, it is the next of the outgoing chain under a new ID,
   * and the library seals it. Only then has anything but the ratchet moved.
   */
  lemma EncryptExactlyIf(mls: Mls, c: Client, event: PlaintextEvent)
    ensures Encrypt(mls, c, event).1.Ok? <==> Sendable(mls, c, event) && SealedBy(mls, c, event).outcome.SealedAs?
    ensures !Sendable(mls, c, event) ==> Encrypt(mls, c, event).0 == c
    ensures var (c', r) := Encrypt(mls, c, event);
            r.Ok? ==>
              && r.value == EncryptedEvent(event.eventId, event.communityId, event.channelId, event.senderDeviceId,
                                           event.senderCounter, SealedBy(mls, c, event).outcome.message)
              && OnlyChannelChanged(c, c', event.channelId)
              && c'.provider == SealedBy(mls, c, event).provider
              && var state, state' := c.channels[event.channelId], c'.channels[event.channelId];
                 && state'.communityId == state.communityId && state'.group == SealedBy(mls, c, event).group
                 && state'.incomingChains == state.incomingChains
                 && state'.outgoingChain
                    == Some(SenderChain(event.senderCounter, mls.sha256(mls.eventJson.encode(event))))
                 && state'.seenEventIds == state.seenEventIds + {event.eventId}
  {
    assert WellMade(event) <==> ValidEvent(event);
    hide WellMade, ValidEvent;
  }

  /**
   * For a client that remembers its past, below saturation: exactly the next event of its own
   * chain, under an ID nobody has used in the channel, can be sealed.
   */
  lemma ExactlyTheNextIsSealed(mls: Mls, m: Member, n: nat, event: PlaintextEvent)
    requires Consistent(mls, m, n) && n <= U64_MAX && event.channelId in m.client.channels
    ensures var past := PastIn(m, event.channelId);
            Encrypt(mls, m.client, event).1.Ok? <==>
            && WellMade(event) && |mls.eventJson.encode(event)| <= 98304
            && event.senderDeviceId == m.client.deviceId
            && event.communityId == m.client.channels[event.channelId].communityId
            && ChainValid(mls, past.sent + [event])
            && (forall other | InPast(past, other) :: other.eventId != event.eventId)
            && SealedBy(mls, m.client, event).outcome.SealedAs?
  {
    hide WellMade, Encrypt, Conserved, Remembers, Follows, ChainValid, InPast, SealedBy;
    var state, past := m.client.channels[event.channelId], PastIn(m, event.channelId);
    assert Remembers(mls, state, past) && ShorterThan(past, n);
    EncryptExactlyIf(mls, m.client, event);
    NextOfThePast(mls, state, past, event);
  }

  lemma NextOfThePast(mls: Mls, state: ChannelState, past: Past, event: PlaintextEvent)
    requires Remembers(mls, state, past) && |past.sent| < U64_MAX
    ensures Follows(state.outgoingChain, event) <==> ChainValid(mls, past.sent + [event])
    ensures event.eventId !in state.seenEventIds <==>
            forall other | InPast(past, other) :: other.eventId != event.eventId
  {
    ContinuingExtends(mls, past.sent, event);
    SeenIsNamed(mls, state, past, event.eventId);
    assert Follows(state.outgoingChain, event) <==> Continues(state.outgoingChain, event);
    hide ChainValid, Continues, Follows, InPast;
  }

  lemma SeenIsNamed(mls: Mls, state: ChannelState, past: Past, id: EventId)
    requires Remembers(mls, state, past)
    ensures id in state.seenEventIds <==> exists event: PlaintextEvent :: InPast(past, event) && event.eventId == id
  {
    hide ChainValid, ChainOf, EncodeEvent;
    if event: PlaintextEvent :| InPast(past, event) && event.eventId == id {
      if event !in past.sent {
        var device :| device in past.accepted && event in past.accepted[device];
        assert event in AcceptedFrom(past, device);
      }
    }
    assert id in state.seenEventIds ==> Named(past, id);
  }

  ghost predicate NewlyIn(c: Client, c': Client, channel: Uuid, community: Uuid, group: Group) {
    && channel !in c.channels && channel in c'.channels && OnlyChannelChanged(c, c', channel)
    && c'.channels[channel].communityId == community && c'.channels[channel].group == group
    && c'.channels[channel].outgoingChain == None && c'.channels[channel].incomingChains.Keys == {}
    && c'.channels[channel].seenEventIds == {}
  }

  /**
   * Joining succeeds if and only if the channel is new, the welcome has an admissible length and
   * the library admits to a group of that ID; then the channel is there under the community
   * asked for, with that group and no past.
   */
  lemma JoinExactlyIf(mls: Mls, c: Client, community: Uuid, channel: Uuid, welcome: Bytes)
    ensures var (c', r) := Join(mls, c, community, channel, welcome);
            var joined := mls.welcome(c.provider, welcome);
            && (r.Ok? <==> && channel !in c.channels && 1 <= |welcome| <= 393216
                           && joined.group.Some? && joined.groupId == Some(channel))
            && (r.Ok? ==> NewlyIn(c, c', channel, community, joined.group.value) && c'.provider == joined.provider)
            && (r.Err? ==> c'.channels == c.channels)
            && (r.Err? ==> r.error == if channel in c.channels then ChannelAlreadyJoined
                                      else if |welcome| == 0 || |welcome| > 393216 || joined.group.None?
                                      then InvalidWelcome else ContextMismatch)
  {
  }

  lemma CreateExactlyIf(mls: Mls, c: Client, community: Uuid, channel: Uuid)
    ensures var (c', r) := Create(mls, c, community, channel);
            var founded := mls.found(c.provider, c.signer, channel);
            && (r.Ok? <==> channel !in c.channels && founded.group.Some?)
            && (r.Ok? ==> NewlyIn(c, c', channel, community, founded.group.value) && c'.provider == founded.provider)
            && (r.Err? ==> c'.channels == c.channels)
            && (r.Err? ==> r.error == if channel in c.channels then ChannelAlreadyJoined else StateStorage)
  {
  }

  /** The relay's envelope says the same as the authenticated data. */
  ghost predicate EnvelopeAgrees(metadata: Metadata, delivered: Option<DeliveredEvent>) {
    delivered.Some? ==>
      && metadata.eventId == delivered.value.receipt.eventId
      && metadata.communityId == delivered.value.communityId
      && metadata.channelId == delivered.value.receipt.channelId
      && metadata.senderDeviceId == delivered.value.senderDeviceId
      && metadata.senderCounter == delivered.value.senderCounter
  }

  /** What must hold before the library is given the message. */
  ghost predicate Openable(mls: Mls, c: Client, channel: Uuid, message: Bytes, delivered: Option<DeliveredEvent>) {
    && 1 <= |message| <= 262144
    && mls.parse(message).Some? && mls.parse(message).value.PrivateMessage?
    && mls.parse(message).value.groupId == Some(channel) && channel in c.channels
    && mls.metadataJson.decode(mls.parse(message).value.aad).Some?
    && EnvelopeAgrees(mls.metadataJson.decode(mls.parse(message).value.aad).value, delivered)
  }

  /** What the library opened is this event, vouched for by a member who is its device. */
  ghost predicate Vouched(mls: Mls, state: ChannelState, channel: Uuid, content: Content,
                          delivered: Option<DeliveredEvent>, event: PlaintextEvent)
  {
    && content.fromMember && content.credential == Some(event.senderDeviceId)
    && content.payload.Some? && 1 <= |content.payload.value| <= 98304
    && mls.eventJson.decode(content.payload.value) == Some(event) && WellMade(event)
    && event.channelId == channel && event.communityId == state.communityId
    && mls.metadataJson.decode(content.aad)
       == Some(Metadata(1, event.eventId, event.communityId, channel, event.senderDeviceId, event.senderCounter, 1))
    && EnvelopeAgrees(mls.metadataJson.decode(content.aad).value, delivered)
  }

  /**
   * A message is taken as this event if and only if it can be opened, the library opens it to
   * this event of a member, its ID is new and it is the next of its sender's chain. Then exactly
   * the sender's chain and the seen IDs have moved, with the ratchet.
   */
  lemma OpenExactlyIf(mls: Mls, c: Client, channel: Uuid, message: Bytes, delivered: Option<DeliveredEvent>,
                      event: PlaintextEvent)
    ensures Open(mls, c, channel, message, delivered).1 == Ok(event) <==>
            && Openable(mls, c, channel, message, delivered)
            && var state := c.channels[channel];
               var processed := mls.process(c.provider, state.group, message);
               && processed.content.Some? && Vouched(mls, state, channel, processed.content.value, delivered, event)
               && event.eventId !in state.seenEventIds && |mls.eventJson.encode(event)| <= 98304
               && Follows(IncomingChain(state, event.senderDeviceId), event)
    ensures !Openable(mls, c, channel, message, delivered) ==> Open(mls, c, channel, message, delivered).0 == c
    ensures var (c', r) := Open(mls, c, channel, message, delivered);
            r == Ok(event) ==>
              && OnlyChannelChanged(c, c', channel)
              && var state, state' := c.channels[channel], c'.channels[channel];
                 var processed := mls.process(c.provider, state.group, message);
                 && c'.provider == processed.provider && state'.group == processed.group
                 && state'.communityId == state.communityId && state'.outgoingChain == state.outgoingChain
                 && state'.incomingChains.Keys == state.incomingChains.Keys + {event.senderDeviceId}
                 && (forall device | device in state'.incomingChains ::
                       state'.incomingChains[device]
                       == if device == event.senderDeviceId
                          then SenderChain(event.senderCounter, mls.sha256(mls.eventJson.encode(event)))
                          else state.incomingChains[device])
                 && state'.seenEventIds == state.seenEventIds + {event.eventId}
  {
    OpenableIsNoObjection(mls, c, channel, message, delivered);
    if Openable(mls, c, channel, message, delivered) {
      var state := c.channels[channel];
      var processed := mls.process(c.provider, state.group, message);
      if processed.content.Some? {
        VouchedIsRead(mls, state, channel, processed.content.value, delivered, event);
        if ValidEvent(event) {
          RecordedExactlyIf(mls, state.(group := processed.group), event);
        }
        hide Vouched, ReadContent, RecordIncoming;
      }
    }
    hide Openable, OpenObjection;
  }

  /** What the library cannot process is rejected; the group is read again from storage. */
  lemma UnprocessedIsRejected(mls: Mls, c: Client, channel: Uuid, message: Bytes, delivered: Option<DeliveredEvent>)
    requires Openable(mls, c, channel, message, delivered)
    requires mls.process(c.provider, c.channels[channel].group, message).content.None?
    ensures var (c', r) := Open(mls, c, channel, message, delivered);
            var processed := mls.process(c.provider, c.channels[channel].group, message);
            var stored := mls.load(processed.provider, channel);
            && r == Err(if stored.Some? then MessageRejected else StateStorage)
            && OnlyChannelChanged(c, c', channel) && c'.provider == processed.provider
            && c'.channels[channel]
               == c.channels[channel].(group := if stored.Some? then stored.value else processed.group)
  {
    OpenableIsNoObjection(mls, c, channel, message, delivered);
    hide Openable, OpenObjection;
  }

  /** A replay and a gap are told apart from each other and from everything else. */
  lemma RefusedAsReplayOrGap(mls: Mls, c: Client, channel: Uuid, message: Bytes, delivered: Option<DeliveredEvent>,
                             event: PlaintextEvent)
    requires Openable(mls, c, channel, message, delivered)
    requires var content := mls.process(c.provider, c.channels[channel].group, message).content;
             content.Some? && Vouched(mls, c.channels[channel], channel, content.value, delivered, event)
    ensures var state, r := c.channels[channel], Open(mls, c, channel, message, delivered).1;
            && (r == Err(ReplayDetected) <==> event.eventId in state.seenEventIds)
            && (r == Err(InvalidSenderChain) <==>
                  event.eventId !in state.seenEventIds && !Follows(IncomingChain(state, event.senderDeviceId), event))
  {
    OpenableIsNoObjection(mls, c, channel, message, delivered);
    var processed := mls.process(c.provider, c.channels[channel].group, message);
    VouchedIsRead(mls, c.channels[channel], channel, processed.content.value, delivered, event);
    hide Openable, OpenObjection, Vouched, ReadContent, EncodeEvent;
  }

  lemma OpenableIsNoObjection(mls: Mls, c: Client, channel: Uuid, message: Bytes, delivered: Option<DeliveredEvent>)
    ensures Openable(mls, c, channel, message, delivered) <==> OpenObjection(mls, c, channel, message, delivered).None?
    ensures Openable(mls, c, channel, message, delivered) ==> channel in c.channels
  {
  }

  lemma VouchedIsRead(mls: Mls, state: ChannelState, channel: Uuid, content: Content,
                      delivered: Option<DeliveredEvent>, event: PlaintextEvent)
    ensures ReadContent(mls, state.communityId, channel, content, delivered) == Ok(event) <==>
            Vouched(mls, state, channel, content, delivered, event)
    ensures Vouched(mls, state, channel, content, delivered, event) ==> ValidEvent(event)
    ensures ReadContent(mls, state.communityId, channel, content, delivered)
            !in {Err(ReplayDetected), Err(InvalidSenderChain)}
  {
    assert WellMade(event) <==> ValidEvent(event);
    hide WellMade, ValidEvent;
  }

  lemma RecordedExactlyIf(mls: Mls, state: ChannelState, event: PlaintextEvent)
    requires ValidEvent(event)
    ensures RecordIncoming(mls, state, event).Ok? <==>
            && event.eventId !in state.seenEventIds && |mls.eventJson.encode(event)| <= 98304
            && Follows(IncomingChain(state, event.senderDeviceId), event)
  {
    hide ValidEvent;
  }

  /** A message of another group is refused, and leaves the client as it was. */
  lemma OtherGroupIsRefused(mls: Mls, c: Client, channel: Uuid, message: Bytes, delivered: Option<DeliveredEvent>)
    requires mls.parse(message).Some? && mls.parse(message).value.PrivateMessage?
    requires mls.parse(message).value.groupId != Some(channel)
    ensures Open(mls, c, channel, message, delivered).1.Err? && Open(mls, c, channel, message, delivered).0 == c
    ensures 1 <= |message| <= 262144 && channel in c.channels
            && mls.metadataJson.decode(mls.parse(message).value.aad).Some? ==>
              Open(mls, c, channel, message, delivered).1 == Err(ContextMismatch)
  {
  }
}
