/** What the sender chains guarantee between two persistent clients and any network. */
module EndToEnd {
  import opened Wrappers
  import opened Protocol
  import opened MlsTypes
  import opened ClientOperations
  import opened Persistence
  import opened SenderChains
  import opened MemberRuns
  import opened RelayStore
  import Base64Url

  /** The event an action makes the client accept, if any. */
  function AcceptedBy(mls: Mls, m: Member, action: Action): Option<PlaintextEvent> {
    if action.Act? && action.persisted && Operate(mls, m.client, action.op).1.Ok?
    then Operate(mls, m.client, action.op).1.value
    else None
  }

  /**
   * Sender authentication by MLS (RFC 9420): whatever decrypts as an application message of
   * `device` in `channel` is one of the events `device` committed there. Nothing else is asked
   * of the network: it drops, repeats, reorders, delays and mislabels as it likes.
   */
  ghost predicate Genuine(mls: Mls, start: Member, actions: seq<Action>, channel: Uuid, device: Uuid,
                          committed: seq<PlaintextEvent>)
  {
    actions == [] ||
    var earlier := actions[..|actions| - 1];
    var accepted := AcceptedBy(mls, Run(mls, start, earlier), actions[|actions| - 1]);
    && Genuine(mls, start, earlier, channel, device, committed)
    && (accepted.Some? && accepted.value.channelId == channel && accepted.value.senderDeviceId == device ==>
          accepted.value in committed)
  }

  lemma AcceptedExtends(mls: Mls, m: Member, action: Action, channel: Uuid, device: Uuid)
    ensures var accepted := AcceptedBy(mls, m, action);
            AcceptedFrom(PastIn(Perform(mls, m, action), channel), device)
            == if accepted.Some? && accepted.value.channelId == channel && accepted.value.senderDeviceId == device
               then AcceptedFrom(PastIn(m, channel), device) + [accepted.value]
               else AcceptedFrom(PastIn(m, channel), device)
  {
    hide Operate, EncryptDraft, EventOf;
  }

  lemma AcceptedIsNext(mls: Mls, m: Member, action: Action, n: nat, channel: Uuid, device: Uuid,
                       committed: seq<PlaintextEvent>)
    requires Consistent(mls, m, n) && ChainValid(mls, committed)
    requires AcceptedFrom(PastIn(m, channel), device) <= committed
    requires var accepted := AcceptedBy(mls, m, action);
             && accepted.Some? && accepted.value.channelId == channel && accepted.value.senderDeviceId == device
             && accepted.value in committed
    ensures AcceptedFrom(PastIn(Perform(mls, m, action), channel), device) <= committed
  {
    hide Operate, ChainValid, Remembers, Conserved, RecordIncoming, ShorterThan;
    AcceptedExtends(mls, m, action, channel, device);
    var id, community, group := OperateRecords(mls, m.client, action.op);
    var event := AcceptedBy(mls, m, action).value;
    var j :| 0 <= j < |committed| && committed[j] == event;
    var state := m.client.channels[channel];
    RemembersWithoutGroup(mls, state, PastIn(m, channel), group);
    RecordedIsEncodable(mls, state.(group := group), event);
    AcceptsExactlyTheNext(mls, state.(group := group), PastIn(m, channel), device, committed, j);
  }

  lemma RecordedIsEncodable(mls: Mls, state: ChannelState, event: PlaintextEvent)
    requires RecordIncoming(mls, state, event).Ok?
    ensures EncodeEvent(mls, event).Ok?
  {
  }

  /**
   * Safety: at every moment of its life, what a receiver has accepted from a device in a
   * channel is a prefix of what that device committed there: each event once and in order.
   */
  lemma {:induction false} AcceptedIsAPrefix(mls: Mls, start: Member, actions: seq<Action>, channel: Uuid,
                                             device: Uuid, committed: seq<PlaintextEvent>)
    requires Unjoined(start) && |actions| < U64_MAX && ChainValid(mls, committed)
    requires Genuine(mls, start, actions, channel, device, committed)
    ensures AcceptedFrom(PastIn(Run(mls, start, actions), channel), device) <= committed
  {
    hide Perform, ChainValid, Consistent, AcceptedBy;
    if actions != [] {
      var earlier, action := actions[..|actions| - 1], actions[|actions| - 1];
      var m := Run(mls, start, earlier);
      AcceptedIsAPrefix(mls, start, earlier, channel, device, committed);
      RunIsConsistent(mls, start, earlier);
      AcceptedExtends(mls, m, action, channel, device);
      var accepted := AcceptedBy(mls, m, action);
      if accepted.Some? && accepted.value.channelId == channel && accepted.value.senderDeviceId == device {
        AcceptedIsNext(mls, m, action, |actions|, channel, device, committed);
      }
    }
  }

  /**
   * Between a sender's life and a receiver's: the receiver holds the first k events sent, and
   * its chain for the sender is the sender's own as it was after those k.
   */
  lemma SenderToReceiver(mls: Mls, sender: Member, sends: seq<Action>, receiver: Member, receives: seq<Action>,
                         channel: Uuid)
    requires Unjoined(sender) && Unjoined(receiver) && |sends| < U64_MAX && |receives| < U64_MAX
    requires Genuine(mls, receiver, receives, channel, Run(mls, sender, sends).client.deviceId,
                     PastIn(Run(mls, sender, sends), channel).sent)
    ensures var s, r := Run(mls, sender, sends), Run(mls, receiver, receives);
            var sent, accepted := PastIn(s, channel).sent, AcceptedFrom(PastIn(r, channel), s.client.deviceId);
            && accepted <= sent
            && ChainValid(mls, sent[..|accepted|])
            && (channel in r.client.channels ==>
                  IncomingChain(r.client.channels[channel], s.client.deviceId) == ChainOf(mls, sent[..|accepted|]))
            && ChainValid(mls, sent)
            && (channel in s.client.channels ==> s.client.channels[channel].outgoingChain == ChainOf(mls, sent))
  {
    hide Run, Genuine, ChainValid, ChainOf, Conserved, ShorterThan, IncomingChain;
    var s, r := Run(mls, sender, sends), Run(mls, receiver, receives);
    RunIsConsistent(mls, sender, sends);
    RunIsConsistent(mls, receiver, receives);
    SentIsAChain(mls, s, |sends| + 1, channel);
    AcceptedIsAPrefix(mls, receiver, receives, channel, s.client.deviceId, PastIn(s, channel).sent);
    var sent, accepted := PastIn(s, channel).sent, AcceptedFrom(PastIn(r, channel), s.client.deviceId);
    assert sent[..|accepted|] == accepted;
    ChainPrefix(mls, sent, |accepted|);
    if channel in r.client.channels {
      RememberedChain(mls, r.client.channels[channel], PastIn(r, channel), s.client.deviceId);
    }
    if channel in s.client.channels {
      assert Remembers(mls, s.client.channels[channel], PastIn(s, channel));
    }
  }

  lemma SentIsAChain(mls: Mls, m: Member, n: nat, channel: Uuid)
    requires Consistent(mls, m, n)
    ensures ChainValid(mls, PastIn(m, channel).sent)
  {
    if channel !in m.client.channels {
      assert PastIn(m, channel) == NOTHING;
    } else {
      assert Remembers(mls, m.client.channels[channel], PastIn(m, channel));
    }
  }

  /**
   * Agreement without trusting the sender: two receivers that hold the same counter and hash
   * for a device have accepted the same events from it, all of them, or they hold a collision
   * of SHA-256 at some position. No assumption is made on what reached them.
   */
  lemma EqualChainsMeanEqualHistories(mls: Mls, a: Member, aActions: seq<Action>, b: Member, bActions: seq<Action>,
                                      channel: Uuid, device: Uuid)
    requires Faithful(mls.eventJson)
    requires Unjoined(a) && Unjoined(b) && |aActions| < U64_MAX && |bActions| < U64_MAX
    requires var x, y := Run(mls, a, aActions).client, Run(mls, b, bActions).client;
             && channel in x.channels && channel in y.channels
             && IncomingChain(x.channels[channel], device) == IncomingChain(y.channels[channel], device)
    ensures var x := AcceptedFrom(PastIn(Run(mls, a, aActions), channel), device);
            var y := AcceptedFrom(PastIn(Run(mls, b, bActions), channel), device);
            x == y || exists i | 0 <= i < |x| == |y| :: Collision(mls, x[i], y[i])
  {
    hide Run, ChainValid, ChainOf, Conserved, ShorterThan, IncomingChain, Collision;
    var x, y := Run(mls, a, aActions), Run(mls, b, bActions);
    RunIsConsistent(mls, a, aActions);
    RunIsConsistent(mls, b, bActions);
    RememberedChain(mls, x.client.channels[channel], PastIn(x, channel), device);
    RememberedChain(mls, y.client.channels[channel], PastIn(y, channel), device);
    SameChainSameHistory(mls, AcceptedFrom(PastIn(x, channel), device), AcceptedFrom(PastIn(y, channel), device));
  }

  /** What a delivery decrypts to, before it is held against the sender's chain. */
  function ContentOf(mls: Mls, c: Client, delivered: DeliveredEvent): Option<PlaintextEvent> {
    var channel, message := delivered.receipt.channelId, Base64Url.DecodeMessage(delivered.mlsMessage, true);
    if message.Err? || OpenObjection(mls, c, channel, message.value, Some(delivered)).Some? then None
    else
      var state := c.channels[channel];
      var processed := mls.process(c.provider, state.group, message.value);
      if processed.content.None? then None
      else
        match ReadContent(mls, state.communityId, channel, processed.content.value, Some(delivered))
        case Err(_) => None
        case Ok(event) => Some(event)
  }

  /** After the first j events of a chain, exactly the next one continues it. */
  lemma ContinuesExactlyTheNext(mls: Mls, committed: seq<PlaintextEvent>, j: nat, i: nat)
    requires ChainValid(mls, committed) && j <= |committed| && i < |committed| && j < U64_MAX
    requires ChainValid(mls, committed[..j])
    ensures Continues(ChainOf(mls, committed[..j]), committed[i]) <==> i == j
  {
    assert Linked(mls, committed, i);
    if j > 0 {
      assert Linked(mls, committed, j - 1);
    }
  }

  lemma DeliveredContent(mls: Mls, c: Client, delivered: DeliveredEvent)
    ensures var content, r := ContentOf(mls, c, delivered), OpenDelivered(mls, c, delivered).1;
            && (content.None? ==> r != Err(InvalidSenderChain))
            && (content.Some? ==>
                  && content.value.senderCounter == delivered.senderCounter
                  && content.value.senderDeviceId == delivered.senderDeviceId
                  && content.value.channelId == delivered.receipt.channelId
                  && delivered.receipt.channelId in c.channels
                  && var state := c.channels[delivered.receipt.channelId];
                     r == Err(InvalidSenderChain) <==>
                       && content.value.eventId !in state.seenEventIds
                       && !Continues(IncomingChain(state, delivered.senderDeviceId), content.value))
  {
    hide Continues, EncodeEvent, ReadContent;
    var channel, message := delivered.receipt.channelId, Base64Url.DecodeMessage(delivered.mlsMessage, true);
    if message.Ok? && OpenObjection(mls, c, channel, message.value, Some(delivered)).None? {
      var processed := mls.process(c.provider, c.channels[channel].group, message.value);
      if processed.content.Some? {
        ContentIsAsDelivered(mls, c.channels[channel].communityId, channel, processed.content.value, delivered);
      }
    }
  }

  lemma ContentIsAsDelivered(mls: Mls, community: Uuid, channel: Uuid, content: Content, delivered: DeliveredEvent)
    ensures var r := ReadContent(mls, community, channel, content, Some(delivered));
            && r != Err(InvalidSenderChain)
            && (r.Ok? ==> && r.value.senderCounter == delivered.senderCounter
                          && r.value.senderDeviceId == delivered.senderDeviceId
                          && r.value.channelId == delivered.receipt.channelId)
  {
  }

  /**
   * A delivery is refused as out of chain exactly if it is not the next one: the receiver has
   * missed some before it. `Completeness` shows when none has been missed.
   */
  lemma OutOfChainOnlyAfterAMiss(mls: Mls, m: Member, n: nat, delivered: DeliveredEvent,
                                 committed: seq<PlaintextEvent>)
    requires Consistent(mls, m, n) && ChainValid(mls, committed)
    requires var taken := AcceptedFrom(PastIn(m, delivered.receipt.channelId), delivered.senderDeviceId);
             taken <= committed && |taken| < U64_MAX
    requires var content := ContentOf(mls, m.client, delivered); content.Some? ==> content.value in committed
    ensures var channel, device := delivered.receipt.channelId, delivered.senderDeviceId;
            var content := ContentOf(mls, m.client, delivered);
            OpenDelivered(mls, m.client, delivered).1 == Err(InvalidSenderChain) <==>
            && content.Some?
            && delivered.senderCounter != |AcceptedFrom(PastIn(m, channel), device)| + 1
            && content.value.eventId !in m.client.channels[channel].seenEventIds
  {
    hide ContentOf, OpenDelivered, Conserved, ShorterThan, Continues, ChainOf;
    DeliveredContent(mls, m.client, delivered);
    var content := ContentOf(mls, m.client, delivered);
    if content.Some? {
      var channel, device := delivered.receipt.channelId, delivered.senderDeviceId;
      var i: nat :| i < |committed| && committed[i] == content.value;
      assert Linked(mls, committed, i);
      var taken := AcceptedFrom(PastIn(m, channel), device);
      assert committed[..|taken|] == taken;
      hide ChainValid;
      RememberedChain(mls, m.client.channels[channel], PastIn(m, channel), device);
      ContinuesExactlyTheNext(mls, committed, |taken|, i);
    }
  }

  /** The library opens this message, at this receiver, to what `sender` sealed for `event`. */
  ghost predicate OpensAsSealed(mls: Mls, receiver: Client, sender: Uuid, event: PlaintextEvent, message: Bytes)
    requires event.channelId in receiver.channels
  {
    var aad, text := mls.metadataJson.encode(MetadataOf(event)), mls.eventJson.encode(event);
    && text != []
    && mls.parse(message) == Some(PrivateMessage(Some(event.channelId), aad))
    && mls.process(receiver.provider, receiver.channels[event.channelId].group, message).content
       == Some(Content(true, Some(sender), aad, Some(text)))
  }

  /** What is opened as sealed reads as the event it was sealed for. */
  lemma SentEventOpens(mls: Mls, sender: Client, event: PlaintextEvent, ttl: ServerTtl, submission: SubmitEvent,
                       receipt: AcceptedEvent, receiver: Client)
    requires Faithful(mls.eventJson) && Faithful(mls.metadataJson)
    requires Encrypt(mls, sender, event).1.Ok?
    requires ToSubmitEvent(Encrypt(mls, sender, event).1.value, ttl) == Ok(submission)
    requires receipt.eventId == submission.eventId && receipt.channelId == submission.channelId
    requires event.channelId in receiver.channels && receiver.channels[event.channelId].communityId == event.communityId
    requires OpensAsSealed(mls, receiver, sender.deviceId, event, Encrypt(mls, sender, event).1.value.mlsMessage)
    ensures ContentOf(mls, receiver, Delivered(StoredEvent(submission, receipt))) == Some(event)
  {
    var message := Encrypt(mls, sender, event).1.value.mlsMessage;
    Base64Url.MessageRoundTrip(message, message, true);
    assert mls.eventJson.decode(mls.eventJson.encode(event)) == Some(event);
    assert mls.metadataJson.decode(mls.metadataJson.encode(MetadataOf(event))) == Some(MetadataOf(event));
    hide ValidEvent, Faithful, Continues, Base64Url.FromBytes, Base64Url.DecodeMessage;
  }

  /**
   * The round trip of one event: encrypted, wrapped for the relay, delivered under any receipt
   * for it and opened, it is the event that was sent, and only the chain decides if it is taken.
   */
  lemma SentEventArrives(mls: Mls, sender: Client, event: PlaintextEvent, ttl: ServerTtl, submission: SubmitEvent,
                         receipt: AcceptedEvent, receiver: Client)
    requires Faithful(mls.eventJson) && Faithful(mls.metadataJson)
    requires Encrypt(mls, sender, event).1.Ok?
    requires ToSubmitEvent(Encrypt(mls, sender, event).1.value, ttl) == Ok(submission)
    requires receipt.eventId == submission.eventId && receipt.channelId == submission.channelId
    requires event.channelId in receiver.channels && receiver.channels[event.channelId].communityId == event.communityId
    requires OpensAsSealed(mls, receiver, sender.deviceId, event, Encrypt(mls, sender, event).1.value.mlsMessage)
    ensures var r := OpenDelivered(mls, receiver, Delivered(StoredEvent(submission, receipt))).1;
            var recorded := RecordIncoming(mls, receiver.channels[event.channelId], event);
            && (recorded.Ok? ==> r == Ok(event))
            && (recorded.Err? ==> r == Err(recorded.error))
  {
    SentEventOpens(mls, sender, event, ttl, submission, receipt, receiver);
    hide EncryptObjection, OpensAsSealed, ToSubmitEvent, Base64Url.DecodeMessage, RecordIncoming, ReadContent;
    var message := Base64Url.DecodeMessage(submission.mlsMessage, true).value;
    var advanced := receiver.channels[event.channelId].(
      group := mls.process(receiver.provider, receiver.channels[event.channelId].group, message).group);
    RecordingIgnoresGroup(mls, receiver.channels[event.channelId], advanced.group, event);
  }

  lemma RecordingIgnoresGroup(mls: Mls, state: ChannelState, group: Group, event: PlaintextEvent)
    ensures var r, r' := RecordIncoming(mls, state, event), RecordIncoming(mls, state.(group := group), event);
            (r.Ok? <==> r'.Ok?) && (r.Err? ==> r' == r)
  {
    hide Continues, EncodeEvent, HashOf;
    assert IncomingChain(state, event.senderDeviceId)
           == IncomingChain(state.(group := group), event.senderDeviceId);
  }
}
