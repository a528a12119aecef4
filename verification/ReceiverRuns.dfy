/**
 * A receiver that opens, one after the other, what its polls of a channel brought, in between
 * anything else a client does.
 */
module ReceiverRuns {
  import opened Wrappers
  import opened Protocol
  import opened Sequences
  import opened MlsTypes
  import opened ClientOperations
  import opened SenderChains
  import opened MemberRuns
  import opened EndToEnd
  import opened DeliveryLanes
  import Base64Url

  /** Opening the next delivery and persisting what came of it, or any other action. */
  datatype Doing = Opens | Does(action: Action)

  /** The receiver, and how many of its deliveries it has been through. */
  datatype Receiving = Receiving(member: Member, through: nat)

  function Next(mls: Mls, r: Receiving, inbox: seq<DeliveredEvent>, doing: Doing): Receiving {
    match doing
    case Does(action) => r.(member := Perform(mls, r.member, action))
    case Opens =>
      if r.through < |inbox| then
        Receiving(Perform(mls, r.member, Act(DecryptDelivered(inbox[r.through]), true)), r.through + 1)
      else r
  }

  function Receive(mls: Mls, start: Member, inbox: seq<DeliveredEvent>, doings: seq<Doing>): Receiving {
    if doings == [] then Receiving(start, 0)
    else Next(mls, Receive(mls, start, inbox, doings[..|doings| - 1]), inbox, doings[|doings| - 1])
  }

  function FromSender(device: Uuid): DeliveredEvent -> bool {
    (delivered: DeliveredEvent) => delivered.senderDeviceId == device
  }

  function TakenFrom(m: Member, channel: Uuid, device: Uuid): seq<PlaintextEvent> {
    AcceptedFrom(PastIn(m, channel), device)
  }

  /** How many deliveries from the device the receiver has been through. */
  function Due(inbox: seq<DeliveredEvent>, n: nat, device: Uuid): nat
    requires n <= |inbox|
  {
    |Filter(inbox[..n], FromSender(device))|
  }

  /**
   * The delivery opens to the event it announces, under an ID that is new to the receiver, or
   * the receiver has that event already.
   */
  ghost predicate OpensToItsEvent(mls: Mls, m: Member, delivered: DeliveredEvent, sent: seq<PlaintextEvent>) {
    && 0 < delivered.senderCounter <= |sent|
    && ContentOf(mls, m.client, delivered) == Some(sent[delivered.senderCounter - 1])
    && (sent[delivered.senderCounter - 1].eventId in m.client.channels[delivered.receipt.channelId].seenEventIds ==>
          delivered.senderCounter <= |TakenFrom(m, delivered.receipt.channelId, delivered.senderDeviceId)|)
  }

  /** What is asked of one step: deliveries open to their events, and nothing else is forged. */
  ghost predicate Honest(mls: Mls, r: Receiving, inbox: seq<DeliveredEvent>, channel: Uuid, device: Uuid,
                         sent: seq<PlaintextEvent>, doing: Doing)
  {
    match doing
    case Opens =>
      r.through < |inbox| && inbox[r.through].senderDeviceId == device ==>
        OpensToItsEvent(mls, r.member, inbox[r.through], sent)
    case Does(action) =>
      var accepted := AcceptedBy(mls, r.member, action);
      accepted.Some? && accepted.value.channelId == channel && accepted.value.senderDeviceId == device ==>
        accepted.value in sent
  }

  ghost predicate AllHonest(mls: Mls, start: Member, inbox: seq<DeliveredEvent>, channel: Uuid, device: Uuid,
                            sent: seq<PlaintextEvent>, doings: seq<Doing>)
  {
    doings == [] ||
    var earlier := doings[..|doings| - 1];
    && AllHonest(mls, start, inbox, channel, device, sent, earlier)
    && Honest(mls, Receive(mls, start, inbox, earlier), inbox, channel, device, sent, doings[|doings| - 1])
  }

  /** Nothing of the device comes to the receiver by another way than these deliveries. */
  ghost predicate OnlyDelivered(mls: Mls, start: Member, inbox: seq<DeliveredEvent>, channel: Uuid, device: Uuid,
                                doings: seq<Doing>)
  {
    doings == [] ||
    var earlier, last := doings[..|doings| - 1], doings[|doings| - 1];
    && OnlyDelivered(mls, start, inbox, channel, device, earlier)
    && (last.Does? ==>
          var accepted := AcceptedBy(mls, Receive(mls, start, inbox, earlier).member, last.action);
          !(accepted.Some? && accepted.value.channelId == channel && accepted.value.senderDeviceId == device))
  }

  /** The device's deliveries carry counters 1, 2, 3, …, all of them of events it sent. */
  ghost predicate InSequence(inbox: seq<DeliveredEvent>, channel: Uuid, device: Uuid, sent: seq<PlaintextEvent>) {
    && (forall delivered | delivered in inbox :: delivered.receipt.channelId == channel)
    && |Filter(inbox, FromSender(device))| <= |sent|
    && forall k | 0 <= k < |Filter(inbox, FromSender(device))| ::
         Filter(inbox, FromSender(device))[k].senderCounter == k + 1
  }

  /** The receiver has at least what it has been through; exactly that, if nothing else came. */
  ghost predicate UpToDate(mls: Mls, r: Receiving, inbox: seq<DeliveredEvent>, channel: Uuid, device: Uuid,
                           sent: seq<PlaintextEvent>, n: nat, only: bool)
  {
    var taken := TakenFrom(r.member, channel, device);
    && Consistent(mls, r.member, n) && r.through <= |inbox| && taken <= sent
    && Due(inbox, r.through, device) <= |taken|
    && (only ==> |taken| == Due(inbox, r.through, device))
  }

  /** What becomes of a delivery that decrypts is what the chain check says. */
  lemma OpenedContent(mls: Mls, c: Client, delivered: DeliveredEvent)
    requires ContentOf(mls, c, delivered).Some?
    ensures var event, r := ContentOf(mls, c, delivered).value, OpenDelivered(mls, c, delivered).1;
            && delivered.receipt.channelId in c.channels
            && (r.Ok? <==> RecordIncoming(mls, c.channels[delivered.receipt.channelId], event).Ok?)
            && (r.Ok? ==> r.value == event)
  {
    DeliveredContent(mls, c, delivered);
    hide EncodeEvent, ReadContent, Continues;
  }

  lemma OneMoreDue(inbox: seq<DeliveredEvent>, n: nat, device: Uuid)
    requires n < |inbox|
    ensures Due(inbox, n + 1, device) == Due(inbox, n, device) + if inbox[n].senderDeviceId == device then 1 else 0
    ensures inbox[n].senderDeviceId == device ==>
              && Due(inbox, n, device) < |Filter(inbox, FromSender(device))|
              && Filter(inbox, FromSender(device))[Due(inbox, n, device)] == inbox[n]
  {
    assert inbox[..n + 1] == inbox[..n] + [inbox[n]];
    FilterLast(inbox[..n], inbox[n], FromSender(device));
    if inbox[n].senderDeviceId == device {
      var p := FilteredAt(inbox, n, FromSender(device));
    }
  }

  /** An action takes at most one event, and never gives one back. */
  lemma TakenByAction(mls: Mls, m: Member, action: Action, n: nat, channel: Uuid, device: Uuid,
                      sent: seq<PlaintextEvent>)
    requires Consistent(mls, m, n) && 0 < n <= U64_MAX && ChainValid(mls, sent)
    requires TakenFrom(m, channel, device) <= sent
    requires var accepted := AcceptedBy(mls, m, action);
             accepted.Some? && accepted.value.channelId == channel && accepted.value.senderDeviceId == device ==>
               accepted.value in sent
    ensures Consistent(mls, Perform(mls, m, action), n + 1)
    ensures var accepted := AcceptedBy(mls, m, action);
            var taken' := TakenFrom(Perform(mls, m, action), channel, device);
            && taken' <= sent
            && |taken'| == |TakenFrom(m, channel, device)|
                           + if accepted.Some? && accepted.value.channelId == channel
                                && accepted.value.senderDeviceId == device then 1 else 0
  {
    hide Perform, ChainValid, Consistent, AcceptedBy;
    PerformIsConsistent(mls, m, action, n);
    EndToEnd.AcceptedExtends(mls, m, action, channel, device);
    var accepted := AcceptedBy(mls, m, action);
    if accepted.Some? && accepted.value.channelId == channel && accepted.value.senderDeviceId == device {
      AcceptedIsNext(mls, m, action, n, channel, device, sent);
    }
  }

  /** What the next delivery of the device is, and what the receiver knows of it. */
  lemma NextIsDue(mls: Mls, r: Receiving, inbox: seq<DeliveredEvent>, channel: Uuid, device: Uuid,
                  sent: seq<PlaintextEvent>)
    requires InSequence(inbox, channel, device, sent)
    requires r.through < |inbox| && inbox[r.through].senderDeviceId == device
    requires OpensToItsEvent(mls, r.member, inbox[r.through], sent)
    ensures var delivered, due := inbox[r.through], Due(inbox, r.through, device);
            && due < |sent| && delivered.receipt.channelId == channel && delivered.senderCounter == due + 1
            && ContentOf(mls, r.member.client, delivered) == Some(sent[due]) && sent[due].senderDeviceId == device
            && channel in r.member.client.channels
            && (sent[due].eventId in r.member.client.channels[channel].seenEventIds ==>
                  due < |TakenFrom(r.member, channel, device)|)
  {
    hide ContentOf, OpenDelivered, RecordIncoming, Continues, Due, TakenFrom, Filter;
    var delivered := inbox[r.through];
    OneMoreDue(inbox, r.through, device);
    assert delivered in inbox;
    OpenedContent(mls, r.member.client, delivered);
    DeliveredContent(mls, r.member.client, delivered);
  }

  /** The next delivery of the device is never out of chain, and is taken unless it was already. */
  lemma NextIsTaken(mls: Mls, r: Receiving, inbox: seq<DeliveredEvent>, channel: Uuid, device: Uuid,
                    sent: seq<PlaintextEvent>, n: nat)
    requires UpToDate(mls, r, inbox, channel, device, sent, n, false) && 0 < n <= U64_MAX
    requires ChainValid(mls, sent) && InSequence(inbox, channel, device, sent)
    requires forall event | event in sent :: EncodeEvent(mls, event).Ok?
    requires r.through < |inbox| && inbox[r.through].senderDeviceId == device
    requires OpensToItsEvent(mls, r.member, inbox[r.through], sent)
    ensures var answer := OpenDelivered(mls, r.member.client, inbox[r.through]).1;
            var taken, due := TakenFrom(r.member, channel, device), Due(inbox, r.through, device);
            && due < |sent|
            && answer != Err(InvalidSenderChain)
            && (|taken| == due ==> answer == Ok(sent[due]))
            && (answer.Ok? ==> answer.value == sent[due] && |taken| == due)
  {
    hide Conserved, ShorterThan, EncodeEvent, ContentOf, OpenDelivered, InSequence, OpensToItsEvent, ChainValid, Due,
      RecordIncoming;
    var delivered, due := inbox[r.through], Due(inbox, r.through, device);
    NextIsDue(mls, r, inbox, channel, device, sent);
    var event, taken := sent[due], TakenFrom(r.member, channel, device);
    assert event in sent;
    OpenedContent(mls, r.member.client, delivered);
    TakenIsShort(mls, r.member, channel, device, n);
    OutOfChainOnlyAfterAMiss(mls, r.member, n, delivered, sent);
    var state := r.member.client.channels[channel];
    assert Remembers(mls, state, PastIn(r.member, channel));
    AcceptsExactlyTheNext(mls, state, PastIn(r.member, channel), device, sent, due);
    if due < |taken| {
      assert taken[due] == event && taken[due] in taken;
      assert event.eventId in state.seenEventIds;
    }
  }

  lemma TakenIsShort(mls: Mls, m: Member, channel: Uuid, device: Uuid, n: nat)
    requires Consistent(mls, m, n) && 0 < n
    ensures |TakenFrom(m, channel, device)| < n
  {
    hide Remembers, Conserved;
    if channel in m.pasts {
      assert ShorterThan(PastIn(m, channel), n);
    }
  }

  lemma OpenedIsFrom(mls: Mls, c: Client, delivered: DeliveredEvent)
    ensures var r := OpenDelivered(mls, c, delivered).1;
            r.Ok? ==> r.value.senderDeviceId == delivered.senderDeviceId
                      && r.value.channelId == delivered.receipt.channelId
  {
    hide Open;
    var message := Base64Url.DecodeMessage(delivered.mlsMessage, true);
    if message.Ok? && Open(mls, c, delivered.receipt.channelId, message.value, Some(delivered)).1.Ok? {
      var _ := AcceptedIsBound(mls, c, delivered.receipt.channelId, message.value, Some(delivered));
    }
  }

  lemma AcceptedByOpening(mls: Mls, m: Member, delivered: DeliveredEvent)
    ensures AcceptedBy(mls, m, Act(DecryptDelivered(delivered), true))
            == var r := OpenDelivered(mls, m.client, delivered).1; if r.Ok? then Some(r.value) else None
  {
    hide OpenDelivered;
  }

  predicate TakesFrom(accepted: Option<PlaintextEvent>, channel: Uuid, device: Uuid) {
    accepted.Some? && accepted.value.channelId == channel && accepted.value.senderDeviceId == device
  }

  /** Opening takes the due event exactly if the delivery is the device's and the event not yet taken. */
  lemma WhatOpeningTakes(mls: Mls, r: Receiving, inbox: seq<DeliveredEvent>, channel: Uuid, device: Uuid,
                         sent: seq<PlaintextEvent>, n: nat)
    requires UpToDate(mls, r, inbox, channel, device, sent, n, false) && 0 < n <= U64_MAX
    requires ChainValid(mls, sent) && InSequence(inbox, channel, device, sent)
    requires forall event | event in sent :: EncodeEvent(mls, event).Ok?
    requires Honest(mls, r, inbox, channel, device, sent, Opens) && r.through < |inbox|
    ensures var accepted := AcceptedBy(mls, r.member, Act(DecryptDelivered(inbox[r.through]), true));
            && (TakesFrom(accepted, channel, device) <==>
                  && inbox[r.through].senderDeviceId == device
                  && |TakenFrom(r.member, channel, device)| == Due(inbox, r.through, device))
            && (TakesFrom(accepted, channel, device) ==> accepted.value in sent)
  {
    hide UpToDate, ChainValid, AcceptedBy, OpenDelivered, EncodeEvent, OpensToItsEvent, Due;
    var delivered := inbox[r.through];
    OpenedIsFrom(mls, r.member.client, delivered);
    AcceptedByOpening(mls, r.member, delivered);
    DueIsSent(inbox, channel, delivered);
    if delivered.senderDeviceId == device {
      NextIsTaken(mls, r, inbox, channel, device, sent, n);
    }
  }

  lemma OpenStep(mls: Mls, r: Receiving, inbox: seq<DeliveredEvent>, channel: Uuid, device: Uuid,
                 sent: seq<PlaintextEvent>, n: nat, only: bool)
    requires UpToDate(mls, r, inbox, channel, device, sent, n, only) && 0 < n <= U64_MAX
    requires ChainValid(mls, sent) && InSequence(inbox, channel, device, sent)
    requires forall event | event in sent :: EncodeEvent(mls, event).Ok?
    requires Honest(mls, r, inbox, channel, device, sent, Opens) && r.through < |inbox|
    ensures UpToDate(mls, Next(mls, r, inbox, Opens), inbox, channel, device, sent, n + 1, only)
  {
    hide Perform, ChainValid, Consistent, AcceptedBy, InSequence, EncodeEvent, Honest, Due, TakenFrom;
    OneMoreDue(inbox, r.through, device);
    WhatOpeningTakes(mls, r, inbox, channel, device, sent, n);
    TakenByAction(mls, r.member, Act(DecryptDelivered(inbox[r.through]), true), n, channel, device, sent);
  }

  lemma DueIsSent(inbox: seq<DeliveredEvent>, channel: Uuid, delivered: DeliveredEvent)
    requires delivered in inbox && forall d | d in inbox :: d.receipt.channelId == channel
    ensures delivered.receipt.channelId == channel
  {
  }

  lemma DoStep(mls: Mls, r: Receiving, inbox: seq<DeliveredEvent>, channel: Uuid, device: Uuid,
               sent: seq<PlaintextEvent>, n: nat, only: bool, action: Action)
    requires UpToDate(mls, r, inbox, channel, device, sent, n, only) && 0 < n <= U64_MAX && ChainValid(mls, sent)
    requires Honest(mls, r, inbox, channel, device, sent, Does(action))
    requires var accepted := AcceptedBy(mls, r.member, action);
             only ==>
               !(accepted.Some? && accepted.value.channelId == channel && accepted.value.senderDeviceId == device)
    ensures UpToDate(mls, Next(mls, r, inbox, Does(action)), inbox, channel, device, sent, n + 1, only)
  {
    hide Perform, ChainValid, Consistent, AcceptedBy, Due;
    TakenByAction(mls, r.member, action, n, channel, device, sent);
  }

  lemma IdleStep(mls: Mls, r: Receiving, inbox: seq<DeliveredEvent>, channel: Uuid, device: Uuid,
                 sent: seq<PlaintextEvent>, n: nat, only: bool)
    requires UpToDate(mls, r, inbox, channel, device, sent, n, only)
    ensures UpToDate(mls, r, inbox, channel, device, sent, n + 1, only)
  {
    hide Remembers, Conserved;
  }

  /**
   * A receiver present from the start that goes through a device's deliveries in order has, at
   * every moment, taken at least as many of its events as it has been through.
   */
  lemma {:induction false} ReceiverKeepsUp(mls: Mls, start: Member, inbox: seq<DeliveredEvent>, channel: Uuid,
                                           device: Uuid, sent: seq<PlaintextEvent>, doings: seq<Doing>, only: bool)
    requires Unjoined(start) && |doings| < U64_MAX && ChainValid(mls, sent)
    requires InSequence(inbox, channel, device, sent)
    requires forall event | event in sent :: EncodeEvent(mls, event).Ok?
    requires AllHonest(mls, start, inbox, channel, device, sent, doings)
    requires only ==> OnlyDelivered(mls, start, inbox, channel, device, doings)
    ensures UpToDate(mls, Receive(mls, start, inbox, doings), inbox, channel, device, sent, |doings| + 1, only)
  {
    hide UpToDate, Next, Honest, ChainValid, InSequence, EncodeEvent, Unjoined, AcceptedBy;
    if doings == [] {
      StartsUpToDate(mls, start, inbox, channel, device, sent, only);
    } else {
      var earlier, last := doings[..|doings| - 1], doings[|doings| - 1];
      ReceiverKeepsUp(mls, start, inbox, channel, device, sent, earlier, only);
      var r := Receive(mls, start, inbox, earlier);
      if last.Does? {
        DoStep(mls, r, inbox, channel, device, sent, |doings|, only, last.action);
      } else if r.through < |inbox| {
        OpenStep(mls, r, inbox, channel, device, sent, |doings|, only);
      } else {
        NothingToOpen(mls, r, inbox);
        IdleStep(mls, r, inbox, channel, device, sent, |doings|, only);
      }
    }
  }

  lemma NothingToOpen(mls: Mls, r: Receiving, inbox: seq<DeliveredEvent>)
    requires r.through >= |inbox|
    ensures Next(mls, r, inbox, Opens) == r
  {
  }

  lemma StartsUpToDate(mls: Mls, start: Member, inbox: seq<DeliveredEvent>, channel: Uuid, device: Uuid,
                       sent: seq<PlaintextEvent>, only: bool)
    requires Unjoined(start)
    ensures UpToDate(mls, Receiving(start, 0), inbox, channel, device, sent, 1, only)
  {
    UnjoinedIsConsistent(mls, start);
    assert inbox[..0] == [];
  }

  /** Its chain for the device is then the sender's own after the events it has taken. */
  lemma ChainIsTheSenders(mls: Mls, r: Receiving, inbox: seq<DeliveredEvent>, channel: Uuid, device: Uuid,
                          sent: seq<PlaintextEvent>, n: nat, only: bool)
    requires UpToDate(mls, r, inbox, channel, device, sent, n, only) && ChainValid(mls, sent)
    ensures var k := |TakenFrom(r.member, channel, device)|;
            && k <= |sent| && ChainValid(mls, sent[..k])
            && (channel in r.member.client.channels ==>
                  IncomingChain(r.member.client.channels[channel], device) == ChainOf(mls, sent[..k]))
  {
    hide Conserved, ShorterThan;
    var taken := TakenFrom(r.member, channel, device);
    assert sent[..|taken|] == taken;
    ChainPrefix(mls, sent, |taken|);
    if channel in r.member.client.channels {
      RememberedChain(mls, r.member.client.channels[channel], PastIn(r.member, channel), device);
    }
  }
}
