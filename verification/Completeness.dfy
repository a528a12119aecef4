/**
 * End-to-end completeness: sender, vault, worker and network of one system, the relay's log, a
 * reader of one channel, and the client that opens what the reader receives.
 */
module Completeness {
  import opened Wrappers
  import opened Protocol
  import opened Sequences
  import opened VaultStore
  import opened MlsTypes
  import opened RelayStore
  import opened RelayHistory
  import opened RelayLifetime
  import opened SenderChains
  import opened DeliveryLanes
  import opened ReceiverRuns
  import opened EndToEnd
  import opened ClientOperations
  import MemberRuns
  import OutboxWorker
  import Base64Url
  import Persistence
  import CursorReader
  import Pipeline
  import PipelineInvariant
  import PipelineGuarantees

  function FromIn(channel: Uuid, device: Uuid): LogEntry -> bool {
    (entry: LogEntry) => entry.stored.request.channelId == channel && entry.stored.request.senderDeviceId == device
  }

  /** The device's acceptances in the channel, as a poll delivers them. */
  function DeliveriesOf(log: seq<LogEntry>, channel: Uuid, device: Uuid): seq<DeliveredEvent> {
    Map(Filter(log, FromIn(channel, device)), DeliveredOf)
  }

  /** No acceptance of the device had expired when the reader first polled after it. */
  ghost predicate MissesNothing(trace: CursorReader.Trace, channel: Uuid, device: Uuid) {
    forall i | 0 <= i < |trace.h.log| && FromIn(channel, device)(trace.h.log[i]) ::
      var first := CursorReader.FirstPollAfter(trace.h.log[i].born, trace.polls);
      first.Some? && first.value < |trace.h.clock| ==> LiveNow(trace.h.log[i], trace.h.clock[..first.value + 1])
  }

  /** The part of the log from before a call. */
  lemma {:induction false} SplitByBirth(log: seq<LogEntry>, b: int) returns (c: nat)
    requires BornInOrder(log)
    ensures c <= |log|
    ensures forall i | 0 <= i < |log| :: i < c <==> log[i].born < b
  {
    c := 0;
    if log != [] {
      var init := log[..|log| - 1];
      c := SplitByBirth(init, b);
      if log[|log| - 1].born < b {
        c := |log|;
      }
    }
  }

  function LastPoll(polls: seq<nat>): int { if polls == [] then 0 else polls[|polls| - 1] }

  lemma {:induction false} PolledAfter(born: nat, polls: seq<nat>)
    requires forall i, j | 0 <= i < j < |polls| :: polls[i] < polls[j]
    ensures CursorReader.FirstPollAfter(born, polls).Some? <==> born < LastPoll(polls)
  {
    CursorReader.FirstPollIsFirst(born, polls);
    if born < LastPoll(polls) {
      assert polls[|polls| - 1] in polls;
    }
  }

  function SeenFrom(channel: Uuid, device: Uuid, clock: seq<Time>, polls: seq<nat>): LogEntry -> bool {
    (entry: LogEntry) => FromIn(channel, device)(entry) && CursorReader.Seen(entry, clock, polls)
  }

  lemma SeenIfPolled(trace: CursorReader.Trace, channel: Uuid, device: Uuid, i: nat)
    requires MissesNothing(trace, channel, device) && i < |trace.h.log|
    requires forall r | r in trace.polls :: r < |trace.h.clock|
    requires forall i, j | 0 <= i < j < |trace.polls| :: trace.polls[i] < trace.polls[j]
    ensures SeenFrom(channel, device, trace.h.clock, trace.polls)(trace.h.log[i]) <==>
            FromIn(channel, device)(trace.h.log[i]) && trace.h.log[i].born < LastPoll(trace.polls)
  {
    hide LiveNow, CursorReader.Seen, CursorReader.FirstPollAfter;
    CursorReader.SeenAtFirstPoll(trace.h.log[i], trace.h.clock, trace.polls);
    PolledAfter(trace.h.log[i].born, trace.polls);
  }

  /** What was seen of the device is what was accepted of it before the last poll. */
  lemma SeenIsAPrefix(trace: CursorReader.Trace, channel: Uuid, device: Uuid)
    requires BornInOrder(trace.h.log) && MissesNothing(trace, channel, device)
    requires forall r | r in trace.polls :: r < |trace.h.clock|
    requires forall i, j | 0 <= i < j < |trace.polls| :: trace.polls[i] < trace.polls[j]
    ensures Filter(trace.h.log, SeenFrom(channel, device, trace.h.clock, trace.polls))
            <= Filter(trace.h.log, FromIn(channel, device))
  {
    var log := trace.h.log;
    var seen, from := SeenFrom(channel, device, trace.h.clock, trace.polls), FromIn(channel, device);
    var c := SplitByBirth(log, LastPoll(trace.polls));
    forall i | 0 <= i < |log|
      ensures seen(log[i]) <==> from(log[i]) && i < c
    {
      SeenIfPolled(trace, channel, device, i);
    }
    FilterUpTo(log, c, seen, from);
  }

  lemma FilterUpTo<T>(s: seq<T>, c: nat, f: T -> bool, g: T -> bool)
    requires c <= |s| && forall i | 0 <= i < |s| :: f(s[i]) <==> g(s[i]) && i < c
    ensures Filter(s, f) <= Filter(s, g)
  {
    hide Filter;
    assert s == s[..c] + s[c..];
    FilterAppend(s[..c], s[c..], f);
    FilterSame(s[..c], f, g);
    assert forall i | 0 <= i < |s[c..]| :: s[c..][i] == s[c + i];
    FilterNone(s[c..], f);
    FilterPrefix(s[..c], s, g);
  }

  /** A reader that misses nothing receives the device's acceptances, in order, up to its last poll. */
  lemma ReaderReceivesAll(steps: seq<CursorReader.Step>, instanceMax: ServerTtl, channel: Uuid, device: Uuid)
    requires Count(CursorReader.TraceOf(steps, instanceMax).h.log, channel) <= U64_MAX
    requires MissesNothing(CursorReader.TraceOf(steps, instanceMax), channel, device)
    ensures var inbox := CursorReader.RunSession(steps, channel, instanceMax).received;
            && (forall delivered | delivered in inbox :: delivered.receipt.channelId == channel)
            && Filter(inbox, FromSender(device))
               <= DeliveriesOf(CursorReader.TraceOf(steps, instanceMax).h.log, channel, device)
  {
    CursorReader.SessionIsSound(steps, channel, instanceMax);
    hide CursorReader.RunSession, CursorReader.TraceOf, Count, CursorReader.Seen, MissesNothing, LiveNow;
    var trace := CursorReader.TraceOf(steps, instanceMax);
    SessionFacts(CursorReader.RunSession(steps, channel, instanceMax), trace, channel, instanceMax);
    SeenIsAPrefix(trace, channel, device);
    hide CursorReader.Sound, Filter;
    var seen := CursorReader.SeenIn(channel, trace.h.clock, trace.polls);
    var from := (entry: LogEntry) => entry.stored.request.senderDeviceId == device;
    FilterMap(Filter(trace.h.log, seen), DeliveredOf, FromSender(device), from);
    FilterTwice(trace.h.log, seen, from, SeenFrom(channel, device, trace.h.clock, trace.polls));
    MapPrefix(Filter(trace.h.log, SeenFrom(channel, device, trace.h.clock, trace.polls)),
              Filter(trace.h.log, FromIn(channel, device)), DeliveredOf);
  }

  lemma MapPrefix<S, T>(a: seq<S>, b: seq<S>, f: S -> T)
    requires a <= b
    ensures Map(a, f) <= Map(b, f)
  {
    assert Map(b, f)[..|a|] == Map(a, f);
  }

  lemma SessionFacts(session: CursorReader.Session, trace: CursorReader.Trace, channel: Uuid, instanceMax: ServerTtl)
    requires CursorReader.Sound(session, trace, channel, instanceMax)
    ensures BornInOrder(trace.h.log)
    ensures forall r | r in trace.polls :: r < |trace.h.clock|
    ensures forall i, j | 0 <= i < j < |trace.polls| :: trace.polls[i] < trace.polls[j]
    ensures session.received
            == Map(Filter(trace.h.log, CursorReader.SeenIn(channel, trace.h.clock, trace.polls)), DeliveredOf)
    ensures forall delivered | delivered in session.received :: delivered.receipt.channelId == channel
  {
    hide CursorReader.Seen, LiveNow;
    var seen := CursorReader.SeenIn(channel, trace.h.clock, trace.polls);
    forall delivered | delivered in session.received
      ensures delivered.receipt.channelId == channel
    {
      FilterMapMembers(trace.h.log, seen, DeliveredOf, delivered);
      var entry :| entry in trace.h.log && seen(entry) && DeliveredOf(entry) == delivered;
      var i :| 0 <= i < |trace.h.log| && trace.h.log[i] == entry;
      assert WellFormedEntry(trace.h, instanceMax, i);
    }
  }

  /** The deliveries are of the requests the relay accepted, channel by channel. */
  lemma DeliveredRequests(log: seq<LogEntry>, channel: Uuid, device: Uuid)
    ensures Filter(AcceptedOf(log, device), ToChannel(channel)) == Map(Filter(log, FromIn(channel, device)), RequestOf)
  {
    var inChannel := (entry: LogEntry) => entry.stored.request.channelId == channel;
    FilterMap(Filter(log, FromDevice(device)), RequestOf, ToChannel(channel), inChannel);
    FilterTwice(log, FromDevice(device), inChannel, FromIn(channel, device));
  }

  lemma DeliveryCounter(log: seq<LogEntry>, channel: Uuid, device: Uuid, k: nat)
    requires k < |DeliveriesOf(log, channel, device)|
    ensures |Filter(AcceptedOf(log, device), ToChannel(channel))| == |DeliveriesOf(log, channel, device)|
    ensures DeliveriesOf(log, channel, device)[k].senderCounter
            == Filter(AcceptedOf(log, device), ToChannel(channel))[k].senderCounter
  {
    hide Filter;
    DeliveredRequests(log, channel, device);
  }

  function SentIn(s: Pipeline.System, device: Uuid, channel: Uuid): seq<PlaintextEvent>
    requires device in s.members
  {
    MemberRuns.PastIn(s.members[device], channel).sent
  }

  lemma DeliveriesInSequence(mls: Mls, instanceMax: ServerTtl, s: Pipeline.System, device: Uuid, channel: Uuid,
                             inbox: seq<DeliveredEvent>)
    requires Lawful(mls) && Pipeline.Reachable(mls, instanceMax, s) && device in s.members
    requires forall delivered | delivered in inbox :: delivered.receipt.channelId == channel
    requires Filter(inbox, FromSender(device)) <= DeliveriesOf(s.history.log, channel, device)
    ensures InSequence(inbox, channel, device, SentIn(s, device, channel))
  {
    hide Lawful, Pipeline.Reachable, Filter;
    var sent, deliveries := SentIn(s, device, channel), DeliveriesOf(s.history.log, channel, device);
    var received := Filter(inbox, FromSender(device));
    forall k | 0 <= k < |received|
      ensures received[k].senderCounter == k + 1 && |received| <= |sent|
    {
      assert received[k] == deliveries[k];
      DeliveryCounter(s.history.log, channel, device, k);
      PipelineGuarantees.RelayCountsUp(mls, instanceMax, s, device, channel, k);
    }
    if received != [] {
      assert received[0].senderCounter == 1 && |received| <= |sent|;
    }
  }

  lemma SentIsSound(mls: Mls, instanceMax: ServerTtl, s: Pipeline.System, device: Uuid, channel: Uuid)
    requires Lawful(mls) && Pipeline.Reachable(mls, instanceMax, s) && device in s.members
    ensures ChainValid(mls, SentIn(s, device, channel))
    ensures DistinctIds(SentIn(s, device, channel))
    ensures forall event | event in SentIn(s, device, channel) ::
              && channel in s.members[device].client.channels
              && event.communityId == s.members[device].client.channels[channel].communityId
    ensures forall event | event in SentIn(s, device, channel) :: EncodeEvent(mls, event).Ok?
  {
    hide Lawful, Pipeline.Reachable, MemberRuns.Conserved, EncodeEvent, Named;
    var n := PipelineGuarantees.ReachableKeeps(mls, instanceMax, s);
    assert MemberRuns.Consistent(mls, s.members[device], n) by { ConsistentMember(mls, instanceMax, s, n, device); }
    SentIsAChain(mls, s.members[device], n, channel);
    var m := s.members[device];
    if channel in m.client.channels {
      assert Remembers(mls, m.client.channels[channel], MemberRuns.PastIn(m, channel));
    } else {
      assert MemberRuns.PastIn(m, channel) == NOTHING;
    }
  }

  lemma ConsistentMember(mls: Mls, instanceMax: ServerTtl, s: Pipeline.System, n: nat, device: Uuid)
    requires PipelineInvariant.Invariant(mls, instanceMax, s, n) && device in s.members
    ensures MemberRuns.Consistent(mls, s.members[device], n)
  {
    hide PipelineInvariant.OnDisk, PipelineInvariant.AllInLane, PipelineInvariant.AllTravel, PipelineInvariant.OnlyOurs,
      PipelineInvariant.FlushInOrder, Refines, PipelineInvariant.AllInLog, MemberRuns.Consistent;
  }

  // What the relay delivers is what the device encrypted.

  /** The delivery is of a submission that wraps what was encrypted for the event. */
  ghost predicate SealedFor(mls: Mls, delivered: DeliveredEvent, event: PlaintextEvent) {
    exists submission: SubmitEvent, receipt: AcceptedEvent ::
      && delivered == Delivered(StoredEvent(submission, receipt))
      && receipt.eventId == submission.eventId && receipt.channelId == submission.channelId
      && Carries(mls, submission, event)
  }

  ghost predicate AllSealed(mls: Mls, received: seq<DeliveredEvent>, sent: seq<PlaintextEvent>) {
    |received| <= |sent| && forall k | 0 <= k < |received| :: SealedFor(mls, received[k], sent[k])
  }

  /** The device's k-th acceptance in the channel, and its request among those accepted. */
  lemma DeliveryRequest(h: History, instanceMax: ServerTtl, channel: Uuid, device: Uuid, k: nat)
    returns (entry: LogEntry)
    requires WellFormed(h, instanceMax) && k < |DeliveriesOf(h.log, channel, device)|
    ensures DeliveriesOf(h.log, channel, device)[k] == Delivered(entry.stored)
    ensures |Filter(AcceptedOf(h.log, device), ToChannel(channel))| == |DeliveriesOf(h.log, channel, device)|
    ensures Filter(AcceptedOf(h.log, device), ToChannel(channel))[k] == entry.stored.request
    ensures entry.stored.receipt.eventId == entry.stored.request.eventId
    ensures entry.stored.receipt.channelId == entry.stored.request.channelId
  {
    DeliveredRequests(h.log, channel, device);
    var from := Filter(h.log, FromIn(channel, device));
    FilterMembers(h.log, FromIn(channel, device));
    hide Filter, BornInOrder, NumberedLog, CountersRise, LiveIdsDiffer;
    entry := from[k];
    assert entry in from;
    var i :| 0 <= i < |h.log| && h.log[i] == entry;
    assert WellFormedEntry(h, instanceMax, i);
  }

  lemma DeliveriesAreSealed(mls: Mls, instanceMax: ServerTtl, s: Pipeline.System, device: Uuid, channel: Uuid,
                            received: seq<DeliveredEvent>)
    requires Lawful(mls) && Pipeline.Reachable(mls, instanceMax, s) && device in s.members
    requires received <= DeliveriesOf(s.history.log, channel, device)
    ensures AllSealed(mls, received, SentIn(s, device, channel))
  {
    hide Lawful, Pipeline.Reachable, WellFormed, DeliveriesOf, SentIn, SealedFor;
    RelayIsWellFormed(mls, instanceMax, s);
    forall k | 0 <= k < |received|
      ensures |received| <= |SentIn(s, device, channel)|
      ensures SealedFor(mls, received[k], SentIn(s, device, channel)[k])
    {
      DeliveryIsSealed(mls, instanceMax, s, device, channel, k);
    }
    if received != [] {
      assert SealedFor(mls, received[0], SentIn(s, device, channel)[0]);
    }
  }

  lemma DeliveryIsSealed(mls: Mls, instanceMax: ServerTtl, s: Pipeline.System, device: Uuid, channel: Uuid, k: nat)
    requires Lawful(mls) && Pipeline.Reachable(mls, instanceMax, s) && device in s.members
    requires WellFormed(s.history, instanceMax) && k < |DeliveriesOf(s.history.log, channel, device)|
    ensures |DeliveriesOf(s.history.log, channel, device)| <= |SentIn(s, device, channel)|
    ensures SealedFor(mls, DeliveriesOf(s.history.log, channel, device)[k], SentIn(s, device, channel)[k])
  {
    hide Lawful, Pipeline.Reachable, WellFormed, DeliveriesOf, Filter, AcceptedOf, Carries, Delivered;
    var entry := DeliveryRequest(s.history, instanceMax, channel, device, k);
    PipelineGuarantees.RelayCountsUp(mls, instanceMax, s, device, channel, k);
    assert entry.stored == StoredEvent(entry.stored.request, entry.stored.receipt);
  }

  lemma RelayIsWellFormed(mls: Mls, instanceMax: ServerTtl, s: Pipeline.System)
    requires Lawful(mls) && Pipeline.Reachable(mls, instanceMax, s)
    ensures WellFormed(s.history, instanceMax)
  {
    hide Lawful, Pipeline.Reachable, PipelineInvariant.OnDisk, PipelineInvariant.AllInLane, PipelineInvariant.AllTravel,
      PipelineInvariant.OnlyOurs, PipelineInvariant.FlushInOrder, PipelineInvariant.Remembered,
      PipelineInvariant.AllInLog, WellFormed;
    var _ := PipelineGuarantees.ReachableKeeps(mls, instanceMax, s);
  }

  // What is asked of the library and of the other devices, and what follows for the receiver.

  ghost predicate Encrypted(mls: Mls, event: PlaintextEvent, message: Bytes) {
    exists sender: Client ::
      Encrypt(mls, sender, event).1.Ok? && Encrypt(mls, sender, event).1.value.mlsMessage == message
  }

  /** The receiver is in the event's channel, and the library opens there what was sealed for the event. */
  ghost predicate OpensWhatWasSealed(mls: Mls, c: Client, delivered: DeliveredEvent, event: PlaintextEvent) {
    && event.channelId in c.channels
    && forall message: Bytes ::
         Encrypted(mls, event, message) && Base64Url.FromBytes(message) == Ok(delivered.mlsMessage) ==>
           OpensAsSealed(mls, c, event.senderDeviceId, event, message)
  }

  /** Nobody else's event that the receiver knows has the ID of one of these. */
  ghost predicate NoForeignIds(m: MemberRuns.Member, channel: Uuid, device: Uuid, sent: seq<PlaintextEvent>) {
    forall other | InPast(MemberRuns.PastIn(m, channel), other) && other !in TakenFrom(m, channel, device) ::
      forall event | event in sent :: event.eventId != other.eventId
  }

  /** What is asked of one step. */
  ghost predicate Fair(mls: Mls, r: Receiving, inbox: seq<DeliveredEvent>, channel: Uuid, device: Uuid,
                       sent: seq<PlaintextEvent>, doing: Doing)
  {
    match doing
    case Opens =>
      r.through < |inbox| && inbox[r.through].senderDeviceId == device
      && 0 < inbox[r.through].senderCounter <= |sent| ==>
        && OpensWhatWasSealed(mls, r.member.client, inbox[r.through], sent[inbox[r.through].senderCounter - 1])
        && NoForeignIds(r.member, channel, device, sent)
    case Does(_) => Honest(mls, r, inbox, channel, device, sent, doing)
  }

  ghost predicate AllFair(mls: Mls, start: MemberRuns.Member, inbox: seq<DeliveredEvent>, channel: Uuid, device: Uuid,
                          sent: seq<PlaintextEvent>, doings: seq<Doing>)
  {
    doings == [] ||
    var earlier := doings[..|doings| - 1];
    && AllFair(mls, start, inbox, channel, device, sent, earlier)
    && Fair(mls, Receive(mls, start, inbox, earlier), inbox, channel, device, sent, doings[|doings| - 1])
  }

  /** The receiver, whenever it creates or joins the channel, does so under this community. */
  predicate JoinsOnlyUnder(doings: seq<Doing>, channel: Uuid, community: Uuid) {
    forall k | 0 <= k < |doings| && doings[k].Does? :: MemberRuns.JoinsUnder(doings[k].action, channel, community)
  }

  lemma {:induction false} ReceiverInCommunity(mls: Mls, start: MemberRuns.Member, inbox: seq<DeliveredEvent>,
                                               doings: seq<Doing>, channel: Uuid, community: Uuid)
    requires MemberRuns.Unjoined(start) && JoinsOnlyUnder(doings, channel, community)
    ensures MemberRuns.InCommunity(Receive(mls, start, inbox, doings).member.client, channel, community)
  {
    hide MemberRuns.Perform;
    if doings != [] {
      var earlier, last := doings[..|doings| - 1], doings[|doings| - 1];
      ReceiverInCommunity(mls, start, inbox, earlier, channel, community);
      var r := Receive(mls, start, inbox, earlier);
      if last.Does? {
        MemberRuns.PerformKeepsCommunity(mls, r.member, last.action, channel, community);
      } else if r.through < |inbox| {
        MemberRuns.PerformKeepsCommunity(mls, r.member, MemberRuns.Act(DecryptDelivered(inbox[r.through]), true),
                                         channel, community);
      }
    }
  }

  lemma SealedOpens(mls: Mls, c: Client, delivered: DeliveredEvent, event: PlaintextEvent)
    requires Faithful(mls.eventJson) && Faithful(mls.metadataJson)
    requires MemberRuns.InCommunity(c, event.channelId, event.communityId)
    requires SealedFor(mls, delivered, event) && OpensWhatWasSealed(mls, c, delivered, event)
    ensures ContentOf(mls, c, delivered) == Some(event)
  {
    hide Faithful, Encrypt, ContentOf, OpensAsSealed, Delivered, Base64Url.FromBytes;
    var submission: SubmitEvent, receipt: AcceptedEvent :|
      && delivered == Delivered(StoredEvent(submission, receipt))
      && receipt.eventId == submission.eventId && receipt.channelId == submission.channelId
      && Carries(mls, submission, event);
    var sender: Client :| Wraps(mls, sender, event, submission);
    var message := Encrypt(mls, sender, event).1.value.mlsMessage;
    assert Encrypted(mls, event, message);
    assert delivered.mlsMessage == submission.mlsMessage && sender.deviceId == event.senderDeviceId by {
      SenderIsItsDevice(mls, sender, event, submission, receipt);
    }
    SentEventOpens(mls, sender, event, submission.ttlSeconds, submission, receipt, c);
  }

  lemma DeliveredIsInChannel(mls: Mls, delivered: DeliveredEvent, event: PlaintextEvent)
    requires SealedFor(mls, delivered, event)
    ensures delivered.receipt.channelId == event.channelId
  {
    hide Carries;
    var submission: SubmitEvent, receipt: AcceptedEvent :|
      && delivered == Delivered(StoredEvent(submission, receipt))
      && receipt.eventId == submission.eventId && receipt.channelId == submission.channelId
      && Carries(mls, submission, event);
    CarriesStamp(mls, submission, event);
  }

  lemma SenderIsItsDevice(mls: Mls, sender: Client, event: PlaintextEvent, submission: SubmitEvent,
                          receipt: AcceptedEvent)
    requires Wraps(mls, sender, event, submission)
    ensures sender.deviceId == event.senderDeviceId
    ensures Delivered(StoredEvent(submission, receipt)).mlsMessage == submission.mlsMessage
    ensures Base64Url.FromBytes(Encrypt(mls, sender, event).1.value.mlsMessage) == Ok(submission.mlsMessage)
  {
    hide Base64Url.FromBytes;
  }

  /** An event ID counts as seen only if the event was taken. */
  lemma SeenMeansTaken(mls: Mls, m: MemberRuns.Member, n: nat, channel: Uuid, device: Uuid, sent: seq<PlaintextEvent>,
                       k: nat)
    requires MemberRuns.Consistent(mls, m, n) && channel in m.client.channels
    requires TakenFrom(m, channel, device) <= sent && DistinctIds(sent) && k < |sent|
    requires NoForeignIds(m, channel, device, sent)
    requires sent[k].eventId in m.client.channels[channel].seenEventIds
    ensures k < |TakenFrom(m, channel, device)|
  {
    hide ChainValid, ChainOf, MemberRuns.Conserved, EncodeEvent, InPast;
    var past, taken := MemberRuns.PastIn(m, channel), TakenFrom(m, channel, device);
    assert Remembers(mls, m.client.channels[channel], past);
    assert Named(past, sent[k].eventId);
    var other: PlaintextEvent :| InPast(past, other) && other.eventId == sent[k].eventId;
    assert sent[k] in sent;
    assert other in taken;
    var j :| 0 <= j < |taken| && taken[j] == other;
    assert sent[j] == other;
  }

  lemma FairOpensToItsEvent(mls: Mls, r: Receiving, inbox: seq<DeliveredEvent>, channel: Uuid, device: Uuid,
                            sent: seq<PlaintextEvent>, n: nat, community: Uuid)
    requires Faithful(mls.eventJson) && Faithful(mls.metadataJson) && DistinctIds(sent)
    requires UpToDate(mls, r, inbox, channel, device, sent, n, false)
    requires InSequence(inbox, channel, device, sent) && AllSealed(mls, Filter(inbox, FromSender(device)), sent)
    requires r.through < |inbox| && inbox[r.through].senderDeviceId == device
    requires Fair(mls, r, inbox, channel, device, sent, Opens)
    requires MemberRuns.InCommunity(r.member.client, channel, community)
    requires forall event | event in sent :: event.communityId == community
    ensures OpensToItsEvent(mls, r.member, inbox[r.through], sent)
  {
    hide Faithful, MemberRuns.Consistent, SealedFor, ContentOf, OpensWhatWasSealed, NoForeignIds, DistinctIds, Filter,
      TakenFrom;
    var delivered := inbox[r.through];
    OneMoreDue(inbox, r.through, device);
    var due := Due(inbox, r.through, device);
    assert delivered.senderCounter == due + 1 && SealedFor(mls, delivered, sent[due]);
    assert sent[due] in sent && delivered in inbox;
    DeliveredIsInChannel(mls, delivered, sent[due]);
    SealedOpens(mls, r.member.client, delivered, sent[due]);
    DeliveredContent(mls, r.member.client, delivered);
    if sent[due].eventId in r.member.client.channels[channel].seenEventIds {
      SeenMeansTaken(mls, r.member, n, channel, device, sent, due);
    }
  }

  lemma {:induction false} FairIsHonest(mls: Mls, start: MemberRuns.Member, inbox: seq<DeliveredEvent>, channel: Uuid,
                                        device: Uuid, sent: seq<PlaintextEvent>, doings: seq<Doing>,
                                        community: Uuid)
    requires Faithful(mls.eventJson) && Faithful(mls.metadataJson) && DistinctIds(sent)
    requires MemberRuns.Unjoined(start) && |doings| < U64_MAX && ChainValid(mls, sent)
    requires InSequence(inbox, channel, device, sent) && AllSealed(mls, Filter(inbox, FromSender(device)), sent)
    requires forall event | event in sent :: EncodeEvent(mls, event).Ok?
    requires AllFair(mls, start, inbox, channel, device, sent, doings)
    requires JoinsOnlyUnder(doings, channel, community)
    requires forall event | event in sent :: event.communityId == community
    ensures AllHonest(mls, start, inbox, channel, device, sent, doings)
  {
    hide Faithful, UpToDate, ChainValid, InSequence, EncodeEvent, MemberRuns.Unjoined, AllSealed, DistinctIds, Receive,
      Fair, OpensToItsEvent, AcceptedBy;
    if doings != [] {
      var earlier, last := doings[..|doings| - 1], doings[|doings| - 1];
      FairIsHonest(mls, start, inbox, channel, device, sent, earlier, community);
      ReceiverKeepsUp(mls, start, inbox, channel, device, sent, earlier, false);
      var r := Receive(mls, start, inbox, earlier);
      assert Honest(mls, r, inbox, channel, device, sent, last) by {
        if last.Does? {
          FairDoing(mls, r, inbox, channel, device, sent, last);
        } else if r.through < |inbox| && inbox[r.through].senderDeviceId == device {
          ReceiverInCommunity(mls, start, inbox, earlier, channel, community);
          FairOpensToItsEvent(mls, r, inbox, channel, device, sent, |earlier| + 1, community);
        }
      }
    }
  }

  lemma FairDoing(mls: Mls, r: Receiving, inbox: seq<DeliveredEvent>, channel: Uuid, device: Uuid,
                  sent: seq<PlaintextEvent>, doing: Doing)
    requires Fair(mls, r, inbox, channel, device, sent, doing) && doing.Does?
    ensures Honest(mls, r, inbox, channel, device, sent, doing)
  {
    hide Honest;
  }

  /** The reader polls the relay of this system. */
  ghost predicate SameRelay(s: Pipeline.System, steps: seq<CursorReader.Step>, channel: Uuid, instanceMax: ServerTtl) {
    && CursorReader.RunSession(steps, channel, instanceMax).store == s.store
    && CursorReader.TraceOf(steps, instanceMax).h == s.history
  }

  /**
   * Completeness, from the sender's commits to the receiver's chain. Of a device of the system,
   * a receiver who was there from the start and whose polls missed nothing to expiry has taken
   * all it has been through, and exactly that if nothing came another way; its chain for the
   * device is the sender's own after as many events; and the next delivery is never out of
   * chain, but taken unless the receiver has its event already. Of the library it is asked only
   * that it opens, at this receiver, what it sealed for an event; of the receiver, that it joins
   * the channel under the community the device has it in.
   */
  lemma NothingMissedNothingRefused(mls: Mls, instanceMax: ServerTtl, s: Pipeline.System, device: Uuid, channel: Uuid,
                                    steps: seq<CursorReader.Step>, start: MemberRuns.Member, doings: seq<Doing>,
                                    only: bool, community: Uuid)
    requires Lawful(mls) && Pipeline.Reachable(mls, instanceMax, s) && device in s.members
    requires SameRelay(s, steps, channel, instanceMax) && Count(s.history.log, channel) <= U64_MAX
    requires MissesNothing(CursorReader.TraceOf(steps, instanceMax), channel, device)
    requires MemberRuns.Unjoined(start) && |doings| < U64_MAX
    requires MemberRuns.InCommunity(s.members[device].client, channel, community)
    requires JoinsOnlyUnder(doings, channel, community)
    requires AllFair(mls, start, CursorReader.RunSession(steps, channel, instanceMax).received, channel, device,
                     SentIn(s, device, channel), doings)
    requires only ==> OnlyDelivered(mls, start, CursorReader.RunSession(steps, channel, instanceMax).received, channel,
                                    device, doings)
    ensures var inbox := CursorReader.RunSession(steps, channel, instanceMax).received;
            var sent := SentIn(s, device, channel);
            var r := Receive(mls, start, inbox, doings);
            var k := |TakenFrom(r.member, channel, device)|;
            && r.through <= |inbox|
            && Due(inbox, r.through, device) <= k <= |sent|
            && (only ==> k == Due(inbox, r.through, device))
            && ChainValid(mls, sent[..k])
            && (channel in r.member.client.channels ==>
                  IncomingChain(r.member.client.channels[channel], device) == ChainOf(mls, sent[..k]))
            && (r.through < |inbox| && inbox[r.through].senderDeviceId == device
                && Fair(mls, r, inbox, channel, device, sent, Opens) ==>
                  var answer := OpenDelivered(mls, r.member.client, inbox[r.through]).1;
                  && answer != Err(InvalidSenderChain)
                  && (k == Due(inbox, r.through, device) ==> k < |sent| && answer == Ok(sent[k])))
  {
    hide Lawful, Pipeline.Reachable, CursorReader.RunSession, CursorReader.TraceOf, MissesNothing, Count, ChainValid,
      EncodeEvent, UpToDate, AllFair, AllHonest, OnlyDelivered, OpensToItsEvent, Receive, ChainOf, OpenDelivered,
      IncomingChain, Fair, DistinctIds, AllSealed, Filter, InSequence, Faithful;
    var inbox, sent := CursorReader.RunSession(steps, channel, instanceMax).received, SentIn(s, device, channel);
    ReaderReceivesAll(steps, instanceMax, channel, device);
    DeliveriesInSequence(mls, instanceMax, s, device, channel, inbox);
    DeliveriesAreSealed(mls, instanceMax, s, device, channel, Filter(inbox, FromSender(device)));
    SentIsSound(mls, instanceMax, s, device, channel);
    Persistence.LawfulCodecs(mls);
    FairIsHonest(mls, start, inbox, channel, device, sent, doings, community);
    ReceiverKeepsUp(mls, start, inbox, channel, device, sent, doings, only);
    var r := Receive(mls, start, inbox, doings);
    ChainIsTheSenders(mls, r, inbox, channel, device, sent, |doings| + 1, only);
    UpToDateMeans(mls, r, inbox, channel, device, sent, |doings| + 1, only);
    if r.through < |inbox| && inbox[r.through].senderDeviceId == device
       && Fair(mls, r, inbox, channel, device, sent, Opens) {
      ReceiverInCommunity(mls, start, inbox, doings, channel, community);
      FairOpensToItsEvent(mls, r, inbox, channel, device, sent, |doings| + 1, community);
      NextIsTaken(mls, r, inbox, channel, device, sent, |doings| + 1);
    }
  }

  lemma UpToDateMeans(mls: Mls, r: Receiving, inbox: seq<DeliveredEvent>, channel: Uuid, device: Uuid,
                      sent: seq<PlaintextEvent>, n: nat, only: bool)
    requires UpToDate(mls, r, inbox, channel, device, sent, n, only)
    ensures UpToDate(mls, r, inbox, channel, device, sent, n, false)
    ensures r.through <= |inbox| && Due(inbox, r.through, device) <= |TakenFrom(r.member, channel, device)|
    ensures only ==> |TakenFrom(r.member, channel, device)| == Due(inbox, r.through, device)
  {
    hide MemberRuns.Consistent;
  }

  // Every life of the system is such a session, whichever of its polls are the reader's.

  /** One action, as the relay and the reader see it; `own` is whether a poll is the reader's. */
  ghost function SeenAs(mls: Mls, s: Pipeline.System, action: Pipeline.Action, channel: Uuid, own: bool)
    : seq<CursorReader.Step>
  {
    match action
    case RelayServes(payload, at) =>
      if payload in s.sent && mls.submitJson.decode(payload).Some? then
        [CursorReader.Traffic(Submit(mls.submitJson.decode(payload).value, at))]
      else []
    case RelayServesOthers(request, at) =>
      if request.senderDeviceId in s.members then [] else [CursorReader.Traffic(Submit(request, at))]
    case RelayIsPolled(of, cursor, now) =>
      if own then [CursorReader.Read(now)] else [CursorReader.Traffic(Poll(of, cursor, now))]
    case _ => []
  }

  lemma OneMoreSeen(mls: Mls, instanceMax: ServerTtl, s: Pipeline.System, action: Pipeline.Action, channel: Uuid,
                    own: bool, steps: seq<CursorReader.Step>)
    requires SameRelay(s, steps, channel, instanceMax)
    ensures SameRelay(Pipeline.Apply(mls, instanceMax, s, action), steps + SeenAs(mls, s, action, channel, own),
                      channel, instanceMax)
    ensures CursorReader.TraceOf(steps + SeenAs(mls, s, action, channel, own), instanceMax).polls
            == CursorReader.TraceOf(steps, instanceMax).polls
               + if own && action.RelayIsPolled? then [|s.history.clock|] else []
  {
    hide CursorReader.RunSession, CursorReader.TraceOf, Persistence.Transact, Persistence.QueueOutgoing,
      Persistence.Load, MemberRuns.Perform, OutboxWorker.StartTurn, OutboxWorker.EndTurn, Accept, AcceptH, PruneExpired;
    var seen := SeenAs(mls, s, action, channel, own);
    if seen == [] {
      assert steps + seen == steps;
    } else {
      assert seen == [seen[0]];
      OneMoreStep(steps, seen[0], channel, instanceMax);
    }
  }

  lemma OneMoreStep(steps: seq<CursorReader.Step>, step: CursorReader.Step, channel: Uuid, instanceMax: ServerTtl)
    ensures CursorReader.RunSession(steps + [step], channel, instanceMax)
            == CursorReader.Advance(CursorReader.RunSession(steps, channel, instanceMax), step, channel, instanceMax)
    ensures CursorReader.TraceOf(steps + [step], instanceMax)
            == CursorReader.AdvanceT(CursorReader.TraceOf(steps, instanceMax), step, instanceMax)
  {
    hide CursorReader.Advance, CursorReader.AdvanceT;
    assert (steps + [step])[..|steps|] == steps;
  }

  /** Step i of the life can be a poll of the channel. */
  ghost predicate Polled(mls: Mls, instanceMax: ServerTtl, life: seq<Pipeline.System>, i: nat, channel: Uuid)
    requires i + 1 < |life|
  {
    exists cursor: U64, now: Time ::
      life[i + 1] == Pipeline.Apply(mls, instanceMax, life[i], Pipeline.RelayIsPolled(channel, cursor, now))
  }

  /** The reader's polls are those of the channel among the steps in `own`. */
  ghost predicate ReadsAre(mls: Mls, instanceMax: ServerTtl, life: seq<Pipeline.System>, i: nat, channel: Uuid,
                           own: set<nat>, polls: seq<nat>)
    requires i < |life|
  {
    && (forall t | 0 <= t < i && t in own && Polled(mls, instanceMax, life, t, channel) ::
          |life[t].history.clock| in polls)
    && (forall r | r in polls ::
          exists t | 0 <= t < i && t in own && Polled(mls, instanceMax, life, t, channel) ::
            |life[t].history.clock| == r)
  }

  /**
   * For every life of the system and every choice of its polls of the channel there is a session
   * of this relay in which exactly those are the reader's. A poll leaves the same relay behind
   * whatever its cursor; the session's reader passes the last number it saw.
   */
  lemma {:induction false} LifeIsASession(mls: Mls, instanceMax: ServerTtl, life: seq<Pipeline.System>, i: nat,
                                          channel: Uuid, own: set<nat>)
    returns (steps: seq<CursorReader.Step>)
    requires Pipeline.Life(mls, instanceMax, life) && i < |life|
    ensures SameRelay(life[i], steps, channel, instanceMax)
    ensures ReadsAre(mls, instanceMax, life, i, channel, own, CursorReader.TraceOf(steps, instanceMax).polls)
  {
    hide Pipeline.Apply, SeenAs, SameRelay, Polled, CursorReader.TraceOf, ReadsAre;
    if i == 0 {
      steps := [];
      FirstSeen(mls, life[0], channel, instanceMax);
      NothingRead(mls, instanceMax, life, channel, own);
    } else {
      var earlier := LifeIsASession(mls, instanceMax, life, i - 1, channel, own);
      var ours := i - 1 in own && Polled(mls, instanceMax, life, i - 1, channel);
      var action := ActionAt(mls, instanceMax, life, i - 1, channel, ours);
      OneMoreSeen(mls, instanceMax, life[i - 1], action, channel, ours, earlier);
      steps := earlier + SeenAs(mls, life[i - 1], action, channel, ours);
      OneMoreRead(mls, instanceMax, life, i - 1, channel, own, CursorReader.TraceOf(earlier, instanceMax).polls,
                  CursorReader.TraceOf(steps, instanceMax).polls);
    }
  }

  lemma ActionAt(mls: Mls, instanceMax: ServerTtl, life: seq<Pipeline.System>, i: nat, channel: Uuid, ours: bool)
    returns (action: Pipeline.Action)
    requires Pipeline.Life(mls, instanceMax, life) && i + 1 < |life|
    requires ours ==> Polled(mls, instanceMax, life, i, channel)
    ensures life[i + 1] == Pipeline.Apply(mls, instanceMax, life[i], action)
    ensures ours ==> action.RelayIsPolled?
  {
    hide Pipeline.Apply;
    if ours {
      var cursor: U64, now: Time :|
        life[i + 1] == Pipeline.Apply(mls, instanceMax, life[i], Pipeline.RelayIsPolled(channel, cursor, now));
      action := Pipeline.RelayIsPolled(channel, cursor, now);
    } else {
      assert Pipeline.Steps(mls, instanceMax, life, i);
      action :| life[i + 1] == Pipeline.Apply(mls, instanceMax, life[i], action);
    }
  }

  lemma OneMoreRead(mls: Mls, instanceMax: ServerTtl, life: seq<Pipeline.System>, i: nat, channel: Uuid, own: set<nat>,
                    polls: seq<nat>, polls': seq<nat>)
    requires i + 1 < |life| && ReadsAre(mls, instanceMax, life, i, channel, own, polls)
    requires polls' == polls + if i in own && Polled(mls, instanceMax, life, i, channel)
                               then [|life[i].history.clock|] else []
    ensures ReadsAre(mls, instanceMax, life, i + 1, channel, own, polls')
  {
    hide Polled;
    if i in own && Polled(mls, instanceMax, life, i, channel) {
      assert polls'[|polls|] == |life[i].history.clock|;
    }
    forall r | r in polls'
      ensures exists t | 0 <= t < i + 1 && t in own && Polled(mls, instanceMax, life, t, channel) ::
                |life[t].history.clock| == r
    {
      if r in polls {
        var t :| 0 <= t < i && t in own && Polled(mls, instanceMax, life, t, channel) && |life[t].history.clock| == r;
        assert t < i + 1;
      } else {
        assert i < i + 1 && |life[i].history.clock| == r;
      }
    }
  }

  lemma FirstSeen(mls: Mls, s: Pipeline.System, channel: Uuid, instanceMax: ServerTtl)
    requires Pipeline.Initial(mls, s)
    ensures SameRelay(s, [], channel, instanceMax)
    ensures CursorReader.TraceOf([], instanceMax).polls == []
  {
  }

  lemma NothingRead(mls: Mls, instanceMax: ServerTtl, life: seq<Pipeline.System>, channel: Uuid, own: set<nat>)
    requires life != []
    ensures ReadsAre(mls, instanceMax, life, 0, channel, own, [])
  {
  }
}
