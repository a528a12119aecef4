/**
 * One device's way to the relay: what it ever committed, what of it is still in the outbox,
 * and what of it the relay has accepted.
 */
module DeliveryLanes {
  import opened Wrappers
  import opened Protocol
  import opened Sequences
  import opened VaultStore
  import opened MlsTypes
  import opened ClientOperations
  import opened Persistence
  import opened OutboxWorker
  import opened RelayStore
  import opened RelayHistory
  import opened SenderChains

  datatype Lane = Lane(queued: seq<SubmitEvent>, pending: seq<OutboxItem>, accepted: seq<SubmitEvent>)

  function RowOf(mls: Mls, device: Uuid): SubmitEvent -> OutboxItem {
    (submission: SubmitEvent) => OutboxItemOf(mls, device, submission)
  }

  function FromDevice(device: Uuid): LogEntry -> bool {
    (entry: LogEntry) => entry.stored.request.senderDeviceId == device
  }

  function RequestOf(entry: LogEntry): SubmitEvent { entry.stored.request }

  /** What the relay has accepted from a device, in order, over its whole life. */
  function AcceptedOf(log: seq<LogEntry>, device: Uuid): seq<SubmitEvent> {
    Map(Filter(log, FromDevice(device)), RequestOf)
  }

  /** How many of the device's rows have left the outbox. */
  function AckCount(lane: Lane): int { |lane.queued| - |lane.pending| }

  /**
   * With j rows acknowledged, the outbox is `queued[j..]`; the relay has accepted exactly
   * `queued[..m]`; and m is j or j + 1.
   */
  ghost predicate InLane(mls: Mls, lane: Lane, device: Uuid) {
    var j, m := AckCount(lane), |lane.accepted|;
    && 0 <= j <= m <= j + 1 && m <= |lane.queued|
    && lane.pending == Map(lane.queued[j..], RowOf(mls, device))
    && lane.accepted == lane.queued[..m]
    && AllFrom(lane.queued, device)
  }

  ghost predicate AllFrom(requests: seq<SubmitEvent>, device: Uuid) {
    forall i | 0 <= i < |requests| :: requests[i].senderDeviceId == device
  }

  /** The request is for a row already acknowledged, or for the oldest one that is not. */
  ghost predicate MayTravel(lane: Lane, request: SubmitEvent) {
    exists i | 0 <= i < |lane.queued| && i <= AckCount(lane) :: lane.queued[i] == request
  }

  ghost predicate Distinct(requests: seq<SubmitEvent>) {
    forall i, j | 0 <= i < j < |requests| :: requests[i] != requests[j]
  }

  lemma QueueKeepsLane(mls: Mls, lane: Lane, device: Uuid, submission: SubmitEvent)
    requires InLane(mls, lane, device) && submission.senderDeviceId == device
    ensures InLane(mls, Lane(lane.queued + [submission], lane.pending + [OutboxItemOf(mls, device, submission)],
                             lane.accepted), device)
  {
    var j := AckCount(lane);
    assert (lane.queued + [submission])[j..] == lane.queued[j..] + [submission];
    assert (lane.queued + [submission])[..|lane.accepted|] == lane.queued[..|lane.accepted|];
  }

  lemma QueueKeepsTravel(lane: Lane, submission: SubmitEvent, row: OutboxItem, request: SubmitEvent)
    requires MayTravel(lane, request)
    ensures MayTravel(Lane(lane.queued + [submission], lane.pending + [row], lane.accepted), request)
  {
    var i :| 0 <= i < |lane.queued| && i <= AckCount(lane) && lane.queued[i] == request;
    assert (lane.queued + [submission])[i] == request;
  }

  lemma NotInPrefix<T>(s: seq<T>, m: nat, i: nat)
    requires m <= |s| && i < |s| && s[i] !in s[..m]
    ensures i >= m
  {
  }

  /** A request on the wire that the relay has not accepted yet is the next one due. */
  lemma NotAcceptedIsDue(mls: Mls, lane: Lane, device: Uuid, request: SubmitEvent)
    requires InLane(mls, lane, device) && MayTravel(lane, request) && request !in lane.accepted
    ensures AckCount(lane) == |lane.accepted| < |lane.queued|
    ensures lane.queued[|lane.accepted|] == request
  {
    var i: nat :| i < |lane.queued| && i <= AckCount(lane) && lane.queued[i] == request;
    hide MayTravel, RowOf, AllFrom;
    NotInPrefix(lane.queued, |lane.accepted|, i);
  }

  lemma AcceptKeepsLane(mls: Mls, lane: Lane, device: Uuid, request: SubmitEvent)
    requires InLane(mls, lane, device) && MayTravel(lane, request) && request !in lane.accepted
    ensures InLane(mls, lane.(accepted := lane.accepted + [request]), device)
  {
    NotAcceptedIsDue(mls, lane, device, request);
    hide MayTravel, RowOf, AllFrom;
    var m := |lane.accepted|;
    assert lane.queued[..m + 1] == lane.queued[..m] + [request];
  }

  /** Acknowledging the oldest row is right if the relay has accepted its request. */
  lemma AcknowledgeKeepsLane(mls: Mls, lane: Lane, device: Uuid, request: SubmitEvent)
    requires InLane(mls, lane, device) && Distinct(lane.queued) && lane.pending != []
    requires lane.queued[AckCount(lane)] == request && request in lane.accepted
    ensures InLane(mls, lane.(pending := lane.pending[1..]), device)
  {
    var j := AckCount(lane);
    var i :| 0 <= i < |lane.accepted| && lane.accepted[i] == request;
    assert lane.queued[i] == request && i == j;
    assert lane.queued[j..][1..] == lane.queued[j + 1..];
  }

  lemma AcknowledgeKeepsTravel(lane: Lane, request: SubmitEvent)
    requires MayTravel(lane, request) && lane.pending != []
    ensures MayTravel(lane.(pending := lane.pending[1..]), request)
  {
    var i :| 0 <= i < |lane.queued| && i <= AckCount(lane) && lane.queued[i] == request;
    assert i <= AckCount(lane.(pending := lane.pending[1..]));
  }

  /** What the worker reads back from the oldest row is the submission it was made from. */
  lemma HeadIsDue(mls: Mls, lane: Lane, device: Uuid, submission: SubmitEvent)
    requires Faithful(mls.submitJson) && InLane(mls, lane, device) && lane.pending != []
    requires mls.submitJson.encode(submission) == lane.pending[0].payload
    ensures lane.queued[AckCount(lane)] == submission && MayTravel(lane, submission)
  {
    var due := lane.queued[AckCount(lane)..][0];
    assert lane.pending[0] == OutboxItemOf(mls, device, due);
    assert mls.submitJson.decode(mls.submitJson.encode(due)) == Some(due);
    assert mls.submitJson.decode(mls.submitJson.encode(submission)) == Some(submission);
  }

  lemma AcceptedExtends(log: seq<LogEntry>, entry: LogEntry, device: Uuid)
    ensures AcceptedOf(log + [entry], device)
            == if entry.stored.request.senderDeviceId == device then AcceptedOf(log, device) + [entry.stored.request]
               else AcceptedOf(log, device)
  {
    FilterLast(log, entry, FromDevice(device));
  }

  lemma AcceptedMembers(log: seq<LogEntry>, device: Uuid, request: SubmitEvent)
    ensures request in AcceptedOf(log, device) <==>
            request.senderDeviceId == device && exists i | 0 <= i < |log| :: log[i].stored.request == request
  {
    FilterMapMembers(log, FromDevice(device), RequestOf, request);
    if i :| 0 <= i < |log| && log[i].stored.request == request {
      assert log[i] in log;
    }
  }

  /** What a submission shows of the event inside. */
  datatype Stamp = Stamp(eventId: EventId, communityId: Uuid, channelId: Uuid, senderDeviceId: Uuid, counter: U64)

  function StampOfSubmission(s: SubmitEvent): Stamp {
    Stamp(s.eventId, s.communityId, s.channelId, s.senderDeviceId, s.senderCounter)
  }

  function StampOfEvent(e: PlaintextEvent): Stamp {
    Stamp(e.eventId, e.communityId, e.channelId, e.senderDeviceId, e.senderCounter)
  }

  /** The submission wraps what `sender` encrypted for the event. */
  ghost predicate Wraps(mls: Mls, sender: Client, event: PlaintextEvent, submission: SubmitEvent) {
    && Encrypt(mls, sender, event).1.Ok?
    && ToSubmitEvent(Encrypt(mls, sender, event).1.value, submission.ttlSeconds) == Ok(submission)
  }

  ghost predicate Carries(mls: Mls, submission: SubmitEvent, event: PlaintextEvent) {
    exists sender: Client :: Wraps(mls, sender, event, submission)
  }

  lemma CarriesStamp(mls: Mls, submission: SubmitEvent, event: PlaintextEvent)
    requires Carries(mls, submission, event)
    ensures StampOfSubmission(submission) == StampOfEvent(event)
  {
    var sender: Client :| Wraps(mls, sender, event, submission);
    hide EncryptObjection;
  }

  function ToChannel(channel: Uuid): SubmitEvent -> bool { (s: SubmitEvent) => s.channelId == channel }

  /** In each channel the queue holds the events sent there, encrypted and in their order. */
  ghost predicate CarriesIn(mls: Mls, queued: seq<SubmitEvent>, sent: seq<PlaintextEvent>, channel: Uuid) {
    var kept := Filter(queued, ToChannel(channel));
    |kept| == |sent| && forall k | 0 <= k < |kept| :: Carries(mls, kept[k], sent[k])
  }

  lemma CarriesOneMore(mls: Mls, queued: seq<SubmitEvent>, sent: seq<PlaintextEvent>, submission: SubmitEvent,
                       event: PlaintextEvent, channel: Uuid)
    requires CarriesIn(mls, queued, sent, channel) && Carries(mls, submission, event)
    ensures CarriesIn(mls, queued + [submission], if event.channelId == channel then sent + [event] else sent, channel)
  {
    CarriesStamp(mls, submission, event);
    FilterLast(queued, submission, ToChannel(channel));
    hide Carries, Filter;
  }

  /** The k-th submission to a channel carries counter k. */
  lemma CountsUp(mls: Mls, queued: seq<SubmitEvent>, sent: seq<PlaintextEvent>, channel: Uuid, k: nat)
    requires CarriesIn(mls, queued, sent, channel) && ChainValid(mls, sent) && k < |Filter(queued, ToChannel(channel))|
    ensures |sent| == |Filter(queued, ToChannel(channel))|
    ensures Filter(queued, ToChannel(channel))[k].senderCounter == k + 1
  {
    hide Filter, Carries;
    CarriesStamp(mls, Filter(queued, ToChannel(channel))[k], sent[k]);
    assert Linked(mls, sent, k);
  }

  /** So of two submissions to one channel the later has the higher counter. */
  lemma LaterCountsHigher(mls: Mls, queued: seq<SubmitEvent>, sent: seq<PlaintextEvent>, channel: Uuid,
                          i: nat, j: nat)
    requires CarriesIn(mls, queued, sent, channel) && ChainValid(mls, sent)
    requires i < j < |queued| && queued[i].channelId == queued[j].channelId == channel
    ensures queued[i].senderCounter < queued[j].senderCounter
  {
    var kept := Filter(queued, ToChannel(channel));
    assert queued == queued[..i] + [queued[i]] + queued[i + 1..];
    var p := FilteredAt(queued, i, ToChannel(channel));
    var q := FilteredAt(queued, j, ToChannel(channel));
    hide Filter, CarriesIn, ChainValid;
    FilteredRise(queued, i, j, ToChannel(channel));
    CountsUp(mls, queued, sent, channel, p);
    CountsUp(mls, queued, sent, channel, q);
  }

  /** Where an element that is kept ends up. */
  lemma FilteredAt<T>(s: seq<T>, i: nat, keep: T -> bool) returns (p: nat)
    requires i < |s| && keep(s[i])
    ensures p == |Filter(s[..i], keep)| < |Filter(s, keep)| && Filter(s, keep)[p] == s[i]
  {
    p := |Filter(s[..i], keep)|;
    FilterLast(s[..i], s[i], keep);
    assert s[..i + 1] == s[..i] + [s[i]];
    FilterPrefix(s[..i + 1], s, keep);
    assert Filter(s[..i + 1], keep)[p] == s[i];
  }

  lemma FilteredRise<T>(s: seq<T>, i: nat, j: nat, keep: T -> bool)
    requires i < j < |s| && keep(s[i])
    ensures |Filter(s[..i], keep)| < |Filter(s[..j], keep)|
  {
    assert s[..j][..i] == s[..i] && s[..j][i] == s[i];
    var p := FilteredAt(s[..j], i, keep);
  }

  ghost predicate CarriesAll(mls: Mls, queued: seq<SubmitEvent>, sent: Uuid -> seq<PlaintextEvent>) {
    forall channel: Uuid :: CarriesIn(mls, queued, sent(channel), channel)
  }

  /** A device never commits one submission twice. */
  lemma QueuedDiffer(mls: Mls, queued: seq<SubmitEvent>, sent: Uuid -> seq<PlaintextEvent>)
    requires CarriesAll(mls, queued, sent) && forall channel: Uuid :: ChainValid(mls, sent(channel))
    ensures Distinct(queued)
  {
    hide CarriesIn, ChainValid;
    forall i, j | 0 <= i < j < |queued|
      ensures queued[i] != queued[j]
    {
      if queued[i].channelId == queued[j].channelId {
        var channel := queued[i].channelId;
        assert CarriesIn(mls, queued, sent(channel), channel);
        LaterCountsHigher(mls, queued, sent(channel), channel, i, j);
      }
    }
  }
}
