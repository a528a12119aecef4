/** When the oldest row of a device moves on, and when it never will. */
module PipelineProgress {
  import opened Wrappers
  import opened Protocol
  import opened Identifiers
  import opened VaultStore
  import opened DeviceQueues
  import opened MlsTypes
  import opened Persistence
  import opened OutboxWorker
  import opened RelayStore
  import opened RelayHistory
  import opened SenderChains
  import opened MemberRuns
  import opened DeliveryLanes
  import opened Pipeline
  import opened PipelineInvariant
  import opened PipelineDelivery
  import opened PipelineGuarantees
  import EndToEnd
  import RelayLifetime

  /** The submission of the device's oldest row. */
  function HeadOf(s: System, device: Uuid): SubmitEvent
    requires 0 <= AckCount(LaneOf(s, device)) < |QueueOf(s, device)|
  {
    QueueOf(s, device)[AckCount(LaneOf(s, device))]
  }

  /** Some acceptance of this request is live, `at` included among the clock readings. */
  ghost predicate LiveAcceptance(h: History, request: SubmitEvent, at: Time) {
    exists i | 0 <= i < |h.log| :: h.log[i].stored.request == request && LiveNow(h.log[i], h.clock + [at])
  }

  /** A device's oldest row, if not accepted yet, has not been overtaken by its own later ones. */
  lemma HeadIsNotOvertaken(mls: Mls, lane: Lane, log: seq<LogEntry>, device: Uuid, sent: seq<PlaintextEvent>)
    requires InLane(mls, lane, device) && lane.pending != [] && lane.accepted == AcceptedOf(log, device)
    requires var request := lane.queued[AckCount(lane)];
             && request !in lane.accepted && request.senderDeviceId == device
             && CarriesIn(mls, lane.queued, sent, request.channelId)
    requires ChainValid(mls, sent)
    ensures !Overtaken(log, lane.queued[AckCount(lane)])
  {
    hide CarriesIn, ChainValid, AcceptedOf;
    var j := AckCount(lane);
    var request := lane.queued[j];
    forall i | 0 <= i < |log| && EntryKey(log[i]) == KeyOf(request)
      ensures log[i].stored.request.senderCounter < request.senderCounter
    {
      AcceptedMembers(log, device, log[i].stored.request);
      var k :| 0 <= k < |lane.accepted| && lane.accepted[k] == log[i].stored.request;
      assert lane.queued[k] == log[i].stored.request;
      LaterCountsHigher(mls, lane.queued, sent, request.channelId, k, j);
    }
  }

  /** The relay's answer to a request it has never accepted and that nothing has overtaken. */
  lemma FirstAnswer(s: StoreData, h: History, instanceMax: ServerTtl, request: SubmitEvent, at: Time)
    requires Refines(s, h, instanceMax) && !Overtaken(h.log, request)
    requires forall i | 0 <= i < |h.log| :: h.log[i].stored.request != request
    ensures Accept(s, request, instanceMax, at).1.Ok? <==> !Held(Tick(h, at), request.eventId)
  {
    hide Refines, Overtaken;
    AcceptRefines(s, h, instanceMax, request, at);
    var h' := AcceptH(h, request, instanceMax, at);
    var r := Accept(s, request, instanceMax, at).1;
    hide Accept;
    if Held(Tick(h, at), request.eventId) {
      assert h'.log == h.log;
    } else {
      var entry := h'.log[|h.log|];
      assert LiveNow(entry, h'.clock) && entry.stored.request == request;
      assert HeldAs(h', StoredEvent(request, entry.stored.receipt));
    }
  }

  /** The relay's answer to a request it has accepted. */
  lemma LaterAnswer(s: StoreData, h: History, instanceMax: ServerTtl, request: SubmitEvent, at: Time)
    requires Refines(s, h, instanceMax)
    requires exists i | 0 <= i < |h.log| :: h.log[i].stored.request == request
    ensures Accept(s, request, instanceMax, at).1.Ok? <==> LiveAcceptance(h, request, at)
    ensures AcceptH(h, request, instanceMax, at).log == h.log
  {
    hide Refines, Overtaken, Held, HeldAs, LiveAcceptance, Accept;
    AcceptedIsOvertaken(h.log, request);
    LiveIsHeld(h, request, at);
    AcceptRefines(s, h, instanceMax, request, at);
  }

  lemma AcceptedIsOvertaken(log: seq<LogEntry>, request: SubmitEvent)
    requires exists i | 0 <= i < |log| :: log[i].stored.request == request
    ensures Overtaken(log, request)
  {
    var k :| 0 <= k < |log| && log[k].stored.request == request;
    assert EntryKey(log[k]) == KeyOf(request);
  }

  lemma LiveIsHeld(h: History, request: SubmitEvent, at: Time)
    ensures LiveAcceptance(h, request, at) <==> exists receipt :: HeldAs(Tick(h, at), StoredEvent(request, receipt))
  {
    hide LiveNow;
    if LiveAcceptance(h, request, at) {
      var i :| 0 <= i < |h.log| && h.log[i].stored.request == request && LiveNow(h.log[i], h.clock + [at]);
      assert Tick(h, at).log[i].stored == StoredEvent(request, h.log[i].stored.receipt);
      assert HeldAs(Tick(h, at), StoredEvent(request, h.log[i].stored.receipt));
    }
  }

  /** What the worker waits for is the oldest row of a device of ours. */
  lemma WaitingIsHead(mls: Mls, instanceMax: ServerTtl, s: System, request: SubmitEvent, n: nat)
    requires Lawful(mls) && Invariant(mls, instanceMax, s, n)
    requires s.flush.InFlush? && s.flush.waiting == Some(request)
    ensures var device := request.senderDeviceId;
            && device in s.members && InLane(mls, LaneOf(s, device), device)
            && 0 <= AckCount(LaneOf(s, device)) < |QueueOf(s, device)| && HeadOf(s, device) == request
            && Pending(s.db, UuidText(device)) != []
  {
    hide OnDisk, AllTravel, OnlyOurs, InOrder, Refines, AllInLog, Remembered, WaitsForHead, InLane, Pending, AcceptedOf;
    LawfulCodecs(mls);
    hide Lawful;
    WaitedFor(mls, s);
    assert InLane(mls, LaneOf(s, request.senderDeviceId), request.senderDeviceId);
    HeadIsDue(mls, LaneOf(s, request.senderDeviceId), request.senderDeviceId, request);
    PendingIsQueued(mls, LaneOf(s, request.senderDeviceId), request.senderDeviceId);
  }

  lemma PendingIsQueued(mls: Mls, lane: Lane, device: Uuid)
    requires InLane(mls, lane, device) && lane.pending != []
    ensures 0 <= AckCount(lane) < |lane.queued|
  {
  }

  lemma WaitingIsNotOvertaken(mls: Mls, instanceMax: ServerTtl, s: System, request: SubmitEvent, n: nat)
    requires Lawful(mls) && Invariant(mls, instanceMax, s, n)
    requires s.flush.InFlush? && s.flush.waiting == Some(request)
    requires request !in AcceptedOf(s.history.log, request.senderDeviceId)
    ensures !Overtaken(s.history.log, request)
  {
    hide Lawful, Overtaken, Consistent, AcceptedOf, InLane, OnDisk, AllInLane, AllTravel, OnlyOurs, FlushInOrder,
      Refines, AllInLog;
    WaitingIsHead(mls, instanceMax, s, request, n);
    var device := request.senderDeviceId;
    EndToEnd.SentIsAChain(mls, s.members[device], n, request.channelId);
    var sent := SentBy(s.members[device])(request.channelId);
    assert CarriesIn(mls, QueueOf(s, device), sent, request.channelId);
    HeadIsNotOvertaken(mls, LaneOf(s, device), s.history.log, device, sent);
  }

  lemma AnsweredAt(mls: Mls, instanceMax: ServerTtl, s: System, n: nat, request: SubmitEvent, at: Time)
    requires Lawful(mls) && Invariant(mls, instanceMax, s, n)
    requires s.flush.InFlush? && s.flush.waiting == Some(request)
    ensures Accept(s.store, request, instanceMax, at).1.Ok? <==> Deliverable(s.history, request, at)
  {
    hide Lawful, Invariant, Refines, Accept, Held, Overtaken, LiveAcceptance, AcceptedOf;
    InvariantRefines(mls, instanceMax, s, n);
    AcceptedMembers(s.history.log, request.senderDeviceId, request);
    if request in AcceptedOf(s.history.log, request.senderDeviceId) {
      LaterAnswer(s.store, s.history, instanceMax, request, at);
    } else {
      WaitingIsNotOvertaken(mls, instanceMax, s, request, n);
      FirstAnswer(s.store, s.history, instanceMax, request, at);
    }
  }

  /** Not accepted yet with no live event under its ID, or accepted and still live. */
  ghost predicate Deliverable(h: History, request: SubmitEvent, at: Time) {
    if request in AcceptedOf(h.log, request.senderDeviceId) then LiveAcceptance(h, request, at)
    else !Held(Tick(h, at), request.eventId)
  }

  /**
   * Progress, exactly: the request the worker waits for is answered with a receipt if and only
   * if it is not yet accepted and no live event has its ID, or it is accepted and still live.
   */
  lemma AnsweredExactlyIf(mls: Mls, instanceMax: ServerTtl, s: System, request: SubmitEvent, at: Time)
    requires Lawful(mls) && Reachable(mls, instanceMax, s)
    requires s.flush.InFlush? && s.flush.waiting == Some(request)
    ensures Accept(s.store, request, instanceMax, at).1.Ok? <==> Deliverable(s.history, request, at)
  {
    hide Lawful, Reachable, Invariant, Accept, Deliverable;
    var n := ReachableKeeps(mls, instanceMax, s);
    AnsweredAt(mls, instanceMax, s, n, request, at);
  }

  /** A receipt the relay makes passes the worker's check, up to 2^64-1 events in the channel. */
  lemma ReceiptsPass(s: StoreData, h: History, instanceMax: ServerTtl, request: SubmitEvent, at: Time)
    requires Refines(s, h, instanceMax) && Count(h.log, request.channelId) < U64_MAX
    ensures var r := Accept(s, request, instanceMax, at).1; r.Ok? ==> ValidReceipt(request, r.value)
  {
    AcceptCounts(h, instanceMax, request, at);
    hide Accept, AcceptH, Refines, Count, HeldAs;
    AcceptRefines(s, h, instanceMax, request, at);
    var h', r := AcceptH(h, request, instanceMax, at), Accept(s, request, instanceMax, at).1;
    if r.Ok? {
      RefinesIsWellFormed(Accept(s, request, instanceMax, at).0, h', instanceMax);
      AcceptedReceiptsPass(h', instanceMax, request, r.value);
    }
  }

  lemma AcceptCounts(h: History, instanceMax: ServerTtl, request: SubmitEvent, at: Time)
    ensures Count(AcceptH(h, request, instanceMax, at).log, request.channelId) <= Count(h.log, request.channelId) + 1
  {
    hide Held, Overtaken, Count;
    var h' := AcceptH(h, request, instanceMax, at);
    if h'.log != h.log {
      CountAppend(h.log, h'.log[|h.log|], request.channelId);
    }
  }

  lemma AcceptedReceiptsPass(h: History, instanceMax: ServerTtl, request: SubmitEvent, receipt: AcceptedEvent)
    requires WellFormed(h, instanceMax) && Count(h.log, request.channelId) <= U64_MAX
    requires HeldAs(h, StoredEvent(request, receipt))
    ensures ValidReceipt(request, receipt)
  {
    var i :| 0 <= i < |h.log| && LiveNow(h.log[i], h.clock) && h.log[i].stored == StoredEvent(request, receipt);
    assert WellFormedEntry(h, instanceMax, i);
    hide Count, NumberedLog, LiveNow, LiveIdsDiffer, CountersRise, BornInOrder;
    RelayLifetime.NumberBounded(h.log, request.channelId, i);
  }

  lemma RefinesIsWellFormed(s: StoreData, h: History, instanceMax: ServerTtl)
    requires Refines(s, h, instanceMax)
    ensures WellFormed(h, instanceMax)
  {
  }

  /** Once answered and heard with the vault open, the row is gone and its device goes on. */
  lemma AnsweredHeadMoves(mls: Mls, instanceMax: ServerTtl, s: System, request: SubmitEvent, at: Time)
    requires Lawful(mls) && Reachable(mls, instanceMax, s) && s.unlocked
    requires s.flush.InFlush? && s.flush.waiting == Some(request) && Count(s.history.log, request.channelId) < U64_MAX
    requires Accept(s.store, request, instanceMax, at).1.Ok?
    ensures var receipt := Accept(s.store, request, instanceMax, at).1.value;
            var s' := HearStep(RelayStep(s, request, instanceMax, at), Receipt(receipt), false);
            var device := UuidText(request.senderDeviceId);
            && Pending(s.db, device) != [] && Pending(s'.db, device) == Pending(s.db, device)[1..]
            && s'.flush.InFlush? && !s'.flush.progress.stopped && device !in s'.flush.progress.blocked
  {
    hide Lawful, Reachable, Invariant, Accept, RelayStep, HearStep, Count, Pending, UuidText, Acknowledge;
    var n := ReachableKeeps(mls, instanceMax, s);
    var item := OutboxItemOf(mls, request.senderDeviceId, request);
    HeardMoves(mls, instanceMax, s, n, request, at);
    HeadTakenFromItsDevice(s.db, Acknowledge(s.db, item.deviceId, item.eventId), item.deviceId);
  }

  /** The row's acknowledgement is all that happens to the disk. */
  lemma HeardMoves(mls: Mls, instanceMax: ServerTtl, s: System, n: nat, request: SubmitEvent, at: Time)
    requires Lawful(mls) && Invariant(mls, instanceMax, s, n) && s.unlocked
    requires s.flush.InFlush? && s.flush.waiting == Some(request) && Count(s.history.log, request.channelId) < U64_MAX
    requires Accept(s.store, request, instanceMax, at).1.Ok?
    ensures var receipt := Accept(s.store, request, instanceMax, at).1.value;
            var s1 := RelayStep(s, request, instanceMax, at);
            var s2 := HearStep(s1, Receipt(receipt), false);
            var item := OutboxItemOf(mls, request.senderDeviceId, request);
            && s2.db == Acknowledge(s.db, item.deviceId, item.eventId) && HeadTaken(s.db, s2.db, item.deviceId)
            && s2.flush.InFlush? && s2.flush.waiting.None?
            && !s2.flush.progress.stopped && item.deviceId !in s2.flush.progress.blocked
            && s2 == s1.(db := s2.db, flush := s2.flush)
  {
    hide Lawful, Reachable, OnDisk, AllTravel, OnlyOurs, InOrder, Refines, AllInLog, Accept, AcceptH, Remembered,
      AllInLane, Pending, UuidText, Acknowledge, Sound, HeadTaken, ValidReceipt;
    OnDiskIsSound(mls, s);
    ReceiptsPass(s.store, s.history, instanceMax, request, at);
    var item := OutboxItemOf(mls, request.senderDeviceId, request);
    AcknowledgedHead(s.db, item);
    assert Accept(s.store, request, instanceMax, at).1.value.eventId == request.eventId by {
      ValidReceiptNamesTheEvent(request, Accept(s.store, request, instanceMax, at).1.value);
    }
  }

  lemma ValidReceiptNamesTheEvent(request: SubmitEvent, receipt: AcceptedEvent)
    requires ValidReceipt(request, receipt)
    ensures receipt.eventId == request.eventId
  {
  }

  lemma HeadTakenFromItsDevice(db: Database, db': Database, deviceId: string)
    requires HeadTaken(db, db', deviceId)
    ensures Pending(db, deviceId) != [] && Pending(db', deviceId) == Pending(db, deviceId)[1..]
  {
  }

  // What an expiry between acceptance and acknowledgement does.

  lemma ApplyGrows(mls: Mls, instanceMax: ServerTtl, s: System, action: Pipeline.Action)
    ensures var s' := Pipeline.Apply(mls, instanceMax, s, action);
            s.history.log <= s'.history.log && s.history.clock <= s'.history.clock
  {
    hide Transact, QueueOutgoing, Load, MemberRuns.Perform, StartTurn, EndTurn, Accept, ListActive, Held, Overtaken;
  }

  lemma {:induction false} ExpiredForGood(entry: LogEntry, clock: seq<Time>, later: seq<Time>)
    requires !LiveNow(entry, clock) && clock <= later
    ensures !LiveNow(entry, later)
  {
    if clock != later {
      var init := later[..|later| - 1];
      assert clock <= init;
      ExpiredForGood(entry, clock, init);
    }
  }

  /** Every acceptance of the request has expired. */
  ghost predicate Expired(h: History, request: SubmitEvent) {
    && (exists i | 0 <= i < |h.log| :: h.log[i].stored.request == request)
    && forall i | 0 <= i < |h.log| && h.log[i].stored.request == request :: !LiveNow(h.log[i], h.clock)
  }

  lemma ExpiredIsRefused(s: StoreData, h: History, instanceMax: ServerTtl, request: SubmitEvent, at: Time)
    requires Refines(s, h, instanceMax) && Expired(h, request)
    ensures Accept(s, request, instanceMax, at).1.Err?
    ensures AcceptH(h, request, instanceMax, at).log == h.log
  {
    LaterAnswer(s, h, instanceMax, request, at);
    hide Refines, Accept, AcceptH;
    forall i | 0 <= i < |h.log| && h.log[i].stored.request == request
      ensures !LiveNow(h.log[i], h.clock + [at])
    {
      ExpiredForGood(h.log[i], h.clock, h.clock + [at]);
    }
  }

  lemma OnceAcceptedIsEnough(mls: Mls, instanceMax: ServerTtl, s: System, request: SubmitEvent, n: nat)
    requires Invariant(mls, instanceMax, s, n)
    ensures var log := s.history.log;
            forall i, j | 0 <= i < j < |log| :: log[i].stored.request != log[j].stored.request
  {
    hide OnDisk, AllTravel, OnlyOurs, InOrder, AllInLog, Remembered, AllInLane, FlushInOrder;
    forall i, j | 0 <= i < j < |s.history.log|
      ensures s.history.log[i].stored.request != s.history.log[j].stored.request
    {
      RelayLifetime.SameRequestSameEntry(s.store, s.history, instanceMax, i);
    }
  }

  /** An expired acceptance stays the only one, and stays expired. */
  lemma ExpiredPersists(mls: Mls, instanceMax: ServerTtl, s: System, action: Pipeline.Action, request: SubmitEvent,
                        n: nat)
    requires Lawful(mls) && Invariant(mls, instanceMax, s, n) && 0 < n <= U64_MAX && Expired(s.history, request)
    ensures Expired(Pipeline.Apply(mls, instanceMax, s, action).history, request)
  {
    hide Lawful, Invariant, Pipeline.Apply, LiveNow;
    ApplyKeeps(mls, instanceMax, s, action, n);
    ApplyGrows(mls, instanceMax, s, action);
    var s' := Pipeline.Apply(mls, instanceMax, s, action);
    OnceAcceptedIsEnough(mls, instanceMax, s', request, n + 1);
    var k :| 0 <= k < |s.history.log| && s.history.log[k].stored.request == request;
    assert s'.history.log[k] == s.history.log[k];
    ExpiredForGood(s.history.log[k], s.history.clock, s'.history.clock);
  }

  lemma NoNewAnswer(mls: Mls, instanceMax: ServerTtl, s: System, action: Pipeline.Action, request: SubmitEvent,
                    receipt: AcceptedEvent)
    requires Refines(s.store, s.history, instanceMax) && Expired(s.history, request)
    requires Answer(request, receipt) in Pipeline.Apply(mls, instanceMax, s, action).answers
    ensures Answer(request, receipt) in s.answers
  {
    hide Transact, QueueOutgoing, Load, MemberRuns.Perform, StartTurn, EndTurn, Accept, AcceptH, ListActive, Refines,
      Expired;
    if action.RelayServes? {
      ExpiredIsRefused(s.store, s.history, instanceMax, request, action.at);
    } else if action.RelayServesOthers? {
      ExpiredIsRefused(s.store, s.history, instanceMax, request, action.at);
    }
  }

  /**
   * The stuck state: an event whose acceptance expired before its receipt was heard is refused
   * for ever after, whatever happens, and the relay makes no receipt for it any more.
   */
  lemma {:induction false} StuckOnceExpired(mls: Mls, instanceMax: ServerTtl, life: seq<System>, k: nat, i: nat,
                                            request: SubmitEvent, at: Time)
    requires Lawful(mls) && Life(mls, instanceMax, life) && k <= i < |life|
    requires Expired(life[k].history, request)
    ensures Expired(life[i].history, request)
    ensures Accept(life[i].store, request, instanceMax, at).1.Err?
    ensures forall receipt ::
              Answer(request, receipt) in life[i].answers ==> Answer(request, receipt) in life[k].answers
  {
    hide Lawful, Invariant, Initial, Pipeline.Apply, Expired, Accept, Refines;
    LifeKeeps(mls, instanceMax, life, i);
    if k < i {
      StuckOnceExpired(mls, instanceMax, life, k, i - 1, request, at);
      LifeKeeps(mls, instanceMax, life, i - 1);
      assert Steps(mls, instanceMax, life, i - 1);
      var action: Pipeline.Action :| life[i] == Pipeline.Apply(mls, instanceMax, life[i - 1], action);
      ExpiredPersists(mls, instanceMax, life[i - 1], action, request, i);
      InvariantRefines(mls, instanceMax, life[i - 1], i);
      forall receipt | Answer(request, receipt) in life[i].answers
        ensures Answer(request, receipt) in life[i - 1].answers
      {
        NoNewAnswer(mls, instanceMax, life[i - 1], action, request, receipt);
      }
    }
    InvariantRefines(mls, instanceMax, life[i], i + 1);
    ExpiredIsRefused(life[i].store, life[i].history, instanceMax, request, at);
  }

  lemma InvariantRefines(mls: Mls, instanceMax: ServerTtl, s: System, n: nat)
    requires Invariant(mls, instanceMax, s, n)
    ensures Refines(s.store, s.history, instanceMax)
  {
  }
}
