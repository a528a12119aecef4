/** The stuck state: how a device comes to it, and what it then keeps from moving. */
module PipelineStuck {
  import opened Wrappers
  import opened Protocol
  import opened Sequences
  import opened Identifiers
  import opened VaultStore
  import opened DeviceQueues
  import opened MlsTypes
  import opened Persistence
  import ClientOperations
  import Snapshot
  import opened OutboxWorker
  import opened FlushGuarantees
  import opened RelayStore
  import opened RelayHistory
  import opened MemberRuns
  import opened DeliveryLanes
  import opened Pipeline
  import opened PipelineInvariant
  import opened PipelineClients
  import opened PipelineDelivery
  import opened PipelineGuarantees
  import opened PipelineProgress

  // How the state arises.

  /** The clock reading the relay takes in this action, if it takes one. */
  function ClockRead(mls: Mls, s: System, action: Pipeline.Action): Option<Time> {
    match action
    case RelayServes(payload, at) =>
      if payload in s.sent && mls.submitJson.decode(payload).Some? then Some(at) else None
    case RelayServesOthers(request, at) => if request.senderDeviceId in s.members then None else Some(at)
    case RelayIsPolled(channel, cursor, now) => Some(now)
    case _ => None
  }

  lemma ReadingIsKept(mls: Mls, instanceMax: ServerTtl, s: System, action: Pipeline.Action)
    requires ClockRead(mls, s, action).Some?
    ensures Pipeline.Apply(mls, instanceMax, s, action).history.clock
            == s.history.clock + [ClockRead(mls, s, action).value]
  {
    hide Accept, ListActive, Held, Overtaken;
  }

  /** The first call that reads a clock at or past an acceptance's expiry expires it. */
  lemma ExpiresWhenRead(mls: Mls, instanceMax: ServerTtl, s: System, n: nat, action: Pipeline.Action, i: nat)
    requires Lawful(mls) && Invariant(mls, instanceMax, s, n) && 0 < n <= U64_MAX && i < |s.history.log|
    requires var now := ClockRead(mls, s, action); now.Some? && now.value >= s.history.log[i].stored.receipt.expiresAt
    ensures Expired(Pipeline.Apply(mls, instanceMax, s, action).history, s.history.log[i].stored.request)
  {
    hide Lawful, Invariant, Pipeline.Apply, Refines, ClockRead;
    var s' := Pipeline.Apply(mls, instanceMax, s, action);
    ApplyKeeps(mls, instanceMax, s, action, n);
    ApplyGrows(mls, instanceMax, s, action);
    OnceAcceptedIsEnough(mls, instanceMax, s', s.history.log[i].stored.request, n + 1);
    ReadingIsKept(mls, instanceMax, s, action);
    InvariantRefines(mls, instanceMax, s, n);
    BornBefore(s.store, s.history, instanceMax);
    assert s'.history.log[i] == s.history.log[i];
    DeadAtReading(s.history.log[i], s.history.clock, ClockRead(mls, s, action).value);
  }

  lemma DeadAtReading(entry: LogEntry, clock: seq<Time>, now: Time)
    requires entry.born < |clock| && now >= entry.stored.receipt.expiresAt
    ensures !LiveNow(entry, clock + [now])
  {
  }

  /** Accepted, the receipt lost, and the clock past the expiry: three actions. */
  function LosesReceipt(mls: Mls, request: SubmitEvent, at: Time, error: WorkerError, channel: Uuid, cursor: U64,
                        now: Time): seq<Pipeline.Action>
  {
    [RelayServes(mls.submitJson.encode(request), at), FlushHears(NoReceipt(error), false),
     RelayIsPolled(channel, cursor, now)]
  }

  /**
   * It happens: from every reachable state whose flush waits for a request the relay would
   * accept, a lost receipt and one late reading of the clock leave the row at the head of its
   * device's outbox with its only acceptance expired.
   */
  lemma StuckStateArises(mls: Mls, instanceMax: ServerTtl, s: System, n: nat, request: SubmitEvent, at: Time,
                         error: WorkerError, channel: Uuid, cursor: U64, now: Time)
    requires Lawful(mls) && Invariant(mls, instanceMax, s, n) && 0 < n && n + 3 <= U64_MAX
    requires s.flush.InFlush? && s.flush.waiting == Some(request)
    requires Accept(s.store, request, instanceMax, at).1.Ok?
    requires now >= Accept(s.store, request, instanceMax, at).1.value.expiresAt
    ensures var actions := LosesReceipt(mls, request, at, error, channel, cursor, now);
            var s1 := Pipeline.Apply(mls, instanceMax, s, actions[0]);
            var s2 := Pipeline.Apply(mls, instanceMax, s1, actions[1]);
            var s3 := Pipeline.Apply(mls, instanceMax, s2, actions[2]);
            && Invariant(mls, instanceMax, s3, n + 3)
            && Expired(s3.history, request)
            && Leads(s3.db, OutboxItemOf(mls, request.senderDeviceId, request))
  {
    hide Lawful, Invariant, Expired, Refines, Leads, Accept, HeldAs, UuidText;
    var actions := LosesReceipt(mls, request, at, error, channel, cursor, now);
    var receipt := Accept(s.store, request, instanceMax, at).1.value;
    WaitingIsSent(mls, instanceMax, s, n, request);
    var i := AcceptedAndLost(mls, instanceMax, s, n, request, at, error);
    hide Pipeline.Apply;
    var s1 := Pipeline.Apply(mls, instanceMax, s, actions[0]);
    var s2 := Pipeline.Apply(mls, instanceMax, s1, actions[1]);
    ApplyKeeps(mls, instanceMax, s, actions[0], n);
    ApplyKeeps(mls, instanceMax, s1, actions[1], n + 1);
    ApplyKeeps(mls, instanceMax, s2, actions[2], n + 2);
    ExpiresWhenRead(mls, instanceMax, s2, n + 2, actions[2], i);
    PollKeepsDisk(mls, instanceMax, s2, channel, cursor, now);
  }

  lemma AcceptedAndLost(mls: Mls, instanceMax: ServerTtl, s: System, n: nat, request: SubmitEvent, at: Time,
                        error: WorkerError) returns (i: nat)
    requires Lawful(mls) && Invariant(mls, instanceMax, s, n)
    requires s.flush.InFlush? && s.flush.waiting == Some(request)
    requires Accept(s.store, request, instanceMax, at).1.Ok?
    ensures var s1 := Pipeline.Apply(mls, instanceMax, s, RelayServes(mls.submitJson.encode(request), at));
            var s2 := Pipeline.Apply(mls, instanceMax, s1, FlushHears(NoReceipt(error), false));
            && s2.db == s.db && i < |s2.history.log|
            && s2.history.log[i].stored == StoredEvent(request, Accept(s.store, request, instanceMax, at).1.value)
  {
    hide Lawful, Invariant, Refines, Accept, AcceptH, HeldAs, UuidText, Pipeline.Apply;
    InvariantRefines(mls, instanceMax, s, n);
    WaitingIsSent(mls, instanceMax, s, n, request);
    LawfulCodecs(mls);
    assert mls.submitJson.decode(mls.submitJson.encode(request)) == Some(request);
    hide Faithful;
    ServingIs(mls, instanceMax, s, request, at);
    var s1 := Pipeline.Apply(mls, instanceMax, s, RelayServes(mls.submitJson.encode(request), at));
    LosingIs(mls, instanceMax, s1, error);
    AcceptRefines(s.store, s.history, instanceMax, request, at);
    i := HeldAt(AcceptH(s.history, request, instanceMax, at),
                StoredEvent(request, Accept(s.store, request, instanceMax, at).1.value));
  }

  lemma ServingIs(mls: Mls, instanceMax: ServerTtl, s: System, request: SubmitEvent, at: Time)
    requires mls.submitJson.encode(request) in s.sent
    requires mls.submitJson.decode(mls.submitJson.encode(request)) == Some(request)
    ensures Pipeline.Apply(mls, instanceMax, s, RelayServes(mls.submitJson.encode(request), at))
            == RelayStep(s, request, instanceMax, at)
  {
    hide RelayStep;
  }

  lemma LosingIs(mls: Mls, instanceMax: ServerTtl, s: System, error: WorkerError)
    ensures var s' := Pipeline.Apply(mls, instanceMax, s, FlushHears(NoReceipt(error), false));
            s'.db == s.db && s'.history == s.history
  {
    hide UuidText;
  }

  lemma PollKeepsDisk(mls: Mls, instanceMax: ServerTtl, s: System, channel: Uuid, cursor: U64, now: Time)
    ensures Pipeline.Apply(mls, instanceMax, s, RelayIsPolled(channel, cursor, now)).db == s.db
  {
  }

  lemma HeldAt(h: History, stored: StoredEvent) returns (i: nat)
    requires HeldAs(h, stored)
    ensures i < |h.log| && h.log[i].stored == stored
  {
    i :| i < |h.log| && LiveNow(h.log[i], h.clock) && h.log[i].stored == stored;
  }

  lemma WaitingIsSent(mls: Mls, instanceMax: ServerTtl, s: System, n: nat, request: SubmitEvent)
    requires Invariant(mls, instanceMax, s, n) && s.flush.InFlush? && s.flush.waiting == Some(request)
    ensures mls.submitJson.encode(request) in s.sent
    ensures Leads(s.db, OutboxItemOf(mls, request.senderDeviceId, request))
  {
    hide OnDisk, AllInLane, AllTravel, OnlyOurs, InOrder, Refines, AllInLog, Remembered, Leads;
  }

  // What it keeps from moving.

  /** The flush is told of a receipt for this request. */
  predicate HearsReceiptFor(s: System, action: Pipeline.Action, request: SubmitEvent) {
    action.FlushHears? && action.reply.Receipt? && s.flush.InFlush? && s.flush.waiting == Some(request)
  }

  lemma TransactionPending(db: Database, db': Database, snapshot: Bytes, item: OutboxItem,
                           message: Option<VaultMessage>, of: string)
    requires db' == db || db' == Committed(db, snapshot, item, message)
    ensures Pending(db, of) <= Pending(db', of)
  {
    assert db.outbox <= db'.outbox;
    AppendsKeepPrefix(db, db', of);
  }

  lemma ClientStepPending(mls: Mls, s: System, device: Uuid, op: ClientOperations.Operation, fails: bool, of: string)
    requires OnDisk(mls, s)
    ensures Pending(ClientStep(mls, s, device, op, fails).db, of) == Pending(s.db, of)
    ensures ClientStep(mls, s, device, op, fails).queued == s.queued
  {
    hide Transact, Sound, InStep, MemberRuns.Perform;
    if device in s.memory && device in s.members {
      TransactIsSound(mls, s.memory[device], s.db, s.unlocked, op, fails);
    }
  }

  lemma QueueStepPending(mls: Mls, s: System, device: Uuid, draft: Draft, ttl: ServerTtl,
                         message: Option<VaultMessage>, fault: Option<Statement>, of: string, d: Uuid)
    requires Lawful(mls) && OnDisk(mls, s)
    ensures Pending(s.db, of) <= Pending(QueueStep(mls, s, device, draft, ttl, message, fault).db, of)
    ensures QueueOf(s, d) <= QueueOf(QueueStep(mls, s, device, draft, ttl, message, fault), d)
  {
    hide QueueOutgoing, InStep, MemberRuns.Perform, Lawful, EncryptDraft, Snapshot.EncodeSnapshot, FindEvent, Pending,
      ClientOperations.ToSubmitEvent, Committed;
    if device in s.memory && device in s.members {
      QueueIsAtomic(mls, s.memory[device], s.db, s.unlocked, draft, ttl, message, fault);
      var (c, db, r) := QueueOutgoing(mls, s.memory[device], s.db, s.unlocked, draft, ttl, message, fault);
      if r.Ok? {
        InStepFacts(mls, c, db);
        TransactionPending(s.db, db, Snapshot.EncodeSnapshot(mls, c).value,
                           OutboxItemOf(mls, s.memory[device].deviceId, r.value), message, of);
      }
    }
  }

  lemma HearStepPending(mls: Mls, s: System, reply: Reply, ackFails: bool, device: Uuid)
    requires WaitsForHead(mls, s) && Sound(s.db)
    requires s.flush.InFlush? && s.flush.waiting.Some? && s.flush.waiting.value.senderDeviceId == device ==>
               !reply.Receipt?
    ensures Pending(HearStep(s, reply, ackFails).db, UuidText(device)) == Pending(s.db, UuidText(device))
    ensures HearStep(s, reply, ackFails).queued == s.queued
  {
    if Hears(s, reply) {
      HearFrame(s, reply, ackFails);
      ReplyDecides(mls, s, reply, ackFails);
      UuidTextIsAKey(s.flush.waiting.value.senderDeviceId, device);
      hide HearStep, EndTurn, Pending, UuidText, Sound;
    } else {
      hide EndTurn;
    }
  }

  /** Without a receipt for the row at its head, a device's outbox only grows, behind that row. */
  lemma OutboxOnlyGrows(mls: Mls, instanceMax: ServerTtl, s: System, action: Pipeline.Action, n: nat, device: Uuid)
    requires Lawful(mls) && Invariant(mls, instanceMax, s, n)
    requires action.FlushHears? ==> s.flush.InFlush? ==> s.flush.waiting.Some? ==>
               s.flush.waiting.value.senderDeviceId == device ==> !action.reply.Receipt?
    ensures var s' := Pipeline.Apply(mls, instanceMax, s, action);
            && Pending(s.db, UuidText(device)) <= Pending(s'.db, UuidText(device))
            && QueueOf(s, device) <= QueueOf(s', device)
  {
    hide Lawful, AllInLane, AllTravel, OnlyOurs, InOrder, Refines, AllInLog, Remembered, InStep, ClientStep, QueueStep,
      HearStep, Load, StartTurn, Accept, AcceptH, ListActive, Pending, UuidText, ListAll, Sound, WaitsForHead;
    match action
    case ClientActs(d, op, fails, dies) => ClientStepPending(mls, s, d, op, fails, UuidText(device));
    case ClientQueues(d, draft, ttl, message, fault, dies) =>
      QueueStepPending(mls, s, d, draft, ttl, message, fault, UuidText(device), device);
    case FlushHears(reply, ackFails) => HearStepPending(mls, s, reply, ackFails, device);
    case _ =>
  }

  /** The device is held up at `request`: its oldest row, accepted, and not acknowledged. */
  ghost predicate HeldUpAt(s: System, device: Uuid, request: SubmitEvent) {
    && 0 <= AckCount(LaneOf(s, device)) < |QueueOf(s, device)| && HeadOf(s, device) == request
    && Pending(s.db, UuidText(device)) != []
    && request in AcceptedOf(s.history.log, device)
  }

  lemma SameHead(mls: Mls, lane: Lane, lane': Lane, device: Uuid, request: SubmitEvent)
    requires Faithful(mls.submitJson) && InLane(mls, lane, device) && InLane(mls, lane', device)
    requires lane.pending != [] && lane.queued[AckCount(lane)] == request && request in lane.accepted
    requires lane.pending <= lane'.pending && lane.queued <= lane'.queued && lane.accepted <= lane'.accepted
    requires Distinct(lane'.queued)
    ensures lane'.queued[AckCount(lane')] == request && lane'.accepted == lane.accepted
  {
    hide AllFrom;
    var j := AckCount(lane);
    assert lane.pending[0] == OutboxItemOf(mls, device, request);
    assert lane'.pending[0] == lane.pending[0];
    HeadIsDue(mls, lane', device, request);
    assert lane'.queued[j] == request;
    assert AckCount(lane') == j;
    AcceptedPastHead(mls, lane, device, request, lane'.queued);
    assert |lane'.accepted| <= j + 1 == |lane.accepted|;
  }

  lemma AcceptedPastHead(mls: Mls, lane: Lane, device: Uuid, request: SubmitEvent, queued: seq<SubmitEvent>)
    requires InLane(mls, lane, device) && lane.pending != [] && lane.queued[AckCount(lane)] == request
    requires request in lane.accepted && lane.queued <= queued && Distinct(queued)
    ensures |lane.accepted| == AckCount(lane) + 1
  {
    var i :| 0 <= i < |lane.accepted| && lane.accepted[i] == request;
    assert lane.queued[i] == request && queued[i] == request && queued[AckCount(lane)] == request;
  }

  lemma LogGrowsAccepted(log: seq<LogEntry>, log': seq<LogEntry>, device: Uuid)
    requires log <= log'
    ensures AcceptedOf(log, device) <= AcceptedOf(log', device)
  {
    FilterPrefix(log, log', FromDevice(device));
    var a, b := Filter(log, FromDevice(device)), Filter(log', FromDevice(device));
    assert Map(b, RequestOf)[..|a|] == Map(a, RequestOf);
  }

  /** An action that brings no receipt for the row leaves the device held up at it. */
  lemma StaysHeldUp(mls: Mls, instanceMax: ServerTtl, s: System, action: Pipeline.Action, n: nat, device: Uuid,
                    request: SubmitEvent)
    requires Lawful(mls) && Invariant(mls, instanceMax, s, n) && 0 < n <= U64_MAX && device in s.members
    requires HeldUpAt(s, device, request) && !HearsReceiptFor(s, action, request)
    ensures var s' := Pipeline.Apply(mls, instanceMax, s, action);
            && device in s'.members && HeldUpAt(s', device, request)
            && AcceptedOf(s'.history.log, device) == AcceptedOf(s.history.log, device)
  {
    hide Lawful, Invariant, Pipeline.Apply, Faithful, InLane, AcceptedOf, Pending, UuidText, Distinct;
    var s' := Pipeline.Apply(mls, instanceMax, s, action);
    if s.flush.InFlush? && s.flush.waiting.Some? && s.flush.waiting.value.senderDeviceId == device {
      WaitingIsHead(mls, instanceMax, s, s.flush.waiting.value, n);
    }
    OutboxOnlyGrows(mls, instanceMax, s, action, n, device);
    ApplyKeeps(mls, instanceMax, s, action, n);
    ApplyMembers(mls, instanceMax, s, action);
    ApplyGrows(mls, instanceMax, s, action);
    LogGrowsAccepted(s.history.log, s'.history.log, device);
    LaneAndDistinct(mls, instanceMax, s, n, device);
    LaneAndDistinct(mls, instanceMax, s', n + 1, device);
    LawfulCodecs(mls);
    SameHead(mls, LaneOf(s, device), LaneOf(s', device), device, request);
    PendingIsQueued(mls, LaneOf(s', device), device);
  }

  lemma ApplyMembers(mls: Mls, instanceMax: ServerTtl, s: System, action: Pipeline.Action)
    ensures Pipeline.Apply(mls, instanceMax, s, action).members.Keys == s.members.Keys
  {
    hide Transact, QueueOutgoing, Load, MemberRuns.Perform, StartTurn, EndTurn, Accept, AcceptH, ListActive;
  }

  lemma LaneAndDistinct(mls: Mls, instanceMax: ServerTtl, s: System, n: nat, device: Uuid)
    requires Invariant(mls, instanceMax, s, n) && device in s.members
    ensures InLane(mls, LaneOf(s, device), device) && Distinct(QueueOf(s, device))
  {
    hide OnDisk, AllTravel, OnlyOurs, FlushInOrder, Refines, AllInLog, Remembered, InLane;
    NeverTwice(mls, s, n, device);
  }

  /** Step i of the life can be one that brings no receipt for the request. */
  ghost predicate StepsUnheard(mls: Mls, instanceMax: ServerTtl, life: seq<System>, i: nat, request: SubmitEvent)
    requires i + 1 < |life|
  {
    exists action: Pipeline.Action ::
      life[i + 1] == Pipeline.Apply(mls, instanceMax, life[i], action) && !HearsReceiptFor(life[i], action, request)
  }

  /**
   * A device whose oldest row is accepted stays held up at it until a receipt for it is heard:
   * the row stays at the head and the relay accepts nothing more of the device. Together with
   * `StuckOnceExpired`, which rules out new receipts, an expired row holds its device up for
   * good unless a receipt made before the expiry still comes through.
   */
  lemma {:induction false} HeldUpUntilHeard(mls: Mls, instanceMax: ServerTtl, life: seq<System>, k: nat, i: nat,
                                            device: Uuid, request: SubmitEvent)
    requires Lawful(mls) && Life(mls, instanceMax, life) && k <= i < |life|
    requires device in life[k].members && HeldUpAt(life[k], device, request)
    requires forall t | k <= t < i :: StepsUnheard(mls, instanceMax, life, t, request)
    ensures device in life[i].members && HeldUpAt(life[i], device, request)
    ensures AcceptedOf(life[i].history.log, device) == AcceptedOf(life[k].history.log, device)
  {
    hide Lawful, Initial, Invariant, Pipeline.Apply, HeldUpAt, AcceptedOf, HearsReceiptFor;
    if k < i {
      HeldUpUntilHeard(mls, instanceMax, life, k, i - 1, device, request);
      LifeKeeps(mls, instanceMax, life, i - 1);
      assert StepsUnheard(mls, instanceMax, life, i - 1, request);
      var action: Pipeline.Action :|
        life[i] == Pipeline.Apply(mls, instanceMax, life[i - 1], action)
        && !HearsReceiptFor(life[i - 1], action, request);
      StaysHeldUp(mls, instanceMax, life[i - 1], action, i, device, request);
    }
  }
}
