/** From any state that is not stuck, everything committed can still reach the relay. */
module PipelineDrains {
  import opened Wrappers
  import opened Protocol
  import opened Sequences
  import opened Identifiers
  import opened VaultStore
  import opened DeviceQueues
  import opened MlsTypes
  import opened Persistence
  import opened OutboxWorker
  import opened FlushGuarantees
  import opened RelayStore
  import opened RelayHistory
  import opened DeliveryLanes
  import opened Pipeline
  import opened PipelineInvariant
  import opened PipelineDelivery
  import opened PipelineGuarantees
  import opened PipelineProgress
  import PipelineStuck

  /** The state after these actions. */
  ghost function Then(mls: Mls, instanceMax: ServerTtl, s: System, actions: seq<Pipeline.Action>): System {
    if actions == [] then s
    else
      var last := |actions| - 1;
      Pipeline.Apply(mls, instanceMax, Then(mls, instanceMax, s, actions[..last]), actions[last])
  }

  lemma ThenOne(mls: Mls, instanceMax: ServerTtl, s: System, actions: seq<Pipeline.Action>, action: Pipeline.Action)
    ensures Then(mls, instanceMax, s, actions + [action])
            == Pipeline.Apply(mls, instanceMax, Then(mls, instanceMax, s, actions), action)
  {
    hide Pipeline.Apply;
    assert (actions + [action])[..|actions|] == actions;
  }

  lemma {:induction false} ThenMore(mls: Mls, instanceMax: ServerTtl, s: System, a: seq<Pipeline.Action>,
                                    b: seq<Pipeline.Action>)
    ensures Then(mls, instanceMax, s, a + b) == Then(mls, instanceMax, Then(mls, instanceMax, s, a), b)
  {
    hide Pipeline.Apply;
    if b == [] {
      assert a + b == a;
    } else {
      var last := |b| - 1;
      ThenMore(mls, instanceMax, s, a, b[..last]);
      assert (a + b)[..|a + b| - 1] == a + b[..last];
    }
  }

  /** A life goes on by any actions. */
  lemma {:induction false} LifeGoesOn(mls: Mls, instanceMax: ServerTtl, life: seq<System>,
                                      actions: seq<Pipeline.Action>) returns (longer: seq<System>)
    requires Life(mls, instanceMax, life) && |life| + |actions| <= U64_MAX
    ensures Life(mls, instanceMax, longer) && life <= longer
    ensures longer[|longer| - 1] == Then(mls, instanceMax, life[|life| - 1], actions)
    ensures |longer| == |life| + |actions|
  {
    hide Pipeline.Apply, Initial;
    if actions == [] {
      longer := life;
    } else {
      var last := |actions| - 1;
      var earlier := LifeGoesOn(mls, instanceMax, life, actions[..last]);
      longer := earlier + [Then(mls, instanceMax, life[|life| - 1], actions)];
      forall i | 0 <= i < |longer| - 1
        ensures Steps(mls, instanceMax, longer, i)
      {
        if i < |earlier| - 1 {
          assert Steps(mls, instanceMax, earlier, i);
          var action: Pipeline.Action :| earlier[i + 1] == Pipeline.Apply(mls, instanceMax, earlier[i], action);
          assert longer[i + 1] == Pipeline.Apply(mls, instanceMax, longer[i], action);
        } else {
          assert longer[i + 1] == Pipeline.Apply(mls, instanceMax, longer[i], actions[last]);
        }
      }
    }
  }

  lemma LogGrowsByOne(mls: Mls, instanceMax: ServerTtl, s: System, action: Pipeline.Action)
    ensures |Pipeline.Apply(mls, instanceMax, s, action).history.log| <= |s.history.log| + 1
  {
    hide Transact, QueueOutgoing, Load, MemberRuns.Perform, StartTurn, EndTurn, Accept, ListActive, Held, Overtaken;
  }

  lemma {:induction false} LogIsShort(mls: Mls, instanceMax: ServerTtl, life: seq<System>, i: nat)
    requires Life(mls, instanceMax, life) && i < |life|
    ensures |life[i].history.log| <= i
  {
    hide Pipeline.Apply;
    if i > 0 {
      LogIsShort(mls, instanceMax, life, i - 1);
      assert Steps(mls, instanceMax, life, i - 1);
      var action: Pipeline.Action :| life[i] == Pipeline.Apply(mls, instanceMax, life[i - 1], action);
      LogGrowsByOne(mls, instanceMax, life[i - 1], action);
    }
  }

  lemma CountIsShort(log: seq<LogEntry>, channel: Uuid)
    ensures Count(log, channel) <= |log|
  {
    FilterMembers(log, InChannel(channel));
  }

  /** Every submission still in an outbox could be answered at this clock reading. */
  ghost predicate AllDeliverable(s: System, at: Time) {
    forall device | device in s.members :: DeviceDeliverable(s, device, at)
  }

  ghost predicate DeviceDeliverable(s: System, device: Uuid, at: Time) {
    forall i | 0 <= AckCount(LaneOf(s, device)) <= i < |QueueOf(s, device)| ::
      Deliverable(s.history, QueueOf(s, device)[i], at)
  }

  /** The row at the head of the whole outbox is the oldest of its device, and valid. */
  lemma FirstRow(mls: Mls, instanceMax: ServerTtl, s: System, n: nat) returns (request: SubmitEvent)
    requires Lawful(mls) && Invariant(mls, instanceMax, s, n) && s.db.outbox != []
    ensures var device := request.senderDeviceId;
            && device in s.members && s.db.outbox[0].item == OutboxItemOf(mls, device, request)
            && 0 <= AckCount(LaneOf(s, device)) < |QueueOf(s, device)| && HeadOf(s, device) == request
            && ValidateOutboxItem(mls.submitJson, s.db.outbox[0].item) == Some(request)
  {
    hide OnDisk, Remembered, AllTravel, Refines, AllInLog, FlushInOrder, UuidText, AcceptedOf, Lawful;
    var row := s.db.outbox[0];
    assert row in s.db.outbox && Ours(row.item, s.members.Keys);
    var device :| device in s.members && UuidText(device) == row.item.deviceId;
    assert Items(s.db)[0] == row.item;
    FilterFirst(Items(s.db), row.item.deviceId);
    assert InLane(mls, LaneOf(s, device), device);
    request := QueueOf(s, device)[AckCount(LaneOf(s, device))];
    assert Pending(s.db, UuidText(device))[0] == OutboxItemOf(mls, device, request);
    LawfulCodecs(mls);
    assert mls.submitJson.decode(mls.submitJson.encode(request)) == Some(request);
  }

  /** A flush begins and sends that row. */
  function Sends(): seq<Pipeline.Action> { [FlushStarts(false), FlushTurns(true)] }

  lemma FlushSendsFirstRow(mls: Mls, instanceMax: ServerTtl, s: System, request: SubmitEvent)
    requires s.flush.NoFlush? && s.unlocked && s.db.outbox != []
    requires s.db.outbox[0].item == OutboxItemOf(mls, request.senderDeviceId, request)
    requires ValidateOutboxItem(mls.submitJson, s.db.outbox[0].item) == Some(request)
    ensures var s2 := Then(mls, instanceMax, s, Sends());
            && s2.flush.InFlush? && s2.flush.waiting == Some(request)
            && mls.submitJson.encode(request) in s2.sent
            && s2 == s.(flush := s2.flush, sent := s2.sent)
  {
    hide UuidText, ValidateOutboxItem;
    ThenOne(mls, instanceMax, s, [], FlushStarts(false));
    ThenOne(mls, instanceMax, s, [FlushStarts(false)], FlushTurns(true));
    assert [] + [FlushStarts(false)] == [FlushStarts(false)];
    assert Sends() == [FlushStarts(false)] + [FlushTurns(true)];
    assert ListAll(s.db)[0] == s.db.outbox[0].item;
  }

  lemma StillLive(entry: LogEntry, clock: seq<Time>, at: Time)
    requires entry.born < |clock|
    ensures LiveNow(entry, clock + [at] + [at]) <==> LiveNow(entry, clock + [at])
  {
    assert (clock + [at] + [at])[..|clock| + 1] == clock + [at];
    assert (clock + [at])[..|clock|] == clock;
  }

  lemma LivesOn(s: StoreData, h: History, h': History, instanceMax: ServerTtl, at: Time)
    requires Refines(s, h, instanceMax) && h.log <= h'.log && h'.clock == h.clock + [at]
    ensures forall i | 0 <= i < |h.log| :: LiveNow(h.log[i], h'.clock + [at]) <==> LiveNow(h.log[i], h.clock + [at])
  {
    BornBefore(s, h, instanceMax);
    hide Refines, LiveNow;
    forall i | 0 <= i < |h.log|
      ensures LiveNow(h.log[i], h'.clock + [at]) <==> LiveNow(h.log[i], h.clock + [at])
    {
      StillLive(h.log[i], h.clock, at);
    }
  }

  lemma AcceptedAlike(h: History, h': History, other: SubmitEvent)
    requires h.log <= h'.log
    requires forall i | |h.log| <= i < |h'.log| :: h'.log[i].stored.request.eventId != other.eventId
    ensures other in AcceptedOf(h.log, other.senderDeviceId) <==> other in AcceptedOf(h'.log, other.senderDeviceId)
  {
    hide AcceptedOf;
    AcceptedMembers(h.log, other.senderDeviceId, other);
    AcceptedMembers(h'.log, other.senderDeviceId, other);
    if i :| 0 <= i < |h.log| && h.log[i].stored.request == other {
      assert h'.log[i].stored.request == other;
    }
  }

  lemma LiveLater(h: History, h': History, other: SubmitEvent, at: Time)
    requires LiveAcceptance(h, other, at) && h.log <= h'.log
    requires forall i | 0 <= i < |h.log| :: LiveNow(h.log[i], h'.clock + [at]) <==> LiveNow(h.log[i], h.clock + [at])
    ensures LiveAcceptance(h', other, at)
  {
    hide LiveNow;
    var i :| 0 <= i < |h.log| && h.log[i].stored.request == other && LiveNow(h.log[i], h.clock + [at]);
    assert h'.log[i].stored.request == other && LiveNow(h'.log[i], h'.clock + [at]);
  }

  /** Accepting one request leaves every other, under another ID, as deliverable as it was. */
  lemma DeliverableLater(s: StoreData, h: History, instanceMax: ServerTtl, request: SubmitEvent, other: SubmitEvent,
                         at: Time)
    requires Refines(s, h, instanceMax) && Deliverable(h, other, at) && other.eventId != request.eventId
    ensures Deliverable(AcceptH(h, request, instanceMax, at), other, at)
  {
    hide Refines, Held, Overtaken, LiveNow, AcceptedOf, LiveAcceptance;
    var h' := AcceptH(h, request, instanceMax, at);
    assert h.log <= h'.log && h'.clock == h.clock + [at];
    assert forall i | |h.log| <= i < |h'.log| :: h'.log[i].stored.request == request;
    hide AcceptH;
    LivesOn(s, h, h', instanceMax, at);
    AcceptedAlike(h, h', other);
    if other in AcceptedOf(h.log, other.senderDeviceId) {
      LiveLater(h, h', other, at);
    } else {
      NotHeldLater(h, h', other.eventId, at);
    }
  }

  lemma NotHeldLater(h: History, h': History, eventId: EventId, at: Time)
    requires !Held(Tick(h, at), eventId) && h.log <= h'.log
    requires forall i | 0 <= i < |h.log| :: LiveNow(h.log[i], h'.clock + [at]) <==> LiveNow(h.log[i], h.clock + [at])
    requires forall i | |h.log| <= i < |h'.log| :: h'.log[i].stored.request.eventId != eventId
    ensures !Held(Tick(h', at), eventId)
  {
    hide LiveNow;
    forall i | 0 <= i < |h'.log| && LiveNow(h'.log[i], h'.clock + [at])
      ensures h'.log[i].stored.request.eventId != eventId
    {
      if i < |h.log| {
        assert h'.log[i] == h.log[i];
        assert LiveNow(Tick(h, at).log[i], Tick(h, at).clock);
      }
    }
  }

  /** Rows in the outbox have different event IDs, across devices too. */
  lemma OtherIdsDiffer(mls: Mls, s: System, request: SubmitEvent, device: Uuid, i: nat)
    requires Sound(s.db) && s.db.outbox != [] && InLane(mls, LaneOf(s, device), device)
    requires s.db.outbox[0].item == OutboxItemOf(mls, request.senderDeviceId, request)
    requires AckCount(LaneOf(s, device)) <= i < |QueueOf(s, device)|
    requires device == request.senderDeviceId ==>
               AckCount(LaneOf(s, device)) < i && Pending(s.db, UuidText(device))[0] == s.db.outbox[0].item
    ensures QueueOf(s, device)[i].eventId != request.eventId
  {
    var k, other := i - AckCount(LaneOf(s, device)), QueueOf(s, device)[i];
    var pending := Pending(s.db, UuidText(device));
    LaneIsDue(mls, LaneOf(s, device), device);
    assert pending[k] == OutboxItemOf(mls, device, other);
    PendingIsPresent(s.db, UuidText(device), k);
    PendingDiffer(s.db, UuidText(device)) by { SoundEvents(s.db); }
    SoundEvents(s.db);
    var row :| row in s.db.outbox && row.item == pending[k];
    var p :| 0 <= p < |s.db.outbox| && s.db.outbox[p] == row;
    UuidTextIsAKey(device, request.senderDeviceId);
    hide Sound, Pending, UuidText, AcceptedOf, InLane;
    if device == request.senderDeviceId {
      assert pending[0].eventId != pending[k].eventId;
    } else {
      assert s.db.outbox[0].item.deviceId != s.db.outbox[p].item.deviceId;
      assert p != 0;
    }
  }

  /** The five actions that take the row at hand through. */
  function Moves(mls: Mls, request: SubmitEvent, at: Time, receipt: AcceptedEvent): seq<Pipeline.Action> {
    Sends() + [RelayServes(mls.submitJson.encode(request), at), FlushHears(Receipt(receipt), false), FlushEnds]
  }

  lemma {:induction false} ThenKeeps(mls: Mls, instanceMax: ServerTtl, s: System, n: nat, actions: seq<Pipeline.Action>)
    requires Lawful(mls) && Invariant(mls, instanceMax, s, n) && 0 < n && n + |actions| <= U64_MAX
    ensures Invariant(mls, instanceMax, Then(mls, instanceMax, s, actions), n + |actions|)
  {
    hide Lawful, Invariant, Pipeline.Apply;
    if actions != [] {
      var last := |actions| - 1;
      ThenKeeps(mls, instanceMax, s, n, actions[..last]);
      ApplyKeeps(mls, instanceMax, Then(mls, instanceMax, s, actions[..last]), actions[last], n + last);
    }
  }

  /** What those actions come to, once the relay answers. */
  lemma MovesMeans(mls: Mls, instanceMax: ServerTtl, s: System, s2: System, request: SubmitEvent, at: Time)
    requires s2 == Then(mls, instanceMax, s, Sends()) && mls.submitJson.encode(request) in s2.sent
    requires mls.submitJson.decode(mls.submitJson.encode(request)) == Some(request)
    requires Accept(s2.store, request, instanceMax, at).1.Ok?
    requires var receipt := Accept(s2.store, request, instanceMax, at).1.value;
             var s4 := HearStep(RelayStep(s2, request, instanceMax, at), Receipt(receipt), false);
             s4.flush.InFlush? && s4.flush.waiting.None?
    ensures var receipt := Accept(s2.store, request, instanceMax, at).1.value;
            Then(mls, instanceMax, s, Moves(mls, request, at, receipt))
            == HearStep(RelayStep(s2, request, instanceMax, at), Receipt(receipt), false).(flush := NoFlush)
  {
    var receipt := Accept(s2.store, request, instanceMax, at).1.value;
    var serve, hear := RelayServes(mls.submitJson.encode(request), at), FlushHears(Receipt(receipt), false);
    PipelineStuck.ServingIs(mls, instanceMax, s2, request, at);
    hide RelayStep, HearStep, Accept, Sends;
    HearingIs(mls, instanceMax, RelayStep(s2, request, instanceMax, at), Receipt(receipt));
    EndingIs(mls, instanceMax, HearStep(RelayStep(s2, request, instanceMax, at), Receipt(receipt), false));
    hide Pipeline.Apply, Then;
    ThenOne(mls, instanceMax, s, Sends(), serve);
    ThenOne(mls, instanceMax, s, Sends() + [serve], hear);
    ThenOne(mls, instanceMax, s, Sends() + [serve] + [hear], FlushEnds);
    assert Sends() + [serve] + [hear] + [FlushEnds] == Moves(mls, request, at, receipt);
  }

  lemma HearingIs(mls: Mls, instanceMax: ServerTtl, s: System, reply: Reply)
    ensures Pipeline.Apply(mls, instanceMax, s, FlushHears(reply, false)) == HearStep(s, reply, false)
  {
    hide HearStep;
  }

  lemma EndingIs(mls: Mls, instanceMax: ServerTtl, s: System)
    requires s.flush.InFlush? ==> s.flush.waiting.None?
    ensures Pipeline.Apply(mls, instanceMax, s, FlushEnds) == s.(flush := NoFlush)
  {
  }

  /** A state between flushes from which the drain goes on. */
  ghost predicate Ready(mls: Mls, instanceMax: ServerTtl, s: System, n: nat, at: Time) {
    && Invariant(mls, instanceMax, s, n) && s.flush.NoFlush? && s.unlocked
    && |s.history.log| < n && AllDeliverable(s, at)
  }

  /** Nothing committed has changed, and the first row is gone. */
  ghost predicate RowGone(s: System, s': System) {
    && s.db.outbox != [] && s'.db.outbox == s.db.outbox[1..]
    && s'.queued == s.queued && s'.members == s.members
  }

  lemma LanesAfter(mls: Mls, s: System, s': System, request: SubmitEvent, device: Uuid)
    requires s'.queued == s.queued && HeadTaken(s.db, s'.db, UuidText(request.senderDeviceId))
    ensures AckCount(LaneOf(s', device))
            == AckCount(LaneOf(s, device)) + if device == request.senderDeviceId then 1 else 0
  {
    UuidTextIsAKey(device, request.senderDeviceId);
    hide Sound, UuidText, AcceptedOf;
  }

  lemma StillDeliverable(mls: Mls, instanceMax: ServerTtl, s: System, s': System, n: nat, request: SubmitEvent,
                         at: Time)
    requires Lawful(mls) && Invariant(mls, instanceMax, s, n) && AllDeliverable(s, at) && s.db.outbox != []
    requires s.db.outbox[0].item == OutboxItemOf(mls, request.senderDeviceId, request)
    requires s'.queued == s.queued && s'.members == s.members
    requires HeadTaken(s.db, s'.db, UuidText(request.senderDeviceId))
    requires s'.history == AcceptH(s.history, request, instanceMax, at)
    ensures AllDeliverable(s', at)
  {
    hide Lawful, Invariant, AcceptedOf, Pending, UuidText, Deliverable, AcceptH, InLane, HeadTaken, Refines;
    InvariantRefines(mls, instanceMax, s, n);
    forall device, i | device in s'.members && 0 <= AckCount(LaneOf(s', device)) <= i < |QueueOf(s', device)|
      ensures Deliverable(s'.history, QueueOf(s', device)[i], at)
    {
      LanesAfter(mls, s, s', request, device);
      LaneAndDisk(mls, instanceMax, s, n, device);
      assert DeviceDeliverable(s, device, at);
      if device == request.senderDeviceId {
        FirstIsHead(s, s', request, device);
      }
      OtherIdsDiffer(mls, s, request, device, i);
      DeliverableLater(s.store, s.history, instanceMax, request, QueueOf(s, device)[i], at);
    }
  }

  lemma FirstIsHead(s: System, s': System, request: SubmitEvent, device: Uuid)
    requires s.db.outbox != [] && s.db.outbox[0].item.deviceId == UuidText(device)
    ensures Pending(s.db, UuidText(device)) != [] && Pending(s.db, UuidText(device))[0] == s.db.outbox[0].item
  {
    FilterFirst(Items(s.db), UuidText(device));
  }

  lemma LaneAndDisk(mls: Mls, instanceMax: ServerTtl, s: System, n: nat, device: Uuid)
    requires Invariant(mls, instanceMax, s, n) && device in s.members
    ensures InLane(mls, LaneOf(s, device), device) && Sound(s.db) && 0 <= AckCount(LaneOf(s, device))
  {
    hide AllTravel, OnlyOurs, FlushInOrder, Refines, AllInLog, Remembered, Sound, AcceptedOf;
  }

  lemma SoundDisk(mls: Mls, instanceMax: ServerTtl, s: System, n: nat)
    requires Invariant(mls, instanceMax, s, n)
    ensures Sound(s.db)
  {
    hide AllTravel, OnlyOurs, FlushInOrder, Refines, AllInLog, Remembered, Sound, AllInLane;
  }

  lemma FirstDeliverable(s: System, request: SubmitEvent, at: Time)
    requires AllDeliverable(s, at) && request.senderDeviceId in s.members
    requires 0 <= AckCount(LaneOf(s, request.senderDeviceId)) < |QueueOf(s, request.senderDeviceId)|
    requires HeadOf(s, request.senderDeviceId) == request
    ensures Deliverable(s.history, request, at)
  {
    hide AcceptedOf, Pending, Deliverable;
    assert DeviceDeliverable(s, request.senderDeviceId, at);
  }

  /** Five actions acknowledge the first row of the outbox. */
  lemma FirstRowMoves(mls: Mls, instanceMax: ServerTtl, s: System, n: nat, at: Time)
    returns (actions: seq<Pipeline.Action>)
    requires Lawful(mls) && Ready(mls, instanceMax, s, n, at) && s.db.outbox != [] && 0 < n && n + 5 <= U64_MAX
    ensures |actions| == 5
    ensures RowGone(s, Then(mls, instanceMax, s, actions))
    ensures Ready(mls, instanceMax, Then(mls, instanceMax, s, actions), n + 5, at)
  {
    hide Lawful, Invariant, Pipeline.Apply, AllDeliverable, Deliverable, Accept, AcceptH, HearStep, ValidateOutboxItem,
      UuidText, LaneOf, Acknowledge, Sound, HeadTaken, Faithful, Then, Count;
    var request := FirstRow(mls, instanceMax, s, n);
    FlushSendsFirstRow(mls, instanceMax, s, request);
    var s2 := Then(mls, instanceMax, s, Sends());
    ThenKeeps(mls, instanceMax, s, n, Sends());
    FirstDeliverable(s, request, at);
    AnsweredAt(mls, instanceMax, s2, n + 2, request, at);
    CountIsShort(s2.history.log, request.channelId);
    HeardMoves(mls, instanceMax, s2, n + 2, request, at);
    var receipt := Accept(s2.store, request, instanceMax, at).1.value;
    LawfulCodecs(mls);
    FaithfulAt(mls.submitJson, request);
    MovesMeans(mls, instanceMax, s, s2, request, at);
    actions := Moves(mls, request, at, receipt);
    ThenKeeps(mls, instanceMax, s, n, actions);
    var s' := Then(mls, instanceMax, s, actions);
    StillDeliverable(mls, instanceMax, s, s', n, request, at);
    SoundDisk(mls, instanceMax, s, n);
    AcknowledgeRemovesThatRow(s.db, s.db.outbox[0].item.deviceId, s.db.outbox[0].item.eventId, 0);
    assert s.db.outbox[..0] + s.db.outbox[1..] == s.db.outbox[1..];
    AcceptLogGrows(s.history, request, instanceMax, at);
  }

  lemma FaithfulAt(codec: Codec<SubmitEvent>, request: SubmitEvent)
    requires Faithful(codec)
    ensures codec.decode(codec.encode(request)) == Some(request)
  {
  }

  lemma AcceptLogGrows(h: History, request: SubmitEvent, instanceMax: ServerTtl, at: Time)
    ensures |AcceptH(h, request, instanceMax, at).log| <= |h.log| + 1
  {
    hide Held, Overtaken;
  }

  /** Row by row, the whole outbox. */
  lemma {:induction false} Drain(mls: Mls, instanceMax: ServerTtl, s: System, n: nat, at: Time)
    returns (actions: seq<Pipeline.Action>)
    requires Lawful(mls) && Ready(mls, instanceMax, s, n, at) && 0 < n && n + 5 * |s.db.outbox| <= U64_MAX
    ensures |actions| == 5 * |s.db.outbox|
    ensures var s' := Then(mls, instanceMax, s, actions);
            && Invariant(mls, instanceMax, s', n + |actions|) && s'.db.outbox == []
            && s'.queued == s.queued && s'.members == s.members
    decreases |s.db.outbox|
  {
    hide Lawful, Invariant, Pipeline.Apply, AllDeliverable, Then;
    if s.db.outbox == [] {
      actions := [];
      NoActions(mls, instanceMax, s);
    } else {
      var first := FirstRowMoves(mls, instanceMax, s, n, at);
      var rest := Drain(mls, instanceMax, Then(mls, instanceMax, s, first), n + 5, at);
      actions := first + rest;
      ThenMore(mls, instanceMax, s, first, rest);
    }
  }

  lemma NoActions(mls: Mls, instanceMax: ServerTtl, s: System)
    ensures Then(mls, instanceMax, s, []) == s
  {
  }

  /** Whatever flush is going on can be called off. */
  lemma FlushCalledOff(mls: Mls, instanceMax: ServerTtl, s: System)
    ensures var actions := [FlushHears(Cancelled, false), FlushEnds];
            var s' := Then(mls, instanceMax, s, actions);
            s' == s.(flush := NoFlush)
  {
    var cancel := FlushHears(Cancelled, false);
    CancellingIs(mls, instanceMax, s);
    hide Pipeline.Apply, Then;
    NoActions(mls, instanceMax, s);
    ThenOne(mls, instanceMax, s, [], cancel);
    ThenOne(mls, instanceMax, s, [cancel], FlushEnds);
    assert [] + [cancel] == [cancel] && [cancel] + [FlushEnds] == [cancel, FlushEnds];
  }

  lemma CancellingIs(mls: Mls, instanceMax: ServerTtl, s: System)
    ensures Pipeline.Apply(mls, instanceMax, Pipeline.Apply(mls, instanceMax, s, FlushHears(Cancelled, false)),
                           FlushEnds)
            == s.(flush := NoFlush)
  {
    hide Pipeline.Apply, HearStep;
    HearingIs(mls, instanceMax, s, Cancelled);
    CancellingStops(s);
    EndingIs(mls, instanceMax, HearStep(s, Cancelled, false));
  }

  lemma CancellingStops(s: System)
    ensures var s' := HearStep(s, Cancelled, false);
            && (s'.flush.InFlush? ==> s'.flush.waiting.None?)
            && s' == s.(flush := s'.flush)
  {
    hide UuidText, Acknowledge;
  }

  lemma SameDeliverable(s: System, s': System, at: Time)
    requires AllDeliverable(s, at) && s' == s.(flush := s'.flush)
    ensures AllDeliverable(s', at)
  {
    hide Deliverable, AcceptedOf, Pending;
    forall device | device in s'.members
      ensures DeviceDeliverable(s', device, at)
    {
      assert DeviceDeliverable(s, device, at);
      assert LaneOf(s', device) == LaneOf(s, device);
    }
  }

  /** An empty outbox means the relay has accepted all a device ever committed. */
  lemma EmptyMeansAccepted(mls: Mls, instanceMax: ServerTtl, s: System, n: nat, device: Uuid)
    requires Invariant(mls, instanceMax, s, n) && device in s.members && s.db.outbox == []
    ensures AcceptedOf(s.history.log, device) == QueueOf(s, device)
  {
    hide Invariant, Sound, AcceptedOf, InLane, Pending;
    LaneAndDisk(mls, instanceMax, s, n, device);
    NothingPending(s.db, UuidText(device));
    EmptyLane(mls, LaneOf(s, device), device);
  }

  lemma NothingPending(db: Database, of: string)
    requires db.outbox == []
    ensures Pending(db, of) == []
  {
    assert Items(db) == [];
  }

  lemma EmptyLane(mls: Mls, lane: Lane, device: Uuid)
    requires InLane(mls, lane, device) && lane.pending == []
    ensures lane.accepted == lane.queued
  {
    assert lane.queued[..|lane.queued|] == lane.queued;
  }

  /**
   * Nothing short of the stuck state is in the way: from any life that ends with the vault open
   * and every pending submission deliverable at some clock reading, there is a longer one that
   * ends with an empty outbox and all that was committed accepted, device by device, in order.
   */
  lemma EverythingCanArrive(mls: Mls, instanceMax: ServerTtl, life: seq<System>, at: Time) returns (longer: seq<System>)
    requires Lawful(mls) && Life(mls, instanceMax, life)
    requires life[|life| - 1].unlocked && AllDeliverable(life[|life| - 1], at)
    requires |life| + 2 + 5 * |life[|life| - 1].db.outbox| <= U64_MAX
    ensures Life(mls, instanceMax, longer) && life <= longer
    ensures var s, s' := life[|life| - 1], longer[|longer| - 1];
            && s'.db.outbox == [] && s'.queued == s.queued && s'.members == s.members
            && forall device | device in s.members :: AcceptedOf(s'.history.log, device) == QueueOf(s, device)
  {
    hide Lawful, Invariant, Initial, Pipeline.Apply, AllDeliverable, AcceptedOf, Then, Steps;
    var s := life[|life| - 1];
    var callOff := [FlushHears(Cancelled, false), FlushEnds];
    LifeKeeps(mls, instanceMax, life, |life| - 1);
    LogIsShort(mls, instanceMax, life, |life| - 1);
    FlushCalledOff(mls, instanceMax, s);
    var idle := Then(mls, instanceMax, s, callOff);
    ThenKeeps(mls, instanceMax, s, |life|, callOff);
    SameDeliverable(s, idle, at);
    var actions := Drain(mls, instanceMax, idle, |life| + 2, at);
    ThenMore(mls, instanceMax, s, callOff, actions);
    longer := LifeGoesOn(mls, instanceMax, life, callOff + actions);
    var s' := longer[|longer| - 1];
    forall device | device in s.members
      ensures AcceptedOf(s'.history.log, device) == QueueOf(s, device)
    {
      EmptyMeansAccepted(mls, instanceMax, s', |life| + 2 + |actions|, device);
    }
  }
}
