/** The worker's and the relay's steps in the pipeline. */
module PipelineDelivery {
  import opened Wrappers
  import opened Protocol
  import opened Sequences
  import opened Identifiers
  import opened VaultStore
  import opened DeviceQueues
  import opened MlsTypes
  import opened Persistence
  import opened OutboxWorker
  import opened FlushGuarantees
  import opened RelayStore
  import opened RelayHistory
  import opened SenderChains
  import opened MemberRuns
  import opened DeliveryLanes
  import opened Pipeline
  import opened PipelineInvariant
  import opened PipelineClients
  import EndToEnd

  // The relay.

  lemma OvertakenByItself(log: seq<LogEntry>, request: SubmitEvent)
    requires request in AcceptedOf(log, request.senderDeviceId)
    ensures Overtaken(log, request)
  {
    AcceptedMembers(log, request.senderDeviceId, request);
    var i :| 0 <= i < |log| && log[i].stored.request == request;
    assert EntryKey(log[i]) == KeyOf(request);
  }

  ghost predicate OnlyLogGrew(s: System, s': System, entry: LogEntry) {
    && s'.db == s.db && s'.queued == s.queued && s'.members == s.members && s'.sent == s.sent
    && s'.flush == s.flush && s'.memory == s.memory
    && s'.history.log == s.history.log + [entry]
  }

  lemma GrownLane(s: System, s': System, entry: LogEntry, device: Uuid)
    requires OnlyLogGrew(s, s', entry)
    ensures var l := LaneOf(s, device);
            LaneOf(s', device) == if entry.stored.request.senderDeviceId == device
                                  then l.(accepted := l.accepted + [entry.stored.request]) else l
  {
    AcceptedExtends(s.history.log, entry, device);
  }

  lemma GrownInLane(mls: Mls, s: System, s': System, entry: LogEntry)
    requires OnlyLogGrew(s, s', entry) && AllInLane(mls, s) && AllTravel(mls, s)
    requires var request := entry.stored.request;
             request.senderDeviceId in s.members ==>
               && MayTravel(LaneOf(s, request.senderDeviceId), request)
               && request !in LaneOf(s, request.senderDeviceId).accepted
    ensures AllInLane(mls, s') && AllTravel(mls, s')
  {
    hide InLane, LaneOf, OnlyLogGrew;
    assert s'.members == s.members && s'.sent == s.sent by { GrownFrame(s, s', entry); }
    forall device | device in s'.members
      ensures InLane(mls, LaneOf(s', device), device)
    {
      GrownLane(s, s', entry, device);
      if entry.stored.request.senderDeviceId == device {
        AcceptKeepsLane(mls, LaneOf(s, device), device, entry.stored.request);
      }
    }
    forall payload | payload in s'.sent
      ensures Travels(mls, s', payload)
    {
      assert Travels(mls, s, payload);
      GrownLane(s, s', entry, mls.submitJson.decode(payload).value.senderDeviceId);
    }
  }

  lemma GrownFrame(s: System, s': System, entry: LogEntry)
    requires OnlyLogGrew(s, s', entry)
    ensures s'.members == s.members && s'.sent == s.sent
  {
  }

  lemma RelayAnswers(s: System, request: SubmitEvent, instanceMax: ServerTtl, at: Time)
    requires Refines(s.store, s.history, instanceMax) && AllInLog(s)
    ensures var s' := RelayStep(s, request, instanceMax, at);
            Refines(s'.store, s'.history, instanceMax) && AllInLog(s')
  {
    hide Refines, Accept, Held, Overtaken;
    var s' := RelayStep(s, request, instanceMax, at);
    AcceptRefines(s.store, s.history, instanceMax, request, at);
    forall answer | answer in s'.answers
      ensures InLog(s'.history.log, answer)
    {
      if answer in s.answers {
        assert InLog(s.history.log, answer);
        var i :| 0 <= i < |s.history.log| && s.history.log[i].stored == StoredEvent(answer.request, answer.receipt);
        assert s'.history.log[i] == s.history.log[i];
      }
    }
  }

  /** The relay takes a request of ours only if it is the next one due. */
  lemma RelayStepKeeps(mls: Mls, instanceMax: ServerTtl, s: System, request: SubmitEvent, at: Time, n: nat)
    requires Invariant(mls, instanceMax, s, n)
    requires request.senderDeviceId in s.members ==> MayTravel(LaneOf(s, request.senderDeviceId), request)
    ensures Invariant(mls, instanceMax, RelayStep(s, request, instanceMax, at), n + 1)
  {
    hide OnDisk, Remembered, AllInLane, AllTravel, OnlyOurs, FlushInOrder, Refines, AllInLog, Accept, Held, Overtaken,
      MayTravel;
    var s' := RelayStep(s, request, instanceMax, at);
    RelayAnswers(s, request, instanceMax, at);
    RememberedLater(mls, s, s', n);
    FlushUntouched(mls, s, s');
    RelaySparesDisk(mls, s, s');
    if s'.history.log == s.history.log {
      LanesUntouched(mls, s, s');
    } else {
      if request in AcceptedOf(s.history.log, request.senderDeviceId) {
        OvertakenByItself(s.history.log, request);
      }
      GrownInLane(mls, s, s', s'.history.log[|s.history.log|]);
    }
  }

  lemma RelaySparesDisk(mls: Mls, s: System, s': System)
    requires OnDisk(mls, s) && OnlyOurs(s)
    requires s'.db == s.db && s'.members == s.members && s'.memory == s.memory
    ensures OnDisk(mls, s') && OnlyOurs(s')
  {
    hide InStep, Sound, Ours;
  }

  lemma PollKeeps(mls: Mls, instanceMax: ServerTtl, s: System, channel: Uuid, cursor: U64, now: Time, n: nat)
    requires Invariant(mls, instanceMax, s, n)
    ensures Invariant(mls, instanceMax,
                      s.(store := ListActive(s.store, channel, cursor, now).0, history := Tick(s.history, now)), n + 1)
  {
    hide OnDisk, Remembered, AllInLane, AllTravel, OnlyOurs, FlushInOrder, Refines, InLog, ListActive;
    var s' := s.(store := ListActive(s.store, channel, cursor, now).0, history := Tick(s.history, now));
    ListRefines(s.store, s.history, instanceMax, channel, cursor, now);
    RememberedLater(mls, s, s', n);
    FlushUntouched(mls, s, s');
    RelaySparesDisk(mls, s, s');
    LanesUntouched(mls, s, s');
  }

  // The worker.

  lemma FilterFirst(items: seq<OutboxItem>, of: string)
    requires items != []
    ensures Filter(items, OfDevice(of))
            == if items[0].deviceId == of then [items[0]] + Filter(items[1..], OfDevice(of))
               else Filter(items[1..], OfDevice(of))
  {
    assert items == [items[0]] + items[1..];
    FilterAppend([items[0]], items[1..], OfDevice(of));
    FilterLast([], items[0], OfDevice(of));
    assert [] + [items[0]] == [items[0]];
  }

  ghost predicate OnlyFlush(s: System, s': System) {
    && s'.db == s.db && s'.queued == s.queued && s'.members == s.members && s'.memory == s.memory
    && s'.history == s.history && s'.store == s.store && s'.answers == s.answers
  }

  /** A step of the worker alone keeps the invariant if it keeps the flush in order and the wire honest. */
  lemma OnlyFlushKeeps(mls: Mls, instanceMax: ServerTtl, s: System, s': System, n: nat)
    requires Invariant(mls, instanceMax, s, n) && OnlyFlush(s, s')
    requires FlushInOrder(mls, s') && s.sent <= s'.sent
    requires forall payload | payload in s'.sent && payload !in s.sent :: Travels(mls, s, payload)
    ensures Invariant(mls, instanceMax, s', n + 1)
  {
    hide OnDisk, Remembered, AllInLane, OnlyOurs, FlushInOrder, Refines, AllInLog, MayTravel, LaneOf;
    RememberedLater(mls, s, s', n);
    RelaySparesDisk(mls, s, s');
    AnswersUntouched(s, s');
    LanesUntouched(mls, s, s'.(sent := s.sent));
    assert SameLaneOf(s, s') by { LanesByParts(s, s'); }
    assert AllInLane(mls, s') by { InLaneByParts(mls, s, s'); }
    forall payload | payload in s'.sent
      ensures Travels(mls, s', payload)
    {
      assert Travels(mls, s, payload);
    }
  }

  ghost predicate SameLaneOf(s: System, s': System) { forall device: Uuid :: LaneOf(s', device) == LaneOf(s, device) }

  lemma LanesByParts(s: System, s': System)
    requires OnlyFlush(s, s')
    ensures SameLaneOf(s, s')
  {
  }

  lemma InLaneByParts(mls: Mls, s: System, s': System)
    requires OnlyFlush(s, s') && AllInLane(mls, s)
    ensures AllInLane(mls, s')
  {
    hide InLane;
    forall device: Uuid
      ensures LaneOf(s', device) == LaneOf(s, device)
    {
    }
  }

  /** The row at hand, if its device is not blocked, is the oldest of a device of ours. */
  lemma RowAtHand(mls: Mls, instanceMax: ServerTtl, s: System, n: nat, submission: SubmitEvent)
    requires Lawful(mls) && Invariant(mls, instanceMax, s, n)
    requires s.flush.InFlush? && s.flush.waiting.None? && s.flush.remaining != []
    requires !s.flush.progress.stopped && s.flush.remaining[0].deviceId !in s.flush.progress.blocked
    requires ValidateOutboxItem(mls.submitJson, s.flush.remaining[0]) == Some(submission)
    ensures s.flush.remaining[0] == OutboxItemOf(mls, submission.senderDeviceId, submission)
    ensures Leads(s.db, s.flush.remaining[0]) && submission.senderDeviceId in s.members
    ensures mls.submitJson.encode(submission) == s.flush.remaining[0].payload
    ensures Travels(mls, s, s.flush.remaining[0].payload)
    ensures mls.submitJson.decode(s.flush.remaining[0].payload) == Some(submission)
  {
    hide OnDisk, Remembered, AllTravel, Refines, AllInLog, Filter, Pending, UuidText, InLane, MayTravel;
    var item, device := s.flush.remaining[0], submission.senderDeviceId;
    ValidatedIsTheRow(mls.submitJson, item);
    assert InOrder(s, item.deviceId);
    FilterFirst(s.flush.remaining, item.deviceId);
    assert Leads(s.db, item);
    PendingIsPresent(s.db, item.deviceId, 0);
    var row :| row in s.db.outbox && row.item == item;
    assert Ours(row.item, s.members.Keys);
    var owner :| owner in s.members && UuidText(owner) == item.deviceId;
    UuidTextIsAKey(owner, device);
    LawfulCodecs(mls);
    assert InLane(mls, LaneOf(s, device), device);
    HeadIsDue(mls, LaneOf(s, device), device, submission);
  }

  lemma StartTurnFacts(json: Codec<SubmitEvent>, p: Progress, item: OutboxItem, enabled: bool)
    ensures var (p', begun) := StartTurn(json, p, item, enabled);
            && p.blocked <= p'.blocked && (p.stopped ==> p'.stopped)
            && (begun.Err? ==> p'.stopped || item.deviceId in p'.blocked)
            && (begun.Ok? ==>
                  && !p.stopped && item.deviceId !in p.blocked
                  && !p'.stopped && p'.blocked == p.blocked
                  && ValidateOutboxItem(json, item) == Some(begun.value)
                  && UuidText(begun.value.senderDeviceId) == item.deviceId)
  {
  }

  lemma TurnInOrder(mls: Mls, s: System, enabled: bool, of: string)
    requires s.flush.InFlush? && s.flush.waiting.None? && s.flush.remaining != []
    requires InOrder(s, of)
    ensures InOrder(TurnStep(mls, s, enabled), of)
  {
    hide Filter, Pending, ValidateOutboxItem, UuidText, StartTurn;
    var item := s.flush.remaining[0];
    FilterFirst(s.flush.remaining, of);
    StartTurnFacts(mls.submitJson, s.flush.progress, item, enabled);
    var rest, s' := s.flush.remaining[1..], TurnStep(mls, s, enabled);
    var (p, begun) := StartTurn(mls.submitJson, s.flush.progress, item, enabled);
    assert s'.db == s.db && s'.flush.remaining == rest && s'.flush.progress == p;
    if item.deviceId != of {
      assert Ahead(s', of) == Pending(s.db, of) && Ahead(s, of) == Pending(s.db, of);
    } else if begun.Err? {
      assert p.stopped || of in p.blocked;
    } else {
      assert Filter(s.flush.remaining, OfDevice(of)) <= Pending(s.db, of);
      PrefixTail(item, Filter(rest, OfDevice(of)), Pending(s.db, of));
      assert Ahead(s', of) == Pending(s.db, of)[1..];
    }
  }

  lemma PrefixTail<T>(x: T, a: seq<T>, b: seq<T>)
    requires [x] + a <= b
    ensures b != [] && a <= b[1..]
  {
    assert ([x] + a)[1..] == a;
  }

  lemma TurnStepKeeps(mls: Mls, instanceMax: ServerTtl, s: System, enabled: bool, n: nat)
    requires Lawful(mls) && Invariant(mls, instanceMax, s, n)
    ensures Invariant(mls, instanceMax, TurnStep(mls, s, enabled), n + 1)
  {
    hide OnDisk, Remembered, AllInLane, AllTravel, OnlyOurs, Refines, AllInLog, InOrder, ValidateOutboxItem, Travels,
      Lawful, Leads, UuidText, OutboxItemOf, StartTurn;
    var s' := TurnStep(mls, s, enabled);
    if s.flush.InFlush? && s.flush.waiting.None? && s.flush.remaining != [] {
      forall of: string
        ensures InOrder(s', of)
      {
        TurnInOrder(mls, s, enabled, of);
      }
      StartTurnFacts(mls.submitJson, s.flush.progress, s.flush.remaining[0], enabled);
      if s'.flush.waiting.Some? {
        RowAtHand(mls, instanceMax, s, n, s'.flush.waiting.value);
        LeadsByDisk(s, s', OutboxItemOf(mls, s'.flush.waiting.value.senderDeviceId, s'.flush.waiting.value));
      }
    }
    OnlyFlushKeeps(mls, instanceMax, s, s', n);
  }

  lemma LeadsByDisk(s: System, s': System, item: OutboxItem)
    requires Leads(s.db, item) && s'.db == s.db
    ensures Leads(s'.db, item)
  {
  }

  lemma StartKeeps(mls: Mls, instanceMax: ServerTtl, s: System, n: nat)
    requires Invariant(mls, instanceMax, s, n)
    ensures var items := ListAll(s.db);
            Invariant(mls, instanceMax,
                      s.(flush := InFlush(items, Progress(SendingStatus(|items|), {}, false), None)), n + 1)
  {
    hide OnDisk, Remembered, AllInLane, AllTravel, OnlyOurs, Refines, AllInLog, Filter, ListAll;
    var s' := s.(flush := InFlush(ListAll(s.db), Progress(SendingStatus(|ListAll(s.db)|), {}, false), None));
    forall of: string
      ensures InOrder(s', of)
    {
      ListingIsAPrefix(s.db);
      FilterPrefix(ListAll(s.db), Items(s.db), OfDevice(of));
    }
    OnlyFlushKeeps(mls, instanceMax, s, s', n);
  }

  lemma ListingIsAPrefix(db: Database)
    ensures ListAll(db) <= Items(db)
  {
  }

  lemma EndKeeps(mls: Mls, instanceMax: ServerTtl, s: System, n: nat)
    requires Invariant(mls, instanceMax, s, n)
    ensures Invariant(mls, instanceMax, s.(flush := NoFlush), n + 1)
  {
    hide OnDisk, Remembered, AllInLane, AllTravel, OnlyOurs, Refines, AllInLog;
    FlushUntouched(mls, s, s.(flush := NoFlush));
    OnlyFlushKeeps(mls, instanceMax, s, s.(flush := NoFlush), n);
  }

  lemma NeverTwice(mls: Mls, s: System, n: nat, device: Uuid)
    requires Remembered(mls, s, n) && device in s.members
    ensures Distinct(QueueOf(s, device))
  {
    hide Consistent, CarriesAll, ChainValid;
    forall channel: Uuid
      ensures ChainValid(mls, SentBy(s.members[device])(channel))
    {
      EndToEnd.SentIsAChain(mls, s.members[device], n, channel);
    }
    QueuedDiffer(mls, QueueOf(s, device), SentBy(s.members[device]));
  }

  /** The oldest row of one device of ours is gone from disk, and nothing else has happened. */
  ghost predicate HeadGone(s: System, s': System, device: Uuid) {
    && s'.queued == s.queued && s'.members == s.members && s'.memory == s.memory && s'.sent == s.sent
    && s'.history == s.history && s'.store == s.store && s'.answers == s.answers
    && HeadTaken(s.db, s'.db, UuidText(device))
  }

  ghost predicate HeadTaken(db: Database, db': Database, deviceId: string) {
    && Sound(db') && db'.snapshots == db.snapshots
    && (forall row | row in db'.outbox :: row in db.outbox)
    && Pending(db, deviceId) != []
    && forall of: string :: Pending(db', of) == if of == deviceId then Pending(db, of)[1..] else Pending(db, of)
  }

  lemma HeadGoneLane(s: System, s': System, device: Uuid, of: Uuid)
    requires HeadGone(s, s', device)
    ensures var l := LaneOf(s, of);
            && (of == device ==> l.pending != [])
            && LaneOf(s', of) == if of == device then l.(pending := l.pending[1..]) else l
  {
    UuidTextIsAKey(of, device);
    hide Sound, UuidText, AcceptedOf;
  }

  lemma HeadGoneInLane(mls: Mls, s: System, s': System, n: nat, device: Uuid, request: SubmitEvent)
    requires Faithful(mls.submitJson) && HeadGone(s, s', device) && device in s.members
    requires AllInLane(mls, s) && AllTravel(mls, s) && Remembered(mls, s, n)
    requires mls.submitJson.encode(request) == Pending(s.db, UuidText(device))[0].payload
    requires request in LaneOf(s, device).accepted
    ensures AllInLane(mls, s') && AllTravel(mls, s')
  {
    NeverTwice(mls, s, n, device);
    HeadIsDue(mls, LaneOf(s, device), device, request);
    assert LaneOf(s, device).queued == QueueOf(s, device);
    assert s'.members == s.members && s'.sent == s.sent;
    hide InLane, MayTravel, LaneOf, HeadGone, Remembered, Distinct;
    forall of | of in s'.members
      ensures InLane(mls, LaneOf(s', of), of)
    {
      HeadGoneLane(s, s', device, of);
      if of == device {
        AcknowledgeKeepsLane(mls, LaneOf(s, of), of, request);
      }
    }
    forall payload | payload in s'.sent
      ensures Travels(mls, s', payload)
    {
      assert Travels(mls, s, payload);
      var travelling := mls.submitJson.decode(payload).value;
      HeadGoneLane(s, s', device, travelling.senderDeviceId);
      if travelling.senderDeviceId == device {
        AcknowledgeKeepsTravel(LaneOf(s, device), travelling);
      }
    }
  }

  lemma HeadGoneOnDisk(mls: Mls, s: System, s': System, device: Uuid)
    requires OnDisk(mls, s) && OnlyOurs(s) && HeadGone(s, s', device)
    ensures OnDisk(mls, s') && OnlyOurs(s')
  {
    hide InStep, Sound, Ours, Pending, UuidText;
    forall of | of in s'.members
      ensures InStep(mls, s'.members[of].client, s'.db)
    {
      SnapshotsUntouched(mls, s.members[of].client, s.db, s'.db);
    }
  }

  ghost predicate Hears(s: System, reply: Reply) {
    && s.flush.InFlush? && s.flush.waiting.Some?
    && (reply.Receipt? ==> Answer(s.flush.waiting.value, reply.receipt) in s.answers)
  }

  lemma HearFrame(s: System, reply: Reply, ackFails: bool)
    requires Hears(s, reply)
    ensures var s' := HearStep(s, reply, ackFails);
            var (db, p, _) := EndTurn(s.db, s.unlocked, s.flush.progress, s.flush.waiting.value, reply, ackFails);
            s' == s.(db := db, flush := InFlush(s.flush.remaining, p, None))
  {
    hide EndTurn;
  }

  /** The reply decides: the head row goes, or its device is blocked, or the flush stops. */
  lemma ReplyDecides(mls: Mls, s: System, reply: Reply, ackFails: bool)
    requires WaitsForHead(mls, s) && Sound(s.db) && Hears(s, reply)
    ensures var s' := HearStep(s, reply, ackFails);
            var device := s.flush.waiting.value.senderDeviceId;
            && s'.flush.InFlush? && s'.flush.waiting.None? && s'.flush.remaining == s.flush.remaining
            && s.flush.progress.blocked <= s'.flush.progress.blocked
            && (s'.db == s.db ==> OnlyFlush(s, s') && s'.sent == s.sent
                                  && (s'.flush.progress.stopped || UuidText(device) in s'.flush.progress.blocked))
            && (s'.db != s.db ==> reply.Receipt? && HeadGone(s, s', device)
                                  && s'.flush.progress.blocked == s.flush.progress.blocked)
  {
    hide Sound, Pending, UuidText, Acknowledge, HeadTaken, Leads, EndTurn, HearStep, WaitsForHead;
    var request := s.flush.waiting.value;
    var item := OutboxItemOf(mls, request.senderDeviceId, request);
    HearFrame(s, reply, ackFails);
    assert Leads(s.db, item) by { WaitedFor(mls, s); }
    AcknowledgedHead(s.db, item);
    EndTurnFacts(s.db, s.unlocked, s.flush.progress, request, reply, ackFails);
  }

  lemma EndTurnFacts(db: Database, unlocked: bool, p: Progress, submission: SubmitEvent, reply: Reply, ackFails: bool)
    ensures var (db', p', _) := EndTurn(db, unlocked, p, submission, reply, ackFails);
            var device := UuidText(submission.senderDeviceId);
            var acknowledged := Acknowledge(db, device, UuidText(submission.eventId));
            && p.blocked <= p'.blocked
            && (if db' == db then
                  p'.stopped || device in p'.blocked || |acknowledged.outbox| == |db.outbox|
                else reply.Receipt? && db' == acknowledged && p'.blocked == p.blocked)
  {
    hide Acknowledge, UuidText;
  }

  lemma AcknowledgedHead(db: Database, item: OutboxItem)
    requires Sound(db) && Leads(db, item)
    ensures var db' := Acknowledge(db, item.deviceId, item.eventId);
            HeadTaken(db, db', item.deviceId) && |db'.outbox| != |db.outbox|
  {
    AcknowledgeTheHead(db, item);
    FilterMembers(db.outbox, OtherThan(item.deviceId, item.eventId));
    assert Acknowledge(db, item.deviceId, item.eventId).snapshots == db.snapshots;
    hide Sound, Pending, OtherThan;
  }

  lemma HearInOrder(mls: Mls, s: System, reply: Reply, ackFails: bool, of: string)
    requires FlushInOrder(mls, s) && Sound(s.db) && Hears(s, reply)
    ensures InOrder(HearStep(s, reply, ackFails), of)
  {
    ReplyDecides(mls, s, reply, ackFails);
    assert InOrder(s, of);
    hide HearStep, Sound, Filter, Pending, UuidText;
  }

  lemma AnsweredIsAccepted(mls: Mls, s: System, answer: Answer)
    requires AllInLog(s) && answer in s.answers
    ensures answer.request in LaneOf(s, answer.request.senderDeviceId).accepted
  {
    assert InLog(s.history.log, answer);
    var i :| 0 <= i < |s.history.log| && s.history.log[i].stored == StoredEvent(answer.request, answer.receipt);
    AcceptedMembers(s.history.log, answer.request.senderDeviceId, answer.request);
  }

  lemma HearStepKeeps(mls: Mls, instanceMax: ServerTtl, s: System, reply: Reply, ackFails: bool, n: nat)
    requires Lawful(mls) && Invariant(mls, instanceMax, s, n)
    ensures Invariant(mls, instanceMax, HearStep(s, reply, ackFails), n + 1)
  {
    if Hears(s, reply) {
      HeardKeeps(mls, instanceMax, s, reply, ackFails, n);
    } else {
      assert HearStep(s, reply, ackFails) == s;
      hide OnDisk, Remembered, AllInLane, AllTravel, OnlyOurs, Refines, AllInLog, FlushInOrder, HearStep;
      OnlyFlushKeeps(mls, instanceMax, s, s, n);
    }
  }

  lemma WaitedFor(mls: Mls, s: System)
    requires WaitsForHead(mls, s) && s.flush.InFlush? && s.flush.waiting.Some?
    ensures var request := s.flush.waiting.value;
            var pending := Pending(s.db, UuidText(request.senderDeviceId));
            && request.senderDeviceId in s.members && pending != []
            && Leads(s.db, OutboxItemOf(mls, request.senderDeviceId, request))
            && mls.submitJson.encode(request) in s.sent
            && mls.submitJson.encode(request) == pending[0].payload
  {
    hide UuidText, Pending;
  }

  lemma OnDiskIsSound(mls: Mls, s: System)
    requires OnDisk(mls, s)
    ensures Sound(s.db)
  {
  }

  lemma HeardKeeps(mls: Mls, instanceMax: ServerTtl, s: System, reply: Reply, ackFails: bool, n: nat)
    requires Lawful(mls) && Invariant(mls, instanceMax, s, n)
    requires Hears(s, reply)
    ensures Invariant(mls, instanceMax, HearStep(s, reply, ackFails), n + 1)
  {
    hide HearStep, Remembered, AllInLane, AllTravel, OnlyOurs, Refines, AllInLog, InOrder, HeadGone, Lawful,
      Pending, UuidText, OnDisk, Sound, LaneOf, WaitsForHead, OnlyFlush;
    var s', request := HearStep(s, reply, ackFails), s.flush.waiting.value;
    OnDiskIsSound(mls, s);
    ReplyDecides(mls, s, reply, ackFails);
    forall of: string
      ensures InOrder(s', of)
    {
      HearInOrder(mls, s, reply, ackFails, of);
    }
    assert WaitsForHead(mls, s') by { NothingWaits(mls, s'); }
    if s'.db == s.db {
      OnlyFlushKeeps(mls, instanceMax, s, s', n);
    } else {
      LawfulCodecs(mls);
      WaitedFor(mls, s);
      AnsweredIsAccepted(mls, s, Answer(request, reply.receipt));
      HeadGoneInLane(mls, s, s', n, request.senderDeviceId, request);
      HeadGoneOnDisk(mls, s, s', request.senderDeviceId);
      HeadGoneRest(mls, instanceMax, s, s', request.senderDeviceId, n);
    }
  }

  lemma NothingWaits(mls: Mls, s: System)
    requires s.flush.InFlush? && s.flush.waiting.None?
    ensures WaitsForHead(mls, s)
  {
  }

  lemma HeadGoneRest(mls: Mls, instanceMax: ServerTtl, s: System, s': System, device: Uuid, n: nat)
    requires HeadGone(s, s', device) && Remembered(mls, s, n) && AllInLog(s)
    requires Refines(s.store, s.history, instanceMax)
    ensures Remembered(mls, s', n + 1) && AllInLog(s') && Refines(s'.store, s'.history, instanceMax)
  {
    hide Remembered, AllInLog, Refines, Pending, Sound;
    RememberedLater(mls, s, s', n);
    AnswersUntouched(s, s');
  }
}
