/** The clients' steps in the pipeline: operations, queueing, loading and crashes. */
module PipelineClients {
  import opened Wrappers
  import opened Protocol
  import opened Sequences
  import opened Identifiers
  import opened VaultStore
  import opened DeviceQueues
  import opened MlsTypes
  import opened ClientOperations
  import opened Persistence
  import opened OutboxWorker
  import opened FlushGuarantees
  import opened RelayStore
  import opened RelayHistory
  import opened SenderChains
  import opened MemberRuns
  import opened DeliveryLanes
  import opened Pipeline
  import opened PipelineInvariant
  import opened Snapshot

  lemma TransactIsSound(mls: Mls, c: Client, db: Database, unlocked: bool, op: Operation, failing: bool)
    requires Sound(db)
    ensures Sound(Transact(mls, c, db, unlocked, op, failing).1)
    ensures Transact(mls, c, db, unlocked, op, failing).1.outbox == db.outbox
  {
    hide Sound, Operate, EncodeSnapshot, DecodeSnapshot;
    var c' := Operate(mls, c, op).0;
    if EncodeSnapshot(mls, c').Ok? {
      OneMoreAppends(Shared(db, unlocked), Save(UuidText(c'.deviceId), EncodeSnapshot(mls, c').value, failing));
    }
  }

  lemma QueueIsSound(mls: Mls, c: Client, db: Database, unlocked: bool, draft: Draft, ttl: ServerTtl,
                     message: Option<VaultMessage>, failing: Option<Statement>)
    requires Sound(db)
    ensures Sound(QueueOutgoing(mls, c, db, unlocked, draft, ttl, message, failing).1)
  {
    hide Sound, EncryptDraft, EncodeSnapshot, DecodeSnapshot, StoreTransaction, ToSubmitEvent;
    var (c', encrypted) := EncryptDraft(mls, c, draft);
    if encrypted.Ok? && ToSubmitEvent(encrypted.value, ttl).Ok? && EncodeSnapshot(mls, c').Ok? {
      TransactionIsSound(db, unlocked, EncodeSnapshot(mls, c').value,
                         OutboxItemOf(mls, c'.deviceId, ToSubmitEvent(encrypted.value, ttl).value), message, failing);
    }
  }

  /** An operation other than sending sends nothing. */
  lemma ActSendsNothing(mls: Mls, m: Member, op: Operation, persisted: bool, channel: Uuid)
    ensures PastIn(Perform(mls, m, Act(op, persisted)), channel).sent == PastIn(m, channel).sent
  {
    hide Operate;
  }

  lemma InStepFacts(mls: Mls, c: Client, db: Database)
    requires InStep(mls, c, db)
    ensures Loadable(mls, c) && EncodeSnapshot(mls, c).Ok?
  {
  }

  lemma TransactSpares(mls: Mls, c: Client, db: Database, unlocked: bool, op: Operation, failing: bool, other: Client)
    requires Lawful(mls) && InStep(mls, c, db) && InStep(mls, other, db) && other.deviceId != c.deviceId
    ensures InStep(mls, other, Transact(mls, c, db, unlocked, op, failing).1)
  {
    hide InStep, Operate, Lawful, EncodeSnapshot, Transact;
    TransactIsAtomic(mls, c, db, unlocked, op, failing);
    var (c', db', r) := Transact(mls, c, db, unlocked, op, failing);
    if r.Ok? {
      InStepFacts(mls, c', db');
      OtherSnapshot(mls, other, db, db', c.deviceId, EncodeSnapshot(mls, c').value);
    }
  }

  lemma QueueSpares(mls: Mls, c: Client, db: Database, unlocked: bool, draft: Draft, ttl: ServerTtl,
                    message: Option<VaultMessage>, failing: Option<Statement>, other: Client)
    requires Lawful(mls) && InStep(mls, c, db) && InStep(mls, other, db) && other.deviceId != c.deviceId
    ensures InStep(mls, other, QueueOutgoing(mls, c, db, unlocked, draft, ttl, message, failing).1)
  {
    hide InStep, EncryptDraft, Lawful, EncodeSnapshot, QueueOutgoing, FindEvent, ToSubmitEvent, UuidText;
    QueueIsAtomic(mls, c, db, unlocked, draft, ttl, message, failing);
    var (c', db', r) := QueueOutgoing(mls, c, db, unlocked, draft, ttl, message, failing);
    if r.Ok? {
      InStepFacts(mls, c', db');
      OtherSnapshot(mls, other, db, db', c.deviceId, EncodeSnapshot(mls, c').value);
    }
  }

  lemma ClientStepOnDisk(mls: Mls, s: System, device: Uuid, op: Operation, fails: bool)
    requires Lawful(mls) && OnDisk(mls, s) && device in s.memory && device in s.members
    ensures var s' := ClientStep(mls, s, device, op, fails); OnDisk(mls, s') && SameLanes(s, s')
  {
    hide InStep, Lawful, Transact, Perform, Sound, Operate;
    var m, c := s.members[device], s.memory[device];
    TransactIsSound(mls, c, s.db, s.unlocked, op, fails);
    TransactIsAnAction(mls, m, s.db, s.unlocked, op, fails);
    TransactKeepsDevice(mls, c, s.db, s.unlocked, op, fails);
    forall other | other in s.members && other != device
      ensures InStep(mls, s.members[other].client, Transact(mls, c, s.db, s.unlocked, op, fails).1)
    {
      TransactSpares(mls, c, s.db, s.unlocked, op, fails, s.members[other].client);
    }
  }

  lemma TransactKeepsDevice(mls: Mls, c: Client, db: Database, unlocked: bool, op: Operation, failing: bool)
    requires Lawful(mls) && InStep(mls, c, db)
    ensures Transact(mls, c, db, unlocked, op, failing).0.deviceId == c.deviceId
  {
    hide InStep, Lawful, Transact, Operate;
    TransactIsAtomic(mls, c, db, unlocked, op, failing);
    OperateKeepsDevice(mls, c, op);
  }

  lemma ClientStepRemembered(mls: Mls, s: System, device: Uuid, op: Operation, fails: bool, n: nat)
    requires Remembered(mls, s, n) && 0 < n <= U64_MAX
    ensures Remembered(mls, ClientStep(mls, s, device, op, fails), n + 1)
  {
    hide Consistent, CarriesIn, Transact, Perform;
    var s' := ClientStep(mls, s, device, op, fails);
    forall of | of in s'.members
      ensures Consistent(mls, s'.members[of], n + 1) && CarriesAll(mls, QueueOf(s', of), SentBy(s'.members[of]))
    {
      if of == device && device in s.memory {
        var r := Transact(mls, s.memory[device], s.db, s.unlocked, op, fails).2;
        PerformIsConsistent(mls, s.members[of], Act(op, r.Ok?), n);
        forall channel: Uuid
          ensures SentBy(s'.members[of])(channel) == SentBy(s.members[of])(channel)
        {
          ActSendsNothing(mls, s.members[of], op, r.Ok?, channel);
        }
        assert CarriesAll(mls, QueueOf(s, of), SentBy(s.members[of]));
      } else {
        OlderIsConsistent(mls, s.members[of], n);
      }
    }
  }

  lemma ClientStepKeeps(mls: Mls, instanceMax: ServerTtl, s: System, device: Uuid, op: Operation, fails: bool, n: nat)
    requires Lawful(mls) && Invariant(mls, instanceMax, s, n) && 0 < n <= U64_MAX
    ensures Invariant(mls, instanceMax, ClientStep(mls, s, device, op, fails), n + 1)
  {
    hide Lawful, Transact, Perform, OnDisk, Remembered, AllInLane, AllTravel, OnlyOurs, FlushInOrder, Refines, AllInLog;
    ClientStepRemembered(mls, s, device, op, fails, n);
    if device in s.memory && device in s.members {
      ClientStepOnDisk(mls, s, device, op, fails);
      LanesUntouched(mls, s, ClientStep(mls, s, device, op, fails));
      FlushUntouched(mls, s, ClientStep(mls, s, device, op, fails));
      AnswersUntouched(s, ClientStep(mls, s, device, op, fails));
    }
  }

  lemma AnswersUntouched(s: System, s': System)
    requires AllInLog(s) && s'.answers == s.answers && s'.history == s.history
    ensures AllInLog(s')
  {
    hide InLog;
  }

  /** The submission wraps what the client encrypted for the event it sends. */
  lemma SendCarries(mls: Mls, m: Member, draft: Draft, ttl: ServerTtl, submission: SubmitEvent)
    requires EncryptDraft(mls, m.client, draft).1.Ok?
    requires ToSubmitEvent(EncryptDraft(mls, m.client, draft).1.value, ttl) == Ok(submission)
    ensures EventOf(m.client, draft).Some?
    ensures var event := EventOf(m.client, draft).value;
            && Carries(mls, submission, event)
            && forall channel: Uuid ::
                 PastIn(Perform(mls, m, Send(draft, true)), channel).sent
                 == if event.channelId == channel then PastIn(m, channel).sent + [event] else PastIn(m, channel).sent
  {
    hide EventOf, Encrypt, ToSubmitEvent;
    WrappedWithTtl(EncryptDraft(mls, m.client, draft).1.value, ttl, submission);
    assert Wraps(mls, m.client, EventOf(m.client, draft).value, submission);
  }

  lemma WrappedWithTtl(encrypted: EncryptedEvent, ttl: ServerTtl, submission: SubmitEvent)
    requires ToSubmitEvent(encrypted, ttl) == Ok(submission)
    ensures submission.ttlSeconds == ttl
  {
  }

  lemma QueueStepOnDisk(mls: Mls, s: System, device: Uuid, draft: Draft, ttl: ServerTtl,
                        message: Option<VaultMessage>, fault: Option<Statement>)
    requires Lawful(mls) && OnDisk(mls, s) && device in s.memory && device in s.members
    ensures OnDisk(mls, QueueStep(mls, s, device, draft, ttl, message, fault))
  {
    hide InStep, Lawful, QueueOutgoing, Perform, Sound, EncryptDraft, EncodeSnapshot, FindEvent;
    var m, c := s.members[device], s.memory[device];
    QueueIsSound(mls, c, s.db, s.unlocked, draft, ttl, message, fault);
    QueueIsAnAction(mls, m, s.db, s.unlocked, draft, ttl, message, fault);
    assert QueueOutgoing(mls, c, s.db, s.unlocked, draft, ttl, message, fault).0.deviceId == c.deviceId by {
      InStepFacts(mls, c, s.db);
      QueueIsAtomic(mls, c, s.db, s.unlocked, draft, ttl, message, fault);
      EncryptDraftFacts(mls, c, draft);
    }
    forall other | other in s.members && other != device
      ensures var (_, db', _) := QueueOutgoing(mls, c, s.db, s.unlocked, draft, ttl, message, fault);
              InStep(mls, s.members[other].client, db')
    {
      QueueSpares(mls, c, s.db, s.unlocked, draft, ttl, message, fault, s.members[other].client);
    }
  }

  lemma QueueStepRemembered(mls: Mls, s: System, device: Uuid, draft: Draft, ttl: ServerTtl,
                            message: Option<VaultMessage>, fault: Option<Statement>, n: nat)
    requires Lawful(mls) && OnDisk(mls, s) && Remembered(mls, s, n) && 0 < n <= U64_MAX
    ensures Remembered(mls, QueueStep(mls, s, device, draft, ttl, message, fault), n + 1)
  {
    hide Consistent, CarriesIn, QueueOutgoing, Perform, EncryptDraft, InStep, Lawful, Sound, EncodeSnapshot, FindEvent,
      EventOf, ToSubmitEvent, Committed;
    var s' := QueueStep(mls, s, device, draft, ttl, message, fault);
    forall of | of in s'.members
      ensures Consistent(mls, s'.members[of], n + 1) && CarriesAll(mls, QueueOf(s', of), SentBy(s'.members[of]))
    {
      if of == device && device in s.memory {
        QueueIsAtomic(mls, s.memory[device], s.db, s.unlocked, draft, ttl, message, fault);
        var r := QueueOutgoing(mls, s.memory[device], s.db, s.unlocked, draft, ttl, message, fault).2;
        PerformIsConsistent(mls, s.members[of], Send(draft, r.Ok?), n);
        if r.Ok? {
          QueueCarries(mls, s.members[of], QueueOf(s, of), draft, ttl, r.value);
        } else {
          FailedSend(mls, s.members[of], draft);
        }
      } else {
        OlderIsConsistent(mls, s.members[of], n);
      }
    }
  }

  lemma FailedSend(mls: Mls, m: Member, draft: Draft)
    ensures Perform(mls, m, Send(draft, false)) == m
  {
  }

  lemma QueueCarries(mls: Mls, m: Member, queued: seq<SubmitEvent>, draft: Draft, ttl: ServerTtl,
                     submission: SubmitEvent)
    requires EncryptDraft(mls, m.client, draft).1.Ok?
    requires ToSubmitEvent(EncryptDraft(mls, m.client, draft).1.value, ttl) == Ok(submission)
    requires CarriesAll(mls, queued, SentBy(m))
    ensures CarriesAll(mls, queued + [submission], SentBy(Perform(mls, m, Send(draft, true))))
  {
    hide CarriesIn, EncryptDraft, ToSubmitEvent, Perform, EventOf;
    SendCarries(mls, m, draft, ttl, submission);
    var m', event := Perform(mls, m, Send(draft, true)), EventOf(m.client, draft).value;
    forall channel: Uuid
      ensures CarriesIn(mls, queued + [submission], SentBy(m')(channel), channel)
    {
      assert CarriesIn(mls, queued, SentBy(m)(channel), channel);
      CarriesOneMore(mls, queued, SentBy(m)(channel), submission, event, channel);
    }
  }

  /** A new row at the end of one device's outbox. */
  ghost predicate Appended(mls: Mls, s: System, s': System, device: Uuid, submission: SubmitEvent) {
    && device in s.members && submission.senderDeviceId == device && s'.members.Keys == s.members.Keys
    && s'.queued == s.queued[device := QueueOf(s, device) + [submission]]
    && s'.history == s.history && s'.sent == s.sent && s'.flush == s.flush && s'.answers == s.answers
    && |s'.db.outbox| == |s.db.outbox| + 1 && s.db.outbox <= s'.db.outbox
    && s'.db.outbox[|s.db.outbox|].item == OutboxItemOf(mls, device, submission)
  }

  lemma AppendedPending(mls: Mls, s: System, s': System, device: Uuid, submission: SubmitEvent, of: string)
    requires Appended(mls, s, s', device, submission)
    ensures Pending(s'.db, of)
            == if of == UuidText(device) then Pending(s.db, of) + [OutboxItemOf(mls, device, submission)]
               else Pending(s.db, of)
  {
    assert Items(s'.db) == Items(s.db) + [OutboxItemOf(mls, device, submission)];
    FilterLast(Items(s.db), OutboxItemOf(mls, device, submission), OfDevice(of));
  }

  lemma AppendedLane(mls: Mls, s: System, s': System, device: Uuid, submission: SubmitEvent, of: Uuid)
    requires Appended(mls, s, s', device, submission)
    ensures var l := LaneOf(s, of);
            LaneOf(s', of) == if of == device
                              then Lane(l.queued + [submission], l.pending + [OutboxItemOf(mls, device, submission)],
                                        l.accepted)
                              else l
  {
    AppendedPending(mls, s, s', device, submission, UuidText(of));
    UuidTextIsAKey(of, device);
    hide Pending, UuidText, AcceptedOf, OutboxItemOf;
  }

  lemma AppendedInLane(mls: Mls, s: System, s': System, device: Uuid, submission: SubmitEvent)
    requires Appended(mls, s, s', device, submission) && AllInLane(mls, s) && AllTravel(mls, s)
    ensures AllInLane(mls, s') && AllTravel(mls, s')
  {
    hide InLane, MayTravel, LaneOf, OutboxItemOf;
    forall of | of in s'.members
      ensures InLane(mls, LaneOf(s', of), of)
    {
      AppendedLane(mls, s, s', device, submission, of);
      if of == device {
        QueueKeepsLane(mls, LaneOf(s, of), of, submission);
      }
    }
    forall payload | payload in s'.sent
      ensures Travels(mls, s', payload)
    {
      assert Travels(mls, s, payload);
      var request := mls.submitJson.decode(payload).value;
      AppendedLane(mls, s, s', device, submission, request.senderDeviceId);
      if request.senderDeviceId == device {
        QueueKeepsTravel(LaneOf(s, device), submission, OutboxItemOf(mls, device, submission), request);
      }
    }
  }

  lemma AppendedFlush(mls: Mls, s: System, s': System, device: Uuid, submission: SubmitEvent)
    requires Appended(mls, s, s', device, submission) && FlushInOrder(mls, s)
    ensures FlushInOrder(mls, s')
  {
    hide Filter, Pending, UuidText;
    forall of: string
      ensures Pending(s.db, of) <= Pending(s'.db, of) && InOrder(s', of)
    {
      AppendedPending(mls, s, s', device, submission, of);
      assert InOrder(s, of);
    }
  }

  lemma AppendedOurs(mls: Mls, s: System, s': System, device: Uuid, submission: SubmitEvent)
    requires Appended(mls, s, s', device, submission) && OnlyOurs(s)
    ensures OnlyOurs(s')
  {
    hide UuidText;
    forall row | row in s'.db.outbox
      ensures Ours(row.item, s'.members.Keys)
    {
      var i :| 0 <= i < |s'.db.outbox| && s'.db.outbox[i] == row;
      if i < |s.db.outbox| {
        assert s.db.outbox[i] == row;
        assert Ours(row.item, s.members.Keys);
      }
    }
  }

  lemma QueueStepKeeps(mls: Mls, instanceMax: ServerTtl, s: System, device: Uuid, draft: Draft, ttl: ServerTtl,
                       message: Option<VaultMessage>, fault: Option<Statement>, n: nat)
    requires Lawful(mls) && Invariant(mls, instanceMax, s, n) && 0 < n <= U64_MAX
    ensures Invariant(mls, instanceMax, QueueStep(mls, s, device, draft, ttl, message, fault), n + 1)
  {
    hide Lawful, QueueOutgoing, Perform, Remembered, AllInLane, AllTravel, OnlyOurs, FlushInOrder, Refines, AllInLog,
      InStep, Sound, EncryptDraft, EncodeSnapshot, FindEvent, ToSubmitEvent, OutboxItemOf;
    var s' := QueueStep(mls, s, device, draft, ttl, message, fault);
    QueueStepRemembered(mls, s, device, draft, ttl, message, fault, n);
    if device in s.memory && device in s.members {
      QueueStepOnDisk(mls, s, device, draft, ttl, message, fault);
      QueueIsAtomic(mls, s.memory[device], s.db, s.unlocked, draft, ttl, message, fault);
      hide OnDisk;
      AnswersUntouched(s, s');
      var r := QueueOutgoing(mls, s.memory[device], s.db, s.unlocked, draft, ttl, message, fault).2;
      if r.Ok? {
        assert Appended(mls, s, s', device, r.value);
        AppendedInLane(mls, s, s', device, r.value);
        AppendedFlush(mls, s, s', device, r.value);
        AppendedOurs(mls, s, s', device, r.value);
      } else {
        LanesUntouched(mls, s, s');
        FlushUntouched(mls, s, s');
      }
    }
  }

  /** Loading finds the client of the last committed step, whatever came between. */
  lemma LoadStepKeeps(mls: Mls, instanceMax: ServerTtl, s: System, device: Uuid, fails: bool, n: nat)
    requires Lawful(mls) && Invariant(mls, instanceMax, s, n)
    ensures Invariant(mls, instanceMax, LoadStep(mls, s, device, fails), n + 1)
  {
    hide Lawful, Load, InStep, Sound, Remembered, AllInLane, AllTravel, OnlyOurs, FlushInOrder, Refines, AllInLog;
    var s' := LoadStep(mls, s, device, fails);
    RememberedLater(mls, s, s', n);
    LanesUntouched(mls, s, s');
    FlushUntouched(mls, s, s');
    AnswersUntouched(s, s');
    if device in s.members {
      LoadFindsTheClient(mls, s.members[device].client, s.db, s.unlocked, fails);
    }
  }

  lemma LoadFindsTheClient(mls: Mls, c: Client, db: Database, unlocked: bool, fails: bool)
    requires Lawful(mls) && InStep(mls, c, db)
    ensures var r := Load(mls, db, unlocked, c.deviceId, fails); r.Ok? ==> r.value == Some(c)
  {
    LawfulCodecs(mls);
    ReloadRecovers(mls, c, db);
    hide Lawful, InStep, DecodeSnapshot, ValidIdentifier;
  }

  lemma CrashKeeps(mls: Mls, instanceMax: ServerTtl, s: System, n: nat)
    requires Invariant(mls, instanceMax, s, n)
    ensures Invariant(mls, instanceMax, Crashed(s), n)
  {
    hide InStep, Sound, Remembered, AllInLane, AllTravel, OnlyOurs, FlushInOrder, Refines, AllInLog;
    LanesUntouched(mls, s, Crashed(s));
    FlushUntouched(mls, s, Crashed(s));
    AnswersUntouched(s, Crashed(s));
    CrashRemembered(mls, s, n);
  }

  lemma CrashRemembered(mls: Mls, s: System, n: nat)
    requires Remembered(mls, s, n)
    ensures Remembered(mls, Crashed(s), n)
  {
    hide Consistent, CarriesAll;
  }
}
