/** What every step of the pipeline keeps. */
module PipelineInvariant {
  import opened Wrappers
  import opened Protocol
  import opened Sequences
  import opened Identifiers
  import opened VaultStore
  import opened DeviceQueues
  import opened MlsTypes
  import opened ClientOperations
  import opened Persistence
  import opened OutboxWorker
  import opened FlushGuarantees
  import opened RelayStore
  import opened RelayHistory
  import opened SenderChains
  import opened MemberRuns
  import opened DeliveryLanes
  import opened Pipeline

  function LaneOf(s: System, device: Uuid): Lane {
    Lane(QueueOf(s, device), Pending(s.db, UuidText(device)), AcceptedOf(s.history.log, device))
  }

  /** Between steps the disk holds every client as it is in memory, or would be after a reload. */
  ghost predicate OnDisk(mls: Mls, s: System) {
    && Sound(s.db)
    && (forall device | device in s.members ::
          s.members[device].client.deviceId == device && InStep(mls, s.members[device].client, s.db))
    && (forall device | device in s.memory && device in s.members :: s.memory[device] == s.members[device].client)
  }

  ghost predicate Ours(item: OutboxItem, devices: set<Uuid>) {
    exists device | device in devices :: UuidText(device) == item.deviceId
  }

  ghost predicate OnlyOurs(s: System) {
    forall row | row in s.db.outbox :: Ours(row.item, s.members.Keys)
  }

  function SentBy(m: Member): Uuid -> seq<PlaintextEvent> { (channel: Uuid) => PastIn(m, channel).sent }

  ghost predicate Remembered(mls: Mls, s: System, n: nat) {
    forall device | device in s.members ::
      Consistent(mls, s.members[device], n) && CarriesAll(mls, QueueOf(s, device), SentBy(s.members[device]))
  }

  ghost predicate AllInLane(mls: Mls, s: System) {
    forall device | device in s.members :: InLane(mls, LaneOf(s, device), device)
  }

  ghost predicate Travels(mls: Mls, s: System, payload: Bytes) {
    var request := mls.submitJson.decode(payload);
    && request.Some? && request.value.senderDeviceId in s.members
    && MayTravel(LaneOf(s, request.value.senderDeviceId), request.value)
  }

  ghost predicate AllTravel(mls: Mls, s: System) {
    forall payload | payload in s.sent :: Travels(mls, s, payload)
  }

  ghost predicate InLog(log: seq<LogEntry>, answer: Answer) {
    exists i | 0 <= i < |log| :: log[i].stored == StoredEvent(answer.request, answer.receipt)
  }

  ghost predicate AllInLog(s: System) {
    forall answer | answer in s.answers :: InLog(s.history.log, answer)
  }

  /** The device's rows the flush has still to deal with, as the outbox has them. */
  function Ahead(s: System, of: string): seq<OutboxItem> {
    var pending := Pending(s.db, of);
    if s.flush.InFlush? && s.flush.waiting.Some? && UuidText(s.flush.waiting.value.senderDeviceId) == of
       && pending != []
    then pending[1..] else pending
  }

  /** The flush has sent, and waits for, the oldest row of a device of ours that is not blocked. */
  ghost predicate WaitsForHead(mls: Mls, s: System) {
    s.flush.InFlush? && s.flush.waiting.Some? ==>
      var request := s.flush.waiting.value;
      && request.senderDeviceId in s.members && mls.submitJson.encode(request) in s.sent
      && Leads(s.db, OutboxItemOf(mls, request.senderDeviceId, request))
      && !s.flush.progress.stopped && UuidText(request.senderDeviceId) !in s.flush.progress.blocked
  }

  /** What the flush still has of a device that is not blocked is what the outbox has next. */
  ghost predicate InOrder(s: System, of: string) {
    s.flush.InFlush? && !s.flush.progress.stopped && of !in s.flush.progress.blocked ==>
      Filter(s.flush.remaining, OfDevice(of)) <= Ahead(s, of)
  }

  ghost predicate FlushInOrder(mls: Mls, s: System) {
    WaitsForHead(mls, s) && forall of: string :: InOrder(s, of)
  }

  ghost predicate Invariant(mls: Mls, instanceMax: ServerTtl, s: System, n: nat) {
    && OnDisk(mls, s) && OnlyOurs(s) && Remembered(mls, s, n)
    && AllInLane(mls, s) && AllTravel(mls, s) && AllInLog(s)
    && FlushInOrder(mls, s) && Refines(s.store, s.history, instanceMax)
  }

  // Steps that leave outbox, queues and acceptances alone.

  ghost predicate SameLanes(s: System, s': System) {
    && s'.db.outbox == s.db.outbox && s'.queued == s.queued && s'.history.log == s.history.log
    && s'.members.Keys == s.members.Keys
  }

  lemma LanesUntouched(mls: Mls, s: System, s': System)
    requires SameLanes(s, s') && s'.sent == s.sent
    requires AllInLane(mls, s) && AllTravel(mls, s) && OnlyOurs(s)
    ensures AllInLane(mls, s') && AllTravel(mls, s') && OnlyOurs(s')
  {
    hide InLane, MayTravel, AcceptedOf;
    forall device: Uuid
      ensures LaneOf(s', device) == LaneOf(s, device)
    {
      assert Items(s'.db) == Items(s.db);
    }
    forall payload | payload in s.sent
      ensures Travels(mls, s', payload)
    {
      assert Travels(mls, s, payload);
    }
  }

  lemma FlushUntouched(mls: Mls, s: System, s': System)
    requires FlushInOrder(mls, s) && s'.db.outbox == s.db.outbox && s'.members.Keys == s.members.Keys
    requires s'.sent == s.sent
    requires s'.flush == s.flush || s'.flush == NoFlush
    ensures FlushInOrder(mls, s')
  {
    hide Filter, OfDevice;
    forall of: string
      ensures Pending(s'.db, of) == Pending(s.db, of) && InOrder(s', of)
    {
      assert Items(s'.db) == Items(s.db);
      assert InOrder(s, of);
    }
  }

  lemma OlderIsConsistent(mls: Mls, m: Member, n: nat)
    requires Consistent(mls, m, n)
    ensures Consistent(mls, m, n + 1)
  {
    hide Remembers, Conserved;
  }

  lemma RememberedLater(mls: Mls, s: System, s': System, n: nat)
    requires Remembered(mls, s, n) && s'.members == s.members && s'.queued == s.queued
    ensures Remembered(mls, s', n + 1)
  {
    hide Consistent, CarriesAll;
    forall device | device in s.members
      ensures Consistent(mls, s.members[device], n + 1)
    {
      OlderIsConsistent(mls, s.members[device], n);
    }
  }

  lemma SnapshotsUntouched(mls: Mls, c: Client, db: Database, db': Database)
    requires InStep(mls, c, db) && db'.snapshots == db.snapshots
    ensures InStep(mls, c, db')
  {
  }

  /** Storing another device's snapshot keeps this one's. */
  lemma OtherSnapshot(mls: Mls, c: Client, db: Database, db': Database, device: Uuid, snapshot: Bytes)
    requires InStep(mls, c, db) && c.deviceId != device
    requires db'.snapshots == db.snapshots[UuidText(device) := snapshot]
    ensures InStep(mls, c, db')
  {
    UuidTextIsAKey(c.deviceId, device);
  }
}
