/**
 * What holds of the delivery pipeline in every reachable state, for any number of devices and
 * any sequence of client calls, crashes, faults, replies, duplicates and clock readings.
 */
module PipelineGuarantees {
  import opened Wrappers
  import opened Protocol
  import opened Sequences
  import opened Identifiers
  import opened VaultStore
  import opened DeviceQueues
  import opened MlsTypes
  import opened Persistence
  import opened OutboxWorker
  import opened RelayStore
  import opened RelayHistory
  import opened SenderChains
  import opened MemberRuns
  import opened DeliveryLanes
  import opened Pipeline
  import opened PipelineInvariant
  import opened PipelineClients
  import opened PipelineDelivery
  import opened ClientLifecycle
  import EndToEnd

  lemma InitialDevice(mls: Mls, s: System, device: Uuid)
    requires Initial(mls, s) && device in s.members
    ensures InLane(mls, LaneOf(s, device), device) && Consistent(mls, s.members[device], 1)
    ensures CarriesAll(mls, QueueOf(s, device), SentBy(s.members[device]))
    ensures s.members[device].client.deviceId == device && InStep(mls, s.members[device].client, s.db)
  {
    hide Sound, InStep;
    assert StartsAnew(mls, s, device);
    UnjoinedIsConsistent(mls, s.members[device]);
    assert Items(s.db) == [];
  }

  lemma InitialRelay(instanceMax: ServerTtl)
    ensures Refines(EMPTY, History([], []), instanceMax)
  {
  }

  lemma InitialInvariant(mls: Mls, instanceMax: ServerTtl, s: System)
    requires Initial(mls, s)
    ensures Invariant(mls, instanceMax, s, 1)
  {
    hide Sound, InStep, StartsAnew, InLane, Consistent, CarriesAll, Refines;
    InitialRelay(instanceMax);
    forall device | device in s.members
      ensures InLane(mls, LaneOf(s, device), device) && Consistent(mls, s.members[device], 1)
      ensures CarriesAll(mls, QueueOf(s, device), SentBy(s.members[device]))
      ensures s.members[device].client.deviceId == device && InStep(mls, s.members[device].client, s.db)
    {
      InitialDevice(mls, s, device);
    }
  }

  lemma Older(mls: Mls, instanceMax: ServerTtl, s: System, n: nat)
    requires Invariant(mls, instanceMax, s, n)
    ensures Invariant(mls, instanceMax, s, n + 1)
  {
    hide OnDisk, AllInLane, AllTravel, OnlyOurs, FlushInOrder, Refines, AllInLog, Remembered;
    RememberedLater(mls, s, s, n);
  }

  lemma VaultOpensKeeps(mls: Mls, instanceMax: ServerTtl, s: System, open: bool, n: nat)
    requires Invariant(mls, instanceMax, s, n)
    ensures Invariant(mls, instanceMax, s.(unlocked := open), n + 1)
  {
    hide OnDisk, AllInLane, AllTravel, OnlyOurs, FlushInOrder, Refines, AllInLog, Remembered;
    var s' := s.(unlocked := open);
    FlushUntouched(mls, s, s');
    OnlyFlushKeeps(mls, instanceMax, s, s', n);
  }

  /** Every action keeps the invariant. */
  lemma ApplyKeeps(mls: Mls, instanceMax: ServerTtl, s: System, action: Pipeline.Action, n: nat)
    requires Lawful(mls) && Invariant(mls, instanceMax, s, n) && 0 < n <= U64_MAX
    ensures Invariant(mls, instanceMax, Pipeline.Apply(mls, instanceMax, s, action), n + 1)
  {
    hide Lawful, Invariant, ClientStep, QueueStep, LoadStep, TurnStep, HearStep, RelayStep, Crashed, ListAll,
      ListActive;
    Older(mls, instanceMax, s, n);
    match action
    case ClientActs(device, op, fails, dies) =>
      ClientStepKeeps(mls, instanceMax, s, device, op, fails, n);
      CrashKeeps(mls, instanceMax, ClientStep(mls, s, device, op, fails), n + 1);
    case ClientQueues(device, draft, ttl, message, fault, dies) =>
      QueueStepKeeps(mls, instanceMax, s, device, draft, ttl, message, fault, n);
      CrashKeeps(mls, instanceMax, QueueStep(mls, s, device, draft, ttl, message, fault), n + 1);
    case ClientLoads(device, loadFails) => LoadStepKeeps(mls, instanceMax, s, device, loadFails, n);
    case Crashes => CrashKeeps(mls, instanceMax, s, n + 1);
    case VaultOpens(open) => VaultOpensKeeps(mls, instanceMax, s, open, n);
    case FlushStarts(_) => StartKeeps(mls, instanceMax, s, n);
    case FlushTurns(enabled) => TurnStepKeeps(mls, instanceMax, s, enabled, n);
    case FlushHears(reply, ackFails) => HearStepKeeps(mls, instanceMax, s, reply, ackFails, n);
    case FlushEnds => EndKeeps(mls, instanceMax, s, n);
    case RelayServes(payload, at) =>
      if payload in s.sent && mls.submitJson.decode(payload).Some? {
        TravelsByInvariant(mls, instanceMax, s, n, payload);
        RelayStepKeeps(mls, instanceMax, s, mls.submitJson.decode(payload).value, at, n);
      }
    case RelayServesOthers(request, at) =>
      if request.senderDeviceId !in s.members {
        RelayStepKeeps(mls, instanceMax, s, request, at, n);
      }
    case RelayIsPolled(channel, cursor, now) => PollKeeps(mls, instanceMax, s, channel, cursor, now, n);
  }

  lemma TravelsByInvariant(mls: Mls, instanceMax: ServerTtl, s: System, n: nat, payload: Bytes)
    requires Invariant(mls, instanceMax, s, n) && payload in s.sent
    ensures var request := mls.submitJson.decode(payload);
            && request.Some? && request.value.senderDeviceId in s.members
            && MayTravel(LaneOf(s, request.value.senderDeviceId), request.value)
  {
    hide OnDisk, AllInLane, OnlyOurs, FlushInOrder, Refines, AllInLog, Remembered, MayTravel;
    assert Travels(mls, s, payload);
  }

  /** Every state of every life satisfies it. */
  lemma {:induction false} LifeKeeps(mls: Mls, instanceMax: ServerTtl, life: seq<System>, i: nat)
    requires Lawful(mls) && Life(mls, instanceMax, life) && i < |life|
    ensures Invariant(mls, instanceMax, life[i], i + 1)
  {
    hide Lawful, Initial, Invariant, Pipeline.Apply;
    if i == 0 {
      InitialInvariant(mls, instanceMax, life[0]);
    } else {
      LifeKeeps(mls, instanceMax, life, i - 1);
      assert Steps(mls, instanceMax, life, i - 1);
      var action: Pipeline.Action :| life[i] == Pipeline.Apply(mls, instanceMax, life[i - 1], action);
      ApplyKeeps(mls, instanceMax, life[i - 1], action, i);
    }
  }

  lemma ReachableKeeps(mls: Mls, instanceMax: ServerTtl, s: System) returns (n: nat)
    requires Lawful(mls) && Reachable(mls, instanceMax, s)
    ensures Invariant(mls, instanceMax, s, n)
  {
    hide Lawful, Invariant, Initial, Steps;
    var life: seq<System> :| Life(mls, instanceMax, life) && life[|life| - 1] == s;
    LifeKeeps(mls, instanceMax, life, |life| - 1);
    n := |life|;
  }

  /**
   * Nothing is lost, skipped, reordered or sent twice. Of everything a device ever committed,
   * the outbox holds exactly what follows the first j, the relay has accepted exactly the
   * first m, and m is j or j + 1: at most the oldest row is accepted but not acknowledged.
   */
  lemma NothingLostSkippedOrReordered(mls: Mls, instanceMax: ServerTtl, s: System, device: Uuid)
    requires Lawful(mls) && Reachable(mls, instanceMax, s) && device in s.members
    ensures var queued, pending := QueueOf(s, device), Pending(s.db, UuidText(device));
            var accepted := AcceptedOf(s.history.log, device);
            var j, m := |queued| - |pending|, |accepted|;
            && 0 <= j <= m <= j + 1 && m <= |queued|
            && pending == Map(queued[j..], RowOf(mls, device))
            && accepted == queued[..m]
            && Distinct(queued)
  {
    hide Lawful, Reachable, OnDisk, AllTravel, OnlyOurs, FlushInOrder, Refines, AllInLog, Remembered, Distinct;
    var n := ReachableKeeps(mls, instanceMax, s);
    assert InLane(mls, LaneOf(s, device), device);
    NeverTwice(mls, s, n, device);
  }

  /** Whenever the process died, loading finds the client as of its last committed step. */
  lemma ReloadFindsTheLastCommit(mls: Mls, instanceMax: ServerTtl, s: System, device: Uuid)
    requires Lawful(mls) && Reachable(mls, instanceMax, s) && device in s.members
    ensures Load(mls, s.db, true, device, false) == Ok(Some(s.members[device].client))
    ensures device in s.memory ==> s.memory[device] == s.members[device].client
  {
    hide Reachable, AllInLane, AllTravel, OnlyOurs, FlushInOrder, Refines, AllInLog, Remembered, InStep, Load, Sound,
      Lawful;
    var _ := ReachableKeeps(mls, instanceMax, s);
    LawfulCodecs(mls);
    ReloadRecovers(mls, s.members[device].client, s.db);
  }

  /**
   * What the relay has accepted from a device in a channel carries counters 1, 2, 3, …, and in
   * each the message that was encrypted for the event sent there with that counter.
   */
  lemma RelayCountsUp(mls: Mls, instanceMax: ServerTtl, s: System, device: Uuid, channel: Uuid, k: nat)
    requires Lawful(mls) && Reachable(mls, instanceMax, s) && device in s.members
    requires k < |Filter(AcceptedOf(s.history.log, device), ToChannel(channel))|
    ensures var accepted := Filter(AcceptedOf(s.history.log, device), ToChannel(channel));
            var sent := PastIn(s.members[device], channel).sent;
            && |accepted| <= |sent| && Carries(mls, accepted[k], sent[k])
            && accepted[k].senderCounter == k + 1
  {
    hide Lawful, Reachable, OnDisk, AllTravel, OnlyOurs, FlushInOrder, Refines, AllInLog, Filter, Consistent,
      ChainValid, Distinct;
    NothingLostSkippedOrReordered(mls, instanceMax, s, device);
    var n := ReachableKeeps(mls, instanceMax, s);
    hide InLane;
    var queued, accepted := QueueOf(s, device), AcceptedOf(s.history.log, device);
    FilterPrefix(accepted, queued, ToChannel(channel));
    EndToEnd.SentIsAChain(mls, s.members[device], n, channel);
    var sent := SentBy(s.members[device])(channel);
    assert CarriesIn(mls, queued, sent, channel);
    CountsUp(mls, queued, sent, channel, k);
  }

  /**
   * What a client reports as pending is what it committed and the worker has not yet
   * acknowledged, oldest first, up to the listing's limit.
   */
  lemma PendingIsWhatIsUnacknowledged(mls: Mls, instanceMax: ServerTtl, s: System, device: Uuid)
    requires Lawful(mls) && Reachable(mls, instanceMax, s) && device in s.members
    ensures var queued := QueueOf(s, device);
            var j := |queued| - |Pending(s.db, UuidText(device))|;
            && 0 <= j <= |queued|
            && PendingSubmissions(mls, s.db, true, device, false) == Ok(Limit(queued[j..]))
  {
    hide Lawful, Reachable, OnDisk, AllTravel, OnlyOurs, FlushInOrder, Refines, AllInLog, Remembered, InLane, Pending,
      AcceptedOf, ReadAll, Faithful;
    var _ := ReachableKeeps(mls, instanceMax, s);
    LawfulCodecs(mls);
    assert InLane(mls, LaneOf(s, device), device);
    LaneIsDue(mls, LaneOf(s, device), device);
    PendingListed(s.db, UuidText(device));
    LimitedRowsReadBack(mls, device, QueueOf(s, device)[AckCount(LaneOf(s, device))..]);
  }

  lemma LaneIsDue(mls: Mls, lane: Lane, device: Uuid)
    requires InLane(mls, lane, device)
    ensures 0 <= AckCount(lane) <= |lane.queued|
    ensures lane.pending == Map(lane.queued[AckCount(lane)..], RowOf(mls, device))
    ensures AllFrom(lane.queued[AckCount(lane)..], device)
  {
  }

  lemma PendingListed(db: Database, deviceId: string)
    ensures ListDevice(db, deviceId) == Limit(Pending(db, deviceId))
  {
  }
}
