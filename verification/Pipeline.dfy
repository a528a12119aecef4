/**
 * The whole delivery pipeline as one transition system: persistent clients, the vault they
 * share, the outbox worker, the network and the relay. Every crash, fault, lost reply, late
 * duplicate, cancelled request and clock reading is a choice in `Action`.
 */
module Pipeline {
  import opened Wrappers
  import opened Protocol
  import opened VaultStore
  import opened MlsTypes
  import opened ClientOperations
  import opened Persistence
  import opened OutboxWorker
  import opened RelayStore
  import opened RelayHistory
  import opened SenderChains
  import opened MemberRuns
  import opened DeliveryLanes

  /** The worker's flush: what it has not yet looked at, and the request it waits for. */
  datatype Flushing =
    | NoFlush
    | InFlush(remaining: seq<OutboxItem>, progress: Progress, waiting: Option<SubmitEvent>)

  datatype Answer = Answer(request: SubmitEvent, receipt: AcceptedEvent)

  /**
   * `memory` and `flush` are lost in a crash, `db` is not. `sent` is every payload ever put on
   * the wire and `answers` every receipt the relay ever made. `members`, `queued` and `history`
   * record what happened and steer nothing.
   */
  datatype System = System(
    db: Database,
    unlocked: bool,
    memory: map<Uuid, Client>,
    flush: Flushing,
    sent: set<Bytes>,
    answers: set<Answer>,
    store: StoreData,
    history: History,
    members: map<Uuid, Member>,
    queued: map<Uuid, seq<SubmitEvent>>)

  datatype Action =
    /** A client operation or a message to queue; the process may die right after the commit. */
    | ClientActs(device: Uuid, op: Operation, fails: bool, dies: bool)
    | ClientQueues(device: Uuid, draft: Draft, ttl: ServerTtl, message: Option<VaultMessage>,
                   fault: Option<Statement>, dies: bool)
    | ClientLoads(device: Uuid, loadFails: bool)
    | Crashes
    | VaultOpens(open: bool)
    | FlushStarts(listFails: bool)
    | FlushTurns(enabled: bool)
    /** The wait ends: with a receipt made for this very request, however late, or without one. */
    | FlushHears(reply: Reply, ackFails: bool)
    | FlushEnds
    /** The relay serves a payload, the first time or again. */
    | RelayServes(payload: Bytes, at: Time)
    | RelayServesOthers(request: SubmitEvent, at: Time)
    | RelayIsPolled(channel: Uuid, cursor: U64, now: Time)

  function Crashed(s: System): System { s.(memory := map[], flush := NoFlush) }

  ghost function ClientStep(mls: Mls, s: System, device: Uuid, op: Operation, fails: bool): System {
    if device !in s.memory || device !in s.members then s
    else
      var (c, db, r) := Transact(mls, s.memory[device], s.db, s.unlocked, op, fails);
      s.(db := db, memory := s.memory[device := c],
         members := s.members[device := Perform(mls, s.members[device], Act(op, r.Ok?))])
  }

  function QueueOf(s: System, device: Uuid): seq<SubmitEvent> {
    if device in s.queued then s.queued[device] else []
  }

  ghost function QueueStep(mls: Mls, s: System, device: Uuid, draft: Draft, ttl: ServerTtl,
                           message: Option<VaultMessage>, fault: Option<Statement>): System
  {
    if device !in s.memory || device !in s.members then s
    else
      var (c, db, r) := QueueOutgoing(mls, s.memory[device], s.db, s.unlocked, draft, ttl, message, fault);
      s.(db := db, memory := s.memory[device := c],
         members := s.members[device := Perform(mls, s.members[device], Send(draft, r.Ok?))],
         queued := if r.Ok? then s.queued[device := QueueOf(s, device) + [r.value]] else s.queued)
  }

  ghost function LoadStep(mls: Mls, s: System, device: Uuid, fails: bool): System {
    match Load(mls, s.db, s.unlocked, device, fails)
    case Ok(Some(c)) => s.(memory := s.memory[device := c])
    case _ => s
  }

  ghost function TurnStep(mls: Mls, s: System, enabled: bool): System {
    if !s.flush.InFlush? || s.flush.waiting.Some? || s.flush.remaining == [] then s
    else
      var item := s.flush.remaining[0];
      var (p, begun) := StartTurn(mls.submitJson, s.flush.progress, item, enabled);
      match begun
      case Err(_) => s.(flush := InFlush(s.flush.remaining[1..], p, None))
      case Ok(submission) =>
        s.(flush := InFlush(s.flush.remaining[1..], p, Some(submission)), sent := s.sent + {item.payload})
  }

  ghost function HearStep(s: System, reply: Reply, ackFails: bool): System {
    if !s.flush.InFlush? || s.flush.waiting.None?
       || (reply.Receipt? && Answer(s.flush.waiting.value, reply.receipt) !in s.answers) then s
    else
      var (db, p, _) := EndTurn(s.db, s.unlocked, s.flush.progress, s.flush.waiting.value, reply, ackFails);
      s.(db := db, flush := InFlush(s.flush.remaining, p, None))
  }

  ghost function RelayStep(s: System, request: SubmitEvent, instanceMax: ServerTtl, at: Time): System {
    var (store, r) := Accept(s.store, request, instanceMax, at);
    s.(store := store, history := AcceptH(s.history, request, instanceMax, at),
       answers := if r.Ok? then s.answers + {Answer(request, r.value)} else s.answers)
  }

  ghost function Apply(mls: Mls, instanceMax: ServerTtl, s: System, action: Action): System {
    match action
    case ClientActs(device, op, fails, dies) =>
      var s' := ClientStep(mls, s, device, op, fails); if dies then Crashed(s') else s'
    case ClientQueues(device, draft, ttl, message, fault, dies) =>
      var s' := QueueStep(mls, s, device, draft, ttl, message, fault); if dies then Crashed(s') else s'
    case ClientLoads(device, loadFails) => LoadStep(mls, s, device, loadFails)
    case Crashes => Crashed(s)
    case VaultOpens(open) => s.(unlocked := open)
    case FlushStarts(listFails) =>
      if s.flush.InFlush? || !s.unlocked || listFails then s
      else s.(flush := InFlush(ListAll(s.db), Progress(SendingStatus(|ListAll(s.db)|), {}, false), None))
    case FlushTurns(enabled) => TurnStep(mls, s, enabled)
    case FlushHears(reply, ackFails) => HearStep(s, reply, ackFails)
    case FlushEnds =>
      if s.flush.InFlush? && s.flush.waiting.None? then s.(flush := NoFlush) else s
    case RelayServes(payload, at) =>
      if payload in s.sent && mls.submitJson.decode(payload).Some? then
        RelayStep(s, mls.submitJson.decode(payload).value, instanceMax, at)
      else s
    case RelayServesOthers(request, at) =>
      if request.senderDeviceId in s.members then s else RelayStep(s, request, instanceMax, at)
    case RelayIsPolled(channel, cursor, now) =>
      s.(store := ListActive(s.store, channel, cursor, now).0, history := Tick(s.history, now))
  }

  /** A device with no channels, its first snapshot stored. */
  ghost predicate StartsAnew(mls: Mls, s: System, device: Uuid)
    requires device in s.members
  {
    && s.members[device].client.deviceId == device && Unjoined(s.members[device])
    && InStep(mls, s.members[device].client, s.db)
  }

  /** New devices, an empty outbox and a relay just started. */
  ghost predicate Initial(mls: Mls, s: System) {
    && Sound(s.db) && s.db.outbox == [] && s.memory == map[] && s.flush.NoFlush?
    && s.sent == {} && s.answers == {} && s.queued == map[]
    && s.store == EMPTY && s.history == History([], [])
    && forall device | device in s.members :: StartsAnew(mls, s, device)
  }

  ghost predicate Steps(mls: Mls, instanceMax: ServerTtl, life: seq<System>, i: nat)
    requires i + 1 < |life|
  {
    exists action: Action :: life[i + 1] == Apply(mls, instanceMax, life[i], action)
  }

  /** The states of one life of the system, each by some action from the one before it. */
  ghost predicate Life(mls: Mls, instanceMax: ServerTtl, life: seq<System>) {
    && 0 < |life| <= U64_MAX && Initial(mls, life[0])
    && forall i | 0 <= i < |life| - 1 :: Steps(mls, instanceMax, life, i)
  }

  ghost predicate Reachable(mls: Mls, instanceMax: ServerTtl, s: System) {
    exists life: seq<System> :: Life(mls, instanceMax, life) && life[|life| - 1] == s
  }
}
