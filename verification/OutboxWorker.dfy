/**
 * The outbox worker (apps/desktop/src-tauri/src/outbox.rs:212-387). Everything the worker does
 * not decide itself is in `Environment`: the flag it reads, the relay's replies, failures of
 * the vault, and what other threads do to the vault between any two of the worker's own uses.
 */
module OutboxWorker {
  import opened Wrappers
  import opened Protocol
  import opened Identifiers
  import opened VaultStore

  datatype WorkerState = Paused | Idle | Sending | Deferred

  datatype WorkerError =
    | VaultReadFailed | InvalidOutboxEntry | InvalidRelayReceipt | VaultAcknowledgementFailed
    | RelayUnreachable | RelayRejected | InvalidRelayResponse

  datatype Status = Status(
    state: WorkerState, pending: nat, attempted: nat, acknowledged: nat, failed: nat, lastError: Option<WorkerError>)

  function PausedStatus(pending: nat): Status { Status(Paused, pending, 0, 0, 0, None) }

  function SendingStatus(pending: nat): Status { Status(Sending, pending, 0, 0, 0, None) }

  function DeferredStatus(error: WorkerError): Status { Status(Deferred, 0, 0, 0, 1, Some(error)) }

  /** A failure counts, and the first one is kept as the last error. */
  function Failing(report: Status, error: WorkerError): Status {
    report.(failed := report.failed + 1, lastError := if report.lastError.None? then Some(error) else report.lastError)
  }

  function ValidateOutboxItem(json: Codec<SubmitEvent>, item: OutboxItem): Option<SubmitEvent> {
    match json.decode(item.payload)
    case None => None
    case Some(submission) =>
      if json.encode(submission) != item.payload
         || UuidText(submission.eventId) != item.eventId
         || UuidText(submission.senderDeviceId) != item.deviceId then None
      else Some(submission)
  }

  predicate ValidReceipt(submission: SubmitEvent, receipt: AcceptedEvent) {
    && receipt.eventId == submission.eventId
    && receipt.channelId == submission.channelId
    && receipt.sequence > 0
    && receipt.expiresAt > receipt.acceptedAt
  }

  /** How waiting for the relay ends; a pause ends it by cancelling. */
  datatype Reply = Receipt(receipt: AcceptedEvent) | NoReceipt(error: WorkerError) | Cancelled

  /** What became of one listed row. */
  datatype Outcome = Untried | Refused | Interrupted | Failed | Acknowledged | Vanished

  predicate Tried(outcome: Outcome) { !(outcome.Untried? || outcome.Refused?) }

  predicate Faulty(outcome: Outcome) { outcome.Refused? || outcome.Failed? }

  /** The loop's own variables; `stopped` is a `break`. */
  datatype Progress = Progress(report: Status, blocked: set<string>, stopped: bool)

  function Stopping(p: Progress): Progress { p.(report := p.report.(state := Paused), stopped := true) }

  function Blocking(p: Progress, deviceId: string, error: WorkerError): Progress {
    p.(report := Failing(p.report, error), blocked := p.blocked + {deviceId})
  }

  /** The loop body up to the request: the submission to send, or what became of the row. */
  function StartTurn(json: Codec<SubmitEvent>, p: Progress, item: OutboxItem, enabled: bool)
    : (Progress, Result<SubmitEvent, Outcome>)
  {
    if p.stopped || item.deviceId in p.blocked then (p, Err(Untried))
    else if !enabled then (Stopping(p), Err(Untried))
    else
      match ValidateOutboxItem(json, item)
      case None => (Blocking(p, item.deviceId, InvalidOutboxEntry), Err(Refused))
      case Some(submission) => (p.(report := p.report.(attempted := p.report.attempted + 1)), Ok(submission))
  }

  /** The loop body from the reply on. */
  function EndTurn(db: Database, unlocked: bool, p: Progress, submission: SubmitEvent, reply: Reply, ackFails: bool)
    : (Database, Progress, Outcome)
  {
    var device := UuidText(submission.senderDeviceId);
    match reply
    case Cancelled => (db, Stopping(p), Interrupted)
    case NoReceipt(error) => (db, Blocking(p, device, error), Failed)
    case Receipt(receipt) =>
      if !ValidReceipt(submission, receipt) then (db, Blocking(p, device, InvalidRelayReceipt), Failed)
      else if !unlocked then (db, Stopping(p), Interrupted)
      else if ackFails then (db, Blocking(p, device, VaultAcknowledgementFailed), Failed)
      else
        var db' := Acknowledge(db, device, UuidText(receipt.eventId));
        if |db'.outbox| == |db.outbox| then (db', p, Vanished)
        else (db', p.(report := p.report.(acknowledged := p.report.acknowledged + 1)), Acknowledged)
  }

  /** What another thread asks of the vault. */
  datatype Other =
    | Queue(snapshot: Bytes, item: OutboxItem, message: Option<VaultMessage>, fault: Option<Statement>)
    | Save(deviceId: string, saved: Bytes, failing: bool)
    | Unlock(open: bool)

  /** The vault as all threads share it. */
  datatype Shared = Shared(db: Database, unlocked: bool)

  function Apply(v: Shared, other: Other): Shared {
    match other
    case Queue(snapshot, item, message, fault) =>
      v.(db := StoreTransaction(v.db, v.unlocked, snapshot, item, message, fault).0)
    case Save(deviceId, saved, failing) => v.(db := StoreSnapshot(v.db, v.unlocked, deviceId, saved, failing).0)
    case Unlock(open) => v.(unlocked := open)
  }

  function Meanwhile(v: Shared, others: seq<Other>): Shared {
    if others == [] then v
    else Apply(Meanwhile(v, others[..|others| - 1]), others[|others| - 1])
  }

  /** One turn of the loop: what others do before it and while its request is in flight. */
  datatype Turn = Turn(before: seq<Other>, enabled: bool, during: seq<Other>, reply: Reply, ackFails: bool)

  datatype Environment = Environment(
    enabled: bool, listFails: bool,
    turn: nat -> Turn,
    last: seq<Other>, lastListFails: bool, lastEnabled: bool)

  /** The vault, the loop's progress, and what became of each row so far. */
  datatype Work = Work(vault: Shared, progress: Progress, outcomes: seq<Outcome>)

  function TakeTurn(json: Codec<SubmitEvent>, w: Work, item: OutboxItem, turn: Turn): Work {
    if w.progress.stopped then w.(outcomes := w.outcomes + [Untried])
    else
      var v := Meanwhile(w.vault, turn.before);
      var (p, begun) := StartTurn(json, w.progress, item, turn.enabled);
      match begun
      case Err(outcome) => Work(v, p, w.outcomes + [outcome])
      case Ok(submission) =>
        var v' := Meanwhile(v, turn.during);
        var (db, p', outcome) := EndTurn(v'.db, v'.unlocked, p, submission, turn.reply, turn.ackFails);
        Work(v'.(db := db), p', w.outcomes + [outcome])
  }

  function Loop(json: Codec<SubmitEvent>, start: Work, items: seq<OutboxItem>, turn: nat -> Turn): Work {
    if items == [] then start
    else
      var last := |items| - 1;
      TakeTurn(json, Loop(json, start, items[..last], turn), items[last], turn(last))
  }

  function Starting(v: Shared): Work {
    Work(v, Progress(SendingStatus(|ListAll(v.db)|), {}, false), [])
  }

  /** The last listing decides the state, whatever the loop left in it. */
  function Conclude(report: Status, listed: Option<nat>, enabled: bool): Status {
    var pending := if listed.Some? then listed.value
                   else if report.pending >= report.acknowledged then report.pending - report.acknowledged else 0;
    var state := if !enabled then Paused else if report.failed > 0 || pending > 0 then Deferred else Idle;
    report.(pending := pending, state := state)
  }

  function Listed(v: Shared, env: Environment): Option<nat> {
    if v.unlocked && !env.lastListFails then Some(|ListAll(v.db)|) else None
  }

  /** The flush gets past its first listing. */
  predicate Lists(v: Shared, env: Environment) { env.enabled && v.unlocked && !env.listFails }

  function LoopOf(json: Codec<SubmitEvent>, v: Shared, env: Environment): Work {
    Loop(json, Starting(v), ListAll(v.db), env.turn)
  }

  /** What `flush_now` leaves of the vault and reports. */
  function Flush(json: Codec<SubmitEvent>, v: Shared, status: Status, env: Environment): (Shared, Status) {
    if !env.enabled then (v, PausedStatus(status.pending))
    else if !v.unlocked then (v, PausedStatus(0))
    else if env.listFails then (v, DeferredStatus(VaultReadFailed))
    else
      var w := LoopOf(json, v, env);
      var v' := Meanwhile(w.vault, env.last);
      (v', Conclude(w.progress.report, Listed(v', env), env.lastEnabled))
  }

  /** After a `break` the rest of the list is left alone. */
  lemma {:induction false} StoppedStays(json: Codec<SubmitEvent>, start: Work, items: seq<OutboxItem>,
                                        turn: nat -> Turn, n: nat)
    requires n <= |items| && Loop(json, start, items[..n], turn).progress.stopped
    ensures Loop(json, start, items, turn).vault == Loop(json, start, items[..n], turn).vault
    ensures Loop(json, start, items, turn).progress == Loop(json, start, items[..n], turn).progress
  {
    if n == |items| {
      assert items[..n] == items;
    } else {
      var init := items[..|items| - 1];
      assert init[..n] == items[..n];
      StoppedStays(json, start, init, turn, n);
    }
  }

  /** The worker, over the vault it shares with the rest of the application. */
  class Worker {
    const vault: Vault
    var status: Status

    constructor (vault: Vault)
      ensures this.vault == vault && status == PausedStatus(0)
    {
      this.vault := vault;
      status := PausedStatus(0);
    }

    function View(): Shared
      reads this, vault
    {
      Shared(vault.database, vault.unlocked)
    }

    /** The environment: other threads' calls on the vault, in the order it serves them. */
    method ServeOthers(others: seq<Other>)
      requires vault.Valid()
      modifies vault
      ensures vault.Valid() && View() == Meanwhile(old(View()), others)
    {
      for i := 0 to |others|
        invariant vault.Valid() && View() == Meanwhile(old(View()), others[..i])
      {
        assert others[..i + 1][..i] == others[..i];
        match others[i] {
          case Queue(snapshot, item, message, fault) =>
            var _ := vault.StoreMlsTransaction(snapshot, item, message, fault);
          case Save(deviceId, saved, failing) =>
            var _ := vault.StoreMlsClientSnapshot(deviceId, saved, failing);
          case Unlock(open) => vault.SetUnlocked(open);
        }
      }
      assert others[..|others|] == others;
    }

    /** The reply's half of a turn. */
    method HandleReply(submission: SubmitEvent, reply: Reply, ackFails: bool, p: Progress) returns (p': Progress)
      requires vault.Valid()
      modifies vault
      ensures vault.Valid() && vault.unlocked == old(vault.unlocked)
      ensures var (db, progress, _) := EndTurn(old(vault.database), vault.unlocked, p, submission, reply, ackFails);
              vault.database == db && p' == progress
    {
      var device := UuidText(submission.senderDeviceId);
      match reply {
        case Cancelled => return Stopping(p);
        case NoReceipt(error) => return Blocking(p, device, error);
        case Receipt(receipt) =>
          if !ValidReceipt(submission, receipt) {
            return Blocking(p, device, InvalidRelayReceipt);
          }
          UuidTextIsAKey(submission.senderDeviceId, receipt.eventId);
          UuidTextIsAKey(receipt.eventId, receipt.eventId);
          AcknowledgeRemovesOne(vault.database, device, UuidText(receipt.eventId));
          hide UuidText, Acknowledge, ValidIdentifier;
          var result := vault.AcknowledgeMlsOutbox(device, UuidText(receipt.eventId), ackFails);
          match result {
            case Ok(true) => p' := p.(report := p.report.(acknowledged := p.report.acknowledged + 1));
            case Ok(false) => p' := p;
            case Err(Locked) => p' := Stopping(p);
            case Err(_) => p' := Blocking(p, device, VaultAcknowledgementFailed);
          }
      }
    }

    method FlushNow(json: Codec<SubmitEvent>, env: Environment) returns (report: Status)
      requires vault.Valid()
      modifies this, vault
      ensures vault.Valid() && status == report
      ensures (View(), report) == Flush(json, old(View()), old(status), env)
    {
      if !env.enabled {
        status := PausedStatus(status.pending);
        return status;
      }
      var listing := vault.ListAllMlsOutbox(env.listFails);
      if listing.Err? {
        status := if listing.error.Locked? then PausedStatus(0) else DeferredStatus(VaultReadFailed);
        return status;
      }
      var items := listing.value;
      status := SendingStatus(|items|);
      var p := Progress(SendingStatus(|items|), {}, false);
      ghost var start := Starting(View());
      var i := 0;
      while i < |items| && !p.stopped
        invariant i <= |items| && vault.Valid()
        invariant var w := Loop(json, start, items[..i], env.turn); w.vault == View() && w.progress == p
      {
        var item, turn := items[i], env.turn(i);
        assert items[..i + 1][..i] == items[..i];
        ServeOthers(turn.before);
        var (q, begun) := StartTurn(json, p, item, turn.enabled);
        p := q;
        if begun.Ok? {
          ServeOthers(turn.during);
          p := HandleReply(begun.value, turn.reply, turn.ackFails, p);
        }
        i := i + 1;
      }
      if i == |items| {
        assert items[..i] == items;
      } else {
        StoppedStays(json, start, items, env.turn, i);
      }
      ServeOthers(env.last);
      var last := vault.ListAllMlsOutbox(env.lastListFails);
      report := Conclude(p.report, if last.Ok? then Some(|last.value|) else None, env.lastEnabled);
      status := report;
    }
  }
}
