/**
 * The persistent client's transactions on values (crates/singularis-mls/src/client.rs:776-828):
 * snapshot, mutate, persist, else decode the snapshot back.
 */
module Persistence {
  import opened Wrappers
  import opened Protocol
  import opened MlsTypes
  import opened Snapshot
  import opened VaultStore
  import opened Identifiers
  import opened ClientOperations

  /** `encrypt_text` composes its event from the state; `queue_event` is given one. */
  datatype Draft =
    | Composed(event: PlaintextEvent)
    | TextDraft(channelId: Uuid, eventId: EventId, createdAtMs: I64, references: EventReferences, body: string)

  function EventOf(c: Client, draft: Draft): Option<PlaintextEvent> {
    match draft
    case Composed(event) => Some(event)
    case TextDraft(channel, eventId, createdAt, references, body) =>
      if channel !in c.channels then None
      else
        var state := c.channels[channel];
        var (counter, previous) := NextLink(state.outgoingChain);
        Some(PlaintextEvent(EVENT_SCHEMA_VERSION, eventId, state.communityId, channel, c.deviceId, counter,
                            createdAt, previous, references, body))
  }

  function EncryptDraft(mls: Mls, c: Client, draft: Draft): (Client, Result<EncryptedEvent, MlsError>) {
    match EventOf(c, draft)
    case None => (c, Err(UnknownChannel))
    case Some(event) => Encrypt(mls, c, event)
  }

  /** `restore` after an error: the earlier client, or the restore's own error. */
  function Restore<T>(mls: Mls, current: Client, db: Database, previous: Bytes, error: MlsError)
    : (Client, Database, Result<T, MlsError>)
  {
    match DecodeSnapshot(mls, previous, current.deviceId)
    case Ok(client) => (client, db, Err(error))
    case Err(restoreError) => (current, db, Err(restoreError))
  }

  ghost function Transact(mls: Mls, c: Client, db: Database, unlocked: bool, op: Operation, failing: bool)
    : (Client, Database, Result<Option<PlaintextEvent>, MlsError>)
  {
    match EncodeSnapshot(mls, c)
    case Err(error) => (c, db, Err(error))
    case Ok(previous) =>
      var (c', r) := Operate(mls, c, op);
      match r
      case Err(error) => Restore(mls, c', db, previous, error)
      case Ok(value) =>
        match EncodeSnapshot(mls, c')
        case Err(error) => Restore(mls, c', db, previous, error)
        case Ok(snapshot) =>
          var (db', saved) := StoreSnapshot(db, unlocked, UuidText(c'.deviceId), snapshot, failing);
          match saved
          case Err(error) => Restore(mls, c', db', previous, MlsError.Vault(error))
          case Ok(_) => (c', db', Ok(value))
  }

  function OutboxItemOf(mls: Mls, device: Uuid, submission: SubmitEvent): OutboxItem {
    OutboxItem(UuidText(device), UuidText(submission.eventId), mls.submitJson.encode(submission))
  }

  ghost function QueueOutgoing(mls: Mls, c: Client, db: Database, unlocked: bool, draft: Draft, ttl: ServerTtl,
                               message: Option<VaultMessage>, failing: Option<Statement>)
    : (Client, Database, Result<SubmitEvent, MlsError>)
  {
    match EncodeSnapshot(mls, c)
    case Err(error) => (c, db, Err(error))
    case Ok(previous) =>
      var (c', encrypted) := EncryptDraft(mls, c, draft);
      match encrypted
      case Err(error) => Restore(mls, c', db, previous, error)
      case Ok(event) =>
        match ToSubmitEvent(event, ttl)
        case Err(error) => Restore(mls, c', db, previous, error)
        case Ok(submission) =>
          match EncodeSnapshot(mls, c')
          case Err(error) => Restore(mls, c', db, previous, error)
          case Ok(snapshot) =>
            var (db', stored) :=
              StoreTransaction(db, unlocked, snapshot, OutboxItemOf(mls, c'.deviceId, submission), message, failing);
            match stored
            case Err(error) => Restore(mls, c', db', previous, MlsError.Vault(error))
            case Ok(_) => (c', db', Ok(submission))
  }

  function Load(mls: Mls, db: Database, unlocked: bool, device: Uuid, failing: bool)
    : Result<Option<Client>, MlsError>
  {
    match LoadSnapshot(db, unlocked, UuidText(device), failing)
    case Err(error) => Err(MlsError.Vault(error))
    case Ok(None) => Ok(None)
    case Ok(Some(snapshot)) =>
      match DecodeSnapshot(mls, snapshot, device)
      case Err(error) => Err(error)
      case Ok(client) => Ok(Some(client))
  }

  /** The disk holds this client's snapshot, and the client can be read back from it. */
  ghost predicate InStep(mls: Mls, c: Client, db: Database) {
    && Loadable(mls, c)
    && EncodeSnapshot(mls, c).Ok?
    && UuidText(c.deviceId) in db.snapshots
    && db.snapshots[UuidText(c.deviceId)] == EncodeSnapshot(mls, c).value
  }

  /** A crash at any point between two writes costs nothing: loading gives the client in step. */
  lemma ReloadRecovers(mls: Mls, c: Client, db: Database)
    requires Faithful(mls.snapshotJson) && InStep(mls, c, db)
    ensures Load(mls, db, true, c.deviceId, false) == Ok(Some(c))
  {
    UuidTextIsAKey(c.deviceId, c.deviceId);
    SnapshotRoundTrip(mls, c);
    hide DecodeSnapshot, Loadable, ValidIdentifier;
  }

  lemma RestoreRecovers<T>(mls: Mls, c: Client, current: Client, db: Database, error: MlsError)
    requires Faithful(mls.snapshotJson) && Loadable(mls, c) && EncodeSnapshot(mls, c).Ok?
    requires current.deviceId == c.deviceId
    ensures Restore<T>(mls, current, db, EncodeSnapshot(mls, c).value, error) == (c, db, Err(error))
  {
    SnapshotRoundTrip(mls, c);
  }

  lemma OperateKeepsDevice(mls: Mls, c: Client, op: Operation)
    ensures Operate(mls, c, op).0.deviceId == c.deviceId
  {
    if op.Decrypt? {
      OpenKeepsDevice(mls, c, op.channelId, op.message, None);
    }
  }

  /**
   * `transact`: on success memory has moved by the operation and the disk's snapshot with it;
   * on any error memory and disk are what they were. Archive and outbox are never touched.
   */
  lemma TransactIsAtomic(mls: Mls, c: Client, db: Database, unlocked: bool, op: Operation, failing: bool)
    requires Lawful(mls) && InStep(mls, c, db)
    ensures var (c', db', r) := Transact(mls, c, db, unlocked, op, failing);
            && InStep(mls, c', db')
            && (r.Err? ==> c' == c && db' == db)
            && (r.Ok? ==> (c', r) == Operate(mls, c, op)
                          && var saved := EncodeSnapshot(mls, c').value;
                             db' == db.(snapshots := db.snapshots[UuidText(c.deviceId) := saved]))
            && (Operate(mls, c, op).1.Err? ==> r == Operate(mls, c, op).1)
  {
    hide Operate, Loadable, EncodeSnapshot, DecodeSnapshot, ValidIdentifier;
    var (c', r) := Operate(mls, c, op);
    OperateKeepsDevice(mls, c, op);
    if r.Ok? {
      OperateKeepsLoadable(mls, c, op);
      if EncodeSnapshot(mls, c').Err? {
        RestoreRecovers<Option<PlaintextEvent>>(mls, c, c', db, EncodeSnapshot(mls, c').error);
      } else {
        var saved := StoreSnapshot(db, unlocked, UuidText(c'.deviceId), EncodeSnapshot(mls, c').value, failing).1;
        if saved.Err? {
          RestoreRecovers<Option<PlaintextEvent>>(mls, c, c', db, MlsError.Vault(saved.error));
        }
      }
    } else {
      RestoreRecovers<Option<PlaintextEvent>>(mls, c, c', db, r.error);
    }
  }

  lemma EncryptDraftFacts(mls: Mls, c: Client, draft: Draft)
    requires Lawful(mls) && Loadable(mls, c)
    ensures var (c', r) := EncryptDraft(mls, c, draft);
            && c'.deviceId == c.deviceId
            && (r.Ok? ==> Loadable(mls, c') && c' != c && r.value.senderDeviceId == c.deviceId)
  {
    hide Loadable, ValidEvent, EncodeEvent;
    var (c', r) := EncryptDraft(mls, c, draft);
    if r.Ok? {
      var event := EventOf(c, draft).value;
      EncryptKeepsLoadable(mls, c, event);
      assert event.eventId in c'.channels[event.channelId].seenEventIds;
      assert event.eventId !in c.channels[event.channelId].seenEventIds;
    }
  }

  /** What a fresh encryption leaves is not what the disk has, so no stored row passes for it. */
  lemma FreshSnapshotIsNew(mls: Mls, c: Client, c': Client, db: Database, unlocked: bool, snapshot: Bytes,
                           item: OutboxItem, message: Option<VaultMessage>, failing: Option<Statement>)
    requires Faithful(mls.snapshotJson) && InStep(mls, c, db) && Loadable(mls, c') && c' != c
    requires EncodeSnapshot(mls, c') == Ok(snapshot) && item.deviceId == UuidText(c.deviceId)
    requires StoreTransaction(db, unlocked, snapshot, item, message, failing).1.Ok?
    ensures FindEvent(db, item.eventId).None?
    ensures StoreTransaction(db, unlocked, snapshot, item, message, failing).0 == Committed(db, snapshot, item, message)
  {
    if EncodeSnapshot(mls, c) == EncodeSnapshot(mls, c') {
      SnapshotDeterminesClient(mls, c, c');
    }
    hide Loadable, EncodeSnapshot, FindEvent, ValidItem, ValidMessage;
  }

  /**
   * `queue_outgoing`: on success the ratchet in memory, the snapshot, the archive row and the
   * outbox row have all moved together, by one new row at the end of the outbox; on any error
   * nothing has moved.
   */
  lemma QueueIsAtomic(mls: Mls, c: Client, db: Database, unlocked: bool, draft: Draft, ttl: ServerTtl,
                      message: Option<VaultMessage>, failing: Option<Statement>)
    requires Lawful(mls) && InStep(mls, c, db)
    ensures var (c', db', r) := QueueOutgoing(mls, c, db, unlocked, draft, ttl, message, failing);
            && InStep(mls, c', db')
            && (r.Err? ==> c' == c && db' == db)
            && (r.Ok? ==>
                  && EncryptDraft(mls, c, draft).1.Ok? && c' == EncryptDraft(mls, c, draft).0
                  && ToSubmitEvent(EncryptDraft(mls, c, draft).1.value, ttl) == Ok(r.value)
                  && r.value.senderDeviceId == c.deviceId
                  && FindEvent(db, UuidText(r.value.eventId)).None?
                  && var item := OutboxItemOf(mls, c.deviceId, r.value);
                     db' == Committed(db, EncodeSnapshot(mls, c').value, item, message))
  {
    hide Loadable, EncodeSnapshot, DecodeSnapshot, EncryptDraft, StoreTransaction, FindEvent, Lawful;
    var (c', encrypted) := EncryptDraft(mls, c, draft);
    EncryptDraftFacts(mls, c, draft);
    assert Faithful(mls.snapshotJson) by { LawfulCodecs(mls); }
    if encrypted.Err? {
      RestoreRecovers<SubmitEvent>(mls, c, c', db, encrypted.error);
    } else if ToSubmitEvent(encrypted.value, ttl).Err? {
      RestoreRecovers<SubmitEvent>(mls, c, c', db, MessageEncoding);
    } else if EncodeSnapshot(mls, c').Err? {
      RestoreRecovers<SubmitEvent>(mls, c, c', db, EncodeSnapshot(mls, c').error);
    } else {
      var submission := ToSubmitEvent(encrypted.value, ttl).value;
      var snapshot, item := EncodeSnapshot(mls, c').value, OutboxItemOf(mls, c.deviceId, submission);
      var stored := StoreTransaction(db, unlocked, snapshot, item, message, failing).1;
      if stored.Err? {
        FailureChangesNothing(db, unlocked, snapshot, item, message, failing);
        RestoreRecovers<SubmitEvent>(mls, c, c', db, MlsError.Vault(stored.error));
      } else {
        FreshSnapshotIsNew(mls, c, c', db, unlocked, snapshot, item, message, failing);
      }
    }
  }

  lemma LawfulCodecs(mls: Mls)
    requires Lawful(mls)
    ensures Faithful(mls.snapshotJson) && Faithful(mls.submitJson)
    ensures Faithful(mls.eventJson) && Faithful(mls.metadataJson)
  {
  }

  lemma FailureChangesNothing(db: Database, unlocked: bool, snapshot: Bytes, item: OutboxItem,
                              message: Option<VaultMessage>, failing: Option<Statement>)
    requires StoreTransaction(db, unlocked, snapshot, item, message, failing).1.Err?
    ensures StoreTransaction(db, unlocked, snapshot, item, message, failing).0 == db
  {
  }

  /** A text composed by the client itself can only be refused for an event ID already used. */
  lemma ComposedTextContinuesTheChain(mls: Mls, c: Client, draft: Draft)
    requires draft.TextDraft? && draft.channelId in c.channels
    ensures EncryptDraft(mls, c, draft).1 == Err(InvalidSenderChain) ==>
              draft.eventId in c.channels[draft.channelId].seenEventIds
    ensures EncryptDraft(mls, c, draft).1 != Err(ContextMismatch)
  {
  }
}
