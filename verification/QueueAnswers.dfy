/**
 * Exactly when the vault's transactions and the persistent client's operations succeed, and what
 * they then leave, in terms of the inputs, the rows and the faults.
 */
module QueueAnswers {
  import opened Wrappers
  import opened Protocol
  import opened Identifiers
  import opened VaultStore
  import opened MlsTypes
  import opened Snapshot
  import opened ClientOperations
  import opened ClientAnswers
  import opened Persistence
  import opened SenderChains
  import opened MemberRuns
  import opened DeliveryLanes
  import opened DeviceQueues
  import Base64Url
  import Text

  // The vault.

  /** `validate_identifier`: 1 to 128 bytes of letters, digits, hyphens and underscores. */
  ghost predicate IsKey(text: string) {
    && 1 <= Text.Utf8Length(text) <= 128
    && forall i | 0 <= i < |text| ::
         'a' <= text[i] <= 'z' || 'A' <= text[i] <= 'Z' || '0' <= text[i] <= '9' || text[i] in {'-', '_'}
  }

  /** What the transaction asks of its inputs. */
  ghost predicate GoodInput(snapshot: Bytes, item: OutboxItem, message: Option<VaultMessage>) {
    && IsKey(item.deviceId) && IsKey(item.eventId)
    && 1 <= |item.payload| <= 393216 && 1 <= |snapshot| <= 16777216
    && (message.Some? ==>
          && IsKey(message.value.id) && IsKey(message.value.channelId) && message.value.createdAtMs >= 0
          && (exists i | 0 <= i < |message.value.body| :: !Text.IsWhitespace(message.value.body[i]))
          && Text.Utf8Length(message.value.body) <= 65536)
  }

  /** No statement the transaction comes to, when the event is new, fails. */
  ghost predicate NoFault(message: Option<VaultMessage>, failing: Option<Statement>) {
    match failing
    case None => true
    case Some(statement) =>
      statement.ReadSnapshot? || statement.ReadMessage? || (statement.InsertMessage? && message.None?)
  }

  /** The message can be a new row of the archive. */
  ghost predicate CanArchive(db: Database, message: Option<VaultMessage>) {
    message.Some? ==> message.value.id !in db.messages && |message.value.body| > 0 && message.value.body[0] != '\0'
  }

  /**
   * A transaction for an event that is not pending commits if and only if its inputs are good,
   * the vault is open, no statement fails and the message, if any, can be archived. Then the
   * archive has that message more and no other change, the snapshot is the device's and every
   * other device's is what it was, and the row is the last of the outbox; otherwise nothing has
   * changed.
   */
  lemma NewEventCommitsExactlyIf(db: Database, unlocked: bool, snapshot: Bytes, item: OutboxItem,
                                 message: Option<VaultMessage>, failing: Option<Statement>)
    requires forall row | row in db.outbox :: row.item.eventId != item.eventId
    ensures var (db', r) := StoreTransaction(db, unlocked, snapshot, item, message, failing);
            && (r.Ok? <==> && GoodInput(snapshot, item, message) && unlocked && NoFault(message, failing)
                           && CanArchive(db, message))
            && (r.Ok? ==>
                  && r.value == message
                  && (message.None? ==> db'.messages == db.messages)
                  && (message.Some? ==> db'.messages == db.messages[message.value.id := message.value])
                  && db'.snapshots.Keys == db.snapshots.Keys + {item.deviceId}
                  && db'.snapshots[item.deviceId] == snapshot
                  && (forall id | id in db.snapshots && id != item.deviceId :: db'.snapshots[id] == db.snapshots[id])
                  && |db'.outbox| == |db.outbox| + 1 && db.outbox <= db'.outbox
                  && db'.outbox[|db.outbox|].item == item
                  && (db.outbox != [] ==> db'.outbox[|db.outbox|].rowid > db.outbox[|db.outbox| - 1].rowid))
            && (r.Err? ==> db' == db)
            && (r.Err? ==> r.error == if !GoodInput(snapshot, item, message) then InvalidInput
                                      else if !unlocked then Locked else DatabaseFailed)
  {
    FindEventMeans(db, item.eventId);
    InputIsGood(snapshot, item, message);
    hide GoodInput, ValidMessage, ValidItem, ValidSnapshot, FindEvent;
  }

  lemma KeysAreValid(text: string)
    ensures IsKey(text) <==> ValidIdentifier(text)
  {
  }

  lemma InputIsGood(snapshot: Bytes, item: OutboxItem, message: Option<VaultMessage>)
    ensures GoodInput(snapshot, item, message) <==>
            ValidItem(item) && ValidSnapshot(snapshot) && (message.Some? ==> ValidMessage(message.value))
  {
    KeysAreValid(item.deviceId);
    KeysAreValid(item.eventId);
    if message.Some? {
      KeysAreValid(message.value.id);
      KeysAreValid(message.value.channelId);
    }
    hide IsKey, ValidIdentifier;
  }

  lemma SnapshotStoredExactlyIf(db: Database, unlocked: bool, deviceId: string, snapshot: Bytes, failing: bool)
    ensures var (db', r) := StoreSnapshot(db, unlocked, deviceId, snapshot, failing);
            && (r.Ok? <==> IsKey(deviceId) && 1 <= |snapshot| <= 16777216 && unlocked && !failing)
            && (r.Ok? ==> && db'.messages == db.messages && db'.outbox == db.outbox
                          && db'.snapshots.Keys == db.snapshots.Keys + {deviceId}
                          && db'.snapshots[deviceId] == snapshot
                          && forall id | id in db.snapshots && id != deviceId :: db'.snapshots[id] == db.snapshots[id])
            && (r.Err? ==> db' == db)
            && (r.Err? ==> r.error == if !IsKey(deviceId) || |snapshot| == 0 || |snapshot| > 16777216 then InvalidInput
                                      else if !unlocked then Locked else DatabaseFailed)
  {
    KeysAreValid(deviceId);
    hide IsKey, ValidIdentifier;
  }

  lemma SnapshotLoadedExactlyIf(db: Database, unlocked: bool, deviceId: string, failing: bool)
    requires Sound(db)
    ensures var r := LoadSnapshot(db, unlocked, deviceId, failing);
            && (r.Ok? <==> IsKey(deviceId) && unlocked && !failing)
            && (r.Ok? ==> r.value == if deviceId in db.snapshots then Some(db.snapshots[deviceId]) else None)
            && (r.Err? ==> r.error == if !IsKey(deviceId) then InvalidInput
                                      else if !unlocked then Locked else DatabaseFailed)
  {
    KeysAreValid(deviceId);
    hide IsKey, ValidIdentifier;
  }

  /**
   * The listings hold the first thousand rows, and all of them if there are no more: of the
   * whole outbox, and of one device's queue.
   */
  lemma ListingIsTheFirstThousand(db: Database, deviceId: string)
    ensures |ListAll(db)| == if |db.outbox| <= 1000 then |db.outbox| else 1000
    ensures forall i | 0 <= i < |ListAll(db)| :: ListAll(db)[i] == db.outbox[i].item
    ensures var queue := Pending(db, deviceId);
            && |ListDevice(db, deviceId)| == (if |queue| <= 1000 then |queue| else 1000)
            && forall i | 0 <= i < |ListDevice(db, deviceId)| :: ListDevice(db, deviceId)[i] == queue[i]
  {
  }

  // The persistent client.

  /**
   * `transact` succeeds if and only if the operation does, the changed client's snapshot fits,
   * and the vault is open and does not fail.
   */
  lemma TransactExactlyIf(mls: Mls, c: Client, db: Database, unlocked: bool, op: Operation, failing: bool)
    requires Lawful(mls) && InStep(mls, c, db)
    ensures var (c', r) := Operate(mls, c, op);
            Transact(mls, c, db, unlocked, op, failing).2.Ok? <==>
            && r.Ok? && 1 <= |mls.snapshotJson.encode(SnapshotOf(c'))| <= 16777216 && unlocked && !failing
  {
    hide Operate, Loadable, SnapshotOf, DecodeSnapshot, UuidText, Lawful;
    var c' := Operate(mls, c, op).0;
    UuidTextIsAKey(c'.deviceId, c'.deviceId);
    KeysAreValid(UuidText(c'.deviceId));
    SnapshotStoredExactlyIf(db, unlocked, UuidText(c'.deviceId), mls.snapshotJson.encode(SnapshotOf(c')), failing);
    hide StoreSnapshot, IsKey, ValidIdentifier;
  }

  /** What `transact` answers when it fails: the operation's error, or why the snapshot was not stored. */
  lemma TransactFailsFor(mls: Mls, c: Client, db: Database, unlocked: bool, op: Operation, failing: bool)
    requires Lawful(mls) && InStep(mls, c, db)
    ensures var (c', answer) := Operate(mls, c, op);
            var fits := 1 <= |mls.snapshotJson.encode(SnapshotOf(c'))| <= 16777216;
            var r := Transact(mls, c, db, unlocked, op, failing).2;
            && (answer.Err? ==> r == answer)
            && (answer.Ok? && !fits ==> r == Err(StateStorage))
            && (answer.Ok? && fits && !unlocked ==> r == Err(MlsError.Vault(Locked)))
            && (answer.Ok? && fits && unlocked && failing ==> r == Err(MlsError.Vault(DatabaseFailed)))
            && (r.Ok? ==> r == answer)
  {
    hide Operate, Loadable, EncodeSnapshot, DecodeSnapshot, UuidText, Lawful;
    var (c', answer) := Operate(mls, c, op);
    InStepMeans(mls, c, db);
    assert Faithful(mls.snapshotJson) by { LawfulCodecs(mls); }
    SnapshotFits(mls, c');
    OperateKeepsDevice(mls, c, op);
    UuidTextIsAKey(c.deviceId, c.deviceId);
    KeysAreValid(UuidText(c.deviceId));
    SnapshotStoredExactlyIf(db, unlocked, UuidText(c.deviceId), mls.snapshotJson.encode(SnapshotOf(c')), failing);
    RestoreRecovers<Option<PlaintextEvent>>(mls, c, c', db, if answer.Err? then answer.error else StateStorage);
    RestoreRecovers<Option<PlaintextEvent>>(mls, c, c', db,
                                            MlsError.Vault(if !unlocked then Locked else DatabaseFailed));
    hide StoreSnapshot, IsKey, ValidIdentifier, Restore;
  }

  lemma SnapshotFits(mls: Mls, c: Client)
    ensures EncodeSnapshot(mls, c)
            == var encoded := mls.snapshotJson.encode(SnapshotOf(c));
               if 1 <= |encoded| <= 16777216 then Ok(encoded) else Err(StateStorage)
  {
    hide SnapshotOf;
  }

  /** Loading answers a client if and only if the vault can be read and its snapshot decodes to it. */
  lemma LoadsExactlyIf(mls: Mls, db: Database, unlocked: bool, device: Uuid, failing: bool, c: Option<Client>)
    requires Sound(db)
    ensures Load(mls, db, unlocked, device, failing) == Ok(c) <==>
            && unlocked && !failing
            && if UuidText(device) in db.snapshots
               then c.Some? && DecodeSnapshot(mls, db.snapshots[UuidText(device)], device) == Ok(c.value)
               else c.None?
  {
    UuidTextIsAKey(device, device);
    KeysAreValid(UuidText(device));
    SnapshotLoadedExactlyIf(db, unlocked, UuidText(device), failing);
    hide LoadSnapshot, IsKey, ValidIdentifier, DecodeSnapshot, UuidText, Sound;
  }

  /** The event a drafted text becomes. */
  ghost predicate IsTextOf(c: Client, channel: Uuid, eventId: EventId, createdAtMs: I64, references: EventReferences,
                           body: string, event: PlaintextEvent)
  {
    && channel in c.channels
    && event.schemaVersion == 1 && event.eventId == eventId && event.channelId == channel
    && event.communityId == c.channels[channel].communityId && event.senderDeviceId == c.deviceId
    && event.createdAtMs == createdAtMs && event.references == references && event.body == body
    && Follows(c.channels[channel].outgoingChain, event)
  }

  /** A drafted text is encrypted if and only if it is one that can be sent and the library seals it. */
  lemma TextExactlyIf(mls: Mls, c: Client, channel: Uuid, eventId: EventId, createdAtMs: I64,
                      references: EventReferences, body: string)
    ensures EncryptDraft(mls, c, TextDraft(channel, eventId, createdAtMs, references, body)).1.Ok? <==>
            exists event: PlaintextEvent ::
              && IsTextOf(c, channel, eventId, createdAtMs, references, body, event)
              && Sendable(mls, c, event) && SealedBy(mls, c, event).outcome.SealedAs?
  {
    var draft := TextDraft(channel, eventId, createdAtMs, references, body);
    if channel in c.channels {
      var composed := EventOf(c, draft).value;
      EncryptExactlyIf(mls, c, composed);
      hide Encrypt, Sendable, SealedBy;
      assert IsTextOf(c, channel, eventId, createdAtMs, references, body, composed);
      assert forall event | IsTextOf(c, channel, eventId, createdAtMs, references, body, event) :: event == composed;
    }
  }

  /**
   * What a drafted text adds to what its channel has sent, and to nothing else: one event, with
   * the draft's body, references, time, ID and channel, the channel's community and this device,
   * next in the chain. The submission wraps that event, with the TTL asked for.
   */
  lemma QueuedTextIsTheDraft(mls: Mls, m: Member, channel: Uuid, eventId: EventId, createdAtMs: I64,
                             references: EventReferences, body: string, ttl: ServerTtl, submission: SubmitEvent)
    requires var draft := TextDraft(channel, eventId, createdAtMs, references, body);
             && EncryptDraft(mls, m.client, draft).1.Ok?
             && ToSubmitEvent(EncryptDraft(mls, m.client, draft).1.value, ttl) == Ok(submission)
    ensures var m' := Perform(mls, m, Send(TextDraft(channel, eventId, createdAtMs, references, body), true));
            var past, past' := PastIn(m, channel), PastIn(m', channel);
            && |past'.sent| == |past.sent| + 1 && past'.sent[..|past.sent|] == past.sent
            && past'.accepted == past.accepted
            && var event := past'.sent[|past.sent|];
               && IsTextOf(m.client, channel, eventId, createdAtMs, references, body, event)
               && Wraps(mls, m.client, event, submission)
               && submission.eventId == eventId && submission.channelId == channel
               && submission.senderDeviceId == m.client.deviceId && submission.communityId == event.communityId
               && submission.senderCounter == event.senderCounter && submission.ttlSeconds == ttl
               && forall other: Uuid | other != channel :: PastIn(m', other) == PastIn(m, other)
  {
    var draft := TextDraft(channel, eventId, createdAtMs, references, body);
    assert EventOf(m.client, draft).Some?;
    var composed := EventOf(m.client, draft).value;
    EncryptExactlyIf(mls, m.client, composed);
    assert IsTextOf(m.client, channel, eventId, createdAtMs, references, body, composed);
    hide Encrypt, IsTextOf, Sendable, Base64Url.FromBytes;
  }

  /**
   * `queue_outgoing` succeeds if and only if the draft is encrypted, the message is 1 to 262144
   * bytes long, the new snapshot and the payload fit, the vault is open and does not fail, the
   * event is not pending, and the message for the archive, if any, is a good new one.
   */
  lemma QueueExactlyIf(mls: Mls, c: Client, db: Database, unlocked: bool, draft: Draft, ttl: ServerTtl,
                       message: Option<VaultMessage>, failing: Option<Statement>)
    requires Lawful(mls) && InStep(mls, c, db)
    ensures var (c', encrypted) := EncryptDraft(mls, c, draft);
            QueueOutgoing(mls, c, db, unlocked, draft, ttl, message, failing).2.Ok? <==>
            && encrypted.Ok? && 1 <= |encrypted.value.mlsMessage| <= 262144
            && var submission := ToSubmitEvent(encrypted.value, ttl).value;
               var item := OutboxItem(UuidText(c.deviceId), UuidText(encrypted.value.eventId),
                                      mls.submitJson.encode(submission));
               && GoodInput(mls.snapshotJson.encode(SnapshotOf(c')), item, message)
               && (forall row | row in db.outbox :: row.item.eventId != item.eventId)
               && unlocked && NoFault(message, failing) && CanArchive(db, message)
  {
    hide GoodInput, EncryptDraft, SnapshotOf, UuidText, Lawful, StoreTransaction, InStep, NoFault, CanArchive, Loadable,
      QueueOutgoing, FindEvent;
    var (c', encrypted) := EncryptDraft(mls, c, draft);
    InStepMeans(mls, c, db);
    QueueIsStored(mls, c, db, unlocked, draft, ttl, message, failing);
    QueueIsAtomic(mls, c, db, unlocked, draft, ttl, message, failing);
    if encrypted.Ok? && ToSubmitEvent(encrypted.value, ttl).Ok? {
      var submission := ToSubmitEvent(encrypted.value, ttl).value;
      var snapshot, item := mls.snapshotJson.encode(SnapshotOf(c')), OutboxItemOf(mls, c.deviceId, submission);
      EncryptDraftFacts(mls, c, draft);
      GoodInputFits(snapshot, item, message);
      FindEventMeans(db, item.eventId);
      if FindEvent(db, item.eventId).None? {
        NewEventCommitsExactlyIf(db, unlocked, snapshot, item, message, failing);
      }
    }
  }

  lemma QueueIsStored(mls: Mls, c: Client, db: Database, unlocked: bool, draft: Draft, ttl: ServerTtl,
                      message: Option<VaultMessage>, failing: Option<Statement>)
    requires EncodeSnapshot(mls, c).Ok?
    ensures var (c', encrypted) := EncryptDraft(mls, c, draft);
            QueueOutgoing(mls, c, db, unlocked, draft, ttl, message, failing).2.Ok? <==>
            && encrypted.Ok? && ToSubmitEvent(encrypted.value, ttl).Ok? && EncodeSnapshot(mls, c').Ok?
            && StoreTransaction(db, unlocked, EncodeSnapshot(mls, c').value,
                                OutboxItemOf(mls, c'.deviceId, ToSubmitEvent(encrypted.value, ttl).value), message,
                                failing).1.Ok?
  {
    hide EncryptDraft, SnapshotOf, StoreTransaction, ToSubmitEvent, OutboxItemOf, DecodeSnapshot;
  }

  /** What `queue_outgoing` answers when it fails, in the order the source comes to it. */
  lemma QueueFailsFor(mls: Mls, c: Client, db: Database, unlocked: bool, draft: Draft, ttl: ServerTtl,
                      message: Option<VaultMessage>, failing: Option<Statement>)
    requires Lawful(mls) && InStep(mls, c, db)
    ensures var (c', encrypted) := EncryptDraft(mls, c, draft);
            var r := QueueOutgoing(mls, c, db, unlocked, draft, ttl, message, failing).2;
            if encrypted.Err? then r == Err(encrypted.error)
            else if |encrypted.value.mlsMessage| == 0 || |encrypted.value.mlsMessage| > 262144 then
              r == Err(MessageEncoding)
            else if EncodeSnapshot(mls, c').Err? then r == Err(StateStorage)
            else
              var item := OutboxItemOf(mls, c.deviceId, ToSubmitEvent(encrypted.value, ttl).value);
              var stored := StoreTransaction(db, unlocked, EncodeSnapshot(mls, c').value, item, message, failing).1;
              stored.Err? ==> r == Err(MlsError.Vault(stored.error))
  {
    hide EncryptDraft, SnapshotOf, StoreTransaction, OutboxItemOf, DecodeSnapshot, Loadable, UuidText, Lawful, Restore;
    var (c', encrypted) := EncryptDraft(mls, c, draft);
    InStepMeans(mls, c, db);
    assert Faithful(mls.snapshotJson) by { LawfulCodecs(mls); }
    EncryptDraftFacts(mls, c, draft);
    RestoreRecovers<SubmitEvent>(mls, c, c', db, if encrypted.Err? then encrypted.error else MessageEncoding);
    RestoreRecovers<SubmitEvent>(mls, c, c', db, StateStorage);
    if encrypted.Ok? && ToSubmitEvent(encrypted.value, ttl).Ok? && EncodeSnapshot(mls, c').Ok? {
      var item := OutboxItemOf(mls, c.deviceId, ToSubmitEvent(encrypted.value, ttl).value);
      var stored := StoreTransaction(db, unlocked, EncodeSnapshot(mls, c').value, item, message, failing).1;
      if stored.Err? {
        FailureChangesNothing(db, unlocked, EncodeSnapshot(mls, c').value, item, message, failing);
        RestoreRecovers<SubmitEvent>(mls, c, c', db, MlsError.Vault(stored.error));
      }
    }
  }

  lemma InStepMeans(mls: Mls, c: Client, db: Database)
    requires InStep(mls, c, db)
    ensures Loadable(mls, c) && EncodeSnapshot(mls, c).Ok?
  {
  }

  lemma GoodInputFits(snapshot: Bytes, item: OutboxItem, message: Option<VaultMessage>)
    ensures GoodInput(snapshot, item, message) ==> 1 <= |snapshot| <= 16777216
  {
  }
}
