/**
 * The local vault's tables and transactions (crates/singularis-vault/src/vault.rs).
 * SQLite is the atomicity of a commit, primary keys, CHECK constraints and rowids.
 */
module VaultStore {
  import opened Wrappers
  import opened Protocol
  import opened Sequences
  import opened Identifiers
  import Text

  const MAX_MESSAGE_BYTES := 64 * 1024
  const MAX_MLS_SNAPSHOT_BYTES := 16 * 1024 * 1024
  const MAX_MLS_OUTBOX_BYTES := 384 * 1024
  const OUTBOX_LIMIT := 1000

  datatype VaultMessage = VaultMessage(id: string, channelId: string, body: string, createdAtMs: int)

  datatype OutboxItem = OutboxItem(deviceId: string, eventId: string, payload: Bytes)

  datatype OutboxRow = OutboxRow(rowid: nat, item: OutboxItem)

  /** What is on disk. The outbox is kept by ascending rowid, as a rowid table is. */
  datatype Database = Database(
    messages: map<string, VaultMessage>,
    snapshots: map<string, Bytes>,
    outbox: seq<OutboxRow>)

  datatype VaultError = Locked | InvalidInput | OutboxConflict | CorruptState | DatabaseFailed

  /** The statements of the transaction; the engine may fail at any one of them. */
  datatype Statement =
    | Begin | ReadOutbox | ReadSnapshot | ReadMessage | InsertMessage | UpsertSnapshot | InsertOutbox | Commit

  predicate ValidMessage(message: VaultMessage) {
    && ValidIdentifier(message.id) && ValidIdentifier(message.channelId)
    && !Text.IsBlank(message.body) && Text.Utf8Length(message.body) <= MAX_MESSAGE_BYTES
    && message.createdAtMs >= 0
  }

  predicate ValidSnapshot(snapshot: Bytes) { 0 < |snapshot| <= MAX_MLS_SNAPSHOT_BYTES }

  predicate ValidPayload(payload: Bytes) { 0 < |payload| <= MAX_MLS_OUTBOX_BYTES }

  predicate ValidItem(item: OutboxItem) {
    ValidIdentifier(item.deviceId) && ValidIdentifier(item.eventId) && ValidPayload(item.payload)
  }

  /** SQL `length` of a text stops at the first NUL; the body's CHECK asks for at least 1. */
  predicate BodyFitsColumn(body: string) { body != "" && body[0] != '\0' }

  function ItemOf(row: OutboxRow): OutboxItem { row.item }

  function HasEvent(eventId: string): OutboxRow -> bool { (row: OutboxRow) => row.item.eventId == eventId }

  function OtherThan(deviceId: string, eventId: string): OutboxRow -> bool {
    (row: OutboxRow) => !(row.item.deviceId == deviceId && row.item.eventId == eventId)
  }

  function OfDevice(deviceId: string): OutboxItem -> bool { (item: OutboxItem) => item.deviceId == deviceId }

  function Items(db: Database): seq<OutboxItem> { Map(db.outbox, ItemOf) }

  /** `SELECT … WHERE event_id = ?`, over a primary key. */
  function FindEvent(db: Database, eventId: string): Option<OutboxItem> {
    var rows := Filter(db.outbox, HasEvent(eventId));
    if rows == [] then None else Some(rows[0].item)
  }

  /** The rowid SQLite gives a new row: one past the largest in the table. */
  function NextRowid(outbox: seq<OutboxRow>): nat {
    if outbox == [] then 1 else outbox[|outbox| - 1].rowid + 1
  }

  function Limit<T>(items: seq<T>): seq<T> {
    if |items| <= OUTBOX_LIMIT then items else items[..OUTBOX_LIMIT]
  }

  predicate MessageFits(db: Database, message: Option<VaultMessage>) {
    message.Some? ==> message.value.id !in db.messages && BodyFitsColumn(message.value.body)
  }

  predicate MessageStored(db: Database, message: Option<VaultMessage>) {
    message.Some? ==> message.value.id in db.messages && db.messages[message.value.id] == message.value
  }

  function Committed(db: Database, snapshot: Bytes, item: OutboxItem, message: Option<VaultMessage>): Database {
    Database(
      if message.Some? then db.messages[message.value.id := message.value] else db.messages,
      db.snapshots[item.deviceId := snapshot],
      db.outbox + [OutboxRow(NextRowid(db.outbox), item)])
  }

  /** What `store_mls_transaction` leaves on disk and what it answers. */
  function StoreTransaction(db: Database, unlocked: bool, snapshot: Bytes, item: OutboxItem,
                            message: Option<VaultMessage>, failing: Option<Statement>)
    : (Database, Result<Option<VaultMessage>, VaultError>)
  {
    if (message.Some? && !ValidMessage(message.value)) || !ValidItem(item) || !ValidSnapshot(snapshot) then
      (db, Err(InvalidInput))
    else if !unlocked then (db, Err(Locked))
    else if failing in {Some(Begin), Some(ReadOutbox)} then (db, Err(DatabaseFailed))
    else
      match FindEvent(db, item.eventId)
      case Some(existing) =>
        if existing != item then (db, Err(OutboxConflict))
        else if failing == Some(ReadSnapshot) || item.deviceId !in db.snapshots then (db, Err(DatabaseFailed))
        else if db.snapshots[item.deviceId] != snapshot then (db, Err(OutboxConflict))
        else if message.Some? && failing == Some(ReadMessage) then (db, Err(DatabaseFailed))
        else if !MessageStored(db, message) then (db, Err(OutboxConflict))
        else if failing == Some(Commit) then (db, Err(DatabaseFailed))
        else (db, Ok(message))
      case None =>
        if (message.Some? && failing == Some(InsertMessage)) || !MessageFits(db, message)
           || failing in {Some(UpsertSnapshot), Some(InsertOutbox), Some(Commit)} then
          (db, Err(DatabaseFailed))
        else (Committed(db, snapshot, item, message), Ok(message))
  }

  function StoreSnapshot(db: Database, unlocked: bool, deviceId: string, snapshot: Bytes, failing: bool)
    : (Database, Result<(), VaultError>)
  {
    if !ValidIdentifier(deviceId) || !ValidSnapshot(snapshot) then (db, Err(InvalidInput))
    else if !unlocked then (db, Err(Locked))
    else if failing then (db, Err(DatabaseFailed))
    else (db.(snapshots := db.snapshots[deviceId := snapshot]), Ok(()))
  }

  function LoadSnapshot(db: Database, unlocked: bool, deviceId: string, failing: bool)
    : Result<Option<Bytes>, VaultError>
  {
    if !ValidIdentifier(deviceId) then Err(InvalidInput)
    else if !unlocked then Err(Locked)
    else if failing then Err(DatabaseFailed)
    else if deviceId !in db.snapshots then Ok(None)
    else if !ValidSnapshot(db.snapshots[deviceId]) then Err(CorruptState)
    else Ok(Some(db.snapshots[deviceId]))
  }

  function Acknowledge(db: Database, deviceId: string, eventId: string): Database {
    db.(outbox := Filter(db.outbox, OtherThan(deviceId, eventId)))
  }

  /** `list_all_mls_outbox`: ascending rowid, at most a thousand. */
  function ListAll(db: Database): seq<OutboxItem> { Limit(Items(db)) }

  function ListDevice(db: Database, deviceId: string): seq<OutboxItem> {
    Limit(Filter(Items(db), OfDevice(deviceId)))
  }

  /** Keys, foreign keys and column checks of the schema. */
  ghost predicate Sound(db: Database) {
    && RowidsRise(db.outbox) && EventsDiffer(db.outbox)
    && (forall i | 0 <= i < |db.outbox| ::
          ValidItem(db.outbox[i].item) && db.outbox[i].item.deviceId in db.snapshots)
    && (forall id | id in db.snapshots :: ValidIdentifier(id) && ValidSnapshot(db.snapshots[id]))
    && (forall id | id in db.messages :: db.messages[id].id == id)
  }

  ghost predicate RowidsRise(outbox: seq<OutboxRow>) {
    forall i, j | 0 <= i < j < |outbox| :: outbox[i].rowid < outbox[j].rowid
  }

  ghost predicate EventsDiffer(outbox: seq<OutboxRow>) {
    forall i, j | 0 <= i < j < |outbox| :: outbox[i].item.eventId != outbox[j].item.eventId
  }

  /** The vault object: an open or closed connection to the database. */
  class Vault {
    var database: Database
    var unlocked: bool

    ghost predicate Valid()
      reads this
    {
      Sound(database)
    }

    constructor ()
      ensures Valid() && unlocked && database == Database(map[], map[], [])
    {
      database := Database(map[], map[], []);
      unlocked := true;
    }

    method SetUnlocked(open: bool)
      requires Valid()
      modifies this`unlocked
      ensures Valid() && unlocked == open
    {
      unlocked := open;
    }

    method StoreMlsTransaction(snapshot: Bytes, item: OutboxItem, message: Option<VaultMessage>,
                               failing: Option<Statement>)
      returns (r: Result<Option<VaultMessage>, VaultError>)
      requires Valid()
      modifies this`database
      ensures Valid()
      ensures (database, r) == StoreTransaction(old(database), unlocked, snapshot, item, message, failing)
    {
      TransactionIsSound(database, unlocked, snapshot, item, message, failing);
      if message.Some? && !ValidMessage(message.value) {
        return Err(InvalidInput);
      }
      if !ValidItem(item) || !ValidSnapshot(snapshot) {
        return Err(InvalidInput);
      }
      if !unlocked {
        return Err(Locked);
      }
      var transaction := database;
      if failing == Some(Begin) || failing == Some(ReadOutbox) {
        return Err(DatabaseFailed);
      }
      var existing := FindEvent(transaction, item.eventId);
      if existing.Some? {
        if existing.value.deviceId != item.deviceId || existing.value.payload != item.payload {
          return Err(OutboxConflict);
        }
        FindEventMeans(transaction, item.eventId);
        if failing == Some(ReadSnapshot) || item.deviceId !in transaction.snapshots {
          return Err(DatabaseFailed);
        }
        if transaction.snapshots[item.deviceId] != snapshot {
          return Err(OutboxConflict);
        }
        if message.Some? {
          if failing == Some(ReadMessage) {
            return Err(DatabaseFailed);
          }
          if message.value.id !in transaction.messages || transaction.messages[message.value.id] != message.value {
            return Err(OutboxConflict);
          }
        }
      } else {
        if message.Some? {
          if failing == Some(InsertMessage) || message.value.id in transaction.messages
             || !BodyFitsColumn(message.value.body) {
            return Err(DatabaseFailed);
          }
          transaction := transaction.(messages := transaction.messages[message.value.id := message.value]);
        }
        if failing == Some(UpsertSnapshot) {
          return Err(DatabaseFailed);
        }
        transaction := transaction.(snapshots := transaction.snapshots[item.deviceId := snapshot]);
        if failing == Some(InsertOutbox) {
          return Err(DatabaseFailed);
        }
        transaction := transaction.(outbox := transaction.outbox + [OutboxRow(NextRowid(transaction.outbox), item)]);
      }
      if failing == Some(Commit) {
        return Err(DatabaseFailed);
      }
      database := transaction;
      r := Ok(message);
    }

    method StoreMlsClientSnapshot(deviceId: string, snapshot: Bytes, failing: bool)
      returns (r: Result<(), VaultError>)
      requires Valid()
      modifies this`database
      ensures Valid()
      ensures (database, r) == StoreSnapshot(old(database), unlocked, deviceId, snapshot, failing)
    {
      if !ValidIdentifier(deviceId) || !ValidSnapshot(snapshot) {
        return Err(InvalidInput);
      }
      if !unlocked {
        return Err(Locked);
      }
      if failing {
        return Err(DatabaseFailed);
      }
      database := database.(snapshots := database.snapshots[deviceId := snapshot]);
      r := Ok(());
    }

    method LoadMlsClientSnapshot(deviceId: string, failing: bool) returns (r: Result<Option<Bytes>, VaultError>)
      requires Valid()
      ensures r == LoadSnapshot(database, unlocked, deviceId, failing)
      ensures r != Err(CorruptState)
    {
      r := LoadSnapshot(database, unlocked, deviceId, failing);
    }

    method ListAllMlsOutbox(failing: bool) returns (r: Result<seq<OutboxItem>, VaultError>)
      requires Valid()
      ensures r == if !unlocked then Err(Locked) else if failing then Err(DatabaseFailed) else Ok(ListAll(database))
    {
      if !unlocked {
        return Err(Locked);
      }
      if failing {
        return Err(DatabaseFailed);
      }
      var items := ListAll(database);
      for i := 0 to |items|
        invariant forall k | 0 <= k < i :: ValidItem(items[k])
      {
        assert items[i] == database.outbox[i].item;
        if !ValidItem(items[i]) {
          return Err(CorruptState);
        }
      }
      r := Ok(items);
    }

    method ListMlsOutbox(deviceId: string, failing: bool) returns (r: Result<seq<OutboxItem>, VaultError>)
      requires Valid()
      ensures r == if !ValidIdentifier(deviceId) then Err(InvalidInput)
                   else if !unlocked then Err(Locked)
                   else if failing then Err(DatabaseFailed)
                   else Ok(ListDevice(database, deviceId))
    {
      if !ValidIdentifier(deviceId) {
        return Err(InvalidInput);
      }
      if !unlocked {
        return Err(Locked);
      }
      if failing {
        return Err(DatabaseFailed);
      }
      var items := ListDevice(database, deviceId);
      FilterMembers(Items(database), OfDevice(deviceId));
      for i := 0 to |items|
        invariant forall k | 0 <= k < i :: ValidItem(items[k])
      {
        assert items[i] in Filter(Items(database), OfDevice(deviceId));
        if !ValidItem(items[i]) {
          return Err(CorruptState);
        }
      }
      r := Ok(items);
    }

    method AcknowledgeMlsOutbox(deviceId: string, eventId: string, failing: bool)
      returns (r: Result<bool, VaultError>)
      requires Valid()
      modifies this`database
      ensures Valid()
      ensures r.Err? ==> database == old(database)
      ensures r.Ok? ==> database == Acknowledge(old(database), deviceId, eventId)
      ensures r.Ok? ==> (r.value <==> exists row | row in old(database).outbox ::
                                        Names(row, deviceId, eventId))
      ensures r.Err? <==> !ValidIdentifier(deviceId) || !ValidIdentifier(eventId) || !unlocked || failing
      ensures r.Err? ==> r.error == if !ValidIdentifier(deviceId) || !ValidIdentifier(eventId) then InvalidInput
                                    else if !unlocked then Locked else DatabaseFailed
    {
      if !ValidIdentifier(deviceId) || !ValidIdentifier(eventId) {
        return Err(InvalidInput);
      }
      if !unlocked {
        return Err(Locked);
      }
      if failing {
        return Err(DatabaseFailed);
      }
      AcknowledgeRemovesOne(database, deviceId, eventId);
      var remaining := Filter(database.outbox, OtherThan(deviceId, eventId));
      r := Ok(|database.outbox| - |remaining| == 1);
      database := database.(outbox := remaining);
    }
  }

  lemma FindEventMeans(db: Database, eventId: string)
    ensures FindEvent(db, eventId).Some? <==> exists row :: row in db.outbox && row.item.eventId == eventId
    ensures FindEvent(db, eventId).Some? ==>
              exists row :: row in db.outbox && row.item == FindEvent(db, eventId).value && row.item.eventId == eventId
  {
    FilterMembers(db.outbox, HasEvent(eventId));
    var rows := Filter(db.outbox, HasEvent(eventId));
    if rows != [] {
      assert rows[0] in rows;
    }
  }

  lemma CommittedIsSound(db: Database, snapshot: Bytes, item: OutboxItem, message: Option<VaultMessage>)
    requires Sound(db) && ValidItem(item) && ValidSnapshot(snapshot)
    requires FindEvent(db, item.eventId).None?
    ensures Sound(Committed(db, snapshot, item, message))
  {
    hide ValidItem, ValidSnapshot, ValidIdentifier, FindEvent;
    var db' := Committed(db, snapshot, item, message);
    FindEventMeans(db, item.eventId);
    assert forall i | 0 <= i < |db.outbox| :: db.outbox[i] in db.outbox;
    assert forall i | 0 <= i < |db.outbox| :: db'.outbox[i] == db.outbox[i];
    assert EventsDiffer(db'.outbox);
    assert RowidsRise(db'.outbox);
    assert forall id | id in db'.snapshots :: id in db.snapshots || id == item.deviceId;
    assert ValidIdentifier(item.deviceId) by {
      ItemHasValidDevice(item);
    }
  }

  lemma ItemHasValidDevice(item: OutboxItem)
    requires ValidItem(item)
    ensures ValidIdentifier(item.deviceId)
  {
  }

  lemma TransactionIsSound(db: Database, unlocked: bool, snapshot: Bytes, item: OutboxItem,
                           message: Option<VaultMessage>, failing: Option<Statement>)
    requires Sound(db)
    ensures Sound(StoreTransaction(db, unlocked, snapshot, item, message, failing).0)
  {
    if FindEvent(db, item.eventId).None? && ValidItem(item) && ValidSnapshot(snapshot) {
      CommittedIsSound(db, snapshot, item, message);
    }
  }

  predicate Names(row: OutboxRow, deviceId: string, eventId: string) {
    row.item.deviceId == deviceId && row.item.eventId == eventId
  }

  /** Acknowledging the k-th row takes out that row and no other. */
  lemma AcknowledgeAt(outbox: seq<OutboxRow>, k: nat)
    requires EventsDiffer(outbox) && k < |outbox|
    ensures Filter(outbox, OtherThan(outbox[k].item.deviceId, outbox[k].item.eventId))
            == outbox[..k] + outbox[k + 1..]
  {
    FilterDropsOne(outbox, k, OtherThan(outbox[k].item.deviceId, outbox[k].item.eventId));
  }

  lemma AcknowledgeNothing(outbox: seq<OutboxRow>, deviceId: string, eventId: string)
    requires forall row | row in outbox :: !Names(row, deviceId, eventId)
    ensures Filter(outbox, OtherThan(deviceId, eventId)) == outbox
  {
    FilterAll(outbox, OtherThan(deviceId, eventId));
  }

  lemma RemovalIsSound(db: Database, k: nat)
    requires Sound(db) && k < |db.outbox|
    ensures Sound(db.(outbox := db.outbox[..k] + db.outbox[k + 1..]))
  {
    hide ValidItem, ValidSnapshot, ValidIdentifier;
    var outbox := db.outbox[..k] + db.outbox[k + 1..];
    assert forall i | 0 <= i < |outbox| :: outbox[i] == db.outbox[if i < k then i else i + 1];
    assert RowidsRise(outbox) && EventsDiffer(outbox);
  }

  /** An acknowledgement takes out the row it names, no other, and nothing else changes. */
  lemma AcknowledgeRemovesThatRow(db: Database, deviceId: string, eventId: string, k: nat)
    requires Sound(db) && k < |db.outbox| && Names(db.outbox[k], deviceId, eventId)
    ensures Acknowledge(db, deviceId, eventId) == db.(outbox := db.outbox[..k] + db.outbox[k + 1..])
    ensures Sound(Acknowledge(db, deviceId, eventId))
  {
    hide Sound;
    AcknowledgeAt(db.outbox, k) by { SoundEvents(db); }
    RemovalIsSound(db, k);
  }

  /** It deletes one row if the row is there, and none if it is not. */
  lemma AcknowledgeRemovesOne(db: Database, deviceId: string, eventId: string)
    requires Sound(db)
    ensures Sound(Acknowledge(db, deviceId, eventId))
    ensures |db.outbox| - |Acknowledge(db, deviceId, eventId).outbox| ==
            if exists row | row in db.outbox :: Names(row, deviceId, eventId) then 1 else 0
  {
    if row :| row in db.outbox && Names(row, deviceId, eventId) {
      var k :| 0 <= k < |db.outbox| && db.outbox[k] == row;
      hide Sound;
      AcknowledgeRemovesThatRow(db, deviceId, eventId, k);
    } else {
      AcknowledgeNothing(db.outbox, deviceId, eventId);
    }
  }

  lemma SoundEvents(db: Database)
    requires Sound(db)
    ensures EventsDiffer(db.outbox)
  {
  }

  /**
   * Archive row, snapshot and outbox row appear together or not at all: the transaction
   * changes the disk only by adding all of them, and it succeeds without a change only where
   * all of them were already there.
   */
  lemma AllOrNothing(db: Database, unlocked: bool, snapshot: Bytes, item: OutboxItem,
                     message: Option<VaultMessage>, failing: Option<Statement>)
    requires Sound(db)
    ensures var (db', r) := StoreTransaction(db, unlocked, snapshot, item, message, failing);
            && (r.Err? ==> db' == db)
            && (r.Ok? ==> r.value == message)
            && (r.Ok? ==> && item in Items(db') && item.deviceId in db'.snapshots
                          && db'.snapshots[item.deviceId] == snapshot && MessageStored(db', message))
            && (db' != db ==> r.Ok? && db' == Committed(db, snapshot, item, message) && item !in Items(db)
                              && Items(db') == Items(db) + [item])
  {
    hide ValidItem, ValidMessage, ValidSnapshot, FindEvent;
    FindEventMeans(db, item.eventId);
    var found := FindEvent(db, item.eventId);
    var db' := StoreTransaction(db, unlocked, snapshot, item, message, failing).0;
    if found.Some? {
      var k :| 0 <= k < |db.outbox| && db.outbox[k].item == found.value;
      assert Items(db)[k] == found.value;
    } else if db' != db {
      assert db' == Committed(db, snapshot, item, message);
      assert Items(db') == Items(db) + [item];
      assert Items(db')[|db.outbox|] == item;
      forall i | 0 <= i < |Items(db)|
        ensures Items(db)[i] != item
      {
        assert db.outbox[i] in db.outbox;
      }
    }
  }

  lemma FoundWhereItIs(db: Database, k: nat)
    requires EventsDiffer(db.outbox) && k < |db.outbox|
    ensures FindEvent(db, db.outbox[k].item.eventId) == Some(db.outbox[k].item)
  {
    var eventId := db.outbox[k].item.eventId;
    FilterMembers(db.outbox, HasEvent(eventId));
    var rows := Filter(db.outbox, HasEvent(eventId));
    assert db.outbox[k] in rows;
    assert rows[0] in rows && rows[0] in db.outbox;
    var i :| 0 <= i < |db.outbox| && db.outbox[i] == rows[0];
    assert i == k;
  }

  /**
   * While a row is pending, a transaction for its event ID never changes the disk. It is
   * answered Ok exactly when device and payload are the row's, the snapshot is still the
   * device's current one, and the message, if any, is in the archive as given.
   */
  lemma ReplayWhilePending(db: Database, snapshot: Bytes, item: OutboxItem, message: Option<VaultMessage>, k: nat)
    requires Sound(db) && k < |db.outbox| && db.outbox[k].item.eventId == item.eventId
    requires ValidItem(item) && ValidSnapshot(snapshot) && (message.Some? ==> ValidMessage(message.value))
    ensures var (db', r) := StoreTransaction(db, true, snapshot, item, message, None);
            && db' == db
            && (r == Ok(message) <==>
                  && item == db.outbox[k].item && db.snapshots[item.deviceId] == snapshot
                  && MessageStored(db, message))
            && (r == Ok(message) || r == Err(OutboxConflict))
  {
    hide ValidItem, ValidMessage, ValidSnapshot, FindEvent, MessageStored;
    FoundWhereItIs(db, k);
  }

  /** Repeating a transaction right after it committed changes nothing and answers the same. */
  lemma ImmediateReplayIsIdempotent(db: Database, unlocked: bool, snapshot: Bytes, item: OutboxItem,
                                    message: Option<VaultMessage>, failing: Option<Statement>)
    requires Sound(db)
    ensures var (db', r) := StoreTransaction(db, unlocked, snapshot, item, message, failing);
            r.Ok? ==> StoreTransaction(db', true, snapshot, item, message, None) == (db', r)
  {
    var (db', r) := StoreTransaction(db, unlocked, snapshot, item, message, failing);
    TransactionIsSound(db, unlocked, snapshot, item, message, failing);
    AllOrNothing(db, unlocked, snapshot, item, message, failing);
    if r.Ok? {
      var k :| 0 <= k < |Items(db')| && Items(db')[k] == item;
      ReplayWhilePending(db', snapshot, item, message, k);
    }
  }

  /**
   * A replay naming another message is not always refused: it passes if that other message is
   * in the archive already, for the archive row is looked up by the message given.
   */
  lemma ReplayMayNameAnotherArchivedMessage(first: VaultMessage, second: VaultMessage, snapshot: Bytes,
                                            item: OutboxItem)
    requires ValidMessage(first) && ValidMessage(second) && first.id != second.id
    requires BodyFitsColumn(first.body) && ValidItem(item) && ValidSnapshot(snapshot)
    ensures var db := Database(map[second.id := second], map[], []);
            var (db', r) := StoreTransaction(db, true, snapshot, item, Some(first), None);
            && r == Ok(Some(first))
            && StoreTransaction(db', true, snapshot, item, Some(second), None) == (db', Ok(Some(second)))
  {
    hide ValidItem, ValidMessage, ValidSnapshot, FindEvent;
    var db := Database(map[second.id := second], map[], []);
    FindEventMeans(db, item.eventId);
    var db' := StoreTransaction(db, true, snapshot, item, Some(first), None).0;
    FoundWhereItIs(db', 0);
  }
}
