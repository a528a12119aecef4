/**
 * How a persistent client comes and what it says of its outbox
 * (crates/singularis-mls/src/client.rs:193-198, 623-637, 734-752).
 */
module ClientLifecycle {
  import opened Wrappers
  import opened Protocol
  import opened Identifiers
  import opened VaultStore
  import opened MlsTypes
  import opened Snapshot
  import opened Persistence
  import opened MlsClients
  import opened DeliveryLanes
  import opened Sequences

  /** `MlsError::InvalidOutboxEntry` and the vault's errors. */
  datatype OutboxError = InvalidOutboxEntry | OutboxVault(cause: VaultError)

  /** `create`: `made` is what `MlsClient::new` gives. It never takes the place of a stored client. */
  ghost function Enroll(mls: Mls, db: Database, unlocked: bool, device: Uuid, made: Result<Client, MlsError>,
                        loadFails: bool, saveFails: bool)
    : (Database, Result<Client, MlsError>)
  {
    match LoadSnapshot(db, unlocked, UuidText(device), loadFails)
    case Err(error) => (db, Err(MlsError.Vault(error)))
    case Ok(Some(_)) => (db, Err(StateAlreadyExists))
    case Ok(None) =>
      if made.Err? then (db, made)
      else
        match EncodeSnapshot(mls, made.value)
        case Err(error) => (db, Err(error))
        case Ok(snapshot) =>
          var (db', saved) := StoreSnapshot(db, unlocked, UuidText(made.value.deviceId), snapshot, saveFails);
          (db', if saved.Ok? then made else Err(MlsError.Vault(saved.error)))
  }

  /** A client that enrolls is on disk from then on; one that does not leaves the disk alone. */
  lemma EnrollStartsInStep(mls: Mls, db: Database, unlocked: bool, device: Uuid, made: Result<Client, MlsError>,
                           loadFails: bool, saveFails: bool)
    requires made.Ok? ==> Loadable(mls, made.value) && made.value.deviceId == device
    ensures var (db', r) := Enroll(mls, db, unlocked, device, made, loadFails, saveFails);
            && (r.Ok? ==> r == made && InStep(mls, r.value, db') && UuidText(device) !in db.snapshots)
            && (r.Err? ==> db' == db)
            && db'.outbox == db.outbox && db'.messages == db.messages
            && forall id | id in db.snapshots :: id in db'.snapshots && db'.snapshots[id] == db.snapshots[id]
  {
    hide Loadable, EncodeSnapshot, UuidText, ValidIdentifier, ValidSnapshot;
  }

  /**
   * A client enrols if and only if the vault is open and fails neither to read nor to write, no
   * client of the device is stored, and a new one could be made whose snapshot fits.
   */
  lemma EnrollExactlyIf(mls: Mls, db: Database, unlocked: bool, device: Uuid, made: Result<Client, MlsError>,
                        loadFails: bool, saveFails: bool)
    requires Sound(db) && (made.Ok? ==> made.value.deviceId == device)
    ensures var r := Enroll(mls, db, unlocked, device, made, loadFails, saveFails).1;
            && (r.Ok? <==> && unlocked && !loadFails && !saveFails && UuidText(device) !in db.snapshots && made.Ok?
                           && 1 <= |mls.snapshotJson.encode(SnapshotOf(made.value))| <= 16777216)
            && (unlocked && !loadFails && UuidText(device) in db.snapshots ==> r == Err(StateAlreadyExists))
  {
    UuidTextIsAKey(device, device);
    hide UuidText, ValidIdentifier, SnapshotOf;
  }

  method Create(vault: Vault, mls: Mls, device: Uuid, made: Result<Client, MlsError>, loadFails: bool,
                saveFails: bool)
    returns (r: Result<VaultMlsClient, MlsError>)
    requires vault.Valid() && Lawful(mls)
    requires made.Ok? ==> Loadable(mls, made.value) && made.value.deviceId == device
    modifies vault`database
    ensures vault.Valid()
    ensures var (db, enrolled) := Enroll(mls, old(vault.database), vault.unlocked, device, made, loadFails, saveFails);
            && vault.database == db
            && (enrolled.Ok? ==> r.Ok? && fresh(r.value) && r.value.Valid() && r.value.vault == vault
                                 && r.value.client.State() == enrolled.value)
            && (enrolled.Err? ==> r.Err? && r.error == enrolled.error)
  {
    hide Loadable, EncodeSnapshot, UuidText, ValidIdentifier, Sound, Lawful;
    EnrollStartsInStep(mls, vault.database, vault.unlocked, device, made, loadFails, saveFails);
    var existing := vault.LoadMlsClientSnapshot(UuidText(device), loadFails);
    if existing.Err? {
      return Err(MlsError.Vault(existing.error));
    }
    if existing.value.Some? {
      return Err(StateAlreadyExists);
    }
    if made.Err? {
      return Err(made.error);
    }
    var client := new MlsClient(mls, made.value);
    var snapshot := client.Encode();
    if snapshot.Err? {
      return Err(snapshot.error);
    }
    var saved := vault.StoreMlsClientSnapshot(UuidText(client.deviceId), snapshot.value, saveFails);
    if saved.Err? {
      return Err(MlsError.Vault(saved.error));
    }
    var created := new VaultMlsClient(vault, client);
    r := Ok(created);
  }

  method LoadFromVault(vault: Vault, mls: Mls, device: Uuid, failing: bool)
    returns (r: Result<Option<MlsClient>, MlsError>)
    requires vault.Valid()
    ensures var loaded := Load(mls, vault.database, vault.unlocked, device, failing);
            && (loaded.Err? ==> r.Err? && r.error == loaded.error)
            && (loaded.Ok? ==> r.Ok? && (r.value.Some? <==> loaded.value.Some?))
            && (loaded.Ok? && loaded.value.Some? ==>
                  fresh(r.value.value) && r.value.value.mls == mls && r.value.value.State() == loaded.value.value)
  {
    hide DecodeSnapshot, UuidText, ValidIdentifier, Sound, LoadSnapshot;
    var stored := vault.LoadMlsClientSnapshot(UuidText(device), failing);
    if stored.Err? {
      return Err(MlsError.Vault(stored.error));
    }
    if stored.value.None? {
      return Ok(None);
    }
    var client := Decode(mls, stored.value.value, device);
    if client.Err? {
      return Err(client.error);
    }
    r := Ok(Some(client.value));
  }

  function ReadSubmission(mls: Mls, device: Uuid, item: OutboxItem): Option<SubmitEvent> {
    match mls.submitJson.decode(item.payload)
    case None => None
    case Some(submission) =>
      if UuidText(submission.eventId) != item.eventId || submission.senderDeviceId != device
         || mls.submitJson.encode(submission) != item.payload then None
      else Some(submission)
  }

  /** `collect` into a Result: all of them, or the first error. */
  function ReadAll(mls: Mls, device: Uuid, items: seq<OutboxItem>): Option<seq<SubmitEvent>> {
    if items == [] then Some([])
    else
      var last := |items| - 1;
      var earlier, submission := ReadAll(mls, device, items[..last]), ReadSubmission(mls, device, items[last]);
      if earlier.None? || submission.None? then None else Some(earlier.value + [submission.value])
  }

  lemma {:induction false} ReadAllFails(mls: Mls, device: Uuid, items: seq<OutboxItem>, n: nat)
    requires n <= |items| && ReadAll(mls, device, items[..n]).None?
    ensures ReadAll(mls, device, items).None?
    decreases |items|
  {
    if n == |items| {
      assert items[..n] == items;
    } else {
      assert items[..|items| - 1][..n] == items[..n];
      ReadAllFails(mls, device, items[..|items| - 1], n);
    }
  }

  function PendingSubmissions(mls: Mls, db: Database, unlocked: bool, device: Uuid, failing: bool)
    : Result<seq<SubmitEvent>, OutboxError>
  {
    if !unlocked then Err(OutboxVault(Locked))
    else if failing then Err(OutboxVault(DatabaseFailed))
    else
      match ReadAll(mls, device, ListDevice(db, UuidText(device)))
      case None => Err(InvalidOutboxEntry)
      case Some(submissions) => Ok(submissions)
  }

  /** The row holds the canonical form of this submission of the device. */
  ghost predicate IsRowOf(mls: Mls, device: Uuid, item: OutboxItem, submission: SubmitEvent) {
    && mls.submitJson.decode(item.payload) == Some(submission) && mls.submitJson.encode(submission) == item.payload
    && item.eventId == UuidText(submission.eventId) && submission.senderDeviceId == device
  }

  lemma {:induction false} AllReadExactlyIf(mls: Mls, device: Uuid, items: seq<OutboxItem>,
                                            submissions: seq<SubmitEvent>)
    ensures ReadAll(mls, device, items) == Some(submissions) <==>
            |submissions| == |items| && forall i | 0 <= i < |items| :: IsRowOf(mls, device, items[i], submissions[i])
  {
    if items != [] && submissions != [] {
      var last := |items| - 1;
      AllReadExactlyIf(mls, device, items[..last], submissions[..|submissions| - 1]);
      RowReadExactlyIf(mls, device, items[last], submissions[|submissions| - 1]);
      hide IsRowOf, ReadSubmission;
      assert items == items[..last] + [items[last]];
      assert submissions == submissions[..|submissions| - 1] + [submissions[|submissions| - 1]];
    }
  }

  lemma RowReadExactlyIf(mls: Mls, device: Uuid, item: OutboxItem, submission: SubmitEvent)
    ensures ReadSubmission(mls, device, item) == Some(submission) <==> IsRowOf(mls, device, item, submission)
  {
    hide UuidText;
  }

  /** Pending submissions are listed if and only if the vault can be read and every row listed is one. */
  lemma PendingExactlyIf(mls: Mls, db: Database, unlocked: bool, device: Uuid, failing: bool,
                         submissions: seq<SubmitEvent>)
    ensures PendingSubmissions(mls, db, unlocked, device, failing) == Ok(submissions) <==>
            && unlocked && !failing && |submissions| == |ListDevice(db, UuidText(device))|
            && forall i | 0 <= i < |submissions| ::
                 IsRowOf(mls, device, ListDevice(db, UuidText(device))[i], submissions[i])
  {
    hide ListDevice, ReadAll, IsRowOf, UuidText;
    AllReadExactlyIf(mls, device, ListDevice(db, UuidText(device)), submissions);
  }

  lemma NothingToRead(mls: Mls, device: Uuid)
    ensures ReadAll(mls, device, []) == Some([])
  {
  }

  lemma ReadOneMore(mls: Mls, device: Uuid, items: seq<OutboxItem>, item: OutboxItem)
    requires ReadAll(mls, device, items).Some?
    ensures var submission := ReadSubmission(mls, device, item);
            ReadAll(mls, device, items + [item])
            == if submission.None? then None else Some(ReadAll(mls, device, items).value + [submission.value])
  {
    assert (items + [item])[..|items|] == items;
  }

  method CollectSubmissions(mls: Mls, device: Uuid, items: seq<OutboxItem>) returns (r: Option<seq<SubmitEvent>>)
    ensures r == ReadAll(mls, device, items)
  {
    hide ReadSubmission, ReadAll;
    NothingToRead(mls, device);
    var submissions: seq<SubmitEvent> := [];
    for i := 0 to |items|
      invariant ReadAll(mls, device, items[..i]) == Some(submissions)
    {
      assert items[..i + 1] == items[..i] + [items[i]];
      ReadOneMore(mls, device, items[..i], items[i]);
      var submission := ReadSubmission(mls, device, items[i]);
      if submission.None? {
        ReadAllFails(mls, device, items, i + 1);
        return None;
      }
      submissions := submissions + [submission.value];
    }
    assert items[..|items|] == items;
    r := Some(submissions);
  }

  method ListPending(c: VaultMlsClient, failing: bool) returns (r: Result<seq<SubmitEvent>, OutboxError>)
    requires c.vault.Valid()
    ensures r == PendingSubmissions(c.client.mls, c.vault.database, c.vault.unlocked, c.client.deviceId, failing)
  {
    UuidTextIsAKey(c.client.deviceId, c.client.deviceId);
    hide ValidIdentifier, UuidText, Sound, ReadAll, ListDevice;
    var listed := c.vault.ListMlsOutbox(UuidText(c.client.deviceId), failing);
    if listed.Err? {
      return Err(OutboxVault(listed.error));
    }
    var submissions := CollectSubmissions(c.client.mls, c.client.deviceId, listed.value);
    r := if submissions.None? then Err(InvalidOutboxEntry) else Ok(submissions.value);
  }

  lemma RowReadsBack(mls: Mls, device: Uuid, submission: SubmitEvent)
    requires Faithful(mls.submitJson) && submission.senderDeviceId == device
    ensures ReadSubmission(mls, device, OutboxItemOf(mls, device, submission)) == Some(submission)
  {
    assert mls.submitJson.decode(mls.submitJson.encode(submission)) == Some(submission);
  }

  lemma RowsAppend(mls: Mls, device: Uuid, init: seq<SubmitEvent>, last: SubmitEvent)
    requires AllFrom(init + [last], device)
    ensures AllFrom(init, device) && last.senderDeviceId == device
    ensures Map(init + [last], RowOf(mls, device)) == Map(init, RowOf(mls, device)) + [OutboxItemOf(mls, device, last)]
  {
    assert (init + [last])[|init|] == last;
    assert forall i | 0 <= i < |init| :: (init + [last])[i] == init[i];
    hide OutboxItemOf;
  }

  /** Rows made from submissions of the device read back as those submissions. */
  lemma {:induction false} RowsReadBack(mls: Mls, device: Uuid, submissions: seq<SubmitEvent>)
    requires Faithful(mls.submitJson) && AllFrom(submissions, device)
    ensures ReadAll(mls, device, Map(submissions, RowOf(mls, device))) == Some(submissions)
  {
    if submissions != [] {
      hide Faithful, ReadSubmission, OutboxItemOf, ReadAll, AllFrom, Map, RowOf;
      var init, last := submissions[..|submissions| - 1], submissions[|submissions| - 1];
      assert submissions == init + [last];
      RowsAppend(mls, device, init, last);
      RowReadsBack(mls, device, last);
      RowsReadBack(mls, device, init);
      ReadOneMore(mls, device, Map(init, RowOf(mls, device)), OutboxItemOf(mls, device, last));
    }
  }

  lemma LimitedRowsReadBack(mls: Mls, device: Uuid, submissions: seq<SubmitEvent>)
    requires Faithful(mls.submitJson) && AllFrom(submissions, device)
    ensures ReadAll(mls, device, Limit(Map(submissions, RowOf(mls, device)))) == Some(Limit(submissions))
  {
    hide Faithful, OutboxItemOf, ReadAll;
    RowsReadBack(mls, device, Limit(submissions));
    assert Limit(Map(submissions, RowOf(mls, device))) == Map(Limit(submissions), RowOf(mls, device));
  }
}
