# Singularis delivery pipeline: verified model

Singularis sends encrypted text between devices. A message crosses four stateful parts, any of which
can stop at any moment, and a network that loses, repeats and delays. This project models those parts as
the code has them, proves each imperative part equal to a function on values, and composes those same
functions into one transition system about which the main results are proved.

- **Persistent client** (`MlsTypes`, `Snapshot`, `SnapshotAnswers`, `ClientOperations`, `ClientAnswers`,
  `Persistence`, `QueueAnswers`, `MlsClients`, `ClientLifecycle`): counters, hash chains, seen IDs, the snapshot
  codec, and "snapshot, change, persist, or else decode the snapshot back".
- **Vault** (`VaultStore`, `DeviceQueues`, `Identifiers`, `SearchQuery`): archive, snapshots and outbox in
  one SQLite database, with faults at every statement.
- **Outbox worker** (`OutboxWorker`, `FlushGuarantees`, `PauseProtocol`, `PausedFlush`): the flush loop with
  head-of-line blocking, the interleavings of pause, resume and flush, and what these mean for the vault.
- **Relay** (`RelayStore`, `RelayHistory`, `RelayLifetime`, `CursorReader`): four maps that are one
  append-only log read through whatever clock readings later calls bring.
- **Wire forms** (`Base64Url`, `SubmitJson`, `SubmitReader`): the canonical base64url text, and a printer and
  a reader of the canonical JSON of a submission.
- **Across the parts**: `SenderChains`, `MemberRuns` and `EndToEnd` (from one client to another over any
  network); `DeliveryLanes`, `Pipeline`, `PipelineInvariant`, `PipelineClients`, `PipelineDelivery`,
  `PipelineGuarantees`, `PipelineProgress`, `PipelineStuck` and `PipelineDrains` (client, vault, worker, network
  and relay together); `ReceiverRuns` and `Completeness` (from a sender's commits in that system, through the
  relay's log and a reader's polls, to a receiver's chain).
- **Witnesses** (`Trees`, `PlainLibrary`, `PlainLife`): a library that satisfies all that is assumed, and a life of
  the system with it.

`Pipeline.Action` lists what can happen: client operations and messages to queue (with a fault at any
statement, and a crash right after), loading, crashes, locking, starting and ending a flush, a turn of its
loop, the end of a wait (a receipt the relay once made for that very request, an error, or a cancellation),
the relay serving any payload ever sent at any clock reading, other devices' traffic, and polls. An action
that cannot happen in a state changes nothing, so the theorems range over all sequences of actions.

## What the code does where a shorter description would be wrong

- A replayed vault transaction that names *another* message is not always refused: the archive row is looked
  up by the message given, so a message that is in the archive already passes
  (`VaultStore.ReplayMayNameAnotherArchivedMessage`). `VaultStore.ReplayWhilePending` says exactly when a
  replay succeeds.
- `Idle` does not always mean an empty outbox: if the last listing fails, a row queued during the flush stays
  hidden (`FlushGuarantees.IdleCanHideARow`); `FlushGuarantees.IdleMeans` is the exact condition. A `break`
  sets the report's state to `Paused`, but the end of `flush_now` overwrites it.
- Delivery of a queued message is not certain. An event accepted by the relay whose receipt was lost and
  which has expired is refused for ever (`PipelineProgress.StuckOnceExpired`). Such a state arises from every
  request the relay accepts (`PipelineStuck.StuckStateArises`), and it holds its device up until a receipt made
  before the expiry still comes through (`PipelineStuck.HeldUpUntilHeard`). `PipelineProgress.AnsweredExactlyIf`
  says exactly when the oldest row is answered, and `PipelineDrains.EverythingCanArrive` that nothing else is
  in the way.
- `pause_and_wait` does not always leave the worker quiet: a resume between its swap of the flag and its getting
  the run lock undoes it (`PauseProtocol.ResumeBeforeTheLock`). `PauseProtocol.QuietExactlyIfPausedLast` is the
  exact condition: the last swap of the flag before the lock is not a resume's.
- The watch channel is a bell, not a copy of the flag: racing calls can leave the two unequal
  (`PauseProtocol.FlagAndWatchCanDisagree`). They are equal exactly if the last call to send and the last call
  to swap are of one kind (`PauseProtocol.AgreeExactlyIfOneKind`), so always when calls do not overlap between
  swap and send (`PauseProtocol.OneAtATimeAgrees`). That the last send belongs to the last change of the flag is
  enough (`PauseProtocol.LastChangeSentMeansAgree`) but not needed (`PauseProtocol.AgreeWithoutLastChange`).
- `saturating_add` stops the counters at 2^64-1 (`SenderChains.SaturatedChainStopsCounting`); the relay's
  `+= 1` wraps in a release build. Results that count are stated for fewer steps than that.
- A failed decryption does not always leave a bare `MlsClient` as it was: a member's private message that holds a
  proposal instead of application data is refused after the ratchet has moved
  (`ClientOperations.FailedOpenCanMoveTheRatchet`); `ClientOperations.FailedOpenKeepsExactlyIf` is the exact
  condition. `VaultMlsClient` always rolls back (`Persistence.TransactIsAtomic`).

## What is assumed

Libraries are values, not axioms: the record `Mls` holds SHA-256, the serde codecs and the operations of the
MLS library (RFC 9420) as functions, and `MlsTypes.Lawful` is what is asked of them: decoding undoes encoding
on every value of the Rust types, and an operation that succeeds leaves the group it used in storage as it
leaves it in memory and touches nothing else a client reads. Nothing is assumed of bytes no encoder made.
`PlainLibrary.PlainlyIsLawful` shows that this can be had, and `PlainLife.SomethingArrives` that a message can be
committed and accepted under it. SHA-256 is not assumed injective: where it matters the result is "or here is a
collision". `EndToEnd.Genuine` is sender authentication; `Completeness.OpensWhatWasSealed` is that the receiver has
joined the channel and the library opens there the message it sealed for that event, `Completeness.JoinsOnlyUnder`
that it asked for the right community, and `Completeness.NoForeignIds` that no other device has used the event's ID.
That a delivery is that message is proved. In `Pipeline` only the worker submits for the devices of this vault, as the
relay does not authenticate senders; no assumption is made on clocks. A device has at most one live client at a time:
`VaultMlsClient::load` would hand out a second one for the same vault, and a stale one could store an old
snapshot. The devices of a life are enrolled when it begins, whereas the application enrols a device on first use.

## Model

| member | source | states |
|---|---|---|
| `PipelineGuarantees.NothingLostSkippedOrReordered` | apps/desktop/src-tauri/src/outbox.rs:276-339 | In every reachable state, for every device: with j rows acknowledged the outbox is exactly everything it ever committed from the j-th on, the relay has accepted exactly the first m, and j <= m <= j+1; no submission is committed twice. Holds under crashes, faults, lost replies, late duplicates and cancelled requests |
| `PipelineGuarantees.LifeKeeps` | crates/singularis-mls/src/client.rs:776-828 | The inductive invariant behind it holds in every state of every life of the system: disk in step with memory, lanes aligned, everything on the wire due or done, every receipt backed by the log, the flush in outbox order, the relay's maps equal to its log |
| `PipelineGuarantees.ApplyKeeps` | apps/desktop/src-tauri/src/outbox.rs:250-353 | Each single action keeps that invariant |
| `PipelineGuarantees.ReloadFindsTheLastCommit` | crates/singularis-mls/src/client.rs:193-198 | Wherever the process died, loading gives the client as of its last committed step, and a client in memory is that client |
| `PipelineGuarantees.RelayCountsUp` | crates/singularis-server/src/store.rs:46-54 | What the relay has ever accepted of a device in a channel carries counters 1, 2, 3, … and, in each, the message encrypted for the event that device sent there with that counter |
| `PipelineGuarantees.PendingIsWhatIsUnacknowledged` | crates/singularis-mls/src/client.rs:734-752 | `pending_submissions` answers exactly the committed and not yet acknowledged submissions, oldest first, up to the listing's limit, and never an invalid entry |
| `PipelineProgress.AnsweredExactlyIf` | crates/singularis-server/src/store.rs:38-54 | The request the worker waits for gets a receipt if and only if it is not accepted yet and no live event has its ID, or it is accepted and still live |
| `PipelineProgress.AnsweredHeadMoves` | apps/desktop/src-tauri/src/outbox.rs:306-339 | A receipt heard with the vault open and no fault removes exactly the oldest row of its device, which stays unblocked |
| `PipelineProgress.ReceiptsPass` | apps/desktop/src-tauri/src/outbox.rs:382-387 | Every receipt the relay makes passes the worker's check, up to 2^64-1 events in the channel |
| `PipelineProgress.StuckOnceExpired` | crates/singularis-server/src/store.rs:47-54 | Once an accepted request has expired, every later answer to it is an error and no new receipt for it is ever made, whatever happens |
| `PipelineStuck.StuckStateArises` | crates/singularis-server/src/store.rs:36-54 | From every state whose flush waits for a request the relay would accept, a lost receipt and one late clock reading lead to an expired acceptance at the head of the outbox |
| `PipelineStuck.HeldUpUntilHeard` | apps/desktop/src-tauri/src/outbox.rs:276-339 | A device whose oldest row is accepted keeps that row, and the relay accepts nothing more of it, until a receipt for it is heard |
| `PipelineDrains.EverythingCanArrive` | apps/desktop/src-tauri/src/outbox.rs:250-353 | From any life that ends with the vault open and every pending submission deliverable there is a longer one that ends with an empty outbox and all that was committed accepted, per device in order |
| `PlainLife.SomethingArrives` | apps/desktop/src-tauri/src/outbox.rs:250-353 | The assumptions can be met: with a lawful library there is a life in which a message is committed, accepted and acknowledged |
| `PlainLibrary.PlainlyOpens` | crates/singularis-mls/src/client.rs:328-461 | That library opens at every member of a channel whatever it sealed for an event there |
| `PipelineClients.QueueStepKeeps` | crates/singularis-mls/src/client.rs:793-823 | Queueing, with a fault at any statement, keeps the pipeline's invariant |
| `PipelineDelivery.RelayStepKeeps` | crates/singularis-server/src/store.rs:29-86 | Serving any payload ever sent, again or late, keeps it: the relay can only take the next request due |
| `PipelineDelivery.HearStepKeeps` | apps/desktop/src-tauri/src/outbox.rs:295-339 | The end of a wait, with any reply or fault, keeps it |
| `PipelineDelivery.RowAtHand` | apps/desktop/src-tauri/src/outbox.rs:276-292 | The row a flush takes up, if its device is not blocked, is the oldest in the outbox of a device of this vault, however the outbox has changed since the listing |
| `DeliveryLanes.QueuedDiffer` | crates/singularis-mls/src/client.rs:341-366 | Because counters rise in each channel, a device never commits one submission twice |
| `EndToEnd.AcceptedIsAPrefix` | crates/singularis-mls/src/client.rs:401-461 | Over any life of a receiver and any network, what it has accepted from a device in a channel is a prefix of what that device committed there |
| `EndToEnd.SenderToReceiver` | crates/singularis-mls/src/client.rs:328-376 | Between two lives: the receiver holds the first k events sent, and its incoming chain is the sender's outgoing chain after those k |
| `Completeness.NothingMissedNothingRefused` | crates/singularis-mls/src/client.rs:386-461 | Completeness from end to end: of a device of the system, a receiver who was there from the start and whose polls missed nothing to expiry is never refused a next delivery as out of chain but takes it, unless it has its event already; it has after its k-th delivery taken at least the first k events (exactly those, if nothing came another way), and its chain is the sender's own after as many events as it has taken; other actions of the receiver may come in between. Asked of the library: at this receiver, in the channel, it opens what it sealed for the event. Asked of the receiver: whenever it creates or joins the channel, it does so under the community the device has it in. Asked of the others: none of their events the receiver knows has the ID of one of the device's |
| `Completeness.DeliveriesAreSealed` | crates/singularis-mls/src/client.rs:328-376 | The k-th delivery of the device in the channel wraps the message that was encrypted for the k-th event it sent there |
| `Completeness.FairIsHonest` | crates/singularis-mls/src/client.rs:386-461 | So every delivery opens to the event of its counter, and an event ID counts as seen only where that event was taken |
| `Completeness.ReaderReceivesAll` | crates/singularis-server/src/store.rs:88-104 | A cursor reader that misses nothing to expiry receives a device's acceptances in the channel in order, up to its last poll |
| `Completeness.LifeIsASession` | crates/singularis-server/src/store.rs:88-104 | Every life of the system, with any choice of its polls as the reader's, is a cursor reader's session on its relay |
| `ReceiverRuns.ReceiverKeepsUp` | crates/singularis-mls/src/client.rs:842-868 | Going through deliveries that carry counters 1, 2, 3, … and open to their events, a receiver has at every moment taken as many as it has been through |
| `EndToEnd.OutOfChainOnlyAfterAMiss` | crates/singularis-mls/src/client.rs:386-461 | A delivery is refused as out of chain exactly if it is readable, not the next one of its sender, and its ID is new |
| `EndToEnd.EqualChainsMeanEqualHistories` | crates/singularis-mls/src/client.rs:842-868 | Two receivers with the same counter and hash for a device have accepted the same events from it, however it equivocated, or they hold a SHA-256 collision at some position |
| `EndToEnd.SentEventArrives` | crates/singularis-mls/src/client.rs:401-461 | One event's round trip: encrypted, wrapped, delivered under any receipt for it and opened as sealed, it is the event sent, and only the chain check decides whether it is taken |
| `SenderChains.SameChainSameHistory` | crates/singularis-mls/src/event.rs:74-90 | Two chained event sequences that end in one chain state are equal or collide |
| `SenderChains.AcceptsExactlyTheNext` | crates/singularis-mls/src/client.rs:842-868 | Of the events a device committed, a receiver takes exactly the one after those it has, as long as its ID is new; earlier ones are replays |
| `SenderChains.ContinuingExtends` | crates/singularis-mls/src/client.rs:846-855 | The check on counter and previous hash is, below saturation, the same as extending a valid chain |
| `SenderChains.SaturatedChainStopsCounting` | crates/singularis-mls/src/client.rs:341-344 | At 2^64-1 the event asked for repeats the counter and extends no valid chain |
| `MemberRuns.RunIsConsistent` | crates/singularis-mls/src/client.rs:345-366 | Over any life shorter than 2^64-1 actions every channel's chains are those of its history, and its seen IDs number the outgoing counter plus all incoming counters |
| `MemberRuns.ReceiveConserves` | crates/singularis-mls/src/client.rs:842-868 | Receiving keeps it if and only if the sender's counter is not saturated |
| `MemberRuns.TransactIsAnAction` | crates/singularis-mls/src/client.rs:776-791 | `transact` on a vault, with whatever fails, is one step of such a life and stays in step with the disk |
| `MemberRuns.QueueIsAnAction` | crates/singularis-mls/src/client.rs:793-823 | So is `queue_outgoing` |
| `Persistence.TransactIsAtomic` | crates/singularis-mls/src/client.rs:776-791 | On success memory and snapshot have moved together; on any error memory and disk are what they were; archive and outbox are never touched |
| `Persistence.QueueIsAtomic` | crates/singularis-mls/src/client.rs:793-823 | On success ratchet, snapshot, archive row and one new last outbox row moved together; on any error nothing moved |
| `Persistence.FreshSnapshotIsNew` | crates/singularis-vault/src/vault.rs:279-296 | A freshly encrypted message never passes for a replay of a stored row |
| `Persistence.ReloadRecovers` | crates/singularis-mls/src/client.rs:193-198 | Loading what is on disk gives back the client in step with it |
| `Persistence.ComposedTextContinuesTheChain` | crates/singularis-mls/src/client.rs:299-326 | A text the client composes itself is refused as out of chain only for an event ID already used, and never for its context |
| `QueueAnswers.TextExactlyIf` | crates/singularis-mls/src/client.rs:299-326 | A drafted text is encrypted if and only if an event with the draft's body, references, time and ID, the channel's community, this device and the chain's next counter and hash can be sent and is sealed |
| `QueueAnswers.QueuedTextIsTheDraft` | crates/singularis-mls/src/client.rs:299-326 | What a queued text adds to what its channel has sent is one event with exactly those fields, and the submission wraps that event with the TTL asked for; no other channel's past changes |
| `QueueAnswers.TransactExactlyIf` | crates/singularis-mls/src/client.rs:776-791 | `transact` succeeds if and only if the operation does, the new snapshot fits, and the vault is open and does not fail |
| `QueueAnswers.TransactFailsFor` | crates/singularis-mls/src/client.rs:776-791 | Its error is the operation's, or says why the snapshot was not stored |
| `QueueAnswers.QueueExactlyIf` | crates/singularis-mls/src/client.rs:793-823 | `queue_outgoing` succeeds if and only if the draft is encrypted, message, snapshot and payload fit, the event is not pending, the message for the archive is a good new one, and the vault is open and does not fail |
| `QueueAnswers.QueueFailsFor` | crates/singularis-mls/src/client.rs:793-823 | Its error is that of the first step that failed |
| `QueueAnswers.LoadsExactlyIf` | crates/singularis-mls/src/client.rs:193-198 | Loading answers a client if and only if the vault can be read and the stored snapshot decodes to it, and none if and only if none is stored |
| `ClientOperations.OperateKeepsLoadable` | crates/singularis-mls/src/client.rs:401-461 | Creating a channel, joining one and decrypting leave, when they succeed, a client its own storage can be loaded back from |
| `ClientAnswers.EncryptExactlyIf` | crates/singularis-mls/src/client.rs:328-376 | An event is encrypted if and only if it is well made and fits, it is this device's, its channel is joined under its community, counter and previous hash continue the outgoing chain, its ID is unseen and the library seals it; what then has changed, field by field, and that a refused event changes nothing |
| `ClientAnswers.ExactlyTheNextIsSealed` | crates/singularis-mls/src/client.rs:328-376 | For a client that remembers its past, below saturation: of well-made events the next one of its chain can be sealed, under an ID that occurs nowhere in the channel's past, and no other |
| `ClientAnswers.OpenExactlyIf` | crates/singularis-mls/src/client.rs:401-461 | A message is taken as an event if and only if it can be opened, the library opens it to this event of a member who is its device, authenticated data and envelope agree, its ID is unseen and it is the next of its sender's chain; then only the sender's chain, the seen IDs and the ratchet have moved |
| `ClientAnswers.RefusedAsReplayOrGap` | crates/singularis-mls/src/client.rs:842-868 | `ReplayDetected` is answered exactly for a seen ID, `InvalidSenderChain` exactly for an unseen one that is not next |
| `ClientAnswers.UnprocessedIsRejected` | crates/singularis-mls/src/client.rs:432-446 | What the library cannot process is answered `MessageRejected`, or `StateStorage` if the group cannot be read again |
| `ClientAnswers.OtherGroupIsRefused` | crates/singularis-mls/src/client.rs:424-429 | A message of another group is refused before the library sees it, with the client unchanged |
| `ClientAnswers.JoinExactlyIf` | crates/singularis-mls/src/client.rs:264-297 | Joining succeeds if and only if the channel is new, the welcome has 1 to 393216 bytes and the library admits to a group of that ID; then the channel is there under the community asked for, with that group and no past, and no other has changed; which error otherwise |
| `ClientAnswers.CreateExactlyIf` | crates/singularis-mls/src/client.rs:215-239 | Likewise for creating a channel |
| `MemberRuns.PerformKeepsCommunity` | crates/singularis-mls/src/client.rs:215-297 | A channel stays in the community it was created or joined under, whatever is done |
| `ClientOperations.AcceptedIsBound` | crates/singularis-mls/src/client.rs:884-917 | Whatever is accepted comes from a member whose credential is the event's device, with authenticated data naming this event and an envelope that agrees with it, in its own channel and community, under a new ID |
| `ClientOperations.FailedOpenKeepsExactlyIf` | crates/singularis-mls/src/client.rs:401-461 | A failed decryption leaves a bare client as it was if and only if it was refused before the library saw it, or the library moved neither storage nor group (the group as read again from storage where the code reads it again) |
| `ClientOperations.FailedOpenCanMoveTheRatchet` | crates/singularis-mls/src/client.rs:432-446 | Under all the laws assumed of the library, a member's private message that is no application message is refused, and the client is not as it was |
| `ClientOperations.AlteredEnvelopeConsumesNothing` | crates/singularis-mls/src/client.rs:907-917 | An envelope that disagrees with the authenticated data is refused with the client unchanged |
| `ClientLifecycle.EnrollStartsInStep` | crates/singularis-mls/src/client.rs:623-633 | A new client is on disk exactly if `create` succeeds, which it does only where no client was stored; no other snapshot changes |
| `ClientLifecycle.EnrollExactlyIf` | crates/singularis-mls/src/client.rs:623-633 | `create` succeeds if and only if the vault is open and does not fail, no client of the device is stored, and one could be made whose snapshot fits |
| `ClientLifecycle.Create` | crates/singularis-mls/src/client.rs:623-633 | The method does what the function says, also when the new client cannot be made, and returns a valid persistent client |
| `ClientLifecycle.LoadFromVault` | crates/singularis-mls/src/client.rs:193-198 | Loading answers the decoded snapshot, none, or the error |
| `ClientLifecycle.ListPending` | crates/singularis-mls/src/client.rs:734-752 | The collecting loop answers all submissions or the first failure |
| `ClientLifecycle.RowsReadBack` | crates/singularis-mls/src/client.rs:734-752 | Rows made from a device's submissions read back as those submissions |
| `ClientLifecycle.PendingExactlyIf` | crates/singularis-mls/src/client.rs:734-752 | Submissions are listed if and only if the vault can be read and every row listed holds the canonical form of one of the device's, under its event ID |
| `Snapshot.SnapshotRoundTrip` | crates/singularis-mls/src/client.rs:463-619 | Decoding an encoded snapshot of any loadable client gives that client |
| `Snapshot.SnapshotDeterminesClient` | crates/singularis-mls/src/client.rs:463-521 | Two loadable clients with one encoding are one client |
| `SnapshotAnswers.DecodesExactlyIf` | crates/singularis-mls/src/client.rs:523-619 | Bytes are accepted as a client if and only if they are a snapshot of version 1 of this device within 16 MiB, whose lists name no key, sender, event or channel twice and no empty value or counter 0, and whose signer and groups the library finds |
| `Sorting.AscendingIsCanonical` | crates/singularis-mls/src/client.rs:463-506 | A set of distinct keys has one ascending sequence, so hash-map order cannot show |
| `Sorting.CollectSorted` | crates/singularis-mls/src/client.rs:463-506 | Collecting in arbitrary order and sorting yields that sequence |
| `MlsClients.MlsClient.EncryptEvent` | crates/singularis-mls/src/client.rs:328-376 | The method's new state and answer are those of the specification, also on failure; what that specification means is `ClientAnswers.EncryptExactlyIf` |
| `MlsClients.MlsClient.DecryptEventWithDelivery` | crates/singularis-mls/src/client.rs:401-461 | Likewise, including the ratchet a failed check leaves advanced |
| `MlsClients.MlsClient.ValidateAndRecordIncoming` | crates/singularis-mls/src/client.rs:842-868 | Likewise for the chain check and its two updates |
| `MlsClients.MlsClient.CreateOrJoin` | crates/singularis-mls/src/client.rs:215-297 | Likewise for creating and joining a channel (`ClientAnswers.CreateExactlyIf`, `ClientAnswers.JoinExactlyIf`) |
| `MlsClients.MlsClient.EncryptDraftEvent` | crates/singularis-mls/src/client.rs:299-326 | Likewise for a text the client composes (`QueueAnswers.QueuedTextIsTheDraft`) |
| `MlsClients.MlsClient.Encode` | crates/singularis-mls/src/client.rs:463-521 | The loops over hash maps compute the one canonical encoding |
| `MlsClients.Decode` | crates/singularis-mls/src/client.rs:523-619 | The loops that rebuild the maps compute the specified decoding, duplicates refused |
| `MlsClients.ReadInto` | crates/singularis-mls/src/client.rs:542-552 | Inserting entry by entry builds the map, or fails at the first bad or repeated key |
| `MlsClients.VaultMlsClient.TransactOperation` | crates/singularis-mls/src/client.rs:776-791 | The method equals the specified transaction and keeps memory and disk in step |
| `MlsClients.VaultMlsClient.QueueDraft` | crates/singularis-mls/src/client.rs:793-823 | Likewise for queueing |
| `MlsClients.VaultMlsClient.Restore` | crates/singularis-mls/src/client.rs:825-828 | Replaces the client by the decoded one, or keeps it and answers the error |
| `VaultStore.AllOrNothing` | crates/singularis-vault/src/vault.rs:264-341 | Message, snapshot and outbox row appear together or not at all, and success without a change happens only where all were there; when it succeeds is `QueueAnswers.NewEventCommitsExactlyIf` |
| `QueueAnswers.NewEventCommitsExactlyIf` | crates/singularis-vault/src/vault.rs:264-341 | A transaction for an event that is not pending commits if and only if its inputs are good, the vault is open, no statement fails and the message, if any, has a new ID and fits its column; then the archive has that message more and no other change, no other device's snapshot has changed, and the row is the last; which error otherwise |
| `QueueAnswers.SnapshotStoredExactlyIf` | crates/singularis-vault/src/vault.rs:227-238 | When a snapshot is stored, what then has changed, and which error otherwise |
| `QueueAnswers.SnapshotLoadedExactlyIf` | crates/singularis-vault/src/vault.rs:394-412 | When a snapshot can be read, and which error otherwise |
| `QueueAnswers.ListingIsTheFirstThousand` | crates/singularis-vault/src/vault.rs:343-383 | Both listings are the first thousand rows, or all if there are no more |
| `VaultStore.ReplayWhilePending` | crates/singularis-vault/src/vault.rs:279-327 | While its row is pending, a transaction for an event ID changes nothing and succeeds if and only if device and payload are the row's, the snapshot is current and the message, if any, is archived as given |
| `VaultStore.ImmediateReplayIsIdempotent` | crates/singularis-vault/src/vault.rs:264-341 | Repeating a transaction that just succeeded changes nothing and answers the same |
| `VaultStore.ReplayMayNameAnotherArchivedMessage` | crates/singularis-vault/src/vault.rs:297-323 | A replay naming a different message that is already archived is accepted |
| `VaultStore.TransactionIsSound` | crates/singularis-vault/src/vault.rs:492-502 | Whatever fails, keys stay unique, rowids ascending and every outbox row's device has a snapshot |
| `VaultStore.AcknowledgeRemovesThatRow` | crates/singularis-vault/src/vault.rs:385-392 | An acknowledgement takes out the row it names, no other, leaves the rest in commit order, and changes nothing else |
| `VaultStore.Vault.StoreMlsTransaction` | crates/singularis-vault/src/vault.rs:264-341 | The statement-by-statement transaction leaves and answers what the specification says, with a failure at any statement; what that means is `QueueAnswers.NewEventCommitsExactlyIf` |
| `VaultStore.Vault.StoreMlsClientSnapshot` | crates/singularis-vault/src/vault.rs:227-238 | Inserts or replaces one snapshot, or changes nothing |
| `VaultStore.Vault.LoadMlsClientSnapshot` | crates/singularis-vault/src/vault.rs:394-412 | Answers the stored snapshot and never `CorruptState` on a sound database |
| `VaultStore.Vault.ListAllMlsOutbox` | crates/singularis-vault/src/vault.rs:365-383 | Answers the first thousand rows in rowid order; its validation never fails on a sound database |
| `VaultStore.Vault.ListMlsOutbox` | crates/singularis-vault/src/vault.rs:343-363 | Likewise for one device |
| `VaultStore.Vault.AcknowledgeMlsOutbox` | crates/singularis-vault/src/vault.rs:385-392 | Deletes the named row and says whether it was there; on error nothing changes |
| `DeviceQueues.AcknowledgeHead` | crates/singularis-vault/src/vault.rs:385-392 | Acknowledging a device's oldest row leaves it the rest and every other device all it had |
| `DeviceQueues.CommitAppends` | crates/singularis-vault/src/vault.rs:335-339 | A commit is listed last for its device and changes no other device's listing |
| `Identifiers.UuidTextIsAKey` | crates/singularis-vault/src/vault.rs:799-809 | Every UUID's text passes the vault's check on keys, and distinct UUIDs have distinct texts |
| `SearchQuery.PrintedQueryReadsBack` | crates/singularis-vault/src/vault.rs:811-820 | A reader of quoted strings, `*` and `AND` reads the printed query back as the query's words, and a query is refused exactly if it is blank |
| `SearchQuery.ReadJoined` | crates/singularis-vault/src/vault.rs:811-820 | So for any terms, whatever quotes, stars or keywords they contain |
| `SearchQuery.SetApartTermsAreUnique` | crates/singularis-vault/src/vault.rs:812-813 | A query can be cut into whitespace-separated words in at most one way |
| `SearchQuery.TermsAreSetApart` | crates/singularis-vault/src/vault.rs:812-813 | And the splitter's words are such a cut |
| `Text.WhitespaceExactly` | crates/singularis-vault/src/vault.rs:812-813 | White space is the 25 characters with Unicode's White_Space property |
| `OutboxWorker.Worker.FlushNow` | apps/desktop/src-tauri/src/outbox.rs:250-353 | The flush loop leaves the vault and reports the status the specification says, whatever other threads do to the vault between any two of its own uses of it |
| `OutboxWorker.Worker.HandleReply` | apps/desktop/src-tauri/src/outbox.rs:295-339 | Receipt check, acknowledgement and blocking as specified; what that means is `FlushGuarantees.WhatBecomesOfTheRow` |
| `OutboxWorker.StoppedStays` | apps/desktop/src-tauri/src/outbox.rs:276-284 | After a `break` the rest of the list is left alone |
| `FlushGuarantees.LoopIsOnCourse` | apps/desktop/src-tauri/src/outbox.rs:276-339 | At every point of the loop each device's queue is what it was without its acknowledged rows, which led it, and with what others queued; no row was tried before its device's earlier rows were acknowledged, and the report counts each row once |
| `FlushGuarantees.FlushTakesTheAcknowledged` | apps/desktop/src-tauri/src/outbox.rs:250-353 | A flush takes from each device's queue exactly as many rows as it acknowledged, oldest first and only listed ones; what remains is the rest unchanged and in order, and behind it exactly what other threads queued meanwhile; a flush that does not list changes nothing |
| `FlushGuarantees.NothingAfterAFailure` | apps/desktop/src-tauri/src/outbox.rs:276-279 | Nothing of a device is submitted after its first row that was not acknowledged |
| `FlushGuarantees.ReportAddsUp` | apps/desktop/src-tauri/src/outbox.rs:272-339 | acknowledged <= attempted <= listed, and acknowledged + failed <= listed |
| `FlushGuarantees.IdleMeans` | apps/desktop/src-tauri/src/outbox.rs:341-350 | Exactly when `Idle` is reported, when `Paused`, what `pending` counts, and that an error is reported exactly if a row failed |
| `FlushGuarantees.IdleCanHideARow` | apps/desktop/src-tauri/src/outbox.rs:341-343 | `Idle` with a row in the outbox, when the last listing fails |
| `FlushGuarantees.AllAcknowledged` | apps/desktop/src-tauri/src/outbox.rs:276-339 | Every listed row is acknowledged if and only if in every turn the flag is up, the row holds the canonical form of a submission under its IDs, the receipt names that event and channel with a positive sequence and a lifetime, and the vault is open and does not fail when it is recorded |
| `FlushGuarantees.WhatBecomesOfTheRow` | apps/desktop/src-tauri/src/outbox.rs:276-339 | For every way a row's turn can go: only a receipt with the row's event and channel, a positive sequence and an expiry after its acceptance, recorded by an open vault, takes the row out and counts it; any other receipt leaves the outbox as it was, blocks the device and is reported as `InvalidRelayReceipt` if it is the first error; likewise for invalid rows, errors, cancellation, a locked and a failing vault |
| `FlushGuarantees.WithoutAListing` | apps/desktop/src-tauri/src/outbox.rs:250-270 | A flush that does not get past its listing leaves the vault alone and reports why |
| `PauseProtocol.QuietExactlyIfPausedLast` | apps/desktop/src-tauri/src/outbox.rs:223-234 | When `pause_and_wait` gets the run lock, then in every continuation up to the next resume nothing is in flight and nothing is sent, answered or acknowledged, if and only if the last swap of the flag was not a resume's |
| `PauseProtocol.ResumeBeforeTheLock` | apps/desktop/src-tauri/src/outbox.rs:212-234 | A run in which a resume comes between a pause's swap and its getting the lock, and a request is sent after the lock without another resume |
| `PauseProtocol.AtMostTheRowAtHand` | apps/desktop/src-tauri/src/outbox.rs:276-304 | Once the flag falls at most one row is acknowledged before the next resume, and only one whose check had passed |
| `PauseProtocol.PauseIsNeverMissed` | apps/desktop/src-tauri/src/outbox.rs:271-304 | A request that waits with the flag down can be cancelled, or a pause under way is about to make it so |
| `PauseProtocol.PauseStaysNoticed` | apps/desktop/src-tauri/src/outbox.rs:295-304 | From then on the request can be cancelled until it has ended, even if a resume follows |
| `PausedFlush.FlushIsARun` | apps/desktop/src-tauri/src/outbox.rs:250-353 | Among any steps of other threads, a flush takes the protocol's steps, turn by turn, and the rows the protocol counts as acknowledged are those the flush reports |
| `PausedFlush.FallingFlagStopsTheFlush` | apps/desktop/src-tauri/src/outbox.rs:276-339 | If the flag falls during a flush and no resume follows, the flush acknowledges at most one row more, and none unless it had passed its check with that row |
| `PausedFlush.FlushWhilePaused` | apps/desktop/src-tauri/src/outbox.rs:250-256 | A flush that begins after the flag has fallen and before the next resume leaves the vault as it is and reports `Paused` |
| `PauseProtocol.AgreeExactlyIfOneKind` | apps/desktop/src-tauri/src/outbox.rs:212-229 | The watched value equals the flag if and only if the last send and the last swap were of one kind |
| `PauseProtocol.LastChangeSentMeansAgree` | apps/desktop/src-tauri/src/outbox.rs:212-229 | They are equal whenever the last send belongs to the last swap that changed the flag |
| `PauseProtocol.OneAtATimeAgrees` | apps/desktop/src-tauri/src/outbox.rs:212-229 | Calls that do not overlap between swap and send leave them equal whenever no send is owed |
| `PauseProtocol.FlagAndWatchCanDisagree` | apps/desktop/src-tauri/src/outbox.rs:212-229 | A run after which the flag is down and the watched value up |
| `PauseProtocol.AgreeWithoutLastChange` | apps/desktop/src-tauri/src/outbox.rs:212-229 | A run after which they are equal although the last send belongs to an earlier change |
| `RelayStore.InMemoryEventStore.AcceptEvent` | crates/singularis-server/src/store.rs:29-86 | The in-place updates of the four maps equal the specification |
| `RelayStore.InMemoryEventStore.List` | crates/singularis-server/src/store.rs:88-104 | Likewise for polls |
| `RelayStore.InMemoryEventStore.Prune` | crates/singularis-server/src/store.rs:107-116 | Likewise for pruning |
| `RelayHistory.AcceptRefines` | crates/singularis-server/src/store.rs:29-86 | One call keeps the maps equal to the acceptance log, and answers Ok exactly if a live acceptance is of this very request, with its receipt |
| `RelayHistory.ListRefines` | crates/singularis-server/src/store.rs:88-104 | A poll returns the channel's live acceptances past the cursor |
| `RelayHistory.PruneRefines` | crates/singularis-server/src/store.rs:107-116 | Pruning at any clock reading keeps maps and log in agreement; expiry is "some later call read a clock at or past it" |
| `RelayLifetime.RunRefines` | crates/singularis-server/src/store.rs:29-116 | After any calls with any clock the four maps are that log and nothing else |
| `RelayLifetime.SequencedAtMostOnce` | crates/singularis-server/src/store.rs:46-62 | No request is accepted twice in a relay's life, counters per channel and device strictly rise, acceptances are never taken back |
| `RelayLifetime.ChannelIsNumberedInOrder` | crates/singularis-server/src/store.rs:57-62 | The k-th acceptance in a channel has number k, also after pruning |
| `RelayLifetime.NumbersRise` | crates/singularis-server/src/store.rs:57-62 | Later acceptances in a channel have higher numbers |
| `RelayLifetime.ResubmissionSucceedsExactlyWhileLive` | crates/singularis-server/src/store.rs:35-70 | A resubmission succeeds if and only if the acceptance is live, then with the original receipt; only expired data leaves the maps; the expiry is fixed at acceptance and lies 300 to 604800 seconds after it |
| `RelayLifetime.PollReturnsExactlyTheLive` | crates/singularis-server/src/store.rs:88-104 | A poll hands out an event, with the receipt and the fields of its acceptance, if and only if it is accepted in the channel, past the cursor, and neither this poll nor any call since its acceptance has read a clock at or past its expiry |
| `RelayLifetime.AnsweredByHolder` | crates/singularis-server/src/store.rs:36-45 | While an acceptance of its event ID has not expired, a submission gets that acceptance's receipt if it is the same request, and a conflict otherwise; nothing is accepted |
| `RelayLifetime.RefusedForItsCounter` | crates/singularis-server/src/store.rs:46-54 | Else a counter its sender has reached in the channel is refused, with the highest counter accepted |
| `RelayLifetime.AcceptedAsNext` | crates/singularis-server/src/store.rs:56-83 | Anything else is accepted, with the next number of its channel, this call's time and the shorter of the two lifetimes |
| `CursorReader.SessionIsSound` | crates/singularis-server/src/store.rs:88-104 | What a cursor reader has received is the acceptances one of its polls found live, in order, and its cursor is the last number it saw |
| `CursorReader.ReaderMissesOnlyTheExpired` | crates/singularis-server/src/store.rs:88-104 | It receives strictly increasing numbers, and an event if and only if it was live at its first poll after the acceptance |
| `Base64Url.WireFormIsCanonical` | crates/singularis-protocol/src/event.rs:38-75 | `from_encoded` accepts exactly the encodings of 1 to 262144 bytes, one text per message (sections 3.2, 3.5 and 5 of RFC 4648) |
| `Base64Url.MessageRoundTrip` | crates/singularis-protocol/src/event.rs:38-52 | `from_bytes` then `decode` is the identity, and `from_bytes` is injective |
| `Base64Url.DecodeEncode` | crates/singularis-protocol/src/event.rs:48-52 | Decoding an encoding gives the bytes back with a strict or a lenient decoder |
| `Base64Url.TestVectors` | crates/singularis-protocol/src/event.rs:38-46 | The encoder meets test vectors of section 10 of RFC 4648 |
| `Base64Url.LenientDecoderIsHarmless` | crates/singularis-protocol/src/event.rs:59-75 | A decoder that ignores trailing bits accepts the same texts |
| `Base64Url.CapAdmitsEveryEncoding` | crates/singularis-protocol/src/event.rs:9-10 | The cap on characters rejects no legitimate encoding |
| `SubmitReader.ReadsExactlyTheCanonical` | crates/singularis-protocol/src/event.rs:107-117 | A reader that goes field by field through the checks of the Rust types reads a text as a submission if and only if it is that submission's canonical text |
| `SubmitReader.CanonicalCodecIsFaithful` | apps/desktop/src-tauri/src/outbox.rs:366-380 | Printer and reader are a faithful codec, as the other modules ask for submissions |
| `SubmitReader.FlushWithAnyParser` | apps/desktop/src-tauri/src/outbox.rs:366-380 | Whatever other texts serde's parser reads as submissions, if it reads back what serde prints, a flush does and reports the same as with this reader |
| `SubmitJson.FitsEverywhere` | crates/singularis-server/src/api.rs:21 | Every canonical submission fits the 384 KiB of the relay's body limit and of the vault's outbox column |
| `RelayStore.LifetimeIsWithinPolicy` | crates/singularis-server/src/store.rs:56-64 | An event submitted with any TTL the protocol admits lives that many seconds or the instance's limit, whichever is less, and so 300 to 604800 seconds |

## Left out

- The insides of the MLS library (key packages, Welcome and commit processing, ratchet trees, signatures): only its effect on storage and its answers appear, as functions with the laws of `MlsTypes.Lawful`.
- `publish_key_package` and `add_member`: they go through the same `transact`; the first changes the MLS library's storage, the second also the group in memory.
- `acknowledge_submission`: not called by the application; in `Pipeline` only the worker acknowledges.
- SQLCipher, PRAGMAs, the full-text tokenizer and triggers, file permissions, fsync and directories; a SQLite commit is atomic. Rowids do not wrap.
- Schema migrations, vault initialisation, passphrases and the key header: lock and unlock are one flag.
- `store_message`, `list_messages` and the execution of searches: single statements on the archive.
- HTTP routing, CORS, the HTTP client, chunked reading, URL checks and configuration: a request has a reply, an error or no answer.
- Audio, video and user interface state, and the Tauri command wrappers.
- Error texts and codes, zeroisation and memory hygiene.
- A restart of the relay: it is volatile and its guarantees cover one process.
- Starvation of devices behind the thousand-row listing limit, retry intervals and timeouts.
- RowAtHand: says nothing of rows past the listing limit of one flush; they wait for the next.
- LifeKeeps: assumes fewer than 2^64-1 actions, because the counters saturate.
- ReadsExactlyTheCanonical: serde also parses other JSON texts of a submission; the worker refuses those by comparing with the canonical text, and `SubmitReader.FlushWithAnyParser` shows that this makes them irrelevant to a flush.
- CanonicalCodecIsFaithful: is about this reader; of serde's own parser it is assumed that it reads back what serde prints.
