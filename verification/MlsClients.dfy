/** The client objects (crates/singularis-mls/src/client.rs), against the functions on values. */
module MlsClients {
  import opened Wrappers
  import opened Protocol
  import opened MlsTypes
  import opened Snapshot
  import opened Sorting
  import opened VaultStore
  import opened Identifiers
  import opened ClientOperations
  import opened Persistence
  import Base64Url

  class MlsClient {
    const mls: Mls
    const deviceId: Uuid
    const signer: Signer
    var provider: Provider
    var channels: map<Uuid, ChannelState>

    function State(): Client
      reads this
    {
      Client(deviceId, provider, signer, channels)
    }

    constructor (mls: Mls, value: Client)
      ensures State() == value && this.mls == mls
    {
      this.mls, deviceId, signer := mls, value.deviceId, value.signer;
      provider, channels := value.provider, value.channels;
    }

    method EncryptEvent(event: PlaintextEvent) returns (r: Result<EncryptedEvent, MlsError>)
      modifies this
      ensures (State(), r) == Encrypt(mls, old(State()), event)
    {
      if !ValidEvent(event) {
        return Err(InvalidPayload);
      }
      if event.senderDeviceId != deviceId {
        return Err(ContextMismatch);
      }
      if event.channelId !in channels {
        return Err(UnknownChannel);
      }
      var state := channels[event.channelId];
      if event.communityId != state.communityId {
        return Err(ContextMismatch);
      }
      var (expectedCounter, expectedPrevious) := NextLink(state.outgoingChain);
      if event.senderCounter != expectedCounter || event.previousEventHash != expectedPrevious
         || event.eventId in state.seenEventIds {
        return Err(InvalidSenderChain);
      }
      var encoded := EncodeEvent(mls, event);
      if encoded.Err? {
        return Err(InvalidPayload);
      }
      var eventHash := mls.sha256(encoded.value);
      var aad := mls.metadataJson.encode(MetadataOf(event));
      var sealed := mls.create(provider, signer, state.group, aad, encoded.value);
      provider := sealed.provider;
      state := state.(group := sealed.group);
      channels := channels[event.channelId := state];
      if sealed.outcome.Rejected? {
        return Err(MessageRejected);
      }
      if sealed.outcome.Unencodable? {
        return Err(MessageEncoding);
      }
      state := state.(outgoingChain := Some(SenderChain(event.senderCounter, eventHash)));
      state := state.(seenEventIds := state.seenEventIds + {event.eventId});
      channels := channels[event.channelId := state];
      assert channels == old(channels)[event.channelId := state];
      r := Ok(EncryptedEvent(event.eventId, event.communityId, event.channelId, event.senderDeviceId,
                             event.senderCounter, sealed.outcome.message));
    }

    method DecryptEventWithDelivery(channel: Uuid, message: Bytes, delivered: Option<DeliveredEvent>)
      returns (r: Result<PlaintextEvent, MlsError>)
      modifies this
      ensures (State(), r) == Open(mls, old(State()), channel, message, delivered)
    {
      var objection := OpenObjection(mls, State(), channel, message, delivered);
      if objection.Some? {
        return Err(objection.value);
      }
      var state := channels[channel];
      var processed := mls.process(provider, state.group, message);
      provider := processed.provider;
      if processed.content.None? {
        var reloaded := mls.load(provider, channel);
        if reloaded.None? {
          channels := channels[channel := state.(group := processed.group)];
          return Err(StateStorage);
        }
        channels := channels[channel := state.(group := reloaded.value)];
        return Err(MessageRejected);
      }
      state := state.(group := processed.group);
      channels := channels[channel := state];
      var read := ReadContent(mls, state.communityId, channel, processed.content.value, delivered);
      if read.Err? {
        return Err(read.error);
      }
      var recorded := ValidateAndRecordIncoming(channel, read.value);
      assert channels == old(channels)[channel := channels[channel]];
      if recorded.Err? {
        return Err(recorded.error);
      }
      r := Ok(read.value);
    }

    method ValidateAndRecordIncoming(channel: Uuid, event: PlaintextEvent) returns (r: Result<(), MlsError>)
      requires channel in channels
      modifies this`channels
      ensures var recorded := RecordIncoming(mls, old(channels[channel]), event);
              && (recorded.Ok? ==> r == Ok(()) && channels == old(channels)[channel := recorded.value])
              && (recorded.Err? ==> r == Err(recorded.error) && channels == old(channels))
    {
      var state := channels[channel];
      if event.eventId in state.seenEventIds {
        return Err(ReplayDetected);
      }
      var (expectedCounter, expectedPrevious) := NextLink(IncomingChain(state, event.senderDeviceId));
      if event.senderCounter != expectedCounter || event.previousEventHash != expectedPrevious {
        return Err(InvalidSenderChain);
      }
      var encoded := EncodeEvent(mls, event);
      if encoded.Err? {
        return Err(encoded.error);
      }
      var chain := SenderChain(event.senderCounter, mls.sha256(encoded.value));
      state := state.(incomingChains := state.incomingChains[event.senderDeviceId := chain]);
      state := state.(seenEventIds := state.seenEventIds + {event.eventId});
      channels := channels[channel := state];
      r := Ok(());
    }

    method CreateOrJoin(op: Operation) returns (r: Result<(), MlsError>)
      requires op.CreateChannel? || op.JoinChannel?
      modifies this
      ensures (State(), r) == if op.CreateChannel? then Create(mls, old(State()), op.communityId, op.channelId)
                              else Join(mls, old(State()), op.communityId, op.channelId, op.welcome)
    {
      if op.channelId in channels {
        return Err(ChannelAlreadyJoined);
      }
      var admission;
      if op.CreateChannel? {
        admission := mls.found(provider, signer, op.channelId);
      } else {
        if op.welcome == [] || |op.welcome| > MAX_WELCOME_BYTES {
          return Err(InvalidWelcome);
        }
        admission := mls.welcome(provider, op.welcome);
      }
      provider := admission.provider;
      if admission.group.None? {
        return Err(if op.CreateChannel? then StateStorage else InvalidWelcome);
      }
      if op.JoinChannel? && admission.groupId != Some(op.channelId) {
        return Err(ContextMismatch);
      }
      channels := channels[op.channelId := NewChannel(op.communityId, admission.group.value)];
      r := Ok(());
    }

    method Perform(op: Operation) returns (r: Result<Option<PlaintextEvent>, MlsError>)
      modifies this
      ensures (State(), r) == Operate(mls, old(State()), op)
    {
      match op {
        case CreateChannel(_, _) =>
          var done := CreateOrJoin(op);
          r := Done(done);
        case JoinChannel(_, _, _) =>
          var done := CreateOrJoin(op);
          r := Done(done);
        case Decrypt(channel, message) =>
          var event := DecryptEventWithDelivery(channel, message, None);
          r := Received(event);
        case DecryptDelivered(delivered) =>
          var message := Base64Url.DecodeMessage(delivered.mlsMessage, true);
          if message.Err? {
            return Err(MessageRejected);
          }
          var event := DecryptEventWithDelivery(delivered.receipt.channelId, message.value, Some(delivered));
          r := Received(event);
      }
    }

    method EncryptDraftEvent(draft: Draft) returns (r: Result<EncryptedEvent, MlsError>)
      modifies this
      ensures (State(), r) == EncryptDraft(mls, old(State()), draft)
    {
      var event := EventOf(State(), draft);
      if event.None? {
        return Err(UnknownChannel);
      }
      r := EncryptEvent(event.value);
    }

    method EncodeChannel(id: Uuid, state: ChannelState) returns (snapshot: ChannelSnapshot)
      ensures snapshot == SnapshotChannel(id, state)
    {
      IncomingOrder(state.incomingChains);
      SeenOrder(state.seenEventIds);
      var incoming := CollectSorted(IncomingItems(state.incomingChains), BySender);
      var seen := CollectSorted(state.seenEventIds, ByEventId);
      snapshot := ChannelSnapshot(state.communityId, id, state.outgoingChain, incoming, seen);
    }

    /** The hash maps are walked in whatever order; the bytes are those of the canonical snapshot. */
    method Encode() returns (r: Result<Bytes, MlsError>)
      ensures r == EncodeSnapshot(mls, State())
    {
      hide SnapshotChannel;
      ProviderOrder(provider);
      var values := CollectSorted(ProviderItems(provider), ByKey);
      var snapshots: set<ChannelSnapshot>, remaining := {}, channels.Keys;
      while remaining != {}
        invariant remaining <= channels.Keys
        invariant snapshots == set id | id in channels.Keys - remaining :: SnapshotChannel(id, channels[id])
        decreases remaining
      {
        var id :| id in remaining;
        var snapshot := EncodeChannel(id, channels[id]);
        snapshots, remaining := snapshots + {snapshot}, remaining - {id};
      }
      assert snapshots == ChannelItems(channels);
      ChannelOrder(channels);
      var ordered := CollectSorted(snapshots, ByChannel);
      var encoded := mls.snapshotJson.encode(
        ClientSnapshot(CLIENT_SNAPSHOT_VERSION, deviceId, signer.publicKey, values, ordered));
      if encoded == [] || |encoded| > MAX_CLIENT_SNAPSHOT_BYTES {
        return Err(StateStorage);
      }
      r := Ok(encoded);
    }
  }

  /** One of the map-building loops of `decode_snapshot`. */
  method ReadInto<E, K(==), V>(entries: seq<E>, key: E -> K, value: E -> Option<V>) returns (r: Option<map<K, V>>)
    ensures r == ReadEntries(entries, key, value)
  {
    var read: map<K, V> := map[];
    for i := 0 to |entries|
      invariant ReadEntries(entries[..i], key, value) == Some(read)
    {
      assert entries[..i + 1][..i] == entries[..i];
      var v := value(entries[i]);
      if v.None? || key(entries[i]) in read {
        ReadFailsForGood(entries, i + 1, key, value);
        return None;
      }
      read := read[key(entries[i]) := v.value];
    }
    assert entries[..|entries|] == entries;
    r := Some(read);
  }

  lemma {:induction false} ReadFailsForGood<E, K, V>(entries: seq<E>, n: nat, key: E -> K, value: E -> Option<V>)
    requires n <= |entries| && ReadEntries(entries[..n], key, value).None?
    ensures ReadEntries(entries, key, value).None?
    decreases |entries|
  {
    if n < |entries| {
      assert entries[..|entries| - 1][..n] == entries[..n];
      ReadFailsForGood(entries[..|entries| - 1], n, key, value);
    } else {
      assert entries[..n] == entries;
    }
  }

  method Decode(mls: Mls, encoded: Bytes, device: Uuid) returns (r: Result<MlsClient, MlsError>)
    ensures var decoded := DecodeSnapshot(mls, encoded, device);
            && (decoded.Err? ==> r.Err? && r.error == decoded.error)
            && (decoded.Ok? ==> r.Ok? && fresh(r.value) && r.value.mls == mls && r.value.State() == decoded.value)
  {
    if encoded == [] || |encoded| > MAX_CLIENT_SNAPSHOT_BYTES {
      return Err(InvalidStateSnapshot);
    }
    var parsed := mls.snapshotJson.decode(encoded);
    if parsed.None? {
      return Err(InvalidStateSnapshot);
    }
    var snapshot := parsed.value;
    if snapshot.version != CLIENT_SNAPSHOT_VERSION || snapshot.deviceId != device || snapshot.signerPublicKey == [] {
      return Err(InvalidStateSnapshot);
    }
    var provider := ReadInto(snapshot.providerValues, KeyOfValue, ReadValue);
    if provider.None? {
      return Err(InvalidStateSnapshot);
    }
    var signer := mls.readSigner(provider.value, snapshot.signerPublicKey);
    var channels := ReadInto(snapshot.channels, ChannelOf, ReadChannelFrom(mls, provider.value));
    if signer.None? || channels.None? {
      return Err(InvalidStateSnapshot);
    }
    var client := new MlsClient(mls, Client(device, provider.value, signer.value, channels.value));
    r := Ok(client);
  }

  class VaultMlsClient {
    const vault: Vault
    var client: MlsClient

    ghost predicate Valid()
      reads this, vault, client
    {
      && Lawful(client.mls)
      && vault.Valid()
      && InStep(client.mls, client.State(), vault.database)
    }

    constructor (vault: Vault, client: MlsClient)
      requires Lawful(client.mls) && vault.Valid() && InStep(client.mls, client.State(), vault.database)
      ensures Valid() && this.vault == vault && this.client == client
    {
      this.vault, this.client := vault, client;
    }

    method Restore(snapshot: Bytes) returns (r: Result<(), MlsError>)
      modifies this`client
      ensures var decoded := DecodeSnapshot(old(client.mls), snapshot, old(client.State()).deviceId);
              && (decoded.Ok? ==> r == Ok(()) && fresh(client) && client.mls == old(client.mls)
                                  && client.State() == decoded.value)
              && (decoded.Err? ==> r == Err(decoded.error) && client == old(client))
    {
      var decoded := Decode(client.mls, snapshot, client.deviceId);
      if decoded.Err? {
        return Err(decoded.error);
      }
      client := decoded.value;
      r := Ok(());
    }

    /** `transact`: an operation and the snapshot that goes with it, or neither. */
    method TransactOperation(op: Operation, failing: bool) returns (r: Result<Option<PlaintextEvent>, MlsError>)
      requires Valid()
      modifies this, client, vault`database
      ensures Valid() && vault.unlocked == old(vault.unlocked) && client.mls == old(client.mls)
      ensures client == old(client) || fresh(client)
      ensures (client.State(), vault.database, r)
              == Transact(client.mls, old(client.State()), old(vault.database), vault.unlocked, op, failing)
      ensures r.Err? ==> client.State() == old(client.State()) && vault.database == old(vault.database)
    {
      hide Operate, EncodeSnapshot, DecodeSnapshot, Loadable, Lawful, InStep, StoreSnapshot, Sound, UuidText;
      TransactIsAtomic(client.mls, client.State(), vault.database, vault.unlocked, op, failing);
      var previous := client.Encode();
      if previous.Err? {
        return Err(previous.error);
      }
      var value := client.Perform(op);
      var error: MlsError;
      if value.Ok? {
        var snapshot := client.Encode();
        if snapshot.Ok? {
          var saved := vault.StoreMlsClientSnapshot(UuidText(client.deviceId), snapshot.value, failing);
          if saved.Ok? {
            return value;
          }
          error := MlsError.Vault(saved.error);
        } else {
          error := snapshot.error;
        }
      } else {
        error := value.error;
      }
      var restored := Restore(previous.value);
      r := Err(if restored.Ok? then error else restored.error);
    }

    /** `queue_outgoing`: message, ratchet and outbox row together, or none of them. */
    method QueueDraft(draft: Draft, ttl: ServerTtl, message: Option<VaultMessage>, failing: Option<Statement>)
      returns (r: Result<SubmitEvent, MlsError>)
      requires Valid()
      modifies this, client, vault`database
      ensures Valid() && vault.unlocked == old(vault.unlocked) && client.mls == old(client.mls)
      ensures client == old(client) || fresh(client)
      ensures (client.State(), vault.database, r)
              == QueueOutgoing(client.mls, old(client.State()), old(vault.database), vault.unlocked, draft, ttl,
                               message, failing)
      ensures r.Err? ==> client.State() == old(client.State()) && vault.database == old(vault.database)
    {
      hide EncryptDraft, EncodeSnapshot, DecodeSnapshot, Loadable, Lawful, InStep, StoreTransaction, Sound, UuidText,
        ToSubmitEvent;
      QueueIsAtomic(client.mls, client.State(), vault.database, vault.unlocked, draft, ttl, message, failing);
      var previous := client.Encode();
      if previous.Err? {
        return Err(previous.error);
      }
      var encrypted := client.EncryptDraftEvent(draft);
      var error: MlsError;
      if encrypted.Ok? {
        var submission := ToSubmitEvent(encrypted.value, ttl);
        var snapshot := client.Encode();
        if submission.Ok? && snapshot.Ok? {
          var item := OutboxItemOf(client.mls, client.deviceId, submission.value);
          var stored := vault.StoreMlsTransaction(snapshot.value, item, message, failing);
          if stored.Ok? {
            return submission;
          }
          error := MlsError.Vault(stored.error);
        } else {
          error := if submission.Err? then submission.error else snapshot.error;
        }
      } else {
        error := encrypted.error;
      }
      var restored := Restore(previous.value);
      r := Err(if restored.Ok? then error else restored.error);
    }
  }
}
