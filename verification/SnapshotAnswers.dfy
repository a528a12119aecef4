/** Exactly which bytes `decode_snapshot` accepts, and as which client (crates/singularis-mls/src/client.rs:523-619). */
module SnapshotAnswers {
  import opened Wrappers
  import opened Protocol
  import opened MlsTypes
  import opened Snapshot
  import opened Sorting

  ghost predicate AllDiffer<T>(items: seq<T>) {
    forall i, j | 0 <= i < j < |items| :: items[i] != items[j]
  }

  lemma OneMoreDiffers<T>(items: seq<T>, item: T)
    ensures AllDiffer(items + [item]) <==> AllDiffer(items) && item !in items
  {
    if AllDiffer(items + [item]) {
      assert forall i | 0 <= i < |items| :: (items + [item])[i] != (items + [item])[|items|];
      assert forall i | 0 <= i < |items| :: (items + [item])[i] == items[i];
    }
  }

  function KeysOf<E, K>(entries: seq<E>, key: E -> K): seq<K> {
    seq(|entries|, i requires 0 <= i < |entries| => key(entries[i]))
  }

  /** Reading entries into a map succeeds exactly if no key repeats and every value can be read. */
  lemma {:induction false} EntriesReadExactlyIf<E, K(!new), V>(entries: seq<E>, key: E -> K, value: E -> Option<V>)
    ensures ReadEntries(entries, key, value).Some? <==>
            AllDiffer(KeysOf(entries, key)) && forall i | 0 <= i < |entries| :: value(entries[i]).Some?
    ensures var m := ReadEntries(entries, key, value);
            m.Some? ==>
              && (forall k :: k in m.value <==> k in KeysOf(entries, key))
              && forall i | 0 <= i < |entries| :: key(entries[i]) in m.value
                                                  && Some(m.value[key(entries[i])]) == value(entries[i])
  {
    if entries != [] {
      var init, last := entries[..|entries| - 1], entries[|entries| - 1];
      EntriesReadExactlyIf(init, key, value);
      hide ReadEntries;
      assert KeysOf(entries, key) == KeysOf(init, key) + [key(last)];
      OneMoreEntry(init, last, key, value);
      assert entries == init + [last];
      OneMoreDiffers(KeysOf(init, key), key(last));
    }
  }

  lemma OneMoreEntry<E, K(!new), V>(init: seq<E>, last: E, key: E -> K, value: E -> Option<V>)
    ensures var earlier := ReadEntries(init, key, value);
            ReadEntries(init + [last], key, value)
            == if earlier.None? || value(last).None? || key(last) in earlier.value then None
               else Some(earlier.value[key(last) := value(last).value])
  {
    assert (init + [last])[..|init|] == init;
  }

  /** The storage these values list. */
  ghost predicate HoldsValues(values: seq<ProviderValue>, provider: Provider) {
    && AllDiffer(KeysOf(values, KeyOfValue))
    && (forall key: Bytes :: key in provider <==> key in KeysOf(values, KeyOfValue))
    && forall i | 0 <= i < |values| ::
         values[i].key != [] && values[i].value != [] && values[i].key in provider
         && provider[values[i].key] == values[i].value
  }

  ghost predicate HoldsChains(stored: seq<IncomingChainSnapshot>, chains: map<Uuid, SenderChain>) {
    && AllDiffer(KeysOf(stored, SenderOf))
    && (forall device: Uuid :: device in chains <==> device in KeysOf(stored, SenderOf))
    && forall i | 0 <= i < |stored| ::
         stored[i].chain.counter > 0 && stored[i].senderDeviceId in chains
         && chains[stored[i].senderDeviceId] == stored[i].chain
  }

  /** The channel as stored, with its group loaded from the storage. */
  ghost predicate HoldsChannel(mls: Mls, provider: Provider, stored: ChannelSnapshot, state: ChannelState) {
    && state.communityId == stored.communityId && mls.load(provider, stored.channelId) == Some(state.group)
    && state.outgoingChain == stored.outgoingChain
    && (stored.outgoingChain.Some? ==> stored.outgoingChain.value.counter > 0)
    && HoldsChains(stored.incomingChains, state.incomingChains)
    && AllDiffer(stored.seenEventIds)
    && forall id: EventId :: id in state.seenEventIds <==> id in stored.seenEventIds
  }

  ghost predicate HoldsChannels(mls: Mls, provider: Provider, stored: seq<ChannelSnapshot>,
                                channels: map<Uuid, ChannelState>)
  {
    && AllDiffer(KeysOf(stored, ChannelOf))
    && (forall id: Uuid :: id in channels <==> id in KeysOf(stored, ChannelOf))
    && forall i | 0 <= i < |stored| ::
         stored[i].channelId in channels && HoldsChannel(mls, provider, stored[i], channels[stored[i].channelId])
  }

  lemma ValuesReadExactlyIf(values: seq<ProviderValue>, provider: Provider)
    ensures ReadEntries(values, KeyOfValue, ReadValue) == Some(provider) <==> HoldsValues(values, provider)
  {
    EntriesReadExactlyIf(values, KeyOfValue, ReadValue);
    var r := ReadEntries(values, KeyOfValue, ReadValue);
    hide ReadEntries;
    if HoldsValues(values, provider) {
      assert forall key | key in KeysOf(values, KeyOfValue) :: r.value[key] == provider[key];
      assert r.value == provider;
    }
  }

  lemma ChainsReadExactlyIf(stored: seq<IncomingChainSnapshot>, chains: map<Uuid, SenderChain>)
    ensures ReadEntries(stored, SenderOf, ReadChain) == Some(chains) <==> HoldsChains(stored, chains)
  {
    EntriesReadExactlyIf(stored, SenderOf, ReadChain);
    var r := ReadEntries(stored, SenderOf, ReadChain);
    hide ReadEntries;
    if HoldsChains(stored, chains) {
      assert forall device | device in KeysOf(stored, SenderOf) :: r.value[device] == chains[device];
      assert r.value == chains;
    }
  }

  lemma {:induction false} DistinctExactlyIf<T>(items: seq<T>)
    ensures |Elements(items)| <= |items|
    ensures |Elements(items)| == |items| <==> AllDiffer(items)
  {
    if items == [] {
      assert Elements(items) == {};
    } else {
      var init, last := items[..|items| - 1], items[|items| - 1];
      DistinctExactlyIf(init);
      OneMoreDiffers(init, last);
      ElementsAppend(init, last);
      assert items == init + [last];
      assert last in Elements(init) ==> Elements(items) == Elements(init);
    }
  }

  lemma ChannelReadExactlyIf(mls: Mls, provider: Provider, stored: ChannelSnapshot, state: ChannelState)
    ensures ReadChannel(mls, provider, stored) == Some(state) <==> HoldsChannel(mls, provider, stored, state)
  {
    DistinctExactlyIf(stored.seenEventIds);
    ChainsReadExactlyIf(stored.incomingChains, state.incomingChains);
    hide ReadEntries, HoldsChains, AllDiffer;
    if HoldsChannel(mls, provider, stored, state) {
      assert state.seenEventIds == Elements(stored.seenEventIds);
    }
  }

  lemma ChannelsReadExactlyIf(mls: Mls, provider: Provider, stored: seq<ChannelSnapshot>,
                              channels: map<Uuid, ChannelState>)
    ensures ReadEntries(stored, ChannelOf, ReadChannelFrom(mls, provider)) == Some(channels) <==>
            HoldsChannels(mls, provider, stored, channels)
  {
    var read := ReadChannelFrom(mls, provider);
    EntriesReadExactlyIf(stored, ChannelOf, read);
    var r := ReadEntries(stored, ChannelOf, read);
    hide ReadEntries, ReadChannel, HoldsChannel;
    forall i, state | 0 <= i < |stored|
      ensures read(stored[i]) == Some(state) <==> HoldsChannel(mls, provider, stored[i], state)
    {
      ChannelReadExactlyIf(mls, provider, stored[i], state);
    }
    if HoldsChannels(mls, provider, stored, channels) {
      assert forall i | 0 <= i < |stored| :: read(stored[i]) == Some(channels[stored[i].channelId]);
      assert forall id | id in KeysOf(stored, ChannelOf) :: r.value[id] == channels[id];
      assert r.value == channels;
    }
  }

  /**
   * Bytes are accepted as this client if and only if they are 1 byte to 16 MiB of a snapshot of
   * version 1 of this device, whose lists name no key, sender, event or channel twice and no
   * empty value or counter 0, and whose signer and groups the library finds in that storage.
   */
  lemma DecodesExactlyIf(mls: Mls, encoded: Bytes, device: Uuid, c: Client)
    ensures DecodeSnapshot(mls, encoded, device) == Ok(c) <==>
            && 1 <= |encoded| <= 16777216 && mls.snapshotJson.decode(encoded).Some?
            && var stored := mls.snapshotJson.decode(encoded).value;
               && stored.version == 1 && stored.deviceId == device && c.deviceId == device
               && stored.signerPublicKey != [] && HoldsValues(stored.providerValues, c.provider)
               && mls.readSigner(c.provider, stored.signerPublicKey) == Some(c.signer)
               && HoldsChannels(mls, c.provider, stored.channels, c.channels)
    ensures DecodeSnapshot(mls, encoded, device).Err? ==>
              DecodeSnapshot(mls, encoded, device) == Err(InvalidStateSnapshot)
  {
    if mls.snapshotJson.decode(encoded).Some? {
      var stored := mls.snapshotJson.decode(encoded).value;
      ValuesReadExactlyIf(stored.providerValues, c.provider);
      ChannelsReadExactlyIf(mls, c.provider, stored.channels, c.channels);
    }
    hide ReadEntries, HoldsValues, HoldsChannels;
  }
}
