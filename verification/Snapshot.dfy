/** The client snapshot codec (crates/singularis-mls/src/client.rs:463-619). */
module Snapshot {
  import opened Wrappers
  import opened Protocol
  import opened MlsTypes
  import opened Sorting

  predicate LexLess(a: Bytes, b: Bytes) {
    if b == [] then false
    else if a == [] then true
    else a[0] < b[0] || (a[0] == b[0] && LexLess(a[1..], b[1..]))
  }

  lemma {:induction false} LexIrreflexive(a: Bytes)
    ensures !LexLess(a, a)
  {
    if a != [] {
      LexIrreflexive(a[1..]);
    }
  }

  lemma {:induction false} LexTransitive(a: Bytes, b: Bytes, c: Bytes)
    requires LexLess(a, b) && LexLess(b, c)
    ensures LexLess(a, c)
  {
    if a != [] && b != [] && c != [] && a[0] == b[0] == c[0] {
      LexTransitive(a[1..], b[1..], c[1..]);
    }
  }

  lemma {:induction false} LexTotal(a: Bytes, b: Bytes)
    ensures a == b || LexLess(a, b) || LexLess(b, a)
  {
    if a != [] && b != [] {
      LexTotal(a[1..], b[1..]);
      assert a == [a[0]] + a[1..] && b == [b[0]] + b[1..];
    }
  }

  predicate ByKey(x: ProviderValue, y: ProviderValue) { LexLess(x.key, y.key) }
  predicate BySender(x: IncomingChainSnapshot, y: IncomingChainSnapshot) { x.senderDeviceId < y.senderDeviceId }
  predicate ByEventId(x: EventId, y: EventId) { x < y }
  predicate ByChannel(x: ChannelSnapshot, y: ChannelSnapshot) { x.channelId < y.channelId }

  function ProviderItems(provider: Provider): set<ProviderValue> {
    set key | key in provider :: ProviderValue(key, provider[key])
  }

  function IncomingItems(chains: map<Uuid, SenderChain>): set<IncomingChainSnapshot> {
    set device | device in chains :: IncomingChainSnapshot(device, chains[device])
  }

  lemma ProviderOrder(provider: Provider)
    ensures StrictOrder(ByKey) && Comparable(ProviderItems(provider), ByKey)
  {
    forall x: ProviderValue
      ensures !ByKey(x, x)
    {
      LexIrreflexive(x.key);
    }
    forall x: ProviderValue, y: ProviderValue, z: ProviderValue | ByKey(x, y) && ByKey(y, z)
      ensures ByKey(x, z)
    {
      LexTransitive(x.key, y.key, z.key);
    }
    forall x, y | x in ProviderItems(provider) && y in ProviderItems(provider) && x != y
      ensures ByKey(x, y) || ByKey(y, x)
    {
      LexTotal(x.key, y.key);
    }
  }

  lemma IncomingOrder(chains: map<Uuid, SenderChain>)
    ensures StrictOrder(BySender) && Comparable(IncomingItems(chains), BySender)
  {
  }

  lemma SeenOrder(seen: set<EventId>)
    ensures StrictOrder(ByEventId) && Comparable(seen, ByEventId)
  {
  }

  ghost function SnapshotChannel(id: Uuid, state: ChannelState): ChannelSnapshot {
    IncomingOrder(state.incomingChains);
    SeenOrder(state.seenEventIds);
    ChannelSnapshot(state.communityId, id, state.outgoingChain,
                    Sorted(IncomingItems(state.incomingChains), BySender), Sorted(state.seenEventIds, ByEventId))
  }

  ghost function ChannelItems(channels: map<Uuid, ChannelState>): set<ChannelSnapshot> {
    set id | id in channels :: SnapshotChannel(id, channels[id])
  }

  lemma ChannelOrder(channels: map<Uuid, ChannelState>)
    ensures StrictOrder(ByChannel) && Comparable(ChannelItems(channels), ByChannel)
  {
  }

  ghost function SnapshotOf(c: Client): ClientSnapshot {
    ProviderOrder(c.provider);
    ChannelOrder(c.channels);
    ClientSnapshot(CLIENT_SNAPSHOT_VERSION, c.deviceId, c.signer.publicKey,
                   Sorted(ProviderItems(c.provider), ByKey), Sorted(ChannelItems(c.channels), ByChannel))
  }

  ghost function EncodeSnapshot(mls: Mls, c: Client): Result<Bytes, MlsError> {
    var encoded := mls.snapshotJson.encode(SnapshotOf(c));
    if encoded == [] || |encoded| > MAX_CLIENT_SNAPSHOT_BYTES then Err(StateStorage) else Ok(encoded)
  }

  /**
   * A map read from a list of entries: None if a key repeats or `value` refuses an entry. The
   * three loops of `decode_snapshot` are this.
   */
  function ReadEntries<E, K(==), V>(entries: seq<E>, key: E -> K, value: E -> Option<V>): Option<map<K, V>> {
    if entries == [] then Some(map[])
    else
      var last := entries[|entries| - 1];
      match ReadEntries(entries[..|entries| - 1], key, value)
      case None => None
      case Some(earlier) =>
        if value(last).None? || key(last) in earlier then None else Some(earlier[key(last) := value(last).value])
  }

  function KeyOfValue(entry: ProviderValue): Bytes { entry.key }
  function ReadValue(entry: ProviderValue): Option<Bytes> {
    if entry.key == [] || entry.value == [] then None else Some(entry.value)
  }

  function SenderOf(entry: IncomingChainSnapshot): Uuid { entry.senderDeviceId }
  function ReadChain(entry: IncomingChainSnapshot): Option<SenderChain> {
    if entry.chain.counter == 0 then None else Some(entry.chain)
  }

  function ChannelOf(stored: ChannelSnapshot): Uuid { stored.channelId }

  function ReadChannel(mls: Mls, provider: Provider, stored: ChannelSnapshot): Option<ChannelState> {
    if stored.outgoingChain.Some? && stored.outgoingChain.value.counter == 0 then None
    else
      var incoming := ReadEntries(stored.incomingChains, SenderOf, ReadChain);
      var seen := Elements(stored.seenEventIds);
      var group := mls.load(provider, stored.channelId);
      if incoming.None? || |seen| != |stored.seenEventIds| || group.None? then None
      else Some(ChannelState(stored.communityId, group.value, stored.outgoingChain, incoming.value, seen))
  }

  function ReadChannelFrom(mls: Mls, provider: Provider): ChannelSnapshot -> Option<ChannelState> {
    (stored: ChannelSnapshot) => ReadChannel(mls, provider, stored)
  }

  function ReadSnapshot(mls: Mls, snapshot: ClientSnapshot, device: Uuid): Result<Client, MlsError> {
    if snapshot.version != CLIENT_SNAPSHOT_VERSION || snapshot.deviceId != device || snapshot.signerPublicKey == [] then
      Err(InvalidStateSnapshot)
    else
      match ReadEntries(snapshot.providerValues, KeyOfValue, ReadValue)
      case None => Err(InvalidStateSnapshot)
      case Some(provider) =>
        var signer := mls.readSigner(provider, snapshot.signerPublicKey);
        var channels := ReadEntries(snapshot.channels, ChannelOf, ReadChannelFrom(mls, provider));
        if signer.None? || channels.None? then Err(InvalidStateSnapshot)
        else Ok(Client(device, provider, signer.value, channels.value))
  }

  function DecodeSnapshot(mls: Mls, encoded: Bytes, device: Uuid): Result<Client, MlsError> {
    if encoded == [] || |encoded| > MAX_CLIENT_SNAPSHOT_BYTES then Err(InvalidStateSnapshot)
    else
      match mls.snapshotJson.decode(encoded)
      case None => Err(InvalidStateSnapshot)
      case Some(snapshot) => ReadSnapshot(mls, snapshot, device)
  }

  ghost predicate PositiveChains(state: ChannelState) {
    && (state.outgoingChain.Some? ==> state.outgoingChain.value.counter > 0)
    && (forall device | device in state.incomingChains :: state.incomingChains[device].counter > 0)
  }

  /** Everything a client holds in memory can be found again in its provider storage. */
  ghost predicate Loadable(mls: Mls, c: Client) {
    && Filled(c.provider)
    && c.signer.publicKey != [] && mls.readSigner(c.provider, c.signer.publicKey) == Some(c.signer)
    && (forall id | id in c.channels ::
          PositiveChains(c.channels[id]) && mls.load(c.provider, id) == Some(c.channels[id].group))
  }

  /** Entries that list a map, each key once, read back as the map. */
  lemma {:induction false} ReadListed<E, K(!new), V>(entries: seq<E>, key: E -> K, value: E -> Option<V>, m: map<K, V>)
    requires forall i, j | 0 <= i < j < |entries| :: key(entries[i]) != key(entries[j])
    requires forall i | 0 <= i < |entries| :: key(entries[i]) in m && value(entries[i]) == Some(m[key(entries[i])])
    requires forall k | k in m :: exists i | 0 <= i < |entries| :: key(entries[i]) == k
    ensures ReadEntries(entries, key, value) == Some(m)
  {
    if entries == [] {
      assert m == map[];
    } else {
      var init, last := entries[..|entries| - 1], entries[|entries| - 1];
      var earlier := map k | k in m && k != key(last) :: m[k];
      forall k | k in earlier
        ensures exists i | 0 <= i < |init| :: key(init[i]) == k
      {
        var i :| 0 <= i < |entries| && key(entries[i]) == k;
        assert key(init[i]) == k;
      }
      ReadListed(init, key, value, earlier);
      assert earlier[key(last) := m[key(last)]] == m;
    }
  }

  /** The sorted entries of a map read back as the map. */
  lemma ReadSorted<E(!new), K(!new), V>(items: set<E>, lt: (E, E) -> bool, key: E -> K, value: E -> Option<V>,
                                        m: map<K, V>)
    requires StrictOrder(lt) && Comparable(items, lt)
    requires forall x, y | lt(x, y) :: key(x) != key(y)
    requires forall e | e in items :: key(e) in m && value(e) == Some(m[key(e)])
    requires forall k | k in m :: exists e | e in items :: key(e) == k
    ensures ReadEntries(Sorted(items, lt), key, value) == Some(m)
  {
    var entries := Sorted(items, lt);
    forall i | 0 <= i < |entries|
      ensures key(entries[i]) in m && value(entries[i]) == Some(m[key(entries[i])])
    {
      assert entries[i] in Elements(entries);
    }
    forall k | k in m
      ensures exists i | 0 <= i < |entries| :: key(entries[i]) == k
    {
      var e :| e in items && key(e) == k;
      assert e in Elements(entries);
      var i :| 0 <= i < |entries| && entries[i] == e;
    }
    ReadListed(entries, key, value, m);
  }

  lemma ProviderRoundTrip(provider: Provider)
    requires Filled(provider)
    ensures StrictOrder(ByKey) && Comparable(ProviderItems(provider), ByKey)
    ensures ReadEntries(Sorted(ProviderItems(provider), ByKey), KeyOfValue, ReadValue) == Some(provider)
  {
    ProviderOrder(provider);
    forall x: ProviderValue, y: ProviderValue | ByKey(x, y)
      ensures KeyOfValue(x) != KeyOfValue(y)
    {
      LexIrreflexive(x.key);
    }
    forall key | key in provider
      ensures exists e | e in ProviderItems(provider) :: KeyOfValue(e) == key
    {
      assert ProviderValue(key, provider[key]) in ProviderItems(provider);
    }
    ReadSorted(ProviderItems(provider), ByKey, KeyOfValue, ReadValue, provider);
  }

  lemma IncomingRoundTrip(chains: map<Uuid, SenderChain>)
    requires forall device | device in chains :: chains[device].counter > 0
    ensures StrictOrder(BySender) && Comparable(IncomingItems(chains), BySender)
    ensures ReadEntries(Sorted(IncomingItems(chains), BySender), SenderOf, ReadChain) == Some(chains)
  {
    IncomingOrder(chains);
    forall id | id in chains
      ensures exists e | e in IncomingItems(chains) :: SenderOf(e) == id
    {
      assert IncomingChainSnapshot(id, chains[id]) in IncomingItems(chains);
    }
    ReadSorted(IncomingItems(chains), BySender, SenderOf, ReadChain, chains);
  }

  lemma ChannelRoundTrip(mls: Mls, provider: Provider, id: Uuid, state: ChannelState)
    requires PositiveChains(state) && mls.load(provider, id) == Some(state.group)
    ensures ReadChannel(mls, provider, SnapshotChannel(id, state)) == Some(state)
  {
    IncomingRoundTrip(state.incomingChains);
    SeenOrder(state.seenEventIds);
  }

  lemma ChannelsRoundTrip(mls: Mls, c: Client)
    requires Loadable(mls, c)
    ensures StrictOrder(ByChannel) && Comparable(ChannelItems(c.channels), ByChannel)
    ensures ReadEntries(Sorted(ChannelItems(c.channels), ByChannel), ChannelOf, ReadChannelFrom(mls, c.provider))
            == Some(c.channels)
  {
    hide SnapshotChannel, ReadChannel;
    ChannelOrder(c.channels);
    var items, read := ChannelItems(c.channels), ReadChannelFrom(mls, c.provider);
    forall e | e in items
      ensures ChannelOf(e) in c.channels && read(e) == Some(c.channels[ChannelOf(e)])
    {
      var id :| id in c.channels && e == SnapshotChannel(id, c.channels[id]);
      SnapshotNames(id, c.channels[id]);
      ChannelRoundTrip(mls, c.provider, id, c.channels[id]);
    }
    forall id | id in c.channels
      ensures exists e | e in items :: ChannelOf(e) == id
    {
      SnapshotNames(id, c.channels[id]);
      assert SnapshotChannel(id, c.channels[id]) in items;
    }
    ReadSorted(items, ByChannel, ChannelOf, read, c.channels);
  }

  lemma SnapshotNames(id: Uuid, state: ChannelState)
    ensures SnapshotChannel(id, state).channelId == id
  {
  }

  /** Decoding what was encoded gives the same client back, for any client that is loadable. */
  lemma SnapshotRoundTrip(mls: Mls, c: Client)
    requires Faithful(mls.snapshotJson) && Loadable(mls, c) && EncodeSnapshot(mls, c).Ok?
    ensures DecodeSnapshot(mls, EncodeSnapshot(mls, c).value, c.deviceId) == Ok(c)
  {
    ProviderRoundTrip(c.provider);
    ChannelsRoundTrip(mls, c);
    assert mls.snapshotJson.decode(mls.snapshotJson.encode(SnapshotOf(c))) == Some(SnapshotOf(c));
  }

  /** Two loadable clients of one device with the same encoding are the same client. */
  lemma SnapshotDeterminesClient(mls: Mls, a: Client, b: Client)
    requires Faithful(mls.snapshotJson) && Loadable(mls, a) && Loadable(mls, b)
    requires EncodeSnapshot(mls, a).Ok? && EncodeSnapshot(mls, a) == EncodeSnapshot(mls, b)
    ensures a == b
  {
    SnapshotRoundTrip(mls, a);
    SnapshotRoundTrip(mls, b);
    assert a.deviceId == b.deviceId by {
      assert mls.snapshotJson.decode(mls.snapshotJson.encode(SnapshotOf(a))) == Some(SnapshotOf(a));
      assert mls.snapshotJson.decode(mls.snapshotJson.encode(SnapshotOf(b))) == Some(SnapshotOf(b));
    }
  }
}
