/** A life of the system under these assumptions in which a message is queued, accepted and acknowledged. */
module PlainLife {
  import opened Wrappers
  import opened Protocol
  import opened Sorting
  import opened Identifiers
  import opened VaultStore
  import opened MlsTypes
  import opened Snapshot
  import opened ClientOperations
  import opened Persistence
  import opened RelayStore
  import opened RelayHistory
  import opened MemberRuns
  import opened DeliveryLanes
  import opened Pipeline
  import opened PipelineInvariant
  import opened PipelineProgress
  import opened PipelineDrains
  import opened Trees
  import opened PlainLibrary
  import SubmitJson
  import Base64Url
  import Text

  const DEVICE: Uuid := 1
  const COMMUNITY: Uuid := 2
  const CHANNEL: Uuid := 3
  const NO_CHANNELS: map<Uuid, ChannelState> := map[]
  const NO_VALUES: Provider := map[]

  const ENROLLED := Client(DEVICE, NO_VALUES, Signer([1], []), NO_CHANNELS)
  const JOINED := WithChannel(ENROLLED, NO_VALUES, CHANNEL, NewChannel(COMMUNITY, []))

  const DRAFT := TextDraft(CHANNEL, 4, 0, EventReferences(None, None, None), "a")
  const EVENT := PlaintextEvent(1, 4, COMMUNITY, CHANNEL, DEVICE, 1, 0, None, EventReferences(None, None, None), "a")

  /** A client in at most one channel, all of whose numbers are small. */
  ghost predicate Small(state: ChannelState) {
    && state.communityId < 10 && state.incomingChains == NO_CHAINS
    && (state.outgoingChain.Some? ==> state.outgoingChain.value.counter < 10)
    && |state.seenEventIds| < 10 && forall id | id in state.seenEventIds :: id < 10
  }

  ghost predicate SmallClient(c: Client) {
    && c.deviceId < 10 && c.provider == NO_VALUES && |c.signer.publicKey| < 10
    && (c.channels == NO_CHANNELS || (c.channels.Keys == {CHANNEL} && Small(c.channels[CHANNEL])))
  }

  lemma BytesSize(b: Bytes)
    ensures Size(BytesTree(b)) <= 2 + |b| * 300
  {
    ListSize(b, ByteTree, 300);
  }

  lemma ChainSize(chain: Option<SenderChain>)
    requires chain.Some? ==> chain.value.counter < 10
    ensures Size(OptionTree(chain, ChainTree)) < 15000
  {
    if chain.Some? {
      BytesSize(chain.value.eventHash);
      assert Size(ChainTree(chain.value)) == 3 + chain.value.counter + Size(BytesTree(chain.value.eventHash));
      hide BytesTree, ChainTree;
    }
  }

  lemma ChannelSize(stored: ChannelSnapshot)
    requires stored.communityId < 10 && stored.channelId < 10 && stored.incomingChains == []
    requires stored.outgoingChain.Some? ==> stored.outgoingChain.value.counter < 10
    requires |stored.seenEventIds| < 10 && forall id | id in stored.seenEventIds :: id < 10
    ensures Size(ChannelTree(stored)) < 20000
  {
    ListSize(stored.seenEventIds, IdTree, 20);
    ChainSize(stored.outgoingChain);
    hide OptionTree, ChainTree;
    var ids := Branch(Leaf(stored.communityId), Leaf(stored.channelId));
    var incoming, seen := ListTree(stored.incomingChains, IncomingTree), ListTree(stored.seenEventIds, IdTree);
    assert Size(ids) < 30 && Size(incoming) == 2;
    assert Size(Branch(ids, OptionTree(stored.outgoingChain, ChainTree))) < 16000;
    assert Size(Branch(incoming, seen)) < 1000;
  }

  lemma SmallStored(state: ChannelState)
    requires Small(state)
    ensures Size(ChannelTree(SnapshotChannel(CHANNEL, state))) < 20000
  {
    var stored := SnapshotChannel(CHANNEL, state);
    IncomingOrder(state.incomingChains);
    SeenOrder(state.seenEventIds);
    hide ChannelTree, StrictOrder, Comparable, Ascending;
    assert IncomingItems(state.incomingChains) == {};
    assert forall id | id in stored.seenEventIds :: id in Elements(stored.seenEventIds);
    ChannelSize(stored);
  }

  lemma SnapshotSize(s: ClientSnapshot)
    requires s.version < 10 && s.deviceId < 10 && |s.signerPublicKey| < 10 && s.providerValues == []
    requires |s.channels| <= 1 && forall x | x in s.channels :: Size(ChannelTree(x)) < 20000
    ensures Size(SnapshotTree(s)) < 50000
  {
    BytesSize(s.signerPublicKey);
    ListSize(s.channels, ChannelTree, 20000);
    assert |s.channels| * 20000 <= 20000;
    hide BytesTree, ChannelTree;
    var values, channels := ListTree(s.providerValues, ValueTree), ListTree(s.channels, ChannelTree);
    assert Size(values) == 2 && Size(Branch(values, channels)) < 20010;
    assert Size(Branch(BytesTree(s.signerPublicKey), Branch(values, channels))) < 30000;
    assert Size(Branch(Leaf(s.version), Leaf(s.deviceId))) < 30;
  }

  lemma SmallEncodes(c: Client)
    requires SmallClient(c)
    ensures EncodeSnapshot(Plainly(), c).Ok?
  {
    var s := SnapshotOf(c);
    ProviderOrder(c.provider);
    ChannelOrder(c.channels);
    hide StrictOrder, Comparable, Ascending, SnapshotChannel, ChannelTree;
    assert ProviderItems(c.provider) == {};
    forall x | x in s.channels
      ensures Size(ChannelTree(x)) < 20000
    {
      assert x in Elements(s.channels);
      SmallStored(c.channels[CHANNEL]);
    }
    assert |s.channels| <= 1 by {
      if c.channels != NO_CHANNELS {
        assert ChannelItems(c.channels) == {SnapshotChannel(CHANNEL, c.channels[CHANNEL])};
      } else {
        assert ChannelItems(c.channels) == {};
      }
    }
    SnapshotSize(s);
    hide SnapshotTree, SnapshotOf;
    assert Plainly().snapshotJson.encode(s) == Write(SnapshotTree(s));
  }

  lemma EventIsValid()
    ensures ValidEvent(EVENT)
  {
    assert EVENT.body[0] == 'a' && !Text.IsWhitespace(EVENT.body[0]);
    Text.AsciiLength(EVENT.body);
  }

  lemma EventSize()
    ensures Size(EventTree(EVENT)) < 300 && Size(MetadataTree(MetadataOf(EVENT))) < 100
  {
    var body := ListTree(EVENT.body, CharTree);
    assert EVENT.body[1..] == "" && body == Branch(Leaf(97), Leaf(0));
    assert Size(body) == 102;
    assert Size(ReferencesTree(EVENT.references)) < 20;
    assert Size(OptionTree(EVENT.previousEventHash, DigestTree)) == 2;
    hide ReferencesTree, ListTree, OptionTree;
    assert Size(Branch(ReferencesTree(EVENT.references), body)) < 150;
    assert Size(Branch(SignedTree(0), OptionTree(EVENT.previousEventHash, DigestTree))) < 10;
    assert Size(Branch(Leaf(1), Leaf(4))) < 20 && Size(Branch(Leaf(2), Leaf(3))) < 20;
    assert Size(Branch(Leaf(1), Leaf(1))) < 20;
  }

  lemma EventSeals()
    ensures var mls := Plainly();
            && EncodeEvent(mls, EVENT).Ok?
            && Base64Url.FromBytes(Sealing(mls.metadataJson.encode(MetadataOf(EVENT)), mls.eventJson.encode(EVENT))).Ok?
  {
    EventIsValid();
    EventSize();
    var aad, text := Write(MetadataTree(MetadataOf(EVENT))), Write(EventTree(EVENT));
    BytesSize(aad);
    BytesSize(text);
    assert Size(PlainTree(Plain(aad, text))) == 1 + Size(BytesTree(aad)) + Size(BytesTree(text));
    hide ValidEvent, EventTree, MetadataTree, BytesTree, Base64Url.Encode;
    assert Plainly().eventJson.encode(EVENT) == text && Plainly().metadataJson.encode(MetadataOf(EVENT)) == aad;
  }

  /** The draft is encrypted and wrapped, and leaves a client that fits its snapshot. */
  lemma DraftIsWrapped() returns (submission: SubmitEvent)
    ensures EncryptDraft(Plainly(), JOINED, DRAFT).1.Ok?
    ensures ToSubmitEvent(EncryptDraft(Plainly(), JOINED, DRAFT).1.value, 300) == Ok(submission)
    ensures SmallClient(EncryptDraft(Plainly(), JOINED, DRAFT).0)
    ensures EncryptDraft(Plainly(), JOINED, DRAFT).0.deviceId == DEVICE
  {
    var mls := Plainly();
    EventSeals();
    hide EncodeEvent, Base64Url.FromBytes, Sealing;
    assert EventOf(JOINED, DRAFT) == Some(EVENT);
    assert EncryptObjection(mls, JOINED, EVENT).None? by { EventIsValid(); hide ValidEvent; }
    submission := ToSubmitEvent(Encrypt(mls, JOINED, EVENT).1.value, 300).value;
    var c := EncryptDraft(mls, JOINED, DRAFT).0;
    var state := c.channels[CHANNEL];
    assert c == WithChannel(JOINED, NO_VALUES, CHANNEL, state);
    assert state.seenEventIds == {4};
  }

  ghost function Saved(c: Client): Database
    requires EncodeSnapshot(Plainly(), c).Ok?
  {
    Database(map[], map[UuidText(DEVICE) := EncodeSnapshot(Plainly(), c).value], [])
  }

  lemma SavedIsInStep(c: Client)
    requires SmallClient(c) && c.deviceId == DEVICE && Loadable(Plainly(), c)
    ensures EncodeSnapshot(Plainly(), c).Ok? && Sound(Saved(c)) && InStep(Plainly(), c, Saved(c))
  {
    SmallEncodes(c);
    UuidTextIsAKey(DEVICE, DEVICE);
    hide ValidIdentifier, UuidText, SnapshotOf, Loadable;
  }

  /** One device, enrolled; the vault open. */
  ghost function Begun(): System
    requires EncodeSnapshot(Plainly(), ENROLLED).Ok?
  {
    System(Saved(ENROLLED), true, map[], NoFlush, {}, {}, EMPTY, History([], []),
           map[DEVICE := Member(ENROLLED, map[])], map[])
  }

  /** The client is in memory, as it is on disk. */
  ghost function Running(c: Client): System
    requires EncodeSnapshot(Plainly(), c).Ok?
  {
    System(Saved(c), true, map[DEVICE := c], NoFlush, {}, {}, EMPTY, History([], []),
           map[DEVICE := Member(c, map[])], map[])
  }

  lemma ClientsAreSmall()
    ensures SmallClient(ENROLLED) && SmallClient(JOINED)
    ensures Loadable(Plainly(), ENROLLED) && Loadable(Plainly(), JOINED)
    ensures EncodeSnapshot(Plainly(), ENROLLED).Ok? && EncodeSnapshot(Plainly(), JOINED).Ok?
  {
    assert JOINED.channels.Keys == {CHANNEL};
    hide EncodeSnapshot;
    SmallEncodes(ENROLLED);
    SmallEncodes(JOINED);
  }

  lemma Begins()
    ensures EncodeSnapshot(Plainly(), ENROLLED).Ok? && EncodeSnapshot(Plainly(), JOINED).Ok?
    ensures Initial(Plainly(), Begun())
  {
    hide EncodeSnapshot, UuidText, Sound, InStep, Loadable, SmallClient, Plainly;
    ClientsAreSmall();
    SavedIsInStep(ENROLLED);
    assert StartsAnew(Plainly(), Begun(), DEVICE);
  }

  lemma Loads(instanceMax: ServerTtl)
    requires EncodeSnapshot(Plainly(), ENROLLED).Ok?
    ensures Pipeline.Apply(Plainly(), instanceMax, Begun(), ClientLoads(DEVICE, false)) == Running(ENROLLED)
  {
    hide Load, EncodeSnapshot, UuidText, InStep, Lawful, Initial, SmallClient, Loadable, Plainly, Faithful;
    ClientsAreSmall();
    SavedIsInStep(ENROLLED);
    PlainlyIsLawful();
    LawfulCodecs(Plainly());
    ReloadRecovers(Plainly(), ENROLLED, Saved(ENROLLED));
  }

  lemma Joins(instanceMax: ServerTtl)
    requires EncodeSnapshot(Plainly(), ENROLLED).Ok? && EncodeSnapshot(Plainly(), JOINED).Ok?
    ensures Pipeline.Apply(Plainly(), instanceMax, Running(ENROLLED),
                           ClientActs(DEVICE, CreateChannel(COMMUNITY, CHANNEL), false, false)) == Running(JOINED)
  {
    UuidTextIsAKey(DEVICE, DEVICE);
    hide UuidText, ValidIdentifier, SnapshotOf, DecodeSnapshot;
    var mls, op := Plainly(), CreateChannel(COMMUNITY, CHANNEL);
    assert Operate(mls, ENROLLED, op) == (JOINED, Ok(None));
    var (db, saved) := StoreSnapshot(Saved(ENROLLED), true, UuidText(DEVICE), EncodeSnapshot(mls, JOINED).value, false);
    assert saved.Ok? && db == Saved(JOINED);
    assert Transact(mls, ENROLLED, Saved(ENROLLED), true, op, false) == (JOINED, Saved(JOINED), Ok(None));
  }

  /** Queueing from an empty outbox, with nothing in its way. */
  lemma QueueCommits(mls: Mls, c: Client, db: Database, draft: Draft, ttl: ServerTtl, submission: SubmitEvent)
    requires EncodeSnapshot(mls, c).Ok? && EncryptDraft(mls, c, draft).1.Ok?
    requires ToSubmitEvent(EncryptDraft(mls, c, draft).1.value, ttl) == Ok(submission)
    requires var c' := EncryptDraft(mls, c, draft).0;
             && EncodeSnapshot(mls, c').Ok? && ValidItem(OutboxItemOf(mls, c'.deviceId, submission))
    requires db.outbox == []
    ensures var c' := EncryptDraft(mls, c, draft).0;
            QueueOutgoing(mls, c, db, true, draft, ttl, None, None)
            == (c', Committed(db, EncodeSnapshot(mls, c').value, OutboxItemOf(mls, c'.deviceId, submission), None),
                Ok(submission))
  {
    hide SnapshotOf, EncryptDraft, ToSubmitEvent, ValidItem, OutboxItemOf;
  }

  lemma Queues(instanceMax: ServerTtl, s: System) returns (s': System, submission: SubmitEvent)
    requires EncodeSnapshot(Plainly(), JOINED).Ok?
    requires s.memory == map[DEVICE := JOINED] && s.members.Keys == {DEVICE} && s.unlocked
    requires s.db.outbox == [] && s.queued == map[]
    ensures s' == Pipeline.Apply(Plainly(), instanceMax, s, ClientQueues(DEVICE, DRAFT, 300, None, None, false))
    ensures s'.unlocked && s'.members.Keys == {DEVICE} && s'.history == s.history && |s'.db.outbox| == 1
    ensures s'.queued == map[DEVICE := [submission]]
  {
    hide *;
    submission := DraftIsWrapped();
    SmallEncodes(EncryptDraft(Plainly(), JOINED, DRAFT).0);
    ItemIsValid(submission);
    s' := QueuesFrom(Plainly(), instanceMax, s, JOINED, DEVICE, DRAFT, 300, submission);
  }

  lemma QueuesFrom(mls: Mls, instanceMax: ServerTtl, s: System, c: Client, device: Uuid, draft: Draft, ttl: ServerTtl,
                   submission: SubmitEvent)
    returns (s': System)
    requires s.memory == map[device := c] && s.members.Keys == {device} && s.unlocked
    requires s.db.outbox == [] && s.queued == map[]
    requires EncodeSnapshot(mls, c).Ok? && EncryptDraft(mls, c, draft).1.Ok?
    requires ToSubmitEvent(EncryptDraft(mls, c, draft).1.value, ttl) == Ok(submission)
    requires var c' := EncryptDraft(mls, c, draft).0;
             EncodeSnapshot(mls, c').Ok? && ValidItem(OutboxItemOf(mls, c'.deviceId, submission))
    ensures s' == Pipeline.Apply(mls, instanceMax, s, ClientQueues(device, draft, ttl, None, None, false))
    ensures s'.unlocked && s'.members.Keys == {device} && s'.history == s.history && |s'.db.outbox| == 1
    ensures s'.queued == map[device := [submission]]
  {
    QueueCommits(mls, c, s.db, draft, ttl, submission);
    QueueApplies(mls, instanceMax, s, device, draft, ttl);
    hide Pipeline.Apply, QueueOutgoing, Perform, EncodeSnapshot, EncryptDraft, ToSubmitEvent, OutboxItemOf, ValidItem;
    s' := Pipeline.Apply(mls, instanceMax, s, ClientQueues(device, draft, ttl, None, None, false));
    assert [] + [submission] == [submission];
  }

  lemma QueueApplies(mls: Mls, instanceMax: ServerTtl, s: System, device: Uuid, draft: Draft, ttl: ServerTtl)
    ensures Pipeline.Apply(mls, instanceMax, s, ClientQueues(device, draft, ttl, None, None, false))
            == QueueStep(mls, s, device, draft, ttl, None, None)
  {
    hide QueueStep;
  }

  lemma ItemIsValid(submission: SubmitEvent)
    ensures ValidItem(OutboxItemOf(Plainly(), DEVICE, submission))
  {
    UuidTextIsAKey(DEVICE, DEVICE);
    UuidTextIsAKey(submission.eventId, DEVICE);
    SubmitJson.FitsEverywhere(submission);
    hide UuidText, ValidIdentifier;
    assert Plainly().submitJson.encode(submission) == SubmitJson.ToVec(submission);
  }

  lemma JoinedIsReady()
    requires EncodeSnapshot(Plainly(), JOINED).Ok?
    ensures var s := Running(JOINED);
            && s.memory == map[DEVICE := JOINED] && s.members.Keys == {DEVICE} && s.unlocked
            && s.db.outbox == [] && s.queued == map[] && s.history == History([], [])
  {
    hide EncodeSnapshot, Plainly, UuidText;
  }

  /** Enrolled, loaded, a channel created, a message queued. */
  lemma SomethingIsQueued(instanceMax: ServerTtl) returns (life: seq<System>, submission: SubmitEvent)
    ensures Life(Plainly(), instanceMax, life) && |life| == 4
    ensures var s := life[3];
            && s.unlocked && s.members.Keys == {DEVICE} && s.history == History([], []) && |s.db.outbox| == 1
            && s.queued == map[DEVICE := [submission]]
  {
    hide *;
    Begins();
    JoinedIsReady();
    Loads(instanceMax);
    Joins(instanceMax);
    var s;
    s, submission := Queues(instanceMax, Running(JOINED));
    life := ShortLife(Plainly(), instanceMax, Begun(), ClientLoads(DEVICE, false), Running(ENROLLED),
                      ClientActs(DEVICE, CreateChannel(COMMUNITY, CHANNEL), false, false), Running(JOINED),
                      ClientQueues(DEVICE, DRAFT, 300, None, None, false), s);
  }

  /** The assumptions can be met, and under them something is committed, accepted and acknowledged. */
  lemma SomethingArrives(instanceMax: ServerTtl) returns (life: seq<System>)
    ensures Lawful(Plainly()) && Life(Plainly(), instanceMax, life)
    ensures var s := life[|life| - 1];
            && DEVICE in s.members && |QueueOf(s, DEVICE)| == 1
            && s.db.outbox == [] && AcceptedOf(s.history.log, DEVICE) == QueueOf(s, DEVICE)
  {
    PlainlyIsLawful();
    var queued, submission := SomethingIsQueued(instanceMax);
    NothingAcceptedYet(queued[3], submission);
    hide Lawful, Life, Plainly, AllDeliverable, AcceptedOf;
    life := EverythingCanArrive(Plainly(), instanceMax, queued, 0);
  }

  lemma ShortLife(mls: Mls, instanceMax: ServerTtl, a: System, first: Pipeline.Action, b: System,
                  second: Pipeline.Action, c: System, third: Pipeline.Action, d: System) returns (life: seq<System>)
    requires Initial(mls, a) && b == Pipeline.Apply(mls, instanceMax, a, first)
    requires c == Pipeline.Apply(mls, instanceMax, b, second) && d == Pipeline.Apply(mls, instanceMax, c, third)
    ensures Life(mls, instanceMax, life) && |life| == 4 && life[3] == d
  {
    hide Initial, Pipeline.Apply;
    life := [a, b, c, d];
    forall i | 0 <= i < |life| - 1
      ensures Steps(mls, instanceMax, life, i)
    {
      var action := if i == 0 then first else if i == 1 then second else third;
      assert life[i + 1] == Pipeline.Apply(mls, instanceMax, life[i], action);
    }
  }

  lemma NothingAcceptedYet(s: System, submission: SubmitEvent)
    requires s.members.Keys == {DEVICE} && s.history == History([], []) && s.queued == map[DEVICE := [submission]]
    ensures AllDeliverable(s, 0)
  {
    assert AcceptedOf(s.history.log, submission.senderDeviceId) == [];
  }
}
