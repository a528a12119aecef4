/**
 * What is assumed of the libraries can be had: a library whose groups have no state satisfies
 * `MlsTypes.Lawful`, and opens everywhere what it has sealed.
 */
module PlainLibrary {
  import opened Wrappers
  import opened Protocol
  import opened MlsTypes
  import opened ClientOperations
  import opened Trees
  import opened EndToEnd
  import opened Completeness
  import SubmitReader
  import Base64Url

  function IdTree(id: Uuid): Tree { Leaf(id) }

  function SignedTree(n: I64): Tree { if n >= 0 then Leaf(n as int) else Branch(Leaf(0), Leaf(-(n as int))) }

  function CharTree(c: char): Tree { Leaf(c as int) }

  function ByteTree(b: Byte): Tree { Leaf(b) }

  function BytesTree(b: Bytes): Tree { ListTree(b, ByteTree) }

  function DigestTree(d: Digest): Tree { BytesTree(d) }

  lemma BytesTreeIsInjective()
    ensures Injective(BytesTree) && Injective(DigestTree)
  {
    forall a: Bytes, b: Bytes | BytesTree(a) == BytesTree(b)
      ensures a == b
    {
      ListTreeIsInjective(a, b, ByteTree);
    }
    assert forall a: Digest, b: Digest :: DigestTree(a) == DigestTree(b) ==> BytesTree(a) == BytesTree(b);
  }

  function ReferencesTree(r: EventReferences): Tree {
    Branch(OptionTree(r.replyTo, IdTree), Branch(OptionTree(r.replacing, IdTree), OptionTree(r.deleting, IdTree)))
  }

  function EventTree(e: PlaintextEvent): Tree {
    Branch(Branch(Branch(Leaf(e.schemaVersion), Leaf(e.eventId)), Branch(Leaf(e.communityId), Leaf(e.channelId))),
           Branch(Branch(Branch(Leaf(e.senderDeviceId), Leaf(e.senderCounter)),
                         Branch(SignedTree(e.createdAtMs), OptionTree(e.previousEventHash, DigestTree))),
                  Branch(ReferencesTree(e.references), ListTree(e.body, CharTree))))
  }

  lemma EventTreeIsInjective()
    ensures Injective(EventTree)
  {
    BytesTreeIsInjective();
    hide BytesTree, DigestTree, ListTree;
    forall a: PlaintextEvent, b: PlaintextEvent | EventTree(a) == EventTree(b)
      ensures a == b
    {
      ListTreeIsInjective(a.body, b.body, CharTree);
    }
  }

  function MetadataTree(m: Metadata): Tree {
    Branch(Branch(Branch(Leaf(m.version), Leaf(m.eventId)), Branch(Leaf(m.communityId), Leaf(m.channelId))),
           Branch(Branch(Leaf(m.senderDeviceId), Leaf(m.senderCounter)), Leaf(m.eventSchemaVersion)))
  }

  function ChainTree(c: SenderChain): Tree { Branch(Leaf(c.counter), DigestTree(c.eventHash)) }

  function IncomingTree(i: IncomingChainSnapshot): Tree { Branch(Leaf(i.senderDeviceId), ChainTree(i.chain)) }

  function ChannelTree(c: ChannelSnapshot): Tree {
    Branch(Branch(Branch(Leaf(c.communityId), Leaf(c.channelId)), OptionTree(c.outgoingChain, ChainTree)),
           Branch(ListTree(c.incomingChains, IncomingTree), ListTree(c.seenEventIds, IdTree)))
  }

  lemma ChannelTreeIsInjective()
    ensures Injective(ChannelTree)
  {
    BytesTreeIsInjective();
    hide BytesTree, DigestTree, ListTree;
    assert Injective(IncomingTree) && Injective(IdTree);
    forall a: ChannelSnapshot, b: ChannelSnapshot | ChannelTree(a) == ChannelTree(b)
      ensures a == b
    {
      ListTreeIsInjective(a.incomingChains, b.incomingChains, IncomingTree);
      ListTreeIsInjective(a.seenEventIds, b.seenEventIds, IdTree);
    }
  }

  function ValueTree(v: ProviderValue): Tree { Branch(BytesTree(v.key), BytesTree(v.value)) }

  function SnapshotTree(s: ClientSnapshot): Tree {
    Branch(Branch(Leaf(s.version), Leaf(s.deviceId)),
           Branch(BytesTree(s.signerPublicKey),
                  Branch(ListTree(s.providerValues, ValueTree), ListTree(s.channels, ChannelTree))))
  }

  lemma SnapshotTreeIsInjective()
    ensures Injective(SnapshotTree)
  {
    BytesTreeIsInjective();
    ChannelTreeIsInjective();
    hide BytesTree, DigestTree, ListTree, ChannelTree;
    assert Injective(ValueTree);
    forall a: ClientSnapshot, b: ClientSnapshot | SnapshotTree(a) == SnapshotTree(b)
      ensures a == b
    {
      ListTreeIsInjective(a.providerValues, b.providerValues, ValueTree);
      ListTreeIsInjective(a.channels, b.channels, ChannelTree);
    }
  }

  /** A message: the authenticated data and the plaintext. */
  datatype Plain = Plain(aad: Bytes, text: Bytes)

  function PlainTree(m: Plain): Tree { Branch(BytesTree(m.aad), BytesTree(m.text)) }

  ghost function Sealing(aad: Bytes, text: Bytes): Bytes { Write(PlainTree(Plain(aad, text))) }

  ghost function FrameOf(message: Bytes): Option<Frame> {
    match Decoded(PlainTree, message)
    case None => None
    case Some(m) =>
      var metadata := Decoded(MetadataTree, m.aad);
      Some(PrivateMessage(if metadata.None? then None else Some(metadata.value.channelId), m.aad))
  }

  ghost function ContentIn(message: Bytes): Option<Content> {
    match Decoded(PlainTree, message)
    case None => None
    case Some(m) =>
      var metadata := Decoded(MetadataTree, m.aad);
      Some(Content(true, if metadata.None? then None else Some(metadata.value.senderDeviceId), m.aad, Some(m.text)))
  }

  const NO_DIGEST: Digest := seq(32, i => 0)

  const NO_GROUP: Option<Group> := Some([])

  ghost function Plainly(): Mls {
    Mls((b: Bytes) => NO_DIGEST,
        TreeCodec(EventTree), TreeCodec(MetadataTree), SubmitReader.CanonicalCodec(), TreeCodec(SnapshotTree),
        (message: Bytes) => FrameOf(message),
        (p: Provider, s: Signer, g: Group, aad: Bytes, text: Bytes) => Sealed(p, g, SealedAs(Sealing(aad, text))),
        (p: Provider, g: Group, message: Bytes) => Opened(p, g, ContentIn(message)),
        (p: Provider, id: Uuid) => NO_GROUP,
        (p: Provider, key: Bytes) => Some(Signer(key, [])),
        (p: Provider, s: Signer, id: Uuid) => Admission(p, NO_GROUP, Some(id)),
        (p: Provider, welcome: Bytes) => Admission(p, None, None))
  }

  lemma PlainlyIsLawful()
    ensures Lawful(Plainly())
  {
    EventTreeIsInjective();
    SnapshotTreeIsInjective();
    assert Injective(MetadataTree);
    TreeCodecIsFaithful(EventTree);
    TreeCodecIsFaithful(MetadataTree);
    TreeCodecIsFaithful(SnapshotTree);
    SubmitReader.CanonicalCodecIsFaithful();
    hide Faithful, Injective;
  }

  /** It opens at every member of a channel whatever was sealed for an event there. */
  lemma PlainlyOpens(c: Client, delivered: DeliveredEvent, event: PlaintextEvent)
    requires event.channelId in c.channels
    ensures OpensWhatWasSealed(Plainly(), c, delivered, event)
  {
    var mls := Plainly();
    BytesTreeIsInjective();
    assert Injective(PlainTree) && Injective(MetadataTree);
    TreeCodecIsFaithful(PlainTree);
    TreeCodecIsFaithful(MetadataTree);
    var aad, text := mls.metadataJson.encode(MetadataOf(event)), mls.eventJson.encode(event);
    assert TreeCodec(PlainTree).decode(TreeCodec(PlainTree).encode(Plain(aad, text))) == Some(Plain(aad, text));
    assert mls.metadataJson.decode(aad) == Some(MetadataOf(event));
    assert Decoded(PlainTree, Sealing(aad, text)) == Some(Plain(aad, text));
    assert Decoded(MetadataTree, aad) == Some(MetadataOf(event));
    assert text == Write(EventTree(event)) && |text| == Size(EventTree(event)) > 0;
    hide Injective, Faithful, Decoded, Write, Continues, EventTree, MetadataTree;
    forall message: Bytes | Encrypted(mls, event, message)
      ensures OpensAsSealed(mls, c, event.senderDeviceId, event, message)
    {
      assert message == Sealing(aad, text);
    }
  }
}
