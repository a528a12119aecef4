/**
 * Whole lives of persistent clients: any operations, succeeding or failing, persisted or
 * rolled back, with any messages the network cares to deliver.
 */
module MemberRuns {
  import opened Wrappers
  import opened Protocol
  import opened MlsTypes
  import opened Snapshot
  import opened VaultStore
  import opened ClientOperations
  import opened Persistence
  import opened RelayStore
  import opened SenderChains
  import Base64Url

  /** `persisted` is whether the vault took the new state; if it did not, the client rolled back. */
  datatype Action =
    | Act(op: Operation, persisted: bool)
    | Send(draft: Draft, persisted: bool)

  /** A client, and what each of its channels has sent and accepted so far. */
  datatype Member = Member(client: Client, pasts: map<Uuid, Past>)

  function PastIn(m: Member, channel: Uuid): Past {
    if channel in m.pasts then m.pasts[channel] else NOTHING
  }

  function Perform(mls: Mls, m: Member, action: Action): Member {
    match action
    case Act(op, persisted) =>
      var (c, r) := Operate(mls, m.client, op);
      if r.Err? || !persisted then m
      else if r.value.None? then m.(client := c)
      else
        var event := r.value.value;
        Member(c, m.pasts[event.channelId := Accepts(PastIn(m, event.channelId), event)])
    case Send(draft, persisted) =>
      var (c, r) := EncryptDraft(mls, m.client, draft);
      if r.Err? || !persisted then m
      else
        var event := EventOf(m.client, draft).value;
        Member(c, m.pasts[event.channelId := Sends(PastIn(m, event.channelId), event)])
  }

  lemma ActedClient(mls: Mls, m: Member, op: Operation, persisted: bool)
    ensures Perform(mls, m, Act(op, persisted)).client
            == if persisted && Operate(mls, m.client, op).1.Ok? then Operate(mls, m.client, op).0 else m.client
  {
    hide Operate;
  }

  lemma SendingClient(mls: Mls, m: Member, draft: Draft, persisted: bool)
    ensures Perform(mls, m, Send(draft, persisted)).client
            == if persisted && EncryptDraft(mls, m.client, draft).1.Ok? then EncryptDraft(mls, m.client, draft).0
               else m.client
  {
    hide EncryptDraft, EventOf;
  }

  /** `transact` on a vault is one such action, whatever fails on the way. */
  lemma TransactIsAnAction(mls: Mls, m: Member, db: Database, unlocked: bool, op: Operation, failing: bool)
    requires Lawful(mls) && InStep(mls, m.client, db)
    ensures var (c', db', r) := Transact(mls, m.client, db, unlocked, op, failing);
            c' == Perform(mls, m, Act(op, r.Ok?)).client && InStep(mls, c', db')
  {
    hide Operate, InStep, Lawful, Transact, Perform, EncodeSnapshot;
    TransactIsAtomic(mls, m.client, db, unlocked, op, failing);
    ActedClient(mls, m, op, Transact(mls, m.client, db, unlocked, op, failing).2.Ok?);
  }

  lemma QueueIsAnAction(mls: Mls, m: Member, db: Database, unlocked: bool, draft: Draft, ttl: ServerTtl,
                        message: Option<VaultMessage>, failing: Option<Statement>)
    requires Lawful(mls) && InStep(mls, m.client, db)
    ensures var (c', db', r) := QueueOutgoing(mls, m.client, db, unlocked, draft, ttl, message, failing);
            c' == Perform(mls, m, Send(draft, r.Ok?)).client && InStep(mls, c', db')
  {
    hide EncryptDraft, EventOf, InStep, Lawful, QueueOutgoing, Perform, EncodeSnapshot, ToSubmitEvent, FindEvent,
      OutboxItemOf;
    QueueIsAtomic(mls, m.client, db, unlocked, draft, ttl, message, failing);
    SendingClient(mls, m, draft, QueueOutgoing(mls, m.client, db, unlocked, draft, ttl, message, failing).2.Ok?);
  }

  function Run(mls: Mls, start: Member, actions: seq<Action>): Member {
    if actions == [] then start
    else Perform(mls, Run(mls, start, actions[..|actions| - 1]), actions[|actions| - 1])
  }

  /** A device that has no channels yet. */
  ghost predicate Unjoined(m: Member) { m.client.channels == map[] && m.pasts == map[] }

  ghost predicate Consistent(mls: Mls, m: Member, n: nat) {
    && (forall channel | channel in m.pasts :: channel in m.client.channels)
    && (forall channel | channel in m.client.channels ::
          && Remembers(mls, m.client.channels[channel], PastIn(m, channel))
          && ShorterThan(PastIn(m, channel), n)
          && Conserved(m.client.channels[channel]))
  }

  function Without(chains: map<Uuid, SenderChain>, device: Uuid): map<Uuid, SenderChain> {
    map d | d in chains && d != device :: chains[d]
  }

  ghost function SumOfCounters(chains: map<Uuid, SenderChain>): nat {
    if chains == map[] then 0 else
      var device :| device in chains;
      chains[device].counter + SumOfCounters(Without(chains, device))
  }

  function OutgoingCounter(state: ChannelState): nat {
    if state.outgoingChain.None? then 0 else state.outgoingChain.value.counter
  }

  /** Each event ID counted as seen is one step of one chain. */
  ghost predicate Conserved(state: ChannelState) {
    |state.seenEventIds| == OutgoingCounter(state) + SumOfCounters(state.incomingChains)
  }

  lemma {:induction false} SumWithout(chains: map<Uuid, SenderChain>, device: Uuid)
    requires device in chains
    ensures SumOfCounters(chains)
            == chains[device].counter + SumOfCounters(Without(chains, device))
    decreases chains
  {
    var first :| first in chains
                 && SumOfCounters(chains) == chains[first].counter + SumOfCounters(Without(chains, first));
    if first != device {
      SumWithout(Without(chains, first), device);
      SumWithout(Without(chains, device), first);
      assert Without(Without(chains, first), device) == Without(Without(chains, device), first);
    }
  }

  lemma SumUpdated(chains: map<Uuid, SenderChain>, device: Uuid, chain: SenderChain)
    ensures SumOfCounters(chains[device := chain]) + (if device in chains then chains[device].counter else 0)
            == SumOfCounters(chains) + chain.counter
  {
    var updated := chains[device := chain];
    SumWithout(updated, device);
    assert Without(updated, device) == Without(chains, device);
    if device in chains {
      SumWithout(chains, device);
    } else {
      assert Without(chains, device) == chains;
    }
  }

  /** Sending keeps the count exactly as long as the counter is not saturated. */
  lemma SendConserves(mls: Mls, state: ChannelState, group: Group, event: PlaintextEvent)
    requires Conserved(state) && Continues(state.outgoingChain, event) && event.eventId !in state.seenEventIds
    ensures Conserved(Sent(mls, state, group, event)) <==> OutgoingCounter(state) < U64_MAX
  {
  }

  /** So does receiving, in the sender's counter. */
  lemma ReceiveConserves(mls: Mls, state: ChannelState, event: PlaintextEvent)
    requires Conserved(state) && RecordIncoming(mls, state, event).Ok?
    ensures Conserved(RecordIncoming(mls, state, event).value) <==>
            IncomingChain(state, event.senderDeviceId).Some? ==>
              state.incomingChains[event.senderDeviceId].counter < U64_MAX
  {
    hide SumOfCounters;
    SumUpdated(state.incomingChains, event.senderDeviceId, SenderChain(event.senderCounter, HashOf(mls, event)));
  }

  /** What a successful decryption is: an event the library opened, recorded in its channel. */
  lemma OpenRecords(mls: Mls, c: Client, channel: Uuid, message: Bytes, delivered: Option<DeliveredEvent>)
    returns (group: Group)
    requires Open(mls, c, channel, message, delivered).1.Ok?
    ensures var (c', r) := Open(mls, c, channel, message, delivered);
            && channel in c.channels && r.value.channelId == channel
            && var recorded := RecordIncoming(mls, c.channels[channel].(group := group), r.value);
               recorded.Ok? && c'.channels == c.channels[channel := recorded.value]
  {
    hide RecordIncoming, DecodeEvent;
    group := mls.process(c.provider, c.channels[channel].group, message).group;
  }

  /** A successful operation changes one channel: a new one, or the one an event was recorded in. */
  lemma OperateRecords(mls: Mls, c: Client, op: Operation) returns (id: Uuid, community: Uuid, group: Group)
    requires Operate(mls, c, op).1.Ok?
    ensures var (c', r) := Operate(mls, c, op);
            && (r.value.None? <==> op.CreateChannel? || op.JoinChannel?)
            && (r.value.None? ==>
                  && id == op.channelId && community == op.communityId
                  && id !in c.channels && c'.channels == c.channels[id := NewChannel(community, group)])
            && (r.value.Some? ==>
                  && id == r.value.value.channelId && id in c.channels
                  && var recorded := RecordIncoming(mls, c.channels[id].(group := group), r.value.value);
                     recorded.Ok? && c'.channels == c.channels[id := recorded.value])
  {
    community, group := 0, [];
    match op
    case CreateChannel(of, joining) =>
      id, community, group := joining, of, mls.found(c.provider, c.signer, joining).group.value;
    case JoinChannel(of, joining, welcome) =>
      id, community, group := joining, of, mls.welcome(c.provider, welcome).group.value;
    case Decrypt(channel, message) =>
      id := channel;
      group := OpenRecords(mls, c, channel, message, None);
    case DecryptDelivered(delivered) =>
      id := delivered.receipt.channelId;
      group := OpenRecords(mls, c, id, Base64Url.DecodeMessage(delivered.mlsMessage, true).value, Some(delivered));
  }

  lemma NewChannelIsConsistent(mls: Mls, community: Uuid, group: Group, n: nat)
    requires n > 0
    ensures Remembers(mls, NewChannel(community, group), NOTHING) && ShorterThan(NOTHING, n)
    ensures Conserved(NewChannel(community, group))
  {
  }

  lemma ReceiveIsConsistent(mls: Mls, state: ChannelState, past: Past, group: Group, event: PlaintextEvent, n: nat)
    requires Remembers(mls, state, past) && ShorterThan(past, n) && 0 < n <= U64_MAX && Conserved(state)
    requires RecordIncoming(mls, state.(group := group), event).Ok?
    ensures var state' := RecordIncoming(mls, state.(group := group), event).value;
            && Remembers(mls, state', Accepts(past, event)) && ShorterThan(Accepts(past, event), n + 1)
            && Conserved(state')
  {
    var moved := state.(group := group);
    assert |AcceptedFrom(past, event.senderDeviceId)| < n;
    RememberedChain(mls, state, past, event.senderDeviceId);
    CounterIsLength(mls, AcceptedFrom(past, event.senderDeviceId));
    hide ChainValid, ChainOf, SumOfCounters, RecordIncoming;
    assert Remembers(mls, moved, past) by {
      RemembersWithoutGroup(mls, state, past, group);
    }
    AcceptRemembers(mls, moved, past, event);
    ReceiveConserves(mls, moved, event);
  }

  lemma RemembersWithoutGroup(mls: Mls, state: ChannelState, past: Past, group: Group)
    requires Remembers(mls, state, past)
    ensures Remembers(mls, state.(group := group), past)
  {
    hide ChainValid, ChainOf;
    forall device: Uuid
      ensures IncomingChain(state.(group := group), device) == IncomingChain(state, device)
    {
    }
  }

  lemma CounterIsLength(mls: Mls, events: seq<PlaintextEvent>)
    requires ChainValid(mls, events)
    ensures ChainOf(mls, events).None? <==> events == []
    ensures ChainOf(mls, events).Some? ==> ChainOf(mls, events).value.counter == |events|
  {
    if events != [] {
      assert Linked(mls, events, |events| - 1);
    }
  }

  lemma SendIsConsistent(mls: Mls, state: ChannelState, past: Past, group: Group, event: PlaintextEvent, n: nat)
    requires Remembers(mls, state, past) && ShorterThan(past, n) && 0 < n <= U64_MAX && Conserved(state)
    requires Continues(state.outgoingChain, event) && event.eventId !in state.seenEventIds
    requires EncodeEvent(mls, event).Ok? && event.communityId == state.communityId
    ensures var state' := Sent(mls, state, group, event);
            Remembers(mls, state', Sends(past, event)) && ShorterThan(Sends(past, event), n + 1) && Conserved(state')
  {
    CounterIsLength(mls, past.sent);
    SendRemembers(mls, state, past, group, event);
    SendConserves(mls, state, group, event);
  }

  /** One channel has changed, consistently; the others have not. */
  lemma OneChannelChanged(mls: Mls, m: Member, m': Member, id: Uuid, state: ChannelState, past: Past, n: nat)
    requires Consistent(mls, m, n)
    requires m'.client.channels == m.client.channels[id := state] && PastIn(m', id) == past
    requires forall other: Uuid | other != id :: PastIn(m', other) == PastIn(m, other)
    requires forall other | other in m'.pasts :: other in m.pasts || other == id
    requires Remembers(mls, state, past) && ShorterThan(past, n + 1) && Conserved(state)
    ensures Consistent(mls, m', n + 1)
  {
    hide Remembers, Conserved;
  }

  lemma ActIsConsistent(mls: Mls, m: Member, op: Operation, n: nat)
    requires Consistent(mls, m, n) && 0 < n <= U64_MAX && Operate(mls, m.client, op).1.Ok?
    ensures Consistent(mls, Perform(mls, m, Act(op, true)), n + 1)
  {
    hide Operate, Remembers, Conserved, RecordIncoming, ShorterThan;
    var id, community, group := OperateRecords(mls, m.client, op);
    var m', r := Perform(mls, m, Act(op, true)), Operate(mls, m.client, op).1.value;
    if r.None? {
      NewChannelIsConsistent(mls, community, group, n + 1);
      OneChannelChanged(mls, m, m', id, NewChannel(community, group), NOTHING, n);
    } else {
      var state' := RecordIncoming(mls, m.client.channels[id].(group := group), r.value).value;
      ReceiveIsConsistent(mls, m.client.channels[id], PastIn(m, id), group, r.value, n);
      OneChannelChanged(mls, m, m', id, state', Accepts(PastIn(m, id), r.value), n);
    }
  }

  /** If the action is to create or join the channel, it is under this community. */
  predicate JoinsUnder(action: Action, channel: Uuid, community: Uuid) {
    action.Act? && (action.op.CreateChannel? || action.op.JoinChannel?) && action.op.channelId == channel ==>
      action.op.communityId == community
  }

  predicate InCommunity(c: Client, channel: Uuid, community: Uuid) {
    channel in c.channels ==> c.channels[channel].communityId == community
  }

  /** A channel stays in the community it was created or joined under. */
  lemma PerformKeepsCommunity(mls: Mls, m: Member, action: Action, channel: Uuid, community: Uuid)
    requires JoinsUnder(action, channel, community) && InCommunity(m.client, channel, community)
    ensures InCommunity(Perform(mls, m, action).client, channel, community)
  {
    hide Operate, EncryptDraft, EventOf, Continues, EncodeEvent;
    match action
    case Act(op, persisted) =>
      if persisted && Operate(mls, m.client, op).1.Ok? {
        var _, _, _ := OperateRecords(mls, m.client, op);
      }
    case Send(draft, persisted) =>
      if persisted && EncryptDraft(mls, m.client, draft).1.Ok? {
        var _ := EncryptSends(mls, m.client, draft);
      }
  }

  lemma SendStepIsConsistent(mls: Mls, m: Member, draft: Draft, n: nat)
    requires Consistent(mls, m, n) && 0 < n <= U64_MAX && EncryptDraft(mls, m.client, draft).1.Ok?
    ensures Consistent(mls, Perform(mls, m, Send(draft, true)), n + 1)
  {
    hide EncryptDraft, EventOf, Remembers, Conserved, ShorterThan, Continues;
    var group := EncryptSends(mls, m.client, draft);
    var m', event := Perform(mls, m, Send(draft, true)), EventOf(m.client, draft).value;
    var id := event.channelId;
    SendIsConsistent(mls, m.client.channels[id], PastIn(m, id), group, event, n);
    OneChannelChanged(mls, m, m', id, Sent(mls, m.client.channels[id], group, event), Sends(PastIn(m, id), event), n);
  }

  lemma PerformIsConsistent(mls: Mls, m: Member, action: Action, n: nat)
    requires Consistent(mls, m, n) && 0 < n <= U64_MAX
    ensures Consistent(mls, Perform(mls, m, action), n + 1)
  {
    hide Operate, EncryptDraft, Remembers, Conserved;
    match action
    case Act(op, persisted) =>
      if persisted && Operate(mls, m.client, op).1.Ok? {
        ActIsConsistent(mls, m, op, n);
      }
    case Send(draft, persisted) =>
      if persisted && EncryptDraft(mls, m.client, draft).1.Ok? {
        SendStepIsConsistent(mls, m, draft, n);
      }
  }

  lemma EncryptSends(mls: Mls, c: Client, draft: Draft) returns (group: Group)
    requires EncryptDraft(mls, c, draft).1.Ok?
    ensures EventOf(c, draft).Some?
    ensures var c', event := EncryptDraft(mls, c, draft).0, EventOf(c, draft).value;
            && event.channelId in c.channels && event.senderDeviceId == c.deviceId
            && Continues(c.channels[event.channelId].outgoingChain, event)
            && event.eventId !in c.channels[event.channelId].seenEventIds
            && EncodeEvent(mls, event).Ok? && event.communityId == c.channels[event.channelId].communityId
            && c'.channels == c.channels[event.channelId := Sent(mls, c.channels[event.channelId], group, event)]
  {
    hide ValidEvent, EncodeEvent;
    var event := EventOf(c, draft).value;
    group := mls.create(c.provider, c.signer, c.channels[event.channelId].group,
                        mls.metadataJson.encode(MetadataOf(event)), mls.eventJson.encode(event)).group;
  }

  /**
   * Over any life shorter than 2^64-1 actions, every channel's chains are exactly those of what
   * it sent and accepted, and its seen IDs are as many as all its counters together.
   */
  lemma {:induction false} RunIsConsistent(mls: Mls, start: Member, actions: seq<Action>)
    requires Unjoined(start) && |actions| < U64_MAX
    ensures Consistent(mls, Run(mls, start, actions), |actions| + 1)
  {
    hide Consistent, Perform, Unjoined;
    if actions == [] {
      assert Consistent(mls, start, 1) by { UnjoinedIsConsistent(mls, start); }
    } else {
      RunIsConsistent(mls, start, actions[..|actions| - 1]);
      PerformIsConsistent(mls, Run(mls, start, actions[..|actions| - 1]), actions[|actions| - 1], |actions|);
    }
  }

  lemma UnjoinedIsConsistent(mls: Mls, start: Member)
    requires Unjoined(start)
    ensures Consistent(mls, start, 1)
  {
  }
}
