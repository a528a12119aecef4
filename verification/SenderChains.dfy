/**
 * Sender chains end to end (crates/singularis-mls/src/client.rs:328-376, 401-461, 842-868):
 * what a counter and a hash say about the events behind them.
 */
module SenderChains {
  import opened Wrappers
  import opened Protocol
  import opened MlsTypes
  import opened ClientOperations

  ghost predicate Linked(mls: Mls, events: seq<PlaintextEvent>, i: nat)
    requires i < |events|
  {
    && events[i].senderCounter == i + 1
    && events[i].previousEventHash == if i == 0 then None else Some(HashOf(mls, events[i - 1]))
  }

  /** Counters 1, 2, 3, … and each event carries the hash of the one before it. */
  ghost predicate ChainValid(mls: Mls, events: seq<PlaintextEvent>) {
    forall i | 0 <= i < |events| :: Linked(mls, events, i)
  }

  lemma ChainPrefix(mls: Mls, events: seq<PlaintextEvent>, n: nat)
    requires ChainValid(mls, events) && n <= |events|
    ensures ChainValid(mls, events[..n])
  {
    forall i | 0 <= i < n
      ensures Linked(mls, events[..n], i)
    {
      assert Linked(mls, events, i);
    }
  }

  /** The chain state after these events. */
  ghost function ChainOf(mls: Mls, events: seq<PlaintextEvent>): Option<SenderChain>
    requires ChainValid(mls, events)
  {
    if events == [] then None
    else Some(SenderChain(events[|events| - 1].senderCounter, HashOf(mls, events[|events| - 1])))
  }

  /** Below 2^64-1 events, what continues the chain state extends the chain. */
  lemma ContinuingExtends(mls: Mls, events: seq<PlaintextEvent>, next: PlaintextEvent)
    requires ChainValid(mls, events) && |events| < U64_MAX
    ensures Continues(ChainOf(mls, events), next) <==> ChainValid(mls, events + [next])
    ensures ChainValid(mls, events + [next]) ==>
              ChainOf(mls, events + [next]) == Some(SenderChain(next.senderCounter, HashOf(mls, next)))
  {
    var longer := events + [next];
    assert longer[..|events|] == events;
    if events != [] {
      assert Linked(mls, events, |events| - 1);
    }
    if Continues(ChainOf(mls, events), next) {
      forall i | 0 <= i < |longer|
        ensures Linked(mls, longer, i)
      {
        if i < |events| {
          assert Linked(mls, events, i);
        }
      }
    }
    if ChainValid(mls, longer) {
      assert Linked(mls, longer, |events|);
    }
  }

  /**
   * At 2^64-1 the counter saturates: the next event the code asks for repeats it, and no such
   * event extends the chain.
   */
  lemma SaturatedChainStopsCounting(mls: Mls, events: seq<PlaintextEvent>, next: PlaintextEvent)
    requires ChainValid(mls, events) && |events| == U64_MAX && Continues(ChainOf(mls, events), next)
    ensures next.senderCounter == events[|events| - 1].senderCounter
    ensures !ChainValid(mls, events + [next])
  {
    assert Linked(mls, events, |events| - 1);
    assert (events + [next])[|events|] == next;
    assert !Linked(mls, events + [next], |events|);
  }

  /** Two different events with one hash. */
  ghost predicate Collision(mls: Mls, a: PlaintextEvent, b: PlaintextEvent) {
    && a != b && mls.eventJson.encode(a) != mls.eventJson.encode(b)
    && mls.sha256(mls.eventJson.encode(a)) == mls.sha256(mls.eventJson.encode(b))
  }

  /**
   * Two histories of a sender that end in the same chain state are the same history, however
   * the sender equivocated, unless at some position they hold a collision of SHA-256.
   */
  lemma {:induction false} SameChainSameHistory(mls: Mls, a: seq<PlaintextEvent>, b: seq<PlaintextEvent>)
    requires Faithful(mls.eventJson)
    requires ChainValid(mls, a) && ChainValid(mls, b) && ChainOf(mls, a) == ChainOf(mls, b)
    ensures a == b || exists i | 0 <= i < |a| == |b| :: Collision(mls, a[i], b[i])
  {
    if a != [] {
      var last := |a| - 1;
      assert Linked(mls, a, last) && Linked(mls, b, |b| - 1);
      assert |b| == |a|;
      if a[last] != b[last] {
        assert mls.eventJson.decode(mls.eventJson.encode(a[last]))
               != mls.eventJson.decode(mls.eventJson.encode(b[last]));
        assert Collision(mls, a[last], b[last]);
      } else {
        ChainPrefix(mls, a, last);
        ChainPrefix(mls, b, last);
        if last > 0 {
          assert Linked(mls, a, last - 1) && Linked(mls, b, last - 1);
        }
        hide HashOf, ChainValid, Collision;
        SameChainSameHistory(mls, a[..last], b[..last]);
        if a[..last] == b[..last] {
          assert a == a[..last] + [a[last]] && b == b[..last] + [b[last]];
        } else {
          var i :| 0 <= i < last && Collision(mls, a[..last][i], b[..last][i]);
          assert Collision(mls, a[i], b[i]);
        }
      }
    }
  }

  /** What one channel of a client has sent, and accepted from each device. */
  datatype Past = Past(sent: seq<PlaintextEvent>, accepted: map<Uuid, seq<PlaintextEvent>>)

  const NOTHING := Past([], map[])

  function AcceptedFrom(past: Past, device: Uuid): seq<PlaintextEvent> {
    if device in past.accepted then past.accepted[device] else []
  }

  function Sends(past: Past, event: PlaintextEvent): Past { past.(sent := past.sent + [event]) }

  function Accepts(past: Past, event: PlaintextEvent): Past {
    past.(accepted := past.accepted[event.senderDeviceId := AcceptedFrom(past, event.senderDeviceId) + [event]])
  }

  /** The event is in the past, sent or accepted. */
  ghost predicate InPast(past: Past, event: PlaintextEvent) {
    event in past.sent || exists device | device in past.accepted :: event in past.accepted[device]
  }

  ghost predicate Named(past: Past, id: EventId) {
    exists event: PlaintextEvent :: InPast(past, event) && event.eventId == id
  }

  ghost predicate DistinctIds(events: seq<PlaintextEvent>) {
    forall i, j | 0 <= i < j < |events| :: events[i].eventId != events[j].eventId
  }

  /** The channel's chains are those of its past, and what counts as seen is what is in the past. */
  ghost predicate Remembers(mls: Mls, state: ChannelState, past: Past) {
    && ChainValid(mls, past.sent) && state.outgoingChain == ChainOf(mls, past.sent) && DistinctIds(past.sent)
    && (forall id | id in state.seenEventIds :: Named(past, id))
    && (forall event | event in past.sent ::
          event.eventId in state.seenEventIds && event.communityId == state.communityId && EncodeEvent(mls, event).Ok?)
    && (forall device: Uuid ::
          && ChainValid(mls, AcceptedFrom(past, device))
          && IncomingChain(state, device) == ChainOf(mls, AcceptedFrom(past, device))
          && (forall event | event in AcceptedFrom(past, device) ::
                event.senderDeviceId == device && event.eventId in state.seenEventIds))
  }

  ghost predicate ShorterThan(past: Past, n: nat) {
    |past.sent| < n && forall device | device in past.accepted :: |past.accepted[device]| < n
  }

  lemma NamedAfter(past: Past, past': Past, event: PlaintextEvent, seen: set<EventId>)
    requires past' == Sends(past, event) || past' == Accepts(past, event)
    requires forall id | id in seen :: Named(past, id)
    ensures forall id | id in seen + {event.eventId} :: Named(past', id)
  {
    assert event in past'.sent || event in AcceptedFrom(past', event.senderDeviceId);
    assert InPast(past', event);
    forall id | id in seen
      ensures Named(past', id)
    {
      var earlier: PlaintextEvent :| InPast(past, earlier) && earlier.eventId == id;
      if earlier !in past.sent {
        var device :| device in past.accepted && earlier in past.accepted[device];
        assert device in past'.accepted && earlier in past'.accepted[device];
      }
      assert InPast(past', earlier);
    }
  }

  lemma DistinctAfter(events: seq<PlaintextEvent>, event: PlaintextEvent, seen: set<EventId>)
    requires DistinctIds(events) && event.eventId !in seen
    requires forall earlier | earlier in events :: earlier.eventId in seen
    ensures DistinctIds(events + [event])
  {
    assert forall i | 0 <= i < |events| :: events[i] in events;
  }

  lemma SendRemembers(mls: Mls, state: ChannelState, past: Past, group: Group, event: PlaintextEvent)
    requires Remembers(mls, state, past) && |past.sent| < U64_MAX && Continues(state.outgoingChain, event)
    requires EncodeEvent(mls, event).Ok? && event.eventId !in state.seenEventIds
    requires event.communityId == state.communityId
    ensures Remembers(mls, Sent(mls, state, group, event), Sends(past, event))
  {
    ContinuingExtends(mls, past.sent, event);
    var state', past' := Sent(mls, state, group, event), Sends(past, event);
    hide ChainValid, ChainOf, HashOf, Continues, EncodeEvent;
    NamedAfter(past, past', event, state.seenEventIds);
    DistinctAfter(past.sent, event, state.seenEventIds);
    hide Named, DistinctIds;
    forall device: Uuid
      ensures AcceptedFrom(past', device) == AcceptedFrom(past, device)
      ensures IncomingChain(state', device) == IncomingChain(state, device)
    {
    }
  }

  lemma AcceptRemembers(mls: Mls, state: ChannelState, past: Past, event: PlaintextEvent)
    requires Remembers(mls, state, past) && RecordIncoming(mls, state, event).Ok?
    requires |AcceptedFrom(past, event.senderDeviceId)| < U64_MAX
    ensures Remembers(mls, RecordIncoming(mls, state, event).value, Accepts(past, event))
  {
    var state', past' := RecordIncoming(mls, state, event).value, Accepts(past, event);
    ContinuingExtends(mls, AcceptedFrom(past, event.senderDeviceId), event);
    assert Continues(IncomingChain(state, event.senderDeviceId), event);
    hide ChainValid, ChainOf, HashOf, Continues;
    NamedAfter(past, past', event, state.seenEventIds);
    hide Named;
    forall device: Uuid | device != event.senderDeviceId
      ensures AcceptedFrom(past', device) == AcceptedFrom(past, device)
      ensures IncomingChain(state', device) == IncomingChain(state, device)
    {
    }
  }

  /**
   * Of the events a device committed, a receiver takes exactly the one after those it has
   * taken: never one out of order, never one again, and not for want of the chain.
   */
  lemma AcceptsExactlyTheNext(mls: Mls, state: ChannelState, past: Past, device: Uuid,
                              committed: seq<PlaintextEvent>, j: nat)
    requires Remembers(mls, state, past) && ChainValid(mls, committed)
    requires AcceptedFrom(past, device) <= committed && j < |committed|
    requires committed[j].senderDeviceId == device && EncodeEvent(mls, committed[j]).Ok?
    ensures RecordIncoming(mls, state, committed[j]).Ok? <==>
              j == |AcceptedFrom(past, device)| && committed[j].eventId !in state.seenEventIds
    ensures j == |AcceptedFrom(past, device)| ==> RecordIncoming(mls, state, committed[j]) != Err(InvalidSenderChain)
    ensures j < |AcceptedFrom(past, device)| ==> RecordIncoming(mls, state, committed[j]) == Err(ReplayDetected)
  {
    var taken := AcceptedFrom(past, device);
    RememberedChain(mls, state, past, device);
    assert Linked(mls, committed, j);
    if taken != [] {
      assert Linked(mls, taken, |taken| - 1);
      assert taken[|taken| - 1] == committed[|taken| - 1];
    }
    if j < |taken| {
      assert taken[j] == committed[j] && taken[j] in taken;
      assert committed[j].eventId in state.seenEventIds;
    }
    hide Remembers, EncodeEvent, HashOf, ChainValid;
  }

  lemma RememberedChain(mls: Mls, state: ChannelState, past: Past, device: Uuid)
    requires Remembers(mls, state, past)
    ensures ChainValid(mls, AcceptedFrom(past, device))
    ensures IncomingChain(state, device) == ChainOf(mls, AcceptedFrom(past, device))
  {
  }
}
