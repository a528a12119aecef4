/** The relay's volatile store (crates/singularis-server/src/store.rs). */
module RelayStore {
  import opened Wrappers
  import opened Protocol
  import opened Sequences

  datatype StoredEvent = StoredEvent(request: SubmitEvent, receipt: AcceptedEvent)

  datatype StoreError =
    | EventIdConflict(eventId: EventId)
    | SenderCounterReplay(received: U64, highest: U64)

  datatype SenderKey = SenderKey(channelId: Uuid, deviceId: Uuid)

  datatype StoreData = StoreData(
    eventsByChannel: map<Uuid, seq<StoredEvent>>,
    eventsById: map<EventId, StoredEvent>,
    highestCounterBySender: map<SenderKey, U64>,
    nextSequenceByChannel: map<Uuid, U64>)

  const EMPTY := StoreData(map[], map[], map[], map[])

  function ExpiresAfter(now: Time): StoredEvent -> bool {
    (stored: StoredEvent) => stored.receipt.expiresAt > now
  }

  function SequenceAbove(cursor: U64): StoredEvent -> bool {
    (stored: StoredEvent) => stored.receipt.sequence > cursor
  }

  function Delivered(stored: StoredEvent): DeliveredEvent {
    DeliveredEvent(stored.receipt, stored.request.communityId, stored.request.senderDeviceId,
                   stored.request.senderCounter, stored.request.mlsMessage)
  }

  function KeyOf(request: SubmitEvent): SenderKey {
    SenderKey(request.channelId, request.senderDeviceId)
  }

  function ExpiryOf(request: SubmitEvent, instanceMax: ServerTtl, acceptedAt: Time): Time {
    acceptedAt + MinTtl(request.ttlSeconds, instanceMax) * NANOS_PER_SECOND
  }

  /**
   * What a client's TTL becomes: any number of seconds the protocol lets through gives an event
   * that many seconds or the instance's limit, whichever is less, and so 5 minutes to 7 days.
   */
  lemma LifetimeIsWithinPolicy(seconds: U64, request: SubmitEvent, instanceMax: ServerTtl, at: Time)
    requires ServerTtlFrom(seconds) == Some(request.ttlSeconds)
    ensures var lifetime := ExpiryOf(request, instanceMax, at) - at;
            && 300 * NANOS_PER_SECOND <= lifetime <= 604800 * NANOS_PER_SECOND
            && lifetime == (if seconds <= instanceMax then seconds else instanceMax) * NANOS_PER_SECOND
  {
  }

  function ChannelEvents(s: StoreData, channel: Uuid): seq<StoredEvent> {
    if channel in s.eventsByChannel then s.eventsByChannel[channel] else []
  }

  function PruneIds(ids: map<EventId, StoredEvent>, now: Time): map<EventId, StoredEvent> {
    map id | id in ids && ids[id].receipt.expiresAt > now :: ids[id]
  }

  function PruneChannels(channels: map<Uuid, seq<StoredEvent>>, now: Time): map<Uuid, seq<StoredEvent>> {
    map channel | channel in channels && Filter(channels[channel], ExpiresAfter(now)) != []
      :: Filter(channels[channel], ExpiresAfter(now))
  }

  function PruneExpired(s: StoreData, now: Time): StoreData {
    s.(eventsById := PruneIds(s.eventsById, now), eventsByChannel := PruneChannels(s.eventsByChannel, now))
  }

  function Record(s: StoreData, request: SubmitEvent, receipt: AcceptedEvent): StoreData {
    var stored := StoredEvent(request, receipt);
    StoreData(
      s.eventsByChannel[request.channelId := ChannelEvents(s, request.channelId) + [stored]],
      s.eventsById[request.eventId := stored],
      s.highestCounterBySender[KeyOf(request) := request.senderCounter],
      s.nextSequenceByChannel[request.channelId := receipt.sequence])
  }

  function NextSequence(s: StoreData, channel: Uuid): U64 {
    if channel in s.nextSequenceByChannel then WrappingIncrement(s.nextSequenceByChannel[channel]) else 1
  }

  /** What `accept` leaves in the maps and what it answers. */
  function Accept(s: StoreData, request: SubmitEvent, instanceMax: ServerTtl, acceptedAt: Time)
    : (StoreData, Result<AcceptedEvent, StoreError>)
  {
    var data := PruneExpired(s, acceptedAt);
    if request.eventId in data.eventsById then
      var stored := data.eventsById[request.eventId];
      (data, if stored.request == request then Ok(stored.receipt) else Err(EventIdConflict(request.eventId)))
    else if KeyOf(request) in data.highestCounterBySender
            && request.senderCounter <= data.highestCounterBySender[KeyOf(request)] then
      (data, Err(SenderCounterReplay(request.senderCounter, data.highestCounterBySender[KeyOf(request)])))
    else
      var receipt := AcceptedEvent(request.eventId, request.channelId, NextSequence(data, request.channelId),
                                   acceptedAt, ExpiryOf(request, instanceMax, acceptedAt));
      (Record(data, request, receipt), Ok(receipt))
  }

  function ListActive(s: StoreData, channel: Uuid, cursor: U64, now: Time): (StoreData, seq<DeliveredEvent>) {
    var data := PruneExpired(s, now);
    (data, Map(Filter(ChannelEvents(data, channel), SequenceAbove(cursor)), Delivered))
  }

  /** The store object: four maps updated in place under one write lock. */
  class InMemoryEventStore {
    var eventsByChannel: map<Uuid, seq<StoredEvent>>
    var eventsById: map<EventId, StoredEvent>
    var highestCounterBySender: map<SenderKey, U64>
    var nextSequenceByChannel: map<Uuid, U64>

    function Data(): StoreData
      reads this
    {
      StoreData(eventsByChannel, eventsById, highestCounterBySender, nextSequenceByChannel)
    }

    constructor ()
      ensures Data() == EMPTY
    {
      eventsByChannel, eventsById := map[], map[];
      highestCounterBySender, nextSequenceByChannel := map[], map[];
    }

    method Prune(now: Time)
      modifies this
      ensures Data() == PruneExpired(old(Data()), now)
    {
      eventsById := map id | id in eventsById && eventsById[id].receipt.expiresAt > now :: eventsById[id];
      var retained := map channel | channel in eventsByChannel
        :: Filter(eventsByChannel[channel], ExpiresAfter(now));
      eventsByChannel := map channel | channel in retained && retained[channel] != [] :: retained[channel];
    }

    method AcceptEvent(request: SubmitEvent, instanceMax: ServerTtl, acceptedAt: Time)
      returns (r: Result<AcceptedEvent, StoreError>)
      modifies this
      ensures (Data(), r) == Accept(old(Data()), request, instanceMax, acceptedAt)
    {
      Prune(acceptedAt);
      if request.eventId in eventsById {
        var stored := eventsById[request.eventId];
        if stored.request == request {
          return Ok(stored.receipt);
        }
        return Err(EventIdConflict(request.eventId));
      }
      var senderKey := KeyOf(request);
      if senderKey in highestCounterBySender && request.senderCounter <= highestCounterBySender[senderKey] {
        return Err(SenderCounterReplay(request.senderCounter, highestCounterBySender[senderKey]));
      }
      var effectiveTtl := MinTtl(request.ttlSeconds, instanceMax);
      var sequence: U64 := 1;
      if request.channelId in nextSequenceByChannel {
        sequence := WrappingIncrement(nextSequenceByChannel[request.channelId]);
      }
      nextSequenceByChannel := nextSequenceByChannel[request.channelId := sequence];
      var receipt := AcceptedEvent(request.eventId, request.channelId, sequence, acceptedAt,
                                   acceptedAt + effectiveTtl * NANOS_PER_SECOND);
      var stored := StoredEvent(request, receipt);
      var events: seq<StoredEvent> := [];
      if request.channelId in eventsByChannel {
        events := eventsByChannel[request.channelId];
      }
      eventsByChannel := eventsByChannel[request.channelId := events + [stored]];
      eventsById := eventsById[request.eventId := stored];
      highestCounterBySender := highestCounterBySender[senderKey := request.senderCounter];
      r := Ok(receipt);
    }

    method List(channel: Uuid, cursor: U64, now: Time) returns (events: seq<DeliveredEvent>)
      modifies this
      ensures (Data(), events) == ListActive(old(Data()), channel, cursor, now)
    {
      Prune(now);
      events := [];
      if channel in eventsByChannel {
        events := Map(Filter(eventsByChannel[channel], SequenceAbove(cursor)), Delivered);
      }
    }
  }
}
