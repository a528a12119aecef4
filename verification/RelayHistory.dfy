/**
 * What the relay's four maps mean: one append-only log of acceptances, read through the
 * clock readings of the calls that came later. The clock need not be monotone: each
 * reading is taken before the store's lock (crates/singularis-server/src/api.rs:65-71).
 */
module RelayHistory {
  import opened Wrappers
  import opened Protocol
  import opened Sequences
  import opened RelayStore

  /** An acceptance, and the position in `clock` of the call that made it. */
  datatype LogEntry = LogEntry(stored: StoredEvent, born: nat)

  datatype History = History(log: seq<LogEntry>, clock: seq<Time>)

  function StoredOf(entry: LogEntry): StoredEvent { entry.stored }

  function EntryKey(entry: LogEntry): SenderKey { KeyOf(entry.stored.request) }

  /** No call after the acceptance read a clock at or past the expiry. */
  predicate LiveNow(entry: LogEntry, clock: seq<Time>) {
    |clock| <= entry.born + 1 ||
    (clock[|clock| - 1] < entry.stored.receipt.expiresAt && LiveNow(entry, clock[..|clock| - 1]))
  }

  lemma {:induction false} LiveMeans(entry: LogEntry, clock: seq<Time>)
    ensures LiveNow(entry, clock) <==>
            forall k | entry.born < k < |clock| :: clock[k] < entry.stored.receipt.expiresAt
  {
    if |clock| > entry.born + 1 {
      LiveMeans(entry, clock[..|clock| - 1]);
    }
  }

  function InChannel(channel: Uuid): LogEntry -> bool {
    (entry: LogEntry) => entry.stored.request.channelId == channel
  }

  function LiveIn(channel: Uuid, clock: seq<Time>): LogEntry -> bool {
    (entry: LogEntry) => entry.stored.request.channelId == channel && LiveNow(entry, clock)
  }

  function Count(log: seq<LogEntry>, channel: Uuid): nat { |Filter(log, InChannel(channel))| }

  function LiveList(h: History, channel: Uuid): seq<StoredEvent> {
    Map(Filter(h.log, LiveIn(channel, h.clock)), StoredOf)
  }

  /** The n-th number handed out by a wrapping `u64` counter that starts at 1. */
  function Numbered(n: nat): U64 { n % (U64_MAX + 1) }

  function Tick(h: History, now: Time): History { h.(clock := h.clock + [now]) }

  /** A live acceptance holds this event ID. */
  ghost predicate Held(h: History, eventId: EventId) {
    exists i | 0 <= i < |h.log| :: LiveNow(h.log[i], h.clock) && h.log[i].stored.request.eventId == eventId
  }

  /** A live acceptance is of exactly this request and has this receipt. */
  ghost predicate HeldAs(h: History, stored: StoredEvent) {
    exists i | 0 <= i < |h.log| :: LiveNow(h.log[i], h.clock) && h.log[i].stored == stored
  }

  /** Some acceptance, live or not, from this sender in this channel is at or past this counter. */
  ghost predicate Overtaken(log: seq<LogEntry>, request: SubmitEvent) {
    exists i | 0 <= i < |log| ::
      EntryKey(log[i]) == KeyOf(request) && request.senderCounter <= log[i].stored.request.senderCounter
  }

  ghost function AcceptH(h: History, request: SubmitEvent, instanceMax: ServerTtl, at: Time): History {
    var ticked := Tick(h, at);
    if Held(ticked, request.eventId) || Overtaken(h.log, request) then ticked
    else
      var receipt := AcceptedEvent(request.eventId, request.channelId,
                                   Numbered(Count(h.log, request.channelId) + 1), at,
                                   ExpiryOf(request, instanceMax, at));
      ticked.(log := h.log + [LogEntry(StoredEvent(request, receipt), |h.clock|)])
  }

  ghost predicate WellFormedEntry(h: History, instanceMax: ServerTtl, i: nat)
    requires i < |h.log|
  {
    var entry := h.log[i];
    var StoredEvent(request, receipt) := entry.stored;
    && entry.born < |h.clock|
    && receipt.eventId == request.eventId
    && receipt.channelId == request.channelId
    && receipt.acceptedAt == h.clock[entry.born]
    && receipt.expiresAt == ExpiryOf(request, instanceMax, receipt.acceptedAt)
  }

  ghost predicate WellFormed(h: History, instanceMax: ServerTtl) {
    && (forall i | 0 <= i < |h.log| :: WellFormedEntry(h, instanceMax, i))
    && BornInOrder(h.log) && NumberedLog(h.log) && CountersRise(h.log) && LiveIdsDiffer(h)
  }

  /** Every acceptance carries the rank it has in its channel. */
  ghost predicate NumberedLog(log: seq<LogEntry>) {
    log == [] ||
    var last := log[|log| - 1];
    && last.stored.receipt.sequence == Numbered(Count(log, last.stored.request.channelId))
    && NumberedLog(log[..|log| - 1])
  }

  ghost predicate BornInOrder(log: seq<LogEntry>) {
    forall i, j | 0 <= i < j < |log| :: log[i].born < log[j].born
  }

  ghost predicate CountersRise(log: seq<LogEntry>) {
    forall i, j | 0 <= i < j < |log| && EntryKey(log[i]) == EntryKey(log[j]) ::
      log[i].stored.request.senderCounter < log[j].stored.request.senderCounter
  }

  ghost predicate LiveIdsDiffer(h: History) {
    forall i, j | 0 <= i < j < |h.log| && LiveNow(h.log[i], h.clock) && LiveNow(h.log[j], h.clock) ::
      h.log[i].stored.request.eventId != h.log[j].stored.request.eventId
  }

  ghost predicate ChannelsAgree(s: StoreData, h: History) {
    forall channel: Uuid ::
      && ChannelEvents(s, channel) == LiveList(h, channel)
      && (channel in s.eventsByChannel ==> s.eventsByChannel[channel] != [])
  }

  ghost predicate IdsAgree(ids: map<EventId, StoredEvent>, h: History) {
    && (forall i | 0 <= i < |h.log| && LiveNow(h.log[i], h.clock) ::
          && h.log[i].stored.request.eventId in ids
          && ids[h.log[i].stored.request.eventId] == h.log[i].stored)
    && (forall id | id in ids :: ids[id].request.eventId == id && HeldAs(h, ids[id]))
  }

  ghost predicate Reached(log: seq<LogEntry>, key: SenderKey, counter: U64) {
    exists i | 0 <= i < |log| :: EntryKey(log[i]) == key && log[i].stored.request.senderCounter == counter
  }

  ghost predicate CountersAgree(highest: map<SenderKey, U64>, log: seq<LogEntry>) {
    && (forall i | 0 <= i < |log| ::
          && EntryKey(log[i]) in highest
          && log[i].stored.request.senderCounter <= highest[EntryKey(log[i])])
    && (forall key | key in highest :: Reached(log, key, highest[key]))
  }

  ghost predicate NumbersAgree(next: map<Uuid, U64>, log: seq<LogEntry>) {
    forall channel: Uuid ::
      && (channel in next <==> Count(log, channel) > 0)
      && (channel in next ==> next[channel] == Numbered(Count(log, channel)))
  }

  /** The four maps hold what the log says, each in its own way. */
  ghost predicate Refines(s: StoreData, h: History, instanceMax: ServerTtl) {
    && WellFormed(h, instanceMax)
    && ChannelsAgree(s, h) && IdsAgree(s.eventsById, h)
    && CountersAgree(s.highestCounterBySender, h.log) && NumbersAgree(s.nextSequenceByChannel, h.log)
  }

  lemma TickLive(entry: LogEntry, clock: seq<Time>, now: Time)
    requires entry.born < |clock|
    ensures LiveNow(entry, clock + [now]) <==> LiveNow(entry, clock) && now < entry.stored.receipt.expiresAt
  {
    assert (clock + [now])[..|clock|] == clock;
  }

  lemma TickLiveAll(h: History, instanceMax: ServerTtl, now: Time)
    requires WellFormed(h, instanceMax)
    ensures forall entry | entry in h.log ::
              LiveNow(entry, Tick(h, now).clock) <==>
              LiveNow(entry, h.clock) && now < entry.stored.receipt.expiresAt
  {
    forall entry | entry in h.log
      ensures LiveNow(entry, Tick(h, now).clock) <==>
              LiveNow(entry, h.clock) && now < entry.stored.receipt.expiresAt
    {
      var i :| 0 <= i < |h.log| && h.log[i] == entry;
      assert WellFormedEntry(h, instanceMax, i);
      TickLive(entry, h.clock, now);
    }
  }

  lemma TickWellFormed(h: History, instanceMax: ServerTtl, now: Time)
    requires WellFormed(h, instanceMax)
    ensures WellFormed(Tick(h, now), instanceMax)
  {
    TickLiveAll(h, instanceMax, now);
    assert LiveIdsDiffer(Tick(h, now)) by {
      assert forall i | 0 <= i < |h.log| :: h.log[i] in h.log;
    }
    forall i | 0 <= i < |h.log|
      ensures WellFormedEntry(Tick(h, now), instanceMax, i)
    {
      assert WellFormedEntry(h, instanceMax, i);
    }
  }

  lemma TickList(h: History, instanceMax: ServerTtl, now: Time, channel: Uuid)
    requires WellFormed(h, instanceMax)
    ensures LiveList(Tick(h, now), channel) == Filter(LiveList(h, channel), ExpiresAfter(now))
  {
    var before, after := LiveIn(channel, h.clock), LiveIn(channel, Tick(h, now).clock);
    var expires := (entry: LogEntry) => entry.stored.receipt.expiresAt > now;
    TickLiveAll(h, instanceMax, now);
    FilterTwice(h.log, before, expires, after);
    FilterMap(Filter(h.log, before), StoredOf, ExpiresAfter(now), expires);
  }

  lemma PruneIdsAgree(ids: map<EventId, StoredEvent>, h: History, instanceMax: ServerTtl, now: Time)
    requires WellFormed(h, instanceMax) && IdsAgree(ids, h)
    ensures IdsAgree(PruneIds(ids, now), Tick(h, now))
  {
    TickLiveAll(h, instanceMax, now);
    var ids', h' := PruneIds(ids, now), Tick(h, now);
    forall id | id in ids'
      ensures HeldAs(h', ids'[id])
    {
      var i :| 0 <= i < |h.log| && LiveNow(h.log[i], h.clock) && h.log[i].stored == ids[id];
      assert h.log[i] in h.log;
      assert LiveNow(h'.log[i], h'.clock);
    }
  }

  lemma PruneChannelsAgree(s: StoreData, h: History, instanceMax: ServerTtl, now: Time)
    requires WellFormed(h, instanceMax) && ChannelsAgree(s, h)
    ensures ChannelsAgree(PruneExpired(s, now), Tick(h, now))
  {
    hide WellFormed;
    forall channel: Uuid
      ensures ChannelEvents(PruneExpired(s, now), channel) == LiveList(Tick(h, now), channel)
    {
      TickList(h, instanceMax, now, channel);
      assert ChannelEvents(s, channel) == LiveList(h, channel);
    }
  }

  lemma PruneRefines(s: StoreData, h: History, instanceMax: ServerTtl, now: Time)
    requires Refines(s, h, instanceMax)
    ensures Refines(PruneExpired(s, now), Tick(h, now), instanceMax)
  {
    hide WellFormed, ChannelsAgree, IdsAgree, CountersAgree, NumbersAgree;
    TickWellFormed(h, instanceMax, now);
    PruneIdsAgree(s.eventsById, h, instanceMax, now);
    PruneChannelsAgree(s, h, instanceMax, now);
  }

  lemma CountAppend(log: seq<LogEntry>, entry: LogEntry, channel: Uuid)
    ensures Count(log + [entry], channel)
            == Count(log, channel) + if entry.stored.request.channelId == channel then 1 else 0
  {
    FilterLast(log, entry, InChannel(channel));
  }

  lemma RecordKeepsIds(ids: map<EventId, StoredEvent>, h: History, entry: LogEntry)
    requires IdsAgree(ids, h) && !Held(h, entry.stored.request.eventId) && LiveNow(entry, h.clock)
    ensures IdsAgree(ids[entry.stored.request.eventId := entry.stored], h.(log := h.log + [entry]))
  {
    var h' := h.(log := h.log + [entry]);
    var ids' := ids[entry.stored.request.eventId := entry.stored];
    hide LiveNow;
    assert h'.log[|h.log|] == entry;
    assert HeldAs(h', entry.stored);
    forall id | id in ids'
      ensures ids'[id].request.eventId == id && HeldAs(h', ids'[id])
    {
      if id != entry.stored.request.eventId {
        var i :| 0 <= i < |h.log| && LiveNow(h.log[i], h.clock) && h.log[i].stored == ids[id];
        assert h'.log[i] == h.log[i];
      }
    }
    forall i | 0 <= i < |h'.log| && LiveNow(h'.log[i], h'.clock)
      ensures h'.log[i].stored.request.eventId in ids'
      ensures ids'[h'.log[i].stored.request.eventId] == h'.log[i].stored
    {
      if i < |h.log| {
        assert h'.log[i] == h.log[i];
      }
    }
  }

  lemma RecordKeepsCounters(highest: map<SenderKey, U64>, log: seq<LogEntry>, entry: LogEntry)
    requires CountersAgree(highest, log) && !Overtaken(log, entry.stored.request)
    ensures CountersAgree(highest[EntryKey(entry) := entry.stored.request.senderCounter], log + [entry])
  {
    var log' := log + [entry];
    var highest' := highest[EntryKey(entry) := entry.stored.request.senderCounter];
    assert log'[|log|] == entry;
    forall key | key in highest'
      ensures Reached(log', key, highest'[key])
    {
      if key != EntryKey(entry) {
        var i :| 0 <= i < |log| && EntryKey(log[i]) == key && log[i].stored.request.senderCounter == highest[key];
        assert log'[i] == log[i];
      }
    }
  }

  lemma RecordKeepsChannels(s: StoreData, h: History, entry: LogEntry)
    requires ChannelsAgree(s, h) && LiveNow(entry, h.clock)
    ensures ChannelsAgree(Record(s, entry.stored.request, entry.stored.receipt), h.(log := h.log + [entry]))
  {
    var h' := h.(log := h.log + [entry]);
    var s' := Record(s, entry.stored.request, entry.stored.receipt);
    forall channel: Uuid
      ensures ChannelEvents(s', channel) == LiveList(h', channel)
    {
      FilterLast(h.log, entry, LiveIn(channel, h.clock));
      assert ChannelEvents(s, channel) == LiveList(h, channel);
    }
  }

  lemma RecordKeepsNumbers(next: map<Uuid, U64>, log: seq<LogEntry>, entry: LogEntry)
    requires NumbersAgree(next, log)
    ensures var channel := entry.stored.request.channelId;
            NumbersAgree(next[channel := Numbered(Count(log, channel) + 1)], log + [entry])
  {
    forall channel: Uuid
      ensures Count(log + [entry], channel)
              == Count(log, channel) + if entry.stored.request.channelId == channel then 1 else 0
    {
      CountAppend(log, entry, channel);
    }
  }

  lemma RecordWellFormed(h: History, instanceMax: ServerTtl, entry: LogEntry)
    requires WellFormed(h, instanceMax)
    requires !Held(h, entry.stored.request.eventId) && !Overtaken(h.log, entry.stored.request)
    requires entry.born + 1 == |h.clock| && forall i | 0 <= i < |h.log| :: h.log[i].born < entry.born
    requires var StoredEvent(request, receipt) := entry.stored;
             receipt == AcceptedEvent(request.eventId, request.channelId,
                                      Numbered(Count(h.log, request.channelId) + 1), h.clock[entry.born],
                                      ExpiryOf(request, instanceMax, h.clock[entry.born]))
    ensures WellFormed(h.(log := h.log + [entry]), instanceMax)
  {
    var h' := h.(log := h.log + [entry]);
    CountAppend(h.log, entry, entry.stored.request.channelId);
    assert h'.log[..|h.log|] == h.log;
    forall i | 0 <= i < |h.log|
      ensures WellFormedEntry(h', instanceMax, i)
    {
      assert WellFormedEntry(h, instanceMax, i);
    }
    assert LiveIdsDiffer(h');
    assert CountersRise(h'.log);
  }

  /** Adding an acceptance to maps that agree with the log keeps them in agreement. */
  lemma RecordRefines(s: StoreData, h: History, instanceMax: ServerTtl, entry: LogEntry)
    requires Refines(s, h, instanceMax)
    requires !Held(h, entry.stored.request.eventId) && !Overtaken(h.log, entry.stored.request)
    requires entry.born + 1 == |h.clock| && forall i | 0 <= i < |h.log| :: h.log[i].born < entry.born
    requires var StoredEvent(request, receipt) := entry.stored;
             receipt == AcceptedEvent(request.eventId, request.channelId,
                                      Numbered(Count(h.log, request.channelId) + 1), h.clock[entry.born],
                                      ExpiryOf(request, instanceMax, h.clock[entry.born]))
    ensures Refines(Record(s, entry.stored.request, entry.stored.receipt), h.(log := h.log + [entry]), instanceMax)
  {
    hide WellFormed, ChannelsAgree, IdsAgree, CountersAgree, NumbersAgree;
    RecordWellFormed(h, instanceMax, entry);
    RecordKeepsIds(s.eventsById, h, entry);
    RecordKeepsCounters(s.highestCounterBySender, h.log, entry);
    RecordKeepsNumbers(s.nextSequenceByChannel, h.log, entry);
    RecordKeepsChannels(s, h, entry);
  }

  lemma NumberedNext(n: nat)
    ensures n > 0 ==> WrappingIncrement(Numbered(n)) == Numbered(n + 1)
    ensures Numbered(1) == 1
  {
  }

  lemma NextIsCounted(s: StoreData, h: History, instanceMax: ServerTtl, channel: Uuid)
    requires Refines(s, h, instanceMax)
    ensures NextSequence(s, channel) == Numbered(Count(h.log, channel) + 1)
  {
    hide WellFormed, ChannelsAgree, IdsAgree, CountersAgree, Count, Numbered, WrappingIncrement;
    NumberedNext(Count(h.log, channel));
    assert channel in s.nextSequenceByChannel <==> Count(h.log, channel) > 0;
  }

  lemma AcceptFresh(s: StoreData, h: History, instanceMax: ServerTtl, request: SubmitEvent, at: Time)
    requires Refines(s, Tick(h, at), instanceMax)
    requires forall i | 0 <= i < |h.log| :: h.log[i].born < |h.clock|
    requires !Held(Tick(h, at), request.eventId) && !Overtaken(h.log, request)
    ensures var receipt := AcceptedEvent(request.eventId, request.channelId, NextSequence(s, request.channelId),
                                         at, ExpiryOf(request, instanceMax, at));
            && Refines(Record(s, request, receipt), AcceptH(h, request, instanceMax, at), instanceMax)
            && HeldAs(AcceptH(h, request, instanceMax, at), StoredEvent(request, receipt))
  {
    hide Refines, Held, Overtaken;
    var ticked := Tick(h, at);
    NextIsCounted(s, ticked, instanceMax, request.channelId);
    var receipt := AcceptedEvent(request.eventId, request.channelId, NextSequence(s, request.channelId),
                                 at, ExpiryOf(request, instanceMax, at));
    var entry := LogEntry(StoredEvent(request, receipt), |h.clock|);
    var h' := ticked.(log := ticked.log + [entry]);
    RecordRefines(s, ticked, instanceMax, entry);
    assert h'.log[|h.log|] == entry && LiveNow(entry, h'.clock);
  }

  lemma BornBefore(s: StoreData, h: History, instanceMax: ServerTtl)
    requires Refines(s, h, instanceMax)
    ensures forall i | 0 <= i < |h.log| :: h.log[i].born < |h.clock|
  {
    forall i | 0 <= i < |h.log|
      ensures h.log[i].born < |h.clock|
    {
      assert WellFormedEntry(h, instanceMax, i);
    }
  }

  /** The maps answer the questions that decide `accept`. */
  lemma MapsDecide(s: StoreData, h: History, instanceMax: ServerTtl, request: SubmitEvent)
    requires Refines(s, h, instanceMax)
    ensures request.eventId in s.eventsById <==> Held(h, request.eventId)
    ensures forall receipt :: HeldAs(h, StoredEvent(request, receipt)) <==>
              request.eventId in s.eventsById && s.eventsById[request.eventId] == StoredEvent(request, receipt)
    ensures Overtaken(h.log, request) <==>
              && KeyOf(request) in s.highestCounterBySender
              && request.senderCounter <= s.highestCounterBySender[KeyOf(request)]
  {
    IdsDecide(s.eventsById, h, request);
    CountersDecide(s.highestCounterBySender, h.log, request);
  }

  lemma IdsDecide(ids: map<EventId, StoredEvent>, h: History, request: SubmitEvent)
    requires IdsAgree(ids, h)
    ensures request.eventId in ids <==> Held(h, request.eventId)
    ensures forall receipt :: HeldAs(h, StoredEvent(request, receipt)) <==>
              request.eventId in ids && ids[request.eventId] == StoredEvent(request, receipt)
  {
    if request.eventId in ids {
      assert HeldAs(h, ids[request.eventId]);
    }
  }

  lemma CountersDecide(highest: map<SenderKey, U64>, log: seq<LogEntry>, request: SubmitEvent)
    requires CountersAgree(highest, log)
    ensures Overtaken(log, request) <==>
            KeyOf(request) in highest && request.senderCounter <= highest[KeyOf(request)]
  {
    if KeyOf(request) in highest {
      assert Reached(log, KeyOf(request), highest[KeyOf(request)]);
    }
  }

  /**
   * One call of `accept` against the log: it answers Ok exactly when, after the call, a live
   * acceptance is of this very request, and then with that acceptance's receipt.
   */
  lemma AcceptRefines(s: StoreData, h: History, instanceMax: ServerTtl, request: SubmitEvent, at: Time)
    requires Refines(s, h, instanceMax)
    ensures var (s', r) := Accept(s, request, instanceMax, at);
            var h' := AcceptH(h, request, instanceMax, at);
            && Refines(s', h', instanceMax)
            && (r.Ok? ==> HeldAs(h', StoredEvent(request, r.value)))
            && (r.Err? ==> forall receipt :: !HeldAs(h', StoredEvent(request, receipt)))
            && (r.Err? ==> r.error.EventIdConflict? == Held(Tick(h, at), request.eventId))
  {
    hide Refines, Held, Overtaken, HeldAs;
    var ticked := Tick(h, at);
    var data := PruneExpired(s, at);
    PruneRefines(s, h, instanceMax, at);
    MapsDecide(data, ticked, instanceMax, request);
    if !Held(ticked, request.eventId) && !Overtaken(h.log, request) {
      BornBefore(s, h, instanceMax);
      AcceptFresh(data, h, instanceMax, request, at);
    }
  }

  /** A poll returns the channel's live acceptances past the cursor, and forgets nothing that is live. */
  lemma ListRefines(s: StoreData, h: History, instanceMax: ServerTtl, channel: Uuid, cursor: U64, now: Time)
    requires Refines(s, h, instanceMax)
    ensures var (s', events) := ListActive(s, channel, cursor, now);
            && Refines(s', Tick(h, now), instanceMax)
            && events == Map(Filter(LiveList(Tick(h, now), channel), SequenceAbove(cursor)), Delivered)
  {
    PruneRefines(s, h, instanceMax, now);
  }
}
