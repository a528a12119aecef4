/**
 * Guarantees over one relay process: any calls, in any order, with any clock readings.
 */
module RelayLifetime {
  import opened Wrappers
  import opened Protocol
  import opened Sequences
  import opened RelayStore
  import opened RelayHistory

  datatype Call =
    | Submit(request: SubmitEvent, at: Time)
    | Poll(channel: Uuid, cursor: U64, now: Time)

  function Serve(s: StoreData, call: Call, instanceMax: ServerTtl): StoreData {
    match call
    case Submit(request, at) => Accept(s, request, instanceMax, at).0
    case Poll(channel, cursor, now) => ListActive(s, channel, cursor, now).0
  }

  ghost function ServeH(h: History, call: Call, instanceMax: ServerTtl): History {
    match call
    case Submit(request, at) => AcceptH(h, request, instanceMax, at)
    case Poll(channel, cursor, now) => Tick(h, now)
  }

  function Run(calls: seq<Call>, instanceMax: ServerTtl): StoreData {
    if calls == [] then EMPTY
    else Serve(Run(calls[..|calls| - 1], instanceMax), calls[|calls| - 1], instanceMax)
  }

  ghost function RunH(calls: seq<Call>, instanceMax: ServerTtl): History {
    if calls == [] then History([], [])
    else ServeH(RunH(calls[..|calls| - 1], instanceMax), calls[|calls| - 1], instanceMax)
  }

  lemma ServeRefines(s: StoreData, h: History, call: Call, instanceMax: ServerTtl)
    requires Refines(s, h, instanceMax)
    ensures Refines(Serve(s, call, instanceMax), ServeH(h, call, instanceMax), instanceMax)
    ensures h.log <= ServeH(h, call, instanceMax).log
    ensures h.clock <= ServeH(h, call, instanceMax).clock
  {
    match call
    case Submit(request, at) => AcceptRefines(s, h, instanceMax, request, at);
    case Poll(channel, cursor, now) => ListRefines(s, h, instanceMax, channel, cursor, now);
  }

  /** After any calls the four maps are the log of acceptances, and nothing else. */
  lemma {:induction false} RunRefines(calls: seq<Call>, instanceMax: ServerTtl)
    ensures Refines(Run(calls, instanceMax), RunH(calls, instanceMax), instanceMax)
  {
    if calls != [] {
      var earlier := calls[..|calls| - 1];
      RunRefines(earlier, instanceMax);
      ServeRefines(Run(earlier, instanceMax), RunH(earlier, instanceMax), calls[|calls| - 1], instanceMax);
    }
  }

  lemma LastNumber(init: seq<LogEntry>, last: LogEntry)
    requires NumberedLog(init + [last])
    ensures NumberedLog(init)
    ensures last.stored.receipt.sequence == Numbered(Count(init, last.stored.request.channelId) + 1)
  {
    assert (init + [last])[..|init|] == init;
    CountAppend(init, last, last.stored.request.channelId);
  }

  lemma {:induction false} NumberBounded(log: seq<LogEntry>, channel: Uuid, i: nat)
    requires NumberedLog(log) && Count(log, channel) <= U64_MAX
    requires i < |log| && log[i].stored.request.channelId == channel
    ensures 1 <= log[i].stored.receipt.sequence <= Count(log, channel)
  {
    hide NumberedLog, Count;
    var init, last := log[..|log| - 1], log[|log| - 1];
    assert log == init + [last];
    LastNumber(init, last);
    CountAppend(init, last, channel);
    if i < |init| {
      assert init[i] == log[i];
      NumberBounded(init, channel, i);
    }
  }

  lemma {:induction false} NumbersRise(log: seq<LogEntry>, channel: Uuid, i: nat, j: nat)
    requires NumberedLog(log) && Count(log, channel) <= U64_MAX
    requires i < j < |log|
    requires log[i].stored.request.channelId == log[j].stored.request.channelId == channel
    ensures log[i].stored.receipt.sequence < log[j].stored.receipt.sequence
  {
    hide NumberedLog, Count;
    var init, last := log[..|log| - 1], log[|log| - 1];
    assert log == init + [last];
    LastNumber(init, last);
    CountAppend(init, last, channel);
    if j < |init| {
      NumbersRise(init, channel, i, j);
    } else {
      NumberBounded(init, channel, i);
    }
  }

  lemma {:induction false} NumberedPositions(log: seq<LogEntry>, channel: Uuid, k: nat)
    requires NumberedLog(log) && k < Count(log, channel) <= U64_MAX
    ensures Filter(log, InChannel(channel))[k].stored.receipt.sequence == k + 1
  {
    hide Filter, NumberedLog, Numbered, Count;
    NothingCounted(channel);
    var init, last := log[..|log| - 1], log[|log| - 1];
    assert log == init + [last];
    LastNumber(init, last);
    CountAppend(init, last, channel);
    LastPosition(init, last, channel);
    if k < Count(init, channel) {
      NumberedPositions(init, channel, k);
    } else {
      SmallNumber(k + 1);
    }
  }

  lemma LastPosition(init: seq<LogEntry>, last: LogEntry, channel: Uuid)
    ensures forall k | 0 <= k < Count(init, channel) ::
              Filter(init + [last], InChannel(channel))[k] == Filter(init, InChannel(channel))[k]
    ensures last.stored.request.channelId == channel ==>
              Filter(init + [last], InChannel(channel))[Count(init, channel)] == last
  {
    FilterLast(init, last, InChannel(channel));
  }

  lemma NothingCounted(channel: Uuid)
    ensures Count([], channel) == 0
  {
  }

  lemma SmallNumber(n: nat)
    requires n <= U64_MAX
    ensures Numbered(n) == n
  {
  }

  /** The k-th acceptance in a channel carries sequence number k, for the whole lifetime. */
  lemma ChannelIsNumberedInOrder(calls: seq<Call>, instanceMax: ServerTtl, channel: Uuid, k: nat)
    requires k < Count(RunH(calls, instanceMax).log, channel) <= U64_MAX
    ensures Filter(RunH(calls, instanceMax).log, InChannel(channel))[k].stored.receipt.sequence == k + 1
  {
    var h := RunH(calls, instanceMax);
    assert NumberedLog(h.log) by {
      RunRefines(calls, instanceMax);
    }
    NumberedPositions(h.log, channel, k);
  }

  /**
   * No request is sequenced twice, even if it is sent again after it expired: per channel and
   * device the accepted counters strictly rise, and acceptances are never taken back.
   */
  lemma SequencedAtMostOnce(calls: seq<Call>, later: Call, instanceMax: ServerTtl, i: nat, j: nat)
    requires i < j < |RunH(calls, instanceMax).log|
    ensures var log := RunH(calls, instanceMax).log;
            && log[i].stored.request != log[j].stored.request
            && (EntryKey(log[i]) == EntryKey(log[j]) ==>
                  log[i].stored.request.senderCounter < log[j].stored.request.senderCounter)
    ensures RunH(calls, instanceMax).log <= RunH(calls + [later], instanceMax).log
  {
    RunRefines(calls, instanceMax);
    assert (calls + [later])[..|calls|] == calls;
    ServeRefines(Run(calls, instanceMax), RunH(calls, instanceMax), later, instanceMax);
  }

  /**
   * Sending an accepted request again: while it is live the answer is the original receipt and
   * only expired data leaves the maps; once any call has read a clock at or past its expiry the
   * answer is an error for good. The expiry itself is fixed at acceptance.
   */
  lemma ResubmissionSucceedsExactlyWhileLive(calls: seq<Call>, instanceMax: ServerTtl, i: nat, at: Time)
    requires i < |RunH(calls, instanceMax).log|
    ensures var h := RunH(calls, instanceMax);
            var StoredEvent(request, receipt) := h.log[i].stored;
            var (s', r) := Accept(Run(calls, instanceMax), request, instanceMax, at);
            && (r.Ok? <==> LiveNow(h.log[i], h.clock + [at]))
            && (r.Ok? ==> r.value == receipt)
            && s' == PruneExpired(Run(calls, instanceMax), at)
            && AcceptH(h, request, instanceMax, at).log == h.log
            && receipt.expiresAt == receipt.acceptedAt + MinTtl(request.ttlSeconds, instanceMax) * NANOS_PER_SECOND
            && 300 * NANOS_PER_SECOND <= receipt.expiresAt - receipt.acceptedAt <= 604800 * NANOS_PER_SECOND
  {
    hide Refines, Run, RunH, WellFormed;
    var s, h := Run(calls, instanceMax), RunH(calls, instanceMax);
    var request := h.log[i].stored.request;
    var data, ticked := PruneExpired(s, at), Tick(h, at);
    RunRefines(calls, instanceMax);
    SameRequestSameEntry(s, h, instanceMax, i);
    PruneRefines(s, h, instanceMax, at);
    MapsDecide(data, ticked, instanceMax, request);
    assert EntryKey(h.log[i]) == KeyOf(request) && Overtaken(h.log, request);
    if LiveNow(h.log[i], ticked.clock) {
      assert ticked.log[i] == h.log[i];
      assert HeldAs(ticked, h.log[i].stored);
    } else if request.eventId in data.eventsById && data.eventsById[request.eventId].request == request {
      assert data.eventsById[request.eventId] == StoredEvent(request, data.eventsById[request.eventId].receipt);
      assert HeldAs(ticked, data.eventsById[request.eventId]);
    }
  }

  lemma SameRequestSameEntry(s: StoreData, h: History, instanceMax: ServerTtl, i: nat)
    requires Refines(s, h, instanceMax) && i < |h.log|
    ensures forall j | 0 <= j < |h.log| && h.log[j].stored.request == h.log[i].stored.request :: j == i
    ensures WellFormedEntry(h, instanceMax, i)
  {
    forall j | 0 <= j < |h.log| && h.log[j].stored.request == h.log[i].stored.request
      ensures j == i
    {
      assert EntryKey(h.log[i]) == EntryKey(h.log[j]);
    }
  }

  function DeliveredOf(entry: LogEntry): DeliveredEvent { Delivered(entry.stored) }

  function LiveAbove(channel: Uuid, clock: seq<Time>, cursor: U64): LogEntry -> bool {
    (entry: LogEntry) =>
      entry.stored.request.channelId == channel && LiveNow(entry, clock) && entry.stored.receipt.sequence > cursor
  }

  lemma PollReadsTheLog(s: StoreData, h: History, instanceMax: ServerTtl, channel: Uuid, cursor: U64, now: Time)
    requires Refines(s, h, instanceMax)
    ensures ListActive(s, channel, cursor, now).1
            == Map(Filter(h.log, LiveAbove(channel, h.clock + [now], cursor)), DeliveredOf)
  {
    ListRefines(s, h, instanceMax, channel, cursor, now);
    hide Refines, LiveNow, ListActive;
    var live, above := LiveIn(channel, h.clock + [now]), (entry: LogEntry) => entry.stored.receipt.sequence > cursor;
    FilterMap(Filter(h.log, live), StoredOf, SequenceAbove(cursor), above);
    FilterTwice(h.log, live, above, LiveAbove(channel, h.clock + [now], cursor));
  }

  /**
   * A poll hands out an acceptance, with its receipt as it was made, exactly if it is past the
   * cursor and neither this poll nor any call since the acceptance has read a clock at or past
   * its expiry.
   */
  lemma PollReturnsExactlyTheLive(calls: seq<Call>, instanceMax: ServerTtl, channel: Uuid, cursor: U64,
                                  now: Time, event: DeliveredEvent)
    ensures var h := RunH(calls, instanceMax);
            event in ListActive(Run(calls, instanceMax), channel, cursor, now).1 <==>
            exists entry | entry in h.log ::
              && event.receipt == entry.stored.receipt
              && event.communityId == entry.stored.request.communityId
              && event.senderDeviceId == entry.stored.request.senderDeviceId
              && event.senderCounter == entry.stored.request.senderCounter
              && event.mlsMessage == entry.stored.request.mlsMessage
              && entry.stored.request.channelId == channel
              && entry.stored.receipt.sequence > cursor
              && now < entry.stored.receipt.expiresAt
              && forall k | entry.born < k < |h.clock| :: h.clock[k] < entry.stored.receipt.expiresAt
  {
    hide Refines, Run, RunH, LiveNow, ListActive;
    var s, h := Run(calls, instanceMax), RunH(calls, instanceMax);
    RunRefines(calls, instanceMax);
    PollReadsTheLog(s, h, instanceMax, channel, cursor, now);
    BornBefore(s, h, instanceMax);
    FilterMapMembers(h.log, LiveAbove(channel, h.clock + [now], cursor), DeliveredOf, event);
    forall entry | entry in h.log
      ensures LiveNow(entry, h.clock + [now]) <==>
              && now < entry.stored.receipt.expiresAt
              && forall k | entry.born < k < |h.clock| :: h.clock[k] < entry.stored.receipt.expiresAt
    {
      LiveAtPoll(entry, h.clock, now);
    }
  }

  lemma LiveAtPoll(entry: LogEntry, clock: seq<Time>, now: Time)
    requires entry.born < |clock|
    ensures LiveNow(entry, clock + [now]) <==>
            && now < entry.stored.receipt.expiresAt
            && forall k | entry.born < k < |clock| :: clock[k] < entry.stored.receipt.expiresAt
  {
    LiveMeans(entry, clock);
    assert (clock + [now])[..|clock|] == clock;
  }

  /** Neither this clock reading nor any since the acceptance is at or past its expiry. */
  ghost predicate Unexpired(h: History, entry: LogEntry, at: Time) {
    && at < entry.stored.receipt.expiresAt
    && forall k | entry.born < k < |h.clock| :: h.clock[k] < entry.stored.receipt.expiresAt
  }

  ghost predicate FromSameSender(entry: LogEntry, request: SubmitEvent) {
    && entry.stored.request.channelId == request.channelId
    && entry.stored.request.senderDeviceId == request.senderDeviceId
  }

  /** What the by-ID map says of an event ID, in terms of the log. */
  lemma HolderExactlyIf(s: StoreData, h: History, instanceMax: ServerTtl, request: SubmitEvent, at: Time)
    requires Refines(s, h, instanceMax)
    ensures request.eventId in PruneExpired(s, at).eventsById <==>
            exists entry | entry in h.log :: entry.stored.request.eventId == request.eventId && Unexpired(h, entry, at)
    ensures forall entry | entry in h.log && entry.stored.request.eventId == request.eventId
                           && Unexpired(h, entry, at) ::
              && request.eventId in PruneExpired(s, at).eventsById
              && PruneExpired(s, at).eventsById[request.eventId] == entry.stored
  {
    BornBefore(s, h, instanceMax);
    PruneRefines(s, h, instanceMax, at);
    hide Refines, LiveNow, Unexpired, Held, PruneExpired, Overtaken;
    var data, ticked := PruneExpired(s, at), Tick(h, at);
    MapsDecide(data, ticked, instanceMax, request);
    HeldExactlyIf(h, request.eventId, at);
    forall entry | entry in h.log && entry.stored.request.eventId == request.eventId && Unexpired(h, entry, at)
      ensures request.eventId in data.eventsById && data.eventsById[request.eventId] == entry.stored
    {
      LiveIsUnexpired(h, entry, at);
      LiveIsById(data, ticked, instanceMax, entry);
    }
  }

  lemma HeldExactlyIf(h: History, eventId: EventId, at: Time)
    requires forall i | 0 <= i < |h.log| :: h.log[i].born < |h.clock|
    ensures Held(Tick(h, at), eventId) <==>
            exists entry | entry in h.log :: entry.stored.request.eventId == eventId && Unexpired(h, entry, at)
  {
    hide LiveNow, Unexpired;
    forall entry | entry in h.log
      ensures LiveNow(entry, Tick(h, at).clock) <==> Unexpired(h, entry, at)
    {
      LiveIsUnexpired(h, entry, at);
    }
    if entry :| entry in h.log && entry.stored.request.eventId == eventId && Unexpired(h, entry, at) {
      var i :| 0 <= i < |h.log| && h.log[i] == entry;
      assert Tick(h, at).log[i] == entry;
    }
  }

  lemma LiveIsById(s: StoreData, h: History, instanceMax: ServerTtl, entry: LogEntry)
    requires Refines(s, h, instanceMax) && entry in h.log && LiveNow(entry, h.clock)
    ensures var eventId := entry.stored.request.eventId;
            eventId in s.eventsById && s.eventsById[eventId] == entry.stored
  {
    hide WellFormed, ChannelsAgree, CountersAgree, NumbersAgree, LiveNow;
    var i :| 0 <= i < |h.log| && h.log[i] == entry;
  }

  lemma LiveIsUnexpired(h: History, entry: LogEntry, at: Time)
    requires entry.born < |h.clock|
    ensures LiveNow(entry, Tick(h, at).clock) <==> Unexpired(h, entry, at)
  {
    LiveAtPoll(entry, h.clock, at);
  }

  /** What the map of counters says of a sender, in terms of the log. */
  lemma HighestExactlyIf(s: StoreData, h: History, instanceMax: ServerTtl, request: SubmitEvent)
    requires Refines(s, h, instanceMax)
    ensures KeyOf(request) in s.highestCounterBySender <==>
            exists entry | entry in h.log :: FromSameSender(entry, request)
    ensures KeyOf(request) in s.highestCounterBySender ==>
              var highest := s.highestCounterBySender[KeyOf(request)];
              && (exists entry | entry in h.log ::
                    FromSameSender(entry, request) && entry.stored.request.senderCounter == highest)
              && forall entry | entry in h.log && FromSameSender(entry, request) ::
                   entry.stored.request.senderCounter <= highest
  {
    hide WellFormed, ChannelsAgree, IdsAgree, NumbersAgree;
    forall entry | entry in h.log && FromSameSender(entry, request)
      ensures KeyOf(request) in s.highestCounterBySender
      ensures entry.stored.request.senderCounter <= s.highestCounterBySender[KeyOf(request)]
    {
      var i :| 0 <= i < |h.log| && h.log[i] == entry;
      assert EntryKey(h.log[i]) == KeyOf(request);
    }
    if KeyOf(request) in s.highestCounterBySender {
      assert Reached(h.log, KeyOf(request), s.highestCounterBySender[KeyOf(request)]);
      var i :| 0 <= i < |h.log| && EntryKey(h.log[i]) == KeyOf(request)
               && h.log[i].stored.request.senderCounter == s.highestCounterBySender[KeyOf(request)];
      assert h.log[i] in h.log && FromSameSender(h.log[i], request);
    }
  }

  // What `accept` answers and adds to the log, for any request, wherever maps and log agree (as they
  // do after any calls, by `RunRefines`). The three cases are all there are.

  /** While an acceptance of its event ID has not expired, that acceptance answers. */
  lemma AnsweredByHolder(s: StoreData, h: History, instanceMax: ServerTtl, request: SubmitEvent, at: Time,
                         entry: LogEntry)
    requires Refines(s, h, instanceMax)
    requires entry in h.log && entry.stored.request.eventId == request.eventId && Unexpired(h, entry, at)
    ensures AcceptH(h, request, instanceMax, at).log == h.log
    ensures Accept(s, request, instanceMax, at).1
            == if entry.stored.request == request then Ok(entry.stored.receipt)
               else Err(EventIdConflict(request.eventId))
  {
    hide Refines, Unexpired, Held, Overtaken, Count;
    PruneRefines(s, h, instanceMax, at);
    MapsDecide(PruneExpired(s, at), Tick(h, at), instanceMax, request);
    HolderExactlyIf(s, h, instanceMax, request, at);
    hide PruneExpired;
  }

  /** Else a counter its sender has reached in the channel is refused, with the highest reached. */
  lemma RefusedForItsCounter(s: StoreData, h: History, instanceMax: ServerTtl, request: SubmitEvent, at: Time)
    requires Refines(s, h, instanceMax)
    requires forall entry | entry in h.log && entry.stored.request.eventId == request.eventId ::
               !Unexpired(h, entry, at)
    requires exists entry | entry in h.log ::
               FromSameSender(entry, request) && request.senderCounter <= entry.stored.request.senderCounter
    ensures AcceptH(h, request, instanceMax, at).log == h.log
    ensures var r := Accept(s, request, instanceMax, at).1;
            && r.Err? && r.error.SenderCounterReplay? && r.error.received == request.senderCounter
            && (exists entry | entry in h.log ::
                  FromSameSender(entry, request) && entry.stored.request.senderCounter == r.error.highest)
            && forall entry | entry in h.log && FromSameSender(entry, request) ::
                 entry.stored.request.senderCounter <= r.error.highest
  {
    hide Refines, Unexpired, FromSameSender, Held, Overtaken, Count;
    PruneRefines(s, h, instanceMax, at);
    MapsDecide(PruneExpired(s, at), Tick(h, at), instanceMax, request);
    HolderExactlyIf(s, h, instanceMax, request, at);
    HighestExactlyIf(PruneExpired(s, at), Tick(h, at), instanceMax, request);
    hide PruneExpired;
  }

  /** Anything else is accepted, with the next number of its channel and a lifetime of its own. */
  lemma AcceptedAsNext(s: StoreData, h: History, instanceMax: ServerTtl, request: SubmitEvent, at: Time)
    requires Refines(s, h, instanceMax)
    requires forall entry | entry in h.log && entry.stored.request.eventId == request.eventId ::
               !Unexpired(h, entry, at)
    requires forall entry | entry in h.log && FromSameSender(entry, request) ::
               entry.stored.request.senderCounter < request.senderCounter
    ensures var ttl := if request.ttlSeconds <= instanceMax then request.ttlSeconds else instanceMax;
            var receipt := AcceptedEvent(request.eventId, request.channelId,
                                         (Count(h.log, request.channelId) + 1) % 0x1_0000_0000_0000_0000, at,
                                         at + ttl * 1_000_000_000);
            && Accept(s, request, instanceMax, at).1 == Ok(receipt)
            && AcceptH(h, request, instanceMax, at).log
               == h.log + [LogEntry(StoredEvent(request, receipt), |h.clock|)]
  {
    hide Refines, Unexpired, FromSameSender, Held, Overtaken, Count;
    PruneRefines(s, h, instanceMax, at);
    MapsDecide(PruneExpired(s, at), Tick(h, at), instanceMax, request);
    NextIsCounted(PruneExpired(s, at), Tick(h, at), instanceMax, request.channelId);
    HolderExactlyIf(s, h, instanceMax, request, at);
    HighestExactlyIf(PruneExpired(s, at), Tick(h, at), instanceMax, request);
    hide PruneExpired;
  }
}
