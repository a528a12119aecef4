/**
 * A reader that polls one channel with the last sequence number it saw
 * (crates/singularis-server/src/store.rs:88-104), among any other traffic.
 */
module CursorReader {
  import opened Wrappers
  import opened Protocol
  import opened Sequences
  import opened RelayStore
  import opened RelayHistory
  import opened RelayLifetime

  datatype Step =
    | Traffic(call: Call)
    | Read(now: Time)

  datatype Session = Session(store: StoreData, cursor: U64, received: seq<DeliveredEvent>)

  function Advance(session: Session, step: Step, channel: Uuid, instanceMax: ServerTtl): Session {
    match step
    case Traffic(call) => session.(store := Serve(session.store, call, instanceMax))
    case Read(now) =>
      var (store, events) := ListActive(session.store, channel, session.cursor, now);
      Session(store,
              if events == [] then session.cursor else events[|events| - 1].receipt.sequence,
              session.received + events)
  }

  function RunSession(steps: seq<Step>, channel: Uuid, instanceMax: ServerTtl): Session {
    if steps == [] then Session(EMPTY, 0, [])
    else Advance(RunSession(steps[..|steps| - 1], channel, instanceMax), steps[|steps| - 1], channel, instanceMax)
  }

  /** The log behind a session, and the positions of the reader's own polls among the calls. */
  datatype Trace = Trace(h: History, polls: seq<nat>)

  ghost function AdvanceT(trace: Trace, step: Step, instanceMax: ServerTtl): Trace {
    match step
    case Traffic(call) => trace.(h := ServeH(trace.h, call, instanceMax))
    case Read(now) => Trace(Tick(trace.h, now), trace.polls + [|trace.h.clock|])
  }

  ghost function TraceOf(steps: seq<Step>, instanceMax: ServerTtl): Trace {
    if steps == [] then Trace(History([], []), [])
    else AdvanceT(TraceOf(steps[..|steps| - 1], instanceMax), steps[|steps| - 1], instanceMax)
  }

  /** Poll number r of the calls came after the acceptance and found it live. */
  predicate Finds(entry: LogEntry, clock: seq<Time>, r: nat) {
    entry.born < r < |clock| && LiveNow(entry, clock[..r + 1])
  }

  /** Some poll of the reader found the acceptance live. */
  predicate Seen(entry: LogEntry, clock: seq<Time>, polls: seq<nat>) {
    exists r | r in polls :: Finds(entry, clock, r)
  }

  function SeenIn(channel: Uuid, clock: seq<Time>, polls: seq<nat>): LogEntry -> bool {
    (entry: LogEntry) => entry.stored.request.channelId == channel && Seen(entry, clock, polls)
  }

  /** Live at the coming poll, and unseen so far. */
  function NewIn(channel: Uuid, clock: seq<Time>, polls: seq<nat>, now: Time): LogEntry -> bool {
    (entry: LogEntry) =>
      && entry.stored.request.channelId == channel
      && LiveNow(entry, clock + [now]) && !Seen(entry, clock, polls)
  }

  ghost predicate Sound(session: Session, trace: Trace, channel: Uuid, instanceMax: ServerTtl) {
    && Refines(session.store, trace.h, instanceMax)
    && (forall r | r in trace.polls :: r < |trace.h.clock|)
    && (forall i, j | 0 <= i < j < |trace.polls| :: trace.polls[i] < trace.polls[j])
    && session.received == Map(Filter(trace.h.log, SeenIn(channel, trace.h.clock, trace.polls)), DeliveredOf)
    && session.cursor == if session.received == [] then 0
                         else session.received[|session.received| - 1].receipt.sequence
  }

  lemma {:induction false} LiveEarlier(entry: LogEntry, clock: seq<Time>, n: nat)
    requires n <= |clock| && LiveNow(entry, clock)
    ensures LiveNow(entry, clock[..n])
  {
    if n < |clock| && entry.born + 1 < |clock| {
      LiveEarlier(entry, clock[..|clock| - 1], n);
      assert clock[..|clock| - 1][..n] == clock[..n];
    } else if n == |clock| {
      assert clock[..n] == clock;
    }
  }

  lemma SeenBy(entry: LogEntry, clock: seq<Time>, polls: seq<nat>, r: nat)
    requires r in polls && Finds(entry, clock, r)
    ensures Seen(entry, clock, polls)
  {
  }

  lemma Finder(entry: LogEntry, clock: seq<Time>, polls: seq<nat>) returns (r: nat)
    requires Seen(entry, clock, polls)
    ensures r in polls && Finds(entry, clock, r)
  {
    r :| r in polls && Finds(entry, clock, r);
  }

  /** What later calls do leaves the past of the reader's polls alone. */
  lemma SeenIsSettled(entry: LogEntry, clock: seq<Time>, later: seq<Time>, polls: seq<nat>)
    requires clock <= later && forall r | r in polls :: r < |clock|
    ensures Seen(entry, later, polls) == Seen(entry, clock, polls)
  {
    hide LiveNow, Seen;
    if Seen(entry, clock, polls) {
      var r := Finder(entry, clock, polls);
      assert later[..r + 1] == clock[..r + 1];
      SeenBy(entry, later, polls, r);
    }
    if Seen(entry, later, polls) {
      var r := Finder(entry, later, polls);
      assert later[..r + 1] == clock[..r + 1];
      SeenBy(entry, clock, polls, r);
    }
  }

  /** An acceptance that is live and unseen was made after the reader's last poll. */
  lemma UnseenIsLate(entry: LogEntry, clock: seq<Time>, polls: seq<nat>, now: Time, r: nat)
    requires LiveNow(entry, clock + [now]) && !Seen(entry, clock, polls)
    requires r in polls && r < |clock|
    ensures r <= entry.born
  {
    LiveEarlier(entry, clock + [now], r + 1);
    assert (clock + [now])[..r + 1] == clock[..r + 1];
  }

  lemma SeenOrder(clock: seq<Time>, polls: seq<nat>, now: Time, seen: LogEntry, unseen: LogEntry)
    requires forall r | r in polls :: r < |clock|
    requires Seen(seen, clock, polls) && LiveNow(unseen, clock + [now]) && !Seen(unseen, clock, polls)
    ensures seen.born < unseen.born
  {
    hide LiveNow, Seen;
    var r := Finder(seen, clock, polls);
    UnseenIsLate(unseen, clock, polls, now, r);
  }

  function SequenceRank(entry: LogEntry): int { entry.stored.receipt.sequence }

  lemma ChannelRises(h: History, instanceMax: ServerTtl, channel: Uuid)
    requires WellFormed(h, instanceMax) && Count(h.log, channel) <= U64_MAX
    ensures forall i, j | 0 <= i < j < |h.log| && InChannel(channel)(h.log[i]) && InChannel(channel)(h.log[j]) ::
              SequenceRank(h.log[i]) < SequenceRank(h.log[j])
    ensures forall i | 0 <= i < |h.log| && InChannel(channel)(h.log[i]) :: 1 <= SequenceRank(h.log[i])
  {
    hide Count;
    forall i, j | 0 <= i < j < |h.log| && InChannel(channel)(h.log[i]) && InChannel(channel)(h.log[j])
      ensures SequenceRank(h.log[i]) < SequenceRank(h.log[j])
    {
      NumbersRise(h.log, channel, i, j);
    }
    forall i | 0 <= i < |h.log| && InChannel(channel)(h.log[i])
      ensures 1 <= SequenceRank(h.log[i])
    {
      NumberBounded(h.log, channel, i);
    }
  }

  lemma ReceivedRises(h: History, instanceMax: ServerTtl, channel: Uuid, polls: seq<nat>)
    requires WellFormed(h, instanceMax) && Count(h.log, channel) <= U64_MAX
    ensures var seen := Filter(h.log, SeenIn(channel, h.clock, polls));
            forall i, j | 0 <= i < j < |seen| :: SequenceRank(seen[i]) < SequenceRank(seen[j])
  {
    ChannelRises(h, instanceMax, channel);
    FilterKeepsOrder(h.log, SeenIn(channel, h.clock, polls), SequenceRank);
  }

  /** What the reader has received, as entries of the log. */
  function Found(h: History, channel: Uuid, polls: seq<nat>): seq<LogEntry> {
    Filter(h.log, SeenIn(channel, h.clock, polls))
  }

  lemma SoundFacts(session: Session, trace: Trace, channel: Uuid, instanceMax: ServerTtl)
    requires Sound(session, trace, channel, instanceMax)
    ensures WellFormed(trace.h, instanceMax) && BornInOrder(trace.h.log)
    ensures forall r | r in trace.polls :: r < |trace.h.clock|
    ensures var found := Found(trace.h, channel, trace.polls);
            session.cursor == if found == [] then 0 else SequenceRank(found[|found| - 1])
  {
    hide Filter, SeenIn, LiveIdsDiffer, CountersRise, NumberedLog, WellFormedEntry, ChannelsAgree, IdsAgree,
      CountersAgree, NumbersAgree;
  }

  /** What was seen is not past the last number received. */
  lemma SeenIsBelow(h: History, instanceMax: ServerTtl, channel: Uuid, polls: seq<nat>, entry: LogEntry)
    requires WellFormed(h, instanceMax) && Count(h.log, channel) <= U64_MAX
    requires entry in h.log && entry.stored.request.channelId == channel && Seen(entry, h.clock, polls)
    ensures var found := Found(h, channel, polls);
            found != [] && SequenceRank(entry) <= SequenceRank(found[|found| - 1])
  {
    hide WellFormed, Count, Filter, Seen;
    var found := Found(h, channel, polls);
    FilterMembers(h.log, SeenIn(channel, h.clock, polls));
    ReceivedRises(h, instanceMax, channel, polls);
    assert SeenIn(channel, h.clock, polls)(entry);
    var k :| 0 <= k < |found| && found[k] == entry;
    assert k < |found| - 1 ==> SequenceRank(found[k]) < SequenceRank(found[|found| - 1]);
  }

  /** What is live and was not seen is past it. */
  lemma UnseenIsAbove(h: History, instanceMax: ServerTtl, channel: Uuid, polls: seq<nat>, now: Time, i: nat)
    requires WellFormed(h, instanceMax) && BornInOrder(h.log) && Count(h.log, channel) <= U64_MAX
    requires forall r | r in polls :: r < |h.clock|
    requires i < |h.log| && h.log[i].stored.request.channelId == channel
    requires LiveNow(h.log[i], h.clock + [now]) && !Seen(h.log[i], h.clock, polls)
    ensures var found := Found(h, channel, polls);
            SequenceRank(h.log[i]) > if found == [] then 0 else SequenceRank(found[|found| - 1])
  {
    hide WellFormed, BornInOrder, Count, LiveNow, Seen, Found, NumberedLog;
    assert NumberedLog(h.log) by { WellFormedIsNumbered(h, instanceMax); }
    if Found(h, channel, polls) == [] {
      NumberBounded(h.log, channel, i);
    } else {
      var j := LastFound(h, channel, polls);
      SeenOrder(h.clock, polls, now, h.log[j], h.log[i]);
      BornEarlier(h.log, j, i);
      NumbersRise(h.log, channel, j, i);
    }
  }

  lemma WellFormedIsNumbered(h: History, instanceMax: ServerTtl)
    requires WellFormed(h, instanceMax)
    ensures NumberedLog(h.log)
  {
  }

  /** Where in the log the entry received last is. */
  lemma LastFound(h: History, channel: Uuid, polls: seq<nat>) returns (j: nat)
    requires Found(h, channel, polls) != []
    ensures var found := Found(h, channel, polls);
            && j < |h.log| && h.log[j] == found[|found| - 1]
            && h.log[j].stored.request.channelId == channel && Seen(h.log[j], h.clock, polls)
  {
    hide Filter, Seen;
    var found := Found(h, channel, polls);
    FilterMembers(h.log, SeenIn(channel, h.clock, polls));
    assert found[|found| - 1] in found;
    j :| 0 <= j < |h.log| && h.log[j] == found[|found| - 1];
  }

  lemma BornEarlier(log: seq<LogEntry>, j: nat, i: nat)
    requires BornInOrder(log) && j < |log| && i < |log| && log[j].born < log[i].born
    ensures j < i
  {
  }

  /** For what is live at a poll, "past the cursor" and "not seen yet" are the same. */
  lemma CursorSeparates(session: Session, trace: Trace, channel: Uuid, instanceMax: ServerTtl, now: Time, i: nat)
    requires Sound(session, trace, channel, instanceMax)
    requires Count(trace.h.log, channel) <= U64_MAX
    requires i < |trace.h.log| && trace.h.log[i].stored.request.channelId == channel
    requires LiveNow(trace.h.log[i], trace.h.clock + [now])
    ensures SequenceRank(trace.h.log[i]) > session.cursor <==> !Seen(trace.h.log[i], trace.h.clock, trace.polls)
  {
    hide Sound, WellFormed, Count, LiveNow, Seen, Found, BornInOrder;
    SoundFacts(session, trace, channel, instanceMax);
    if Seen(trace.h.log[i], trace.h.clock, trace.polls) {
      SeenIsBelow(trace.h, instanceMax, channel, trace.polls, trace.h.log[i]);
    } else {
      UnseenIsAbove(trace.h, instanceMax, channel, trace.polls, now, i);
    }
  }

  /** A poll returns what is live and was not seen before. */
  lemma ReadFindsTheUnseen(session: Session, trace: Trace, channel: Uuid, instanceMax: ServerTtl, now: Time)
    requires Sound(session, trace, channel, instanceMax)
    requires Count(trace.h.log, channel) <= U64_MAX
    ensures ListActive(session.store, channel, session.cursor, now).1
            == Map(Filter(trace.h.log, NewIn(channel, trace.h.clock, trace.polls, now)), DeliveredOf)
  {
    hide Sound, Refines, Count, LiveNow, Seen, ListActive;
    var h := trace.h;
    var unseen, above := NewIn(channel, h.clock, trace.polls, now), LiveAbove(channel, h.clock + [now], session.cursor);
    forall entry | entry in h.log
      ensures above(entry) == unseen(entry)
    {
      var i :| 0 <= i < |h.log| && h.log[i] == entry;
      if entry.stored.request.channelId == channel && LiveNow(entry, h.clock + [now]) {
        CursorSeparates(session, trace, channel, instanceMax, now, i);
      }
    }
    FilterSame(h.log, above, unseen);
    assert Refines(session.store, h, instanceMax) by {
      SoundStore(session, trace, channel, instanceMax);
    }
    PollReadsTheLog(session.store, h, instanceMax, channel, session.cursor, now);
  }

  lemma SoundStore(session: Session, trace: Trace, channel: Uuid, instanceMax: ServerTtl)
    requires Sound(session, trace, channel, instanceMax)
    ensures Refines(session.store, trace.h, instanceMax)
  {
  }

  lemma ReadReceives(session: Session, trace: Trace, channel: Uuid, instanceMax: ServerTtl, now: Time)
    requires Sound(session, trace, channel, instanceMax)
    requires Count(trace.h.log, channel) <= U64_MAX
    ensures Advance(session, Read(now), channel, instanceMax).received
            == Map(Filter(trace.h.log, SeenIn(channel, trace.h.clock + [now], trace.polls + [|trace.h.clock|])),
                   DeliveredOf)
  {
    hide Refines, Count, ListActive, SeenIn, NewIn;
    var h := trace.h;
    var before, unseen := SeenIn(channel, h.clock, trace.polls), NewIn(channel, h.clock, trace.polls, now);
    ReadFindsTheUnseen(session, trace, channel, instanceMax, now);
    SeenSplits(h, instanceMax, session.store, channel, trace.polls, now);
    MapAppend(Filter(h.log, before), Filter(h.log, unseen), DeliveredOf);
  }

  lemma ReadIsSound(session: Session, trace: Trace, channel: Uuid, instanceMax: ServerTtl, now: Time)
    requires Sound(session, trace, channel, instanceMax)
    requires Count(trace.h.log, channel) <= U64_MAX
    ensures Sound(Advance(session, Read(now), channel, instanceMax), AdvanceT(trace, Read(now), instanceMax),
                  channel, instanceMax)
  {
    hide Refines, Count, ListActive, SeenIn, Filter;
    ReadReceives(session, trace, channel, instanceMax, now);
    ListRefines(session.store, trace.h, instanceMax, channel, session.cursor, now);
    OneMorePoll(trace.polls, |trace.h.clock|);
    var events := ListActive(session.store, channel, session.cursor, now).1;
    assert events == [] ==> session.received + events == session.received;
  }

  lemma OneMorePoll(polls: seq<nat>, n: nat)
    requires forall r | r in polls :: r < n
    requires forall i, j | 0 <= i < j < |polls| :: polls[i] < polls[j]
    ensures forall r | r in polls + [n] :: r < n + 1
    ensures forall i, j | 0 <= i < j < |polls + [n]| :: (polls + [n])[i] < (polls + [n])[j]
  {
    assert forall i | 0 <= i < |polls| :: polls[i] in polls;
  }

  lemma SeenGrows(entry: LogEntry, clock: seq<Time>, polls: seq<nat>, now: Time)
    requires entry.born < |clock| && forall r | r in polls :: r < |clock|
    ensures Seen(entry, clock + [now], polls + [|clock|]) <==>
            Seen(entry, clock, polls) || LiveNow(entry, clock + [now])
  {
    hide LiveNow, Seen;
    var later, polls' := clock + [now], polls + [|clock|];
    assert later[..|clock| + 1] == later;
    if Seen(entry, clock, polls) {
      var r := Finder(entry, clock, polls);
      assert later[..r + 1] == clock[..r + 1];
      SeenBy(entry, later, polls', r);
    }
    if LiveNow(entry, later) {
      assert polls'[|polls|] == |clock|;
      SeenBy(entry, later, polls', |clock|);
    }
    if Seen(entry, later, polls') {
      var r := Finder(entry, later, polls');
      if r != |clock| {
        assert later[..r + 1] == clock[..r + 1];
        SeenBy(entry, clock, polls, r);
      }
    }
  }

  /** Everything seen after a poll is what was seen before it, followed by what it found new. */
  lemma SeenSplits(h: History, instanceMax: ServerTtl, s: StoreData, channel: Uuid, polls: seq<nat>, now: Time)
    requires Refines(s, h, instanceMax) && forall r | r in polls :: r < |h.clock|
    ensures Filter(h.log, SeenIn(channel, h.clock + [now], polls + [|h.clock|]))
            == Filter(h.log, SeenIn(channel, h.clock, polls)) + Filter(h.log, NewIn(channel, h.clock, polls, now))
  {
    var before, unseen := SeenIn(channel, h.clock, polls), NewIn(channel, h.clock, polls, now);
    var after := SeenIn(channel, h.clock + [now], polls + [|h.clock|]);
    BornBefore(s, h, instanceMax);
    var ordered := BornInOrder(h.log);
    assert ordered;
    hide Refines, LiveNow, Seen;
    forall entry | entry in h.log
      ensures after(entry) == (before(entry) || unseen(entry)) && !(before(entry) && unseen(entry))
    {
      SeenGrows(entry, h.clock, polls, now);
    }
    forall i, j | 0 <= i < j < |h.log| && before(h.log[j])
      ensures !unseen(h.log[i])
    {
      if unseen(h.log[i]) {
        SeenOrder(h.clock, polls, now, h.log[j], h.log[i]);
        assert false;
      }
    }
    FilterJoin(h.log, before, unseen, after);
  }

  lemma SeenSettled(h: History, h': History, polls: seq<nat>, channel: Uuid)
    requires h.log <= h'.log && h.clock <= h'.clock && forall r | r in polls :: r < |h.clock|
    requires forall entry | entry in h'.log[|h.log|..] :: entry.born == |h.clock|
    ensures Filter(h'.log, SeenIn(channel, h'.clock, polls)) == Filter(h.log, SeenIn(channel, h.clock, polls))
  {
    hide Seen, LiveNow;
    var before, after := SeenIn(channel, h.clock, polls), SeenIn(channel, h'.clock, polls);
    var added := h'.log[|h.log|..];
    assert h'.log == h.log + added;
    FilterAppend(h.log, added, after);
    forall entry | entry in h.log
      ensures before(entry) == after(entry)
    {
      SeenIsSettled(entry, h.clock, h'.clock, polls);
    }
    FilterSame(h.log, before, after);
    forall entry | entry in added
      ensures !after(entry)
    {
      SeenIsSettled(entry, h.clock, h'.clock, polls);
      NotSeenYet(entry, h.clock, polls);
    }
    FilterNone(added, after);
  }

  lemma TrafficIsSound(session: Session, trace: Trace, call: Call, channel: Uuid, instanceMax: ServerTtl)
    requires Sound(session, trace, channel, instanceMax)
    ensures Sound(Advance(session, Traffic(call), channel, instanceMax),
                  AdvanceT(trace, Traffic(call), instanceMax), channel, instanceMax)
  {
    hide Refines, Serve, ServeH, SeenIn;
    ServeRefines(session.store, trace.h, call, instanceMax);
    TrafficIsLate(trace.h, call, instanceMax);
    SeenSettled(trace.h, ServeH(trace.h, call, instanceMax), trace.polls, channel);
  }

  lemma NotSeenYet(entry: LogEntry, clock: seq<Time>, polls: seq<nat>)
    requires |clock| <= entry.born
    ensures !Seen(entry, clock, polls)
  {
  }

  lemma TrafficIsLate(h: History, call: Call, instanceMax: ServerTtl)
    ensures h.log <= ServeH(h, call, instanceMax).log
    ensures forall entry | entry in ServeH(h, call, instanceMax).log[|h.log|..] :: entry.born == |h.clock|
  {
  }

  lemma CountNeverFalls(trace: Trace, step: Step, channel: Uuid, instanceMax: ServerTtl)
    ensures Count(trace.h.log, channel) <= Count(AdvanceT(trace, step, instanceMax).h.log, channel)
  {
    if step.Traffic? {
      var h' := ServeH(trace.h, step.call, instanceMax);
      TrafficIsLate(trace.h, step.call, instanceMax);
      assert h'.log == trace.h.log + h'.log[|trace.h.log|..];
      FilterAppend(trace.h.log, h'.log[|trace.h.log|..], InChannel(channel));
    }
  }

  lemma {:induction false} SessionIsSound(steps: seq<Step>, channel: Uuid, instanceMax: ServerTtl)
    requires Count(TraceOf(steps, instanceMax).h.log, channel) <= U64_MAX
    ensures Sound(RunSession(steps, channel, instanceMax), TraceOf(steps, instanceMax), channel, instanceMax)
  {
    if steps != [] {
      var earlier, step := steps[..|steps| - 1], steps[|steps| - 1];
      var session, trace := RunSession(earlier, channel, instanceMax), TraceOf(earlier, instanceMax);
      CountNeverFalls(trace, step, channel, instanceMax);
      SessionIsSound(earlier, channel, instanceMax);
      hide Sound, Count;
      match step
      case Traffic(call) => TrafficIsSound(session, trace, call, channel, instanceMax);
      case Read(now) => ReadIsSound(session, trace, channel, instanceMax, now);
    }
  }

  /** The first of the reader's polls after call number `born`. */
  function FirstPollAfter(born: nat, polls: seq<nat>): Option<nat> {
    if polls == [] then None else if polls[0] > born then Some(polls[0]) else FirstPollAfter(born, polls[1..])
  }

  lemma {:induction false} FirstPollIsFirst(born: nat, polls: seq<nat>)
    requires forall i, j | 0 <= i < j < |polls| :: polls[i] < polls[j]
    ensures var first := FirstPollAfter(born, polls);
            && (first.Some? ==> first.value in polls && born < first.value)
            && (forall r | r in polls && born < r :: first.Some? && first.value <= r)
  {
    if polls != [] {
      FirstPollIsFirst(born, polls[1..]);
      assert polls == [polls[0]] + polls[1..];
    }
  }

  lemma SeenAtFirstPoll(entry: LogEntry, clock: seq<Time>, polls: seq<nat>)
    requires forall i, j | 0 <= i < j < |polls| :: polls[i] < polls[j]
    requires forall r | r in polls :: r < |clock|
    ensures var first := FirstPollAfter(entry.born, polls);
            && (first.Some? ==> first.value < |clock|)
            && (Seen(entry, clock, polls) <==> first.Some? && LiveNow(entry, clock[..first.value + 1]))
  {
    hide LiveNow, Seen, FirstPollAfter;
    FirstPollIsFirst(entry.born, polls);
    var first := FirstPollAfter(entry.born, polls);
    if Seen(entry, clock, polls) {
      var r := Finder(entry, clock, polls);
      LiveEarlier(entry, clock[..r + 1], first.value + 1);
      assert clock[..r + 1][..first.value + 1] == clock[..first.value + 1];
    }
    if first.Some? && LiveNow(entry, clock[..first.value + 1]) {
      SeenBy(entry, clock, polls, first.value);
    }
  }

  /**
   * Whatever happens between its polls, the reader receives the channel's acceptances in
   * sequence order, none twice, and misses exactly those that were no longer live at its
   * first poll after they were made.
   */
  lemma ReaderMissesOnlyTheExpired(steps: seq<Step>, channel: Uuid, instanceMax: ServerTtl, i: nat)
    requires Count(TraceOf(steps, instanceMax).h.log, channel) <= U64_MAX
    requires i < |TraceOf(steps, instanceMax).h.log|
    requires TraceOf(steps, instanceMax).h.log[i].stored.request.channelId == channel
    ensures var received := RunSession(steps, channel, instanceMax).received;
            forall j, k | 0 <= j < k < |received| :: received[j].receipt.sequence < received[k].receipt.sequence
    ensures var Trace(h, polls) := TraceOf(steps, instanceMax);
            var first := FirstPollAfter(h.log[i].born, polls);
            && (first.Some? ==> first.value < |h.clock|)
            && (Delivered(h.log[i].stored) in RunSession(steps, channel, instanceMax).received <==>
                first.Some? && LiveNow(h.log[i], h.clock[..first.value + 1]))
  {
    hide RunSession, TraceOf, Refines, WellFormed, Count, LiveNow, Seen, SeenIn, FirstPollAfter;
    var Trace(h, polls) := TraceOf(steps, instanceMax);
    SessionIsSound(steps, channel, instanceMax);
    assert WellFormed(h, instanceMax) by {
      SoundFacts(RunSession(steps, channel, instanceMax), TraceOf(steps, instanceMax), channel, instanceMax);
    }
    ReceivedRises(h, instanceMax, channel, polls);
    SeenAtFirstPoll(h.log[i], h.clock, polls);
    DeliveredOnce(h, instanceMax, channel, polls, i);
  }

  /** Deliveries of one channel tell its acceptances apart. */
  lemma DeliveredOnce(h: History, instanceMax: ServerTtl, channel: Uuid, polls: seq<nat>, i: nat)
    requires WellFormed(h, instanceMax) && Count(h.log, channel) <= U64_MAX
    requires i < |h.log| && h.log[i].stored.request.channelId == channel
    ensures Delivered(h.log[i].stored) in Map(Filter(h.log, SeenIn(channel, h.clock, polls)), DeliveredOf)
            <==> Seen(h.log[i], h.clock, polls)
  {
    hide WellFormed, Count, LiveNow, Seen;
    var entry, keep := h.log[i], SeenIn(channel, h.clock, polls);
    ChannelRises(h, instanceMax, channel);
    FilterMapMembers(h.log, keep, DeliveredOf, Delivered(entry.stored));
    assert InChannel(channel)(entry) && entry in h.log;
    forall x | x in h.log && keep(x) && DeliveredOf(x) == Delivered(entry.stored)
      ensures x == entry
    {
      var j :| 0 <= j < |h.log| && h.log[j] == x;
      assert InChannel(channel)(h.log[j]);
      assert SequenceRank(h.log[j]) == SequenceRank(h.log[i]);
    }
  }
}
