/**
 * What the interleavings of `PauseProtocol` mean for the vault: a flush of `OutboxWorker` is a
 * sequence of the protocol's steps, among the steps of any other threads.
 */
module PausedFlush {
  import opened Wrappers
  import opened Protocol
  import opened Identifiers
  import opened VaultStore
  import opened OutboxWorker
  import opened PauseProtocol

  /** A step of the flush; where it reads the flag, with what it finds. */
  datatype Event = Reads(step: Step, flag: bool) | Takes(step: Step)

  predicate OfFlush(step: Step) {
    || step.FlushLock? || step.FlushCheck? || step.FlushListed? || step.FlushTop? || step.FlushSkip?
    || step.FlushSubmit? || step.FlushReply? || step.FlushCancel? || step.FlushAck? || step.FlushGiveUp?
    || step.FlushUnlock?
  }

  function EventAt(steps: seq<Step>, i: nat): Event
    requires i < |steps| && Possible(steps[..i])
  {
    if steps[i].FlushCheck? || steps[i].FlushTop? then Reads(steps[i], After(steps[..i]).flag) else Takes(steps[i])
  }

  /** The flush's steps from i up to j are these; others' may come in between. */
  predicate Spells(steps: seq<Step>, i: nat, j: nat, word: seq<Event>)
    requires Possible(steps) && i <= j <= |steps|
    decreases j - i
  {
    if i == j then word == []
    else
      assert Possible(steps[..i]) by { PrefixIsPossible(steps, i); }
      if !OfFlush(steps[i]) then Spells(steps, i + 1, j, word)
      else word != [] && word[0] == EventAt(steps, i) && Spells(steps, i + 1, j, word[1..])
  }

  /** How a turn ends once its request is under way. */
  function EndEvents(reply: Reply, outcome: Outcome): seq<Event> {
    if reply.Cancelled? then [Takes(FlushCancel)]
    else if outcome.Acknowledged? then [Takes(FlushReply), Takes(FlushAck)]
    else if outcome.Interrupted? then [Takes(FlushReply), Takes(FlushGiveUp), Takes(FlushGiveUp)]
    else [Takes(FlushReply), Takes(FlushGiveUp)]
  }

  function LastOutcome(w: Work): Outcome { if w.outcomes == [] then Untried else w.outcomes[|w.outcomes| - 1] }

  /** The steps of one turn of the loop. */
  function TurnEvents(json: Codec<SubmitEvent>, w: Work, item: OutboxItem, turn: Turn): seq<Event> {
    if w.progress.stopped || item.deviceId in w.progress.blocked then []
    else if !turn.enabled then [Reads(FlushTop, false)]
    else if ValidateOutboxItem(json, item).None? then [Reads(FlushTop, true), Takes(FlushSkip)]
    else [Reads(FlushTop, true), Takes(FlushSubmit)] + EndEvents(turn.reply, LastOutcome(TakeTurn(json, w, item, turn)))
  }

  function LoopEvents(json: Codec<SubmitEvent>, start: Work, items: seq<OutboxItem>, turn: nat -> Turn): seq<Event> {
    if items == [] then []
    else
      var last := |items| - 1;
      LoopEvents(json, start, items[..last], turn)
      + TurnEvents(json, Loop(json, start, items[..last], turn), items[last], turn(last))
  }

  /** The steps of a whole flush after it has got the run lock. */
  function FlushEvents(json: Codec<SubmitEvent>, v: Shared, env: Environment): seq<Event> {
    [Reads(FlushCheck, env.enabled)]
    + (if !env.enabled then []
       else if !Lists(v, env) then [Takes(FlushListed(false))]
       else [Takes(FlushListed(true))] + LoopEvents(json, Starting(v), ListAll(v.db), env.turn)
            + if LoopOf(json, v, env).progress.stopped then [] else [Takes(FlushGiveUp)])
    + [Takes(FlushUnlock)]
  }

  function AcksIn(word: seq<Event>): nat {
    if word == [] then 0 else (if word[0] == Takes(FlushAck) then 1 else 0) + AcksIn(word[1..])
  }

  lemma {:induction false} AcksSplit(steps: seq<Step>, i: nat, k: nat, j: nat)
    requires i <= k <= j <= |steps|
    ensures Acks(steps, i, j) == Acks(steps, i, k) + Acks(steps, k, j)
  {
    if k < j {
      AcksSplit(steps, i, k, j - 1);
    }
  }

  lemma OthersKeepPhase(s: State, step: Step, phase: Phase)
    requires Enabled(s, step) && In(s, phase) && !OfFlush(step)
    ensures In(Next(s, step), phase)
  {
  }

  lemma AcksOfOne(steps: seq<Step>, i: nat)
    requires i < |steps|
    ensures Acks(steps, i, i + 1) == if steps[i].FlushAck? then 1 else 0
  {
  }

  /** Up to the flush's next step the lock stays as it is. */
  lemma {:induction false} NextOfFlush(steps: seq<Step>, i: nat, j: nat, word: seq<Event>, phase: Phase)
    returns (k: nat)
    requires Possible(steps) && i <= j <= |steps| && Spells(steps, i, j, word) && word != []
    requires Possible(steps[..i]) && In(After(steps[..i]), phase)
    ensures i <= k < j && Possible(steps[..k]) && Possible(steps[..k + 1]) && In(After(steps[..k]), phase)
    ensures Enabled(After(steps[..k]), steps[k]) && After(steps[..k + 1]) == Next(After(steps[..k]), steps[k])
    ensures word[0] == EventAt(steps, k) && Spells(steps, k + 1, j, word[1..])
    ensures Acks(steps, i, k + 1) == if word[0] == Takes(FlushAck) then 1 else 0
    decreases j - i
  {
    hide Possible, After, Next, Enabled, Acks;
    OneMore(steps, i);
    AcksOfOne(steps, i);
    if OfFlush(steps[i]) {
      k := i;
    } else {
      OthersKeepPhase(After(steps[..i]), steps[i], phase);
      k := NextOfFlush(steps, i + 1, j, word, phase);
      AcksSplit(steps, i, i + 1, k + 1);
    }
  }

  lemma {:induction false} NoMoreOfFlush(steps: seq<Step>, i: nat, j: nat, phase: Phase)
    requires Possible(steps) && i <= j <= |steps| && Spells(steps, i, j, [])
    requires Possible(steps[..i]) && In(After(steps[..i]), phase)
    ensures Possible(steps[..j]) && In(After(steps[..j]), phase) && Acks(steps, i, j) == 0
    decreases j - i
  {
    if i < j {
      hide Possible, After, Next, Enabled;
      OneMore(steps, i);
      OthersKeepPhase(After(steps[..i]), steps[i], phase);
      NoMoreOfFlush(steps, i + 1, j, phase);
      AcksSplit(steps, i, i + 1, j);
    }
  }

  lemma {:induction false} SpellsSplit(steps: seq<Step>, i: nat, j: nat, a: seq<Event>, b: seq<Event>) returns (k: nat)
    requires Possible(steps) && i <= j <= |steps| && Spells(steps, i, j, a + b)
    ensures i <= k <= j && Spells(steps, i, k, a) && Spells(steps, k, j, b)
    decreases j - i
  {
    hide Possible, After;
    k := i;
    if a == [] {
      assert a + b == b;
    } else if !OfFlush(steps[i]) {
      k := SpellsSplit(steps, i + 1, j, a, b);
    } else {
      assert (a + b)[1..] == a[1..] + b;
      k := SpellsSplit(steps, i + 1, j, a[1..], b);
    }
  }

  function PhaseOf(w: Work, seen: nat): Phase { if w.progress.stopped then Leaving else AtTop(seen) }

  /** The phase after one of the loop's events. */
  function Moved(phase: Phase, event: Event): Phase {
    match event
    case Reads(_, flag) => if flag && phase.AtTop? then Chosen(phase.seen) else Leaving
    case Takes(step) =>
      if step.FlushSubmit? && phase.Chosen? then InFlight(phase.seen)
      else if step.FlushReply? && phase.InFlight? then Replied(phase.seen)
      else if phase.Chosen? || phase.Replied? then AtTop(phase.seen)
      else Leaving
  }

  predicate OfLoop(event: Event) {
    if event.Reads? then event.step.FlushTop?
    else event.step.FlushSkip? || event.step.FlushSubmit? || event.step.FlushReply? || event.step.FlushCancel?
         || event.step.FlushAck? || event.step.FlushGiveUp?
  }

  predicate AllOfLoop(word: seq<Event>) { forall k | 0 <= k < |word| :: OfLoop(word[k]) }

  function PhaseAfter(phase: Phase, word: seq<Event>): Phase
    decreases |word|
  {
    if word == [] then phase else PhaseAfter(Moved(phase, word[0]), word[1..])
  }

  lemma StepMoves(s: State, step: Step, event: Event, phase: Phase)
    requires Enabled(s, step) && In(s, phase) && OfLoop(event)
    requires event == if step.FlushCheck? || step.FlushTop? then Reads(step, s.flag) else Takes(step)
    ensures In(Next(s, step), Moved(phase, event))
  {
  }

  /** Whatever others do in between, the loop's steps lead where they lead alone. */
  lemma {:induction false} WordLeads(steps: seq<Step>, i: nat, j: nat, word: seq<Event>, phase: Phase)
    requires Possible(steps) && i <= j <= |steps| && Spells(steps, i, j, word) && AllOfLoop(word)
    requires Possible(steps[..i]) && In(After(steps[..i]), phase)
    ensures Possible(steps[..j]) && In(After(steps[..j]), PhaseAfter(phase, word))
    ensures Acks(steps, i, j) == AcksIn(word)
    decreases |word|
  {
    hide Possible, After, Next, Enabled, Moved, Spells;
    if word == [] {
      NoMoreOfFlush(steps, i, j, phase);
    } else {
      var k := NextOfFlush(steps, i, j, word, phase);
      StepMoves(After(steps[..k]), steps[k], word[0], phase);
      WordLeads(steps, k + 1, j, word[1..], Moved(phase, word[0]));
      AcksSplit(steps, i, k + 1, j);
    }
  }

  lemma OneEvent(phase: Phase, event: Event, rest: seq<Event>)
    ensures PhaseAfter(phase, [event] + rest) == PhaseAfter(Moved(phase, event), rest)
    ensures AcksIn([event] + rest) == (if event == Takes(FlushAck) then 1 else 0) + AcksIn(rest)
  {
    assert ([event] + rest)[1..] == rest;
  }

  /** Once the request is under way. */
  lemma EndLeads(reply: Reply, outcome: Outcome, seen: nat)
    ensures var word := EndEvents(reply, outcome);
            && AllOfLoop(word)
            && PhaseAfter(InFlight(seen), word)
               == (if reply.Cancelled? || outcome.Interrupted? then Leaving else AtTop(seen))
            && AcksIn(word) == if !reply.Cancelled? && outcome.Acknowledged? then 1 else 0
  {
    var word := EndEvents(reply, outcome);
    if reply.Cancelled? {
      OneEvent(InFlight(seen), Takes(FlushCancel), []);
      assert word == [Takes(FlushCancel)] + [];
    } else {
      var rest := word[1..];
      assert word == [Takes(FlushReply)] + rest;
      OneEvent(InFlight(seen), Takes(FlushReply), rest);
      OneEvent(Replied(seen), rest[0], rest[1..]);
    }
  }

  /** Alone, the steps of a turn lead where the turn leads, with as many rows acknowledged. */
  lemma TurnLeads(json: Codec<SubmitEvent>, w: Work, item: OutboxItem, turn: Turn, seen: nat)
    ensures var word, w' := TurnEvents(json, w, item, turn), TakeTurn(json, w, item, turn);
            && AllOfLoop(word)
            && (!w.progress.stopped ==> PhaseAfter(AtTop(seen), word) == PhaseOf(w', seen))
            && (w.progress.stopped ==> word == [] && w'.progress == w.progress)
            && AcksIn(word) == w'.progress.report.acknowledged - w.progress.report.acknowledged
  {
    hide ValidateOutboxItem, Meanwhile, Acknowledge, UuidText, Moved, AllOfLoop, EndEvents;
    var word, w' := TurnEvents(json, w, item, turn), TakeTurn(json, w, item, turn);
    var end := EndEvents(turn.reply, LastOutcome(w'));
    CheckLeads(seen, end);
    EndLeads(turn.reply, LastOutcome(w'), seen);
    assert word == [] || word == [Reads(FlushTop, false)] || word == [Reads(FlushTop, true), Takes(FlushSkip)]
           || word == [Reads(FlushTop, true), Takes(FlushSubmit)] + end;
  }

  lemma CheckLeads(seen: nat, end: seq<Event>)
    ensures var skip, submit := [Reads(FlushTop, true), Takes(FlushSkip)], [Reads(FlushTop, true), Takes(FlushSubmit)];
            && AllOfLoop([]) && AllOfLoop([Reads(FlushTop, false)]) && AllOfLoop(skip)
            && (AllOfLoop(end) ==> AllOfLoop(submit + end))
            && PhaseAfter(AtTop(seen), []) == AtTop(seen) && AcksIn([]) == 0
            && PhaseAfter(AtTop(seen), [Reads(FlushTop, false)]) == Leaving && AcksIn([Reads(FlushTop, false)]) == 0
            && PhaseAfter(AtTop(seen), skip) == AtTop(seen) && AcksIn(skip) == 0
            && PhaseAfter(AtTop(seen), submit + end) == PhaseAfter(InFlight(seen), end)
            && AcksIn(submit + end) == AcksIn(end)
  {
    var skip, submit := [Reads(FlushTop, true), Takes(FlushSkip)], [Reads(FlushTop, true), Takes(FlushSubmit)];
    OneEvent(AtTop(seen), Reads(FlushTop, false), []);
    assert [Reads(FlushTop, false)] + [] == [Reads(FlushTop, false)];
    assert skip[1..] == [Takes(FlushSkip)] && skip[1..][1..] == [];
    OneEvent(AtTop(seen), Reads(FlushTop, true), [Takes(FlushSubmit)] + end);
    OneEvent(Chosen(seen), Takes(FlushSubmit), end);
    assert submit + end == [Reads(FlushTop, true)] + ([Takes(FlushSubmit)] + end);
  }

  /** Every run of the protocol in which the flush's steps are the loop's does what the loop does. */
  lemma {:induction false} LoopIsARun(json: Codec<SubmitEvent>, start: Work, items: seq<OutboxItem>, turn: nat -> Turn,
                                      steps: seq<Step>, i: nat, j: nat, seen: nat)
    requires Possible(steps) && i <= j <= |steps| && Spells(steps, i, j, LoopEvents(json, start, items, turn))
    requires Possible(steps[..i]) && !start.progress.stopped && In(After(steps[..i]), AtTop(seen))
    ensures Possible(steps[..j]) && In(After(steps[..j]), PhaseOf(Loop(json, start, items, turn), seen))
    ensures Acks(steps, i, j)
            == Loop(json, start, items, turn).progress.report.acknowledged - start.progress.report.acknowledged
  {
    hide Possible, After, TakeTurn, TurnEvents, Spells;
    if items == [] {
      NoMoreOfFlush(steps, i, j, AtTop(seen));
    } else {
      var last := |items| - 1;
      var w := Loop(json, start, items[..last], turn);
      var word := TurnEvents(json, w, items[last], turn(last));
      var k := SpellsSplit(steps, i, j, LoopEvents(json, start, items[..last], turn), word);
      LoopIsARun(json, start, items[..last], turn, steps, i, k, seen);
      TurnLeads(json, w, items[last], turn(last), seen);
      WordLeads(steps, k, j, word, PhaseOf(w, seen));
      AcksSplit(steps, i, k, j);
    }
  }

  lemma {:induction false} NothingSpelled(steps: seq<Step>, i: nat, j: nat)
    requires Possible(steps) && i <= j <= |steps| && Spells(steps, i, j, [])
    ensures Acks(steps, i, j) == 0
    decreases j - i
  {
    if i < j {
      hide Possible, After;
      NothingSpelled(steps, i + 1, j);
      AcksSplit(steps, i, i + 1, j);
    }
  }

  lemma UnlockingIsARun(steps: seq<Step>, i: nat, j: nat)
    requires Possible(steps) && i <= j <= |steps| && Spells(steps, i, j, [Takes(FlushUnlock)])
    requires Possible(steps[..i]) && In(After(steps[..i]), Leaving)
    ensures Acks(steps, i, j) == 0
  {
    hide Possible, After, Spells;
    var word := [Takes(FlushUnlock)];
    assert word[1..] == [];
    var k := NextOfFlush(steps, i, j, word, Leaving);
    NothingSpelled(steps, k + 1, j);
    AcksSplit(steps, i, k + 1, j);
  }

  /**
   * From the run lock to its release, among any steps of other threads: the rows the protocol
   * counts as acknowledged are the rows the flush reports.
   */
  lemma FlushIsARun(json: Codec<SubmitEvent>, v: Shared, status: Status, env: Environment, steps: seq<Step>, i: nat,
                    j: nat)
    requires Possible(steps) && i <= j <= |steps| && Spells(steps, i, j, FlushEvents(json, v, env))
    requires Possible(steps[..i]) && In(After(steps[..i]), Entered)
    ensures Acks(steps, i, j) == Flush(json, v, status, env).1.acknowledged
  {
    hide Possible, After, LoopEvents, Loop, ListAll, Meanwhile, Spells;
    var word := FlushEvents(json, v, env);
    var a := NextOfFlush(steps, i, j, word, Entered);
    AcksSplit(steps, i, a + 1, j);
    if !env.enabled {
      assert word[1..] == [Takes(FlushUnlock)];
      UnlockingIsARun(steps, a + 1, j);
    } else {
      ListingIsARun(json, v, env, steps, a + 1, j);
    }
  }

  lemma ListingIsARun(json: Codec<SubmitEvent>, v: Shared, env: Environment, steps: seq<Step>, i: nat, j: nat)
    requires Possible(steps) && i <= j <= |steps| && env.enabled
    requires Spells(steps, i, j, FlushEvents(json, v, env)[1..])
    requires Possible(steps[..i]) && In(After(steps[..i]), Listing)
    ensures Acks(steps, i, j)
            == if Lists(v, env) then LoopOf(json, v, env).progress.report.acknowledged else 0
  {
    hide Possible, After, LoopEvents, Loop, ListAll, Spells;
    var word := FlushEvents(json, v, env)[1..];
    var a := NextOfFlush(steps, i, j, word, Listing);
    AcksSplit(steps, i, a + 1, j);
    if !Lists(v, env) {
      assert word[1..] == [Takes(FlushUnlock)];
      UnlockingIsARun(steps, a + 1, j);
    } else {
      var seen := After(steps[..a]).version;
      var body, rest := LoopEvents(json, Starting(v), ListAll(v.db), env.turn), word[1..];
      var end := (if LoopOf(json, v, env).progress.stopped then [] else [Takes(FlushGiveUp)]) + [Takes(FlushUnlock)];
      assert rest == body + end;
      var k := SpellsSplit(steps, a + 1, j, body, end);
      LoopIsARun(json, Starting(v), ListAll(v.db), env.turn, steps, a + 1, k, seen);
      EndIsARun(steps, k, j, LoopOf(json, v, env), seen);
      AcksSplit(steps, a + 1, k, j);
    }
  }

  lemma EndIsARun(steps: seq<Step>, i: nat, j: nat, w: Work, seen: nat)
    requires Possible(steps) && i <= j <= |steps|
    requires Spells(steps, i, j, (if w.progress.stopped then [] else [Takes(FlushGiveUp)]) + [Takes(FlushUnlock)])
    requires Possible(steps[..i]) && In(After(steps[..i]), PhaseOf(w, seen))
    ensures Acks(steps, i, j) == 0
  {
    hide Possible, After, Spells;
    var k := i;
    if !w.progress.stopped {
      var word := [Takes(FlushGiveUp)] + [Takes(FlushUnlock)];
      var a := NextOfFlush(steps, i, j, word, AtTop(seen));
      k := a + 1;
      assert word[1..] == [Takes(FlushUnlock)];
      AcksSplit(steps, i, k, j);
    } else {
      assert [] + [Takes(FlushUnlock)] == [Takes(FlushUnlock)];
    }
    UnlockingIsARun(steps, k, j);
  }

  /**
   * Once the flag has fallen, a flush that begins before the next resume leaves the vault as it
   * is. With `PauseProtocol.LockIsQuiet`: so does every flush after `pause_and_wait` has returned.
   */
  lemma FlushWhilePaused(json: Codec<SubmitEvent>, v: Shared, status: Status, env: Environment, steps: seq<Step>,
                         f: nat, i: nat, j: nat)
    requires Possible(steps) && f <= i <= j <= |steps| && Spells(steps, i, j, FlushEvents(json, v, env))
    requires Possible(steps[..i]) && In(After(steps[..i]), Entered)
    requires Possible(steps[..f]) && !After(steps[..f]).flag
    requires forall k | f <= k < j :: !steps[k].ResumeSwap?
    ensures Flush(json, v, status, env) == (v, PausedStatus(status.pending))
  {
    hide Possible, After, LoopEvents, Loop, ListAll;
    var k := NextOfFlush(steps, i, j, FlushEvents(json, v, env), Entered);
    StaysDown(steps, f, k);
  }

  /**
   * A flag that falls during a flush: at most one row more is acknowledged than was before, and
   * none unless the loop had passed its check with that row.
   */
  lemma FallingFlagStopsTheFlush(json: Codec<SubmitEvent>, v: Shared, status: Status, env: Environment,
                                 steps: seq<Step>, i: nat, f: nat, j: nat)
    requires Possible(steps) && i <= f <= j <= |steps| && Spells(steps, i, j, FlushEvents(json, v, env))
    requires Possible(steps[..i]) && In(After(steps[..i]), Entered)
    requires Possible(steps[..f]) && !After(steps[..f]).flag
    requires forall k | f <= k < j :: !steps[k].ResumeSwap?
    ensures Acks(steps, i, f) <= Flush(json, v, status, env).1.acknowledged
            <= Acks(steps, i, f) + if Engaged(After(steps[..f])) then 1 else 0
  {
    hide Possible, After, FlushEvents, Flush, Spells;
    FlushIsARun(json, v, status, env, steps, i, j);
    AtMostTheRowAtHand(steps, f, j);
    AcksSplit(steps, i, f, j);
  }
}
