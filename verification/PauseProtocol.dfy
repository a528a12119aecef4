/**
 * Pausing the outbox worker (apps/desktop/src-tauri/src/outbox.rs:212-234, 250-304): any number
 * of threads interleave on an atomic flag, a watch channel and the run lock. A step is one
 * access to one of these, or one event of the flush that holds the lock.
 */
module PauseProtocol {
  /** A flush that holds the run lock; `seen` is the watch version it subscribed at. */
  datatype Phase =
    | Entered
    | Listing
    | AtTop(seen: nat)
    | Chosen(seen: nat)
    | InFlight(seen: nat)
    | Replied(seen: nat)
    | Leaving

  datatype Lock = Free | Flushing(phase: Phase) | HeldBy(caller: nat)

  /** A call between its swap of the flag and its end; `owes` a send if its swap changed the flag. */
  datatype Caller = Resuming(owes: bool) | Pausing(owes: bool)

  datatype State = State(flag: bool, version: nat, watched: bool, lock: Lock, callers: map<nat, Caller>)

  const INITIAL := State(false, 0, false, Free, map[])

  datatype Step =
    | ResumeSwap(id: nat) | ResumeSend(id: nat) | ResumeEnd(id: nat)
    | PauseSwap(id: nat) | PauseSend(id: nat) | PauseEnd(id: nat)
    | PauseLock(id: nat) | PauseUnlock(id: nat)
    | FlushLock | FlushCheck | FlushListed(read: bool) | FlushTop | FlushSkip | FlushSubmit
    | FlushReply | FlushCancel | FlushAck | FlushGiveUp | FlushUnlock

  predicate In(s: State, phase: Phase) { s.lock == Flushing(phase) }

  function To(s: State, phase: Phase): State { s.(lock := Flushing(phase)) }

  predicate Calling(s: State, id: nat, caller: Caller) { id in s.callers && s.callers[id] == caller }

  /** Whether the step can be taken now. */
  predicate Enabled(s: State, step: Step) {
    match step
    case ResumeSwap(id) => id !in s.callers
    case ResumeSend(id) => Calling(s, id, Resuming(true))
    case ResumeEnd(id) => Calling(s, id, Resuming(false))
    case PauseSwap(id) => id !in s.callers
    case PauseSend(id) => Calling(s, id, Pausing(true))
    case PauseEnd(id) => Calling(s, id, Pausing(false)) && s.lock != HeldBy(id)
    case PauseLock(id) => Calling(s, id, Pausing(false)) && s.lock.Free?
    case PauseUnlock(id) => Calling(s, id, Pausing(false)) && s.lock == HeldBy(id)
    case FlushLock => s.lock.Free?
    case FlushCheck => In(s, Entered)
    case FlushListed(_) => In(s, Listing)
    case FlushTop => s.lock.Flushing? && s.lock.phase.AtTop?
    case FlushSkip => s.lock.Flushing? && s.lock.phase.Chosen?
    case FlushSubmit => s.lock.Flushing? && s.lock.phase.Chosen?
    case FlushReply => s.lock.Flushing? && s.lock.phase.InFlight?
    case FlushCancel => s.lock.Flushing? && s.lock.phase.InFlight? && s.version != s.lock.phase.seen
    case FlushAck => s.lock.Flushing? && s.lock.phase.Replied?
    case FlushGiveUp => s.lock.Flushing? && (s.lock.phase.Replied? || s.lock.phase.AtTop?)
    case FlushUnlock => In(s, Leaving)
  }

  function Next(s: State, step: Step): State
    requires Enabled(s, step)
  {
    match step
    case ResumeSwap(id) => s.(flag := true, callers := s.callers[id := Resuming(!s.flag)])
    case ResumeSend(id) => s.(version := s.version + 1, watched := true, callers := s.callers[id := Resuming(false)])
    case ResumeEnd(id) => s.(callers := s.callers - {id})
    case PauseSwap(id) => s.(flag := false, callers := s.callers[id := Pausing(s.flag)])
    case PauseSend(id) => s.(version := s.version + 1, watched := false, callers := s.callers[id := Pausing(false)])
    case PauseEnd(id) => s.(callers := s.callers - {id})
    case PauseLock(id) => s.(lock := HeldBy(id))
    case PauseUnlock(id) => s.(lock := Free, callers := s.callers - {id})
    case FlushLock => To(s, Entered)
    case FlushCheck => To(s, if s.flag then Listing else Leaving)
    case FlushListed(read) => To(s, if read then AtTop(s.version) else Leaving)
    case FlushTop => To(s, if s.flag then Chosen(s.lock.phase.seen) else Leaving)
    case FlushSkip => To(s, AtTop(s.lock.phase.seen))
    case FlushSubmit => To(s, InFlight(s.lock.phase.seen))
    case FlushReply => To(s, Replied(s.lock.phase.seen))
    case FlushCancel => To(s, Leaving)
    case FlushAck => To(s, AtTop(s.lock.phase.seen))
    case FlushGiveUp => To(s, if s.lock.phase.Replied? then AtTop(s.lock.phase.seen) else Leaving)
    case FlushUnlock => s.(lock := Free)
  }

  /** The steps are one possible interleaving. */
  predicate Possible(steps: seq<Step>)
    decreases |steps|, 0
  {
    steps == [] ||
    var last := |steps| - 1;
    Possible(steps[..last]) && Enabled(After(steps[..last]), steps[last])
  }

  function After(steps: seq<Step>): State
    requires Possible(steps)
    decreases |steps|, 1
  {
    if steps == [] then INITIAL
    else Next(After(steps[..|steps| - 1]), steps[|steps| - 1])
  }

  predicate Engaged(s: State) {
    s.lock.Flushing? && (s.lock.phase.Chosen? || s.lock.phase.InFlight? || s.lock.phase.Replied?)
  }

  predicate Unengaged(s: State) {
    s.lock.Flushing? ==> s.lock.phase.Entered? || s.lock.phase.Leaving?
  }

  predicate Acts(step: Step) { step.FlushSubmit? || step.FlushReply? || step.FlushAck? }

  lemma {:induction false} PrefixIsPossible(steps: seq<Step>, n: nat)
    requires Possible(steps) && n <= |steps|
    ensures Possible(steps[..n])
  {
    if n == |steps| {
      assert steps[..n] == steps;
    } else {
      assert steps[..|steps| - 1][..n] == steps[..n];
      PrefixIsPossible(steps[..|steps| - 1], n);
    }
  }

  lemma OneMore(steps: seq<Step>, n: nat)
    requires Possible(steps) && n < |steps|
    ensures Possible(steps[..n]) && Possible(steps[..n + 1]) && Enabled(After(steps[..n]), steps[n])
    ensures After(steps[..n + 1]) == Next(After(steps[..n]), steps[n])
  {
    PrefixIsPossible(steps, n);
    PrefixIsPossible(steps, n + 1);
    assert steps[..n + 1][..n] == steps[..n];
  }

  /** Only a resume raises the flag. */
  lemma {:induction false} StaysDown(steps: seq<Step>, i: nat, j: nat)
    requires Possible(steps) && i <= j <= |steps|
    requires Possible(steps[..i]) && !After(steps[..i]).flag
    requires forall k | i <= k < j :: !steps[k].ResumeSwap?
    ensures Possible(steps[..j]) && !After(steps[..j]).flag
    decreases j - i
  {
    if i < j {
      OneMore(steps, i);
      hide After, Possible;
      StaysDown(steps, i + 1, j);
    }
  }

  lemma {:induction false} StaysQuiet(steps: seq<Step>, i: nat, j: nat)
    requires Possible(steps) && i <= j <= |steps|
    requires Possible(steps[..i]) && !After(steps[..i]).flag && Unengaged(After(steps[..i]))
    requires forall k | i <= k < j :: !steps[k].ResumeSwap?
    ensures forall k | i <= k < j :: !Acts(steps[k])
    ensures Possible(steps[..j]) && Unengaged(After(steps[..j]))
    decreases j - i
  {
    if i < j {
      OneMore(steps, i);
      hide After, Possible;
      StaysQuiet(steps, i + 1, j);
    }
  }

  /** Whoever gets the lock with the flag down finds no flush at work. */
  lemma LockIsQuiet(steps: seq<Step>, id: nat, i: nat)
    requires Possible(steps) && i < |steps| && steps[i] == PauseLock(id)
    requires Possible(steps[..i]) && !After(steps[..i]).flag
    ensures Possible(steps[..i + 1]) && !After(steps[..i + 1]).flag && Unengaged(After(steps[..i + 1]))
  {
    OneMore(steps, i);
  }

  lemma PausedMeansQuiet(steps: seq<Step>, id: nat, i: nat, j: nat)
    requires Possible(steps) && i < j <= |steps| && steps[i] == PauseLock(id)
    requires Possible(steps[..i]) && !After(steps[..i]).flag
    requires forall k | i <= k < j :: !steps[k].ResumeSwap?
    ensures Possible(steps[..j]) && Unengaged(After(steps[..j]))
    ensures forall k | i <= k < j :: !Acts(steps[k])
  {
    hide After, Possible, Next, Enabled, Unengaged;
    LockIsQuiet(steps, id, i);
    StaysQuiet(steps, i + 1, j);
  }

  /** The last swap of the flag was a resume's. */
  predicate ResumedLast(steps: seq<Step>) {
    steps != [] &&
    var last := steps[|steps| - 1];
    last.ResumeSwap? || (!last.PauseSwap? && ResumedLast(steps[..|steps| - 1]))
  }

  lemma {:induction false} FlagIsLastSwap(steps: seq<Step>)
    requires Possible(steps)
    ensures After(steps).flag <==> ResumedLast(steps)
  {
    if steps != [] {
      FlagIsLastSwap(steps[..|steps| - 1]);
    }
  }

  predicate NoneResumes(more: seq<Step>) { forall k | 0 <= k < |more| :: !more[k].ResumeSwap? }

  predicate NoneActs(more: seq<Step>) { forall k | 0 <= k < |more| :: !Acts(more[k]) }

  /** Until the next resume nothing is sent, answered or acknowledged, and nothing is in flight. */
  ghost predicate QuietFrom(steps: seq<Step>) {
    forall more: seq<Step> :: Possible(steps + more) && NoneResumes(more) ==>
      NoneActs(more) && !Engaged(After(steps + more))
  }

  /** How a flush gets to a submission once a pause has let go of the run lock. */
  function SubmitsAfter(id: nat): seq<Step> {
    [PauseUnlock(id), FlushLock, FlushCheck, FlushListed(true), FlushTop, FlushSubmit]
  }

  lemma FlagUpMeansSubmission(steps: seq<Step>, id: nat)
    requires Possible(steps) && After(steps).flag
    requires After(steps).lock == HeldBy(id) && Calling(After(steps), id, Pausing(false))
    ensures Possible(steps + SubmitsAfter(id))
    ensures NoneResumes(SubmitsAfter(id)) && !NoneActs(SubmitsAfter(id))
  {
    hide Possible, After;
    Follow(steps, After(steps), PauseUnlock(id));
    var a := steps + [PauseUnlock(id)];
    Follow(a, After(a), FlushLock);
    var b := a + [FlushLock];
    Follow(b, After(b), FlushCheck);
    var c := b + [FlushCheck];
    Follow(c, After(c), FlushListed(true));
    var d := c + [FlushListed(true)];
    Follow(d, After(d), FlushTop);
    var e := d + [FlushTop];
    Follow(e, After(e), FlushSubmit);
    assert e + [FlushSubmit] == steps + SubmitsAfter(id);
    assert Acts(SubmitsAfter(id)[5]);
  }

  /**
   * Pause safety, exactly: when `pause_and_wait` gets the run lock, all is quiet until the next
   * resume, in every continuation, if and only if the last swap of the flag was not a resume's.
   */
  lemma QuietExactlyIfPausedLast(steps: seq<Step>, id: nat)
    requires Possible(steps) && steps != [] && steps[|steps| - 1] == PauseLock(id)
    ensures QuietFrom(steps) <==> !ResumedLast(steps)
  {
    FlagIsLastSwap(steps);
    var i := |steps| - 1;
    OneMore(steps, i);
    assert steps[..i + 1] == steps;
    if After(steps).flag {
      FlagUpMeansSubmission(steps, id);
    } else {
      forall more: seq<Step> | Possible(steps + more) && NoneResumes(more)
        ensures NoneActs(more) && !Engaged(After(steps + more))
      {
        QuietContinuation(steps, more, id);
      }
    }
  }

  lemma QuietContinuation(steps: seq<Step>, more: seq<Step>, id: nat)
    requires Possible(steps + more) && NoneResumes(more)
    requires steps != [] && steps[|steps| - 1] == PauseLock(id)
    requires Possible(steps[..|steps| - 1]) && !After(steps[..|steps| - 1]).flag
    ensures NoneActs(more) && !Engaged(After(steps + more))
  {
    hide After, Possible;
    var all, i := steps + more, |steps| - 1;
    assert all[..i] == steps[..i] && all[..|all|] == all;
    assert forall k | 0 <= k < |more| :: all[|steps| + k] == more[k];
    assert forall k | i < k < |all| :: all[k] == more[k - |steps|];
    PausedMeansQuiet(all, id, i, |all|);
  }

  /** Only a resume before the lock is at fault: one that comes between swap and lock undoes the pause. */
  lemma ResumeBeforeTheLock()
    ensures var steps := [PauseSwap(1), ResumeSwap(2), ResumeSend(2), PauseLock(1)];
            && Possible(steps) && ResumedLast(steps)
            && Possible(steps + SubmitsAfter(1)) && NoneResumes(SubmitsAfter(1))
            && Engaged(After(steps + SubmitsAfter(1)))
  {
    hide Possible, After;
    var a: seq<Step> := [];
    assert Possible(a) && After(a) == INITIAL by { NoSteps(); }
    Follow(a, INITIAL, PauseSwap(1));
    var b := [PauseSwap(1)];
    assert a + [PauseSwap(1)] == b;
    Follow(b, After(b), ResumeSwap(2));
    var c := b + [ResumeSwap(2)];
    Follow(c, After(c), ResumeSend(2));
    var d := c + [ResumeSend(2)];
    Follow(d, After(d), PauseLock(1));
    var steps := [PauseSwap(1), ResumeSwap(2), ResumeSend(2), PauseLock(1)];
    assert d + [PauseLock(1)] == steps;
    FlagUpMeansSubmission(steps, 1);
    var all := steps + SubmitsAfter(1);
    LastSubmits(all);
    LastSwapResumes();
  }

  lemma NoSteps()
    ensures Possible([]) && After([]) == INITIAL
  {
  }

  lemma LastSubmits(steps: seq<Step>)
    requires Possible(steps) && steps != [] && steps[|steps| - 1].FlushSubmit?
    ensures Engaged(After(steps))
  {
  }

  lemma LastSwapResumes()
    ensures ResumedLast([PauseSwap(1), ResumeSwap(2), ResumeSend(2), PauseLock(1)])
  {
    var steps := [PauseSwap(1), ResumeSwap(2), ResumeSend(2), PauseLock(1)];
    assert steps[..3] == [PauseSwap(1), ResumeSwap(2), ResumeSend(2)];
    assert steps[..3][..2] == [PauseSwap(1), ResumeSwap(2)];
  }

  /** Rows acknowledged by the steps from i up to j. */
  function Acks(steps: seq<Step>, i: nat, j: nat): nat
    requires j <= |steps|
  {
    if j <= i then 0 else Acks(steps, i, j - 1) + if steps[j - 1].FlushAck? then 1 else 0
  }

  /** With the flag down no flush passes its check, and one that acknowledges must check again. */
  lemma OnlyTheEngagedAcknowledge(s: State, step: Step)
    requires Enabled(s, step) && !s.flag
    ensures Engaged(Next(s, step)) ==> Engaged(s) && !step.FlushAck?
    ensures step.FlushAck? ==> Engaged(s)
  {
  }

  /**
   * Once the flag falls, at most one row more is acknowledged before the next resume, and only
   * if the loop had passed its check of the flag before: the row at hand.
   */
  lemma {:induction false} AtMostTheRowAtHand(steps: seq<Step>, i: nat, j: nat)
    requires Possible(steps) && i <= j <= |steps|
    requires Possible(steps[..i]) && !After(steps[..i]).flag
    requires forall k | i <= k < j :: !steps[k].ResumeSwap?
    ensures Possible(steps[..j])
    ensures Acks(steps, i, j) + (if Engaged(After(steps[..j])) then 1 else 0)
            <= if Engaged(After(steps[..i])) then 1 else 0
    decreases j
  {
    if i < j {
      hide After, Possible, Next, Enabled, Engaged;
      AtMostTheRowAtHand(steps, i, j - 1);
      StaysDown(steps, i, j - 1);
      OneMore(steps, j - 1);
      OnlyTheEngagedAcknowledge(After(steps[..j - 1]), steps[j - 1]);
    }
  }

  ghost predicate PauseOwed(s: State) { exists id :: Calling(s, id, Pausing(true)) }

  /** A flush that passed its check while the flag was up will notice that the flag has fallen. */
  ghost predicate NotMissed(s: State) {
    Engaged(s) ==> s.lock.phase.seen <= s.version && (!s.flag ==> PauseOwed(s) || s.version > s.lock.phase.seen)
  }

  ghost predicate SeenIsPast(s: State) {
    s.lock.Flushing? && s.lock.phase.AtTop? ==> s.lock.phase.seen <= s.version
  }

  lemma StepNotMissed(s: State, step: Step)
    requires Enabled(s, step) && NotMissed(s) && SeenIsPast(s)
    ensures NotMissed(Next(s, step)) && SeenIsPast(Next(s, step))
  {
    var s' := Next(s, step);
    if Engaged(s) && Engaged(s') && !s.flag && !s'.flag && s'.version == s.version && PauseOwed(s) {
      var id :| Calling(s, id, Pausing(true));
      assert Calling(s', id, Pausing(true));
    }
    if step.PauseSwap? && s.flag {
      assert Calling(s', step.id, Pausing(true));
    }
  }

  /**
   * A pause during a flush is never missed: while a request waits with the flag down, the flush
   * can cancel it, or will be able to as soon as the pause under way has sent.
   */
  lemma {:induction false} PauseIsNeverMissed(steps: seq<Step>)
    requires Possible(steps)
    ensures NotMissed(After(steps)) && SeenIsPast(After(steps))
    ensures var s := After(steps);
            s.lock.Flushing? && s.lock.phase.InFlight? && !s.flag && !PauseOwed(s) ==> Enabled(s, FlushCancel)
  {
    if steps != [] {
      PauseIsNeverMissed(steps[..|steps| - 1]);
      StepNotMissed(After(steps[..|steps| - 1]), steps[|steps| - 1]);
    }
  }

  /**
   * From then on it can be cancelled until it has ended, whatever other threads do: a resume
   * does not take back what the pause has set in motion.
   */
  lemma {:induction false} PauseStaysNoticed(steps: seq<Step>, i: nat, j: nat)
    requires Possible(steps) && i <= j <= |steps|
    requires Possible(steps[..i])
    requires var s := After(steps[..i]); s.lock.Flushing? && s.lock.phase.InFlight? && !s.flag && !PauseOwed(s)
    requires forall k | i <= k < j :: !steps[k].FlushCancel? && !steps[k].FlushReply?
    ensures Possible(steps[..j]) && Enabled(After(steps[..j]), FlushCancel)
    ensures After(steps[..j]).lock.phase.seen <= After(steps[..j]).version
    decreases j
  {
    if i == j {
      PauseIsNeverMissed(steps[..i]);
    } else {
      hide After, Possible, Next, Enabled;
      PauseStaysNoticed(steps, i, j - 1);
      OneMore(steps, j - 1);
      CancelStaysPossible(After(steps[..j - 1]), steps[j - 1]);
    }
  }

  lemma CancelStaysPossible(s: State, step: Step)
    requires Enabled(s, step) && Enabled(s, FlushCancel) && s.lock.phase.seen <= s.version
    ensures Enabled(Next(s, step), FlushCancel) || step.FlushCancel? || step.FlushReply?
    ensures Next(s, step).lock == s.lock || step.FlushCancel? || step.FlushReply?
    ensures s.version <= Next(s, step).version
  {
  }

  // The flag and the value the watch channel shows.

  /** The last send was a resume's. */
  predicate SentUpLast(steps: seq<Step>) {
    steps != [] &&
    var last := steps[|steps| - 1];
    last.ResumeSend? || (!last.PauseSend? && SentUpLast(steps[..|steps| - 1]))
  }

  /**
   * Exactly when the two are equal: if the last call to send and the last call to swap are of
   * one kind, both resumes or neither. Which of several racing calls sent last decides.
   */
  lemma {:induction false} AgreeExactlyIfOneKind(steps: seq<Step>)
    requires Possible(steps)
    ensures After(steps).watched == After(steps).flag <==> (SentUpLast(steps) <==> ResumedLast(steps))
  {
    WatchIsLastSend(steps);
    FlagIsLastSwap(steps);
    hide After;
  }

  lemma {:induction false} WatchIsLastSend(steps: seq<Step>)
    requires Possible(steps)
    ensures After(steps).watched <==> SentUpLast(steps)
  {
    if steps != [] {
      WatchIsLastSend(steps[..|steps| - 1]);
    }
  }

  datatype Changer = Nobody | By(id: nat)

  /** The step swaps the flag, and changes it. */
  predicate Changes(s: State, step: Step) {
    (step.ResumeSwap? && !s.flag) || (step.PauseSwap? && s.flag)
  }

  /** The call whose swap changed the flag last. */
  function LastChanger(steps: seq<Step>): Changer
    requires Possible(steps)
  {
    if steps == [] then Nobody
    else
      var init, last := steps[..|steps| - 1], steps[|steps| - 1];
      if Changes(After(init), last) then By(last.id) else LastChanger(init)
  }

  /** The last send made belongs to that swap; so it does if there was neither. */
  predicate SentForLastChange(steps: seq<Step>)
    requires Possible(steps)
  {
    steps == [] ||
    var init, last := steps[..|steps| - 1], steps[|steps| - 1];
    if Changes(After(init), last) then false
    else if last.ResumeSend? || last.PauseSend? then LastChanger(init) == By(last.id)
    else SentForLastChange(init)
  }

  /** What the last changer still owes is what the flag says. */
  ghost predicate OwesTheFlag(s: State, changer: Changer) {
    changer.By? && changer.id in s.callers && s.callers[changer.id].owes ==> s.callers[changer.id].Resuming? == s.flag
  }

  lemma StepOwesTheFlag(s: State, step: Step, changer: Changer)
    requires Enabled(s, step) && OwesTheFlag(s, changer)
    ensures OwesTheFlag(Next(s, step), if Changes(s, step) then By(step.id) else changer)
  {
  }

  lemma {:induction false} LastChangerOwesTheFlag(steps: seq<Step>)
    requires Possible(steps)
    ensures OwesTheFlag(After(steps), LastChanger(steps))
  {
    if steps != [] {
      LastChangerOwesTheFlag(steps[..|steps| - 1]);
      StepOwesTheFlag(After(steps[..|steps| - 1]), steps[|steps| - 1], LastChanger(steps[..|steps| - 1]));
    }
  }

  /** If the last send belongs to the last swap that changed the flag, the two are equal. */
  lemma {:induction false} LastChangeSentMeansAgree(steps: seq<Step>)
    requires Possible(steps) && SentForLastChange(steps)
    ensures After(steps).watched == After(steps).flag
  {
    if steps != [] {
      var init := steps[..|steps| - 1];
      LastChangerOwesTheFlag(init);
      if !steps[|steps| - 1].ResumeSend? && !steps[|steps| - 1].PauseSend? {
        LastChangeSentMeansAgree(init);
      }
    }
  }

  ghost predicate SomebodyOwes(s: State) { exists id :: id in s.callers && s.callers[id].owes }

  /** No call swaps the flag while another has yet to send. */
  ghost predicate OneAtATime(steps: seq<Step>)
    requires Possible(steps)
  {
    steps == [] ||
    var init, last := steps[..|steps| - 1], steps[|steps| - 1];
    OneAtATime(init) && (last.ResumeSwap? || last.PauseSwap? ==> !SomebodyOwes(After(init)))
  }

  /** Only the last changer owes a send; if nobody does, it has been made. */
  ghost predicate Settled(s: State, changer: Changer, sent: bool) {
    && (forall id | id in s.callers && s.callers[id].owes :: changer == By(id))
    && (!SomebodyOwes(s) ==> sent)
  }

  lemma {:induction false} OneAtATimeSettles(steps: seq<Step>)
    requires Possible(steps) && OneAtATime(steps)
    ensures Settled(After(steps), LastChanger(steps), SentForLastChange(steps))
  {
    if steps != [] {
      var init, last := steps[..|steps| - 1], steps[|steps| - 1];
      OneAtATimeSettles(init);
      var s, s' := After(init), After(steps);
      if last.ResumeSend? || last.PauseSend? {
        assert s.callers[last.id].owes;
      } else if Changes(s, last) {
        assert s'.callers[last.id].owes;
      } else if SomebodyOwes(s) {
        var id :| id in s.callers && s.callers[id].owes;
        assert id in s'.callers && s'.callers[id].owes;
      }
    }
  }

  /** Calls that do not overlap between swap and send always leave flag and watched value equal. */
  lemma OneAtATimeAgrees(steps: seq<Step>)
    requires Possible(steps) && OneAtATime(steps) && !SomebodyOwes(After(steps))
    ensures After(steps).watched == After(steps).flag
  {
    OneAtATimeSettles(steps);
    LastChangeSentMeansAgree(steps);
  }

  /** Overlapping calls can leave them unequal, with no call left to put it right. */
  lemma FlagAndWatchCanDisagree()
    ensures var steps := [ResumeSwap(1), PauseSwap(2), PauseSend(2), ResumeSend(1), ResumeEnd(1), PauseEnd(2)];
            Possible(steps) && !After(steps).flag && After(steps).watched && After(steps).callers == map[]
  {
    var a: seq<Step> := [];
    var s := INITIAL;
    Follow(a, s, ResumeSwap(1));
    Follow([ResumeSwap(1)], Next(s, ResumeSwap(1)), PauseSwap(2));
    var b := [ResumeSwap(1), PauseSwap(2)];
    Follow(b, After(b), PauseSend(2));
    var c := b + [PauseSend(2)];
    Follow(c, After(c), ResumeSend(1));
    var d := c + [ResumeSend(1)];
    Follow(d, After(d), ResumeEnd(1));
    var e := d + [ResumeEnd(1)];
    Follow(e, After(e), PauseEnd(2));
    assert e + [PauseEnd(2)] == [ResumeSwap(1), PauseSwap(2), PauseSend(2), ResumeSend(1), ResumeEnd(1), PauseEnd(2)];
  }

  /** They can also be equal by chance: the last send belongs to an earlier change of the same kind. */
  lemma AgreeWithoutLastChange()
    ensures var steps := [ResumeSwap(1), PauseSwap(2), ResumeSwap(3), PauseSend(2), ResumeSend(3), ResumeSend(1)];
            && Possible(steps) && !SomebodyOwes(After(steps))
            && After(steps).flag && After(steps).watched && !SentForLastChange(steps)
  {
    var a: seq<Step> := [];
    Follow(a, INITIAL, ResumeSwap(1));
    var b := [ResumeSwap(1)];
    assert a + [ResumeSwap(1)] == b;
    Follow(b, After(b), PauseSwap(2));
    var c := b + [PauseSwap(2)];
    Follow(c, After(c), ResumeSwap(3));
    var d := c + [ResumeSwap(3)];
    Follow(d, After(d), PauseSend(2));
    var e := d + [PauseSend(2)];
    Follow(e, After(e), ResumeSend(3));
    var f := e + [ResumeSend(3)];
    Follow(f, After(f), ResumeSend(1));
    var steps := [ResumeSwap(1), PauseSwap(2), ResumeSwap(3), PauseSend(2), ResumeSend(3), ResumeSend(1)];
    assert f + [ResumeSend(1)] == steps && steps[..5] == f && steps[..4] == e && steps[..3] == d && steps[..2] == c;
    assert f[..4] == e && e[..3] == d && d[..2] == c;
    assert LastChanger(d) == By(3) && LastChanger(e) == By(3) && LastChanger(f) == By(3);
  }

  lemma Follow(steps: seq<Step>, s: State, step: Step)
    requires Possible(steps) && After(steps) == s && Enabled(s, step)
    ensures Possible(steps + [step]) && After(steps + [step]) == Next(s, step)
  {
    assert (steps + [step])[..|steps|] == steps;
  }
}
