/** What one flush does to the outbox, whatever the relay, the vault and other threads do. */
module FlushGuarantees {
  import opened Wrappers
  import opened Protocol
  import opened Sequences
  import opened Identifiers
  import opened VaultStore
  import opened DeviceQueues
  import opened OutboxWorker

  /** How many of the device's listed rows were acknowledged. */
  function Settled(items: seq<OutboxItem>, outcomes: seq<Outcome>, deviceId: string): nat
    requires |items| == |outcomes|
  {
    if items == [] then 0
    else
      var last := |items| - 1;
      Settled(items[..last], outcomes[..last], deviceId)
      + if items[last].deviceId == deviceId && outcomes[last].Acknowledged? then 1 else 0
  }

  function CountOf(outcomes: seq<Outcome>, counts: Outcome -> bool): nat { |Filter(outcomes, counts)| }

  function IsAcknowledged(outcome: Outcome): bool { outcome.Acknowledged? }

  /** The report counts every row at most once, and only rows it listed. */
  ghost predicate Counted(report: Status, outcomes: seq<Outcome>) {
    && report.attempted == CountOf(outcomes, Tried)
    && report.acknowledged == CountOf(outcomes, IsAcknowledged)
    && report.failed == CountOf(outcomes, Faulty)
    && (report.lastError.Some? <==> report.failed > 0)
  }

  /** Head-of-line blocking: a row is tried only after every earlier row of its device is acknowledged. */
  ghost predicate InTurn(items: seq<OutboxItem>, outcomes: seq<Outcome>)
    requires |items| == |outcomes|
  {
    forall i, j | 0 <= i < j < |items| && items[i].deviceId == items[j].deviceId && Tried(outcomes[j]) ::
      outcomes[i].Acknowledged?
  }

  /** A device that is not blocked has had all its rows so far acknowledged. */
  ghost predicate Clear(w: Work, items: seq<OutboxItem>)
    requires |items| == |w.outcomes|
  {
    !w.progress.stopped ==>
      forall i | 0 <= i < |items| && items[i].deviceId !in w.progress.blocked :: w.outcomes[i].Acknowledged?
  }

  /** The rows other threads' calls queue for a device. */
  function Added(v: Shared, others: seq<Other>, of: string): seq<OutboxItem> {
    var before, after := Pending(v.db, of), Pending(Meanwhile(v, others).db, of);
    if |before| <= |after| then after[|before|..] else []
  }

  function AddedInTurn(json: Codec<SubmitEvent>, w: Work, item: OutboxItem, turn: Turn, of: string): seq<OutboxItem> {
    if w.progress.stopped then []
    else
      Added(w.vault, turn.before, of)
      + if StartTurn(json, w.progress, item, turn.enabled).1.Err? then []
        else Added(Meanwhile(w.vault, turn.before), turn.during, of)
  }

  function AddedInLoop(json: Codec<SubmitEvent>, start: Work, items: seq<OutboxItem>, turn: nat -> Turn, of: string)
    : seq<OutboxItem>
  {
    if items == [] then []
    else
      var last := |items| - 1;
      AddedInLoop(json, start, items[..last], turn, of)
      + AddedInTurn(json, Loop(json, start, items[..last], turn), items[last], turn(last), of)
  }

  function AddedFor(json: Codec<SubmitEvent>, v: Shared, items: seq<OutboxItem>, turn: nat -> Turn)
    : string -> seq<OutboxItem>
  {
    (of: string) => AddedInLoop(json, Starting(v), items, turn, of)
  }

  /** The device's queue has lost its acknowledged rows, which led it, and gained what others queued. */
  ghost predicate QueueKept(w: Work, before: Database, items: seq<OutboxItem>, deviceId: string,
                            added: seq<OutboxItem>)
    requires |items| == |w.outcomes|
  {
    var queue, settled := Pending(before, deviceId), Settled(items, w.outcomes, deviceId);
    && settled <= |Filter(items, OfDevice(deviceId))| <= |queue|
    && Pending(w.vault.db, deviceId) == queue[settled..] + added
    && (!w.progress.stopped && deviceId !in w.progress.blocked ==>
          settled == |Filter(items, OfDevice(deviceId))|)
  }

  ghost predicate OnCourse(w: Work, before: Database, items: seq<OutboxItem>, added: string -> seq<OutboxItem>) {
    && Sound(w.vault.db) && |w.outcomes| == |items|
    && InTurn(items, w.outcomes) && Clear(w, items) && Counted(w.progress.report, w.outcomes)
    && Vanished !in w.outcomes
    && forall deviceId: string :: QueueKept(w, before, items, deviceId, added(deviceId))
  }

  lemma {:induction false} MeanwhileAppends(v: Shared, others: seq<Other>)
    requires Sound(v.db)
    ensures Sound(Meanwhile(v, others).db) && v.db.outbox <= Meanwhile(v, others).db.outbox
  {
    if others != [] {
      var init, last := others[..|others| - 1], others[|others| - 1];
      MeanwhileAppends(v, init);
      var earlier := Meanwhile(v, init);
      hide Meanwhile;
      OneMoreAppends(earlier, last);
    }
  }

  lemma OneMoreAppends(v: Shared, other: Other)
    requires Sound(v.db)
    ensures Sound(OutboxWorker.Apply(v, other).db) && v.db.outbox <= OutboxWorker.Apply(v, other).db.outbox
  {
    match other
    case Queue(snapshot, item, message, fault) =>
      TransactionIsSound(v.db, v.unlocked, snapshot, item, message, fault);
      TransactionAppends(v.db, v.unlocked, snapshot, item, message, fault);
    case Save(deviceId, saved, failing) =>
      hide ValidItem, ValidIdentifier, ValidSnapshot;
    case Unlock(_) =>
  }

  lemma TransactionAppends(db: Database, unlocked: bool, snapshot: Bytes, item: OutboxItem,
                           message: Option<VaultMessage>, failing: Option<Statement>)
    ensures db.outbox <= StoreTransaction(db, unlocked, snapshot, item, message, failing).0.outbox
  {
  }

  lemma SettledSnoc(items: seq<OutboxItem>, outcomes: seq<Outcome>, item: OutboxItem, outcome: Outcome, of: string)
    requires |items| == |outcomes|
    ensures Settled(items + [item], outcomes + [outcome], of)
            == Settled(items, outcomes, of)
               + if item.deviceId == of && outcome.Acknowledged? then 1 else 0
  {
    assert (items + [item])[..|items|] == items && (outcomes + [outcome])[..|outcomes|] == outcomes;
  }

  /** The first failure's error stays the last error reported. */
  predicate FirstErrorKept(report: Status, report': Status, outcome: Outcome) {
    if report.lastError.Some? || !Faulty(outcome) then report'.lastError == report.lastError
    else report'.lastError.Some?
  }

  lemma CountedSnoc(report: Status, report': Status, outcomes: seq<Outcome>, outcome: Outcome)
    requires Counted(report, outcomes)
    requires report'.attempted == report.attempted + if Tried(outcome) then 1 else 0
    requires report'.acknowledged == report.acknowledged + if outcome.Acknowledged? then 1 else 0
    requires report'.failed == report.failed + if Faulty(outcome) then 1 else 0
    requires FirstErrorKept(report, report', outcome)
    ensures Counted(report', outcomes + [outcome])
  {
    FilterLast(outcomes, outcome, Tried);
    FilterLast(outcomes, outcome, IsAcknowledged);
    FilterLast(outcomes, outcome, Faulty);
  }

  /** The row at hand leads its device's queue, if the device is not blocked. */
  lemma HeadOfLine(w: Work, before: Database, items: seq<OutboxItem>, item: OutboxItem,
                   added: string -> seq<OutboxItem>)
    requires OnCourse(w, before, items, added) && items + [item] <= Items(before)
    requires !w.progress.stopped && item.deviceId !in w.progress.blocked
    ensures Leads(w.vault.db, item)
  {
    var of := item.deviceId;
    assert QueueKept(w, before, items, of, added(of));
    FilterPrefix(items + [item], Items(before), OfDevice(of));
    FilterLast(items, item, OfDevice(of));
    var settled := |Filter(items, OfDevice(of))|;
    assert Pending(before, of)[settled] == item;
    assert Pending(before, of)[settled..][0] == item;
  }

  lemma OneMoreListed(before: Database, items: seq<OutboxItem>, item: OutboxItem, of: string)
    requires items + [item] <= Items(before)
    ensures |Filter(items + [item], OfDevice(of))|
            == |Filter(items, OfDevice(of))| + (if item.deviceId == of then 1 else 0)
            <= |Pending(before, of)|
  {
    FilterPrefix(items + [item], Items(before), OfDevice(of));
    FilterLast(items, item, OfDevice(of));
  }

  /** A turn that acknowledges nothing keeps every queue. */
  lemma QueueKeptByTurn(w: Work, w': Work, before: Database, items: seq<OutboxItem>, item: OutboxItem,
                        outcome: Outcome, of: string, added: seq<OutboxItem>, more: seq<OutboxItem>)
    requires |items| == |w.outcomes| && QueueKept(w, before, items, of, added)
    requires items + [item] <= Items(before)
    requires w'.outcomes == w.outcomes + [outcome] && !outcome.Acknowledged?
    requires Pending(w'.vault.db, of) == Pending(w.vault.db, of) + more
    requires w.progress.blocked <= w'.progress.blocked && (w.progress.stopped ==> w'.progress.stopped)
    requires w'.progress.stopped || item.deviceId in w'.progress.blocked
    ensures QueueKept(w', before, items + [item], of, added + more)
  {
    hide Filter, Settled, OfDevice, Pending, Items;
    SettledSnoc(items, w.outcomes, item, outcome, of);
    OneMoreListed(before, items, item, of);
    var queue, settled := Pending(before, of), Settled(items, w.outcomes, of);
    assert queue[settled..] + added + more == queue[settled..] + (added + more);
  }

  lemma QueueKeptByAcknowledgement(w: Work, w': Work, before: Database, items: seq<OutboxItem>, item: OutboxItem,
                                   of: string, added: seq<OutboxItem>, more: seq<OutboxItem>)
    requires |items| == |w.outcomes| && QueueKept(w, before, items, of, added)
    requires items + [item] <= Items(before)
    requires w'.outcomes == w.outcomes + [Acknowledged]
    requires w'.progress.blocked == w.progress.blocked && !w.progress.stopped && !w'.progress.stopped
    requires item.deviceId !in w.progress.blocked
    requires of == item.deviceId ==> Leads(w.vault.db, item)
    requires Pending(w'.vault.db, of)
             == (if of == item.deviceId then Pending(w.vault.db, of)[1..] else Pending(w.vault.db, of)) + more
    ensures QueueKept(w', before, items + [item], of, added + more)
  {
    hide Filter, Settled, OfDevice, Pending, Items;
    SettledSnoc(items, w.outcomes, item, Acknowledged, of);
    OneMoreListed(before, items, item, of);
    var queue, settled := Pending(before, of), Settled(items, w.outcomes, of);
    if of == item.deviceId {
      DropFirst(queue, settled, added, more);
    } else {
      assert queue[settled..] + added + more == queue[settled..] + (added + more);
    }
  }

  lemma DropFirst<T>(queue: seq<T>, settled: nat, added: seq<T>, more: seq<T>)
    requires settled < |queue|
    ensures (queue[settled..] + added)[1..] + more == queue[settled + 1..] + (added + more)
  {
  }

  /** What a turn can do to the loop's state, by its outcome. */
  ghost predicate Turned(w: Work, w': Work, item: OutboxItem) {
    && |w'.outcomes| == |w.outcomes| + 1 && w'.outcomes[..|w.outcomes|] == w.outcomes
    && var outcome := w'.outcomes[|w.outcomes|];
       && !outcome.Vanished?
       && Sound(w'.vault.db)
       && (Tried(outcome) ==> !w.progress.stopped && item.deviceId !in w.progress.blocked)
       && w'.progress.report.attempted == w.progress.report.attempted + (if Tried(outcome) then 1 else 0)
       && w'.progress.report.acknowledged
          == w.progress.report.acknowledged + (if outcome.Acknowledged? then 1 else 0)
       && w'.progress.report.failed == w.progress.report.failed + (if Faulty(outcome) then 1 else 0)
       && FirstErrorKept(w.progress.report, w'.progress.report, outcome)
       && (if outcome.Acknowledged? then
             w'.progress.blocked == w.progress.blocked && !w'.progress.stopped
           else
             && w.progress.blocked <= w'.progress.blocked && (w.progress.stopped ==> w'.progress.stopped)
             && (w'.progress.stopped || item.deviceId in w'.progress.blocked))
  }

  /** What a turn does to one device's queue. */
  ghost predicate Moves(json: Codec<SubmitEvent>, w: Work, item: OutboxItem, turn: Turn, of: string) {
    var w' := TakeTurn(json, w, item, turn);
    && |w'.outcomes| == |w.outcomes| + 1
    && (of == item.deviceId && w'.outcomes[|w.outcomes|].Acknowledged? ==> Leads(w.vault.db, item))
    && Pending(w'.vault.db, of)
       == (if of == item.deviceId && w'.outcomes[|w.outcomes|].Acknowledged? then Pending(w.vault.db, of)[1..]
           else Pending(w.vault.db, of))
          + AddedInTurn(json, w, item, turn, of)
  }

  lemma TurnIsOnCourse(json: Codec<SubmitEvent>, w: Work, turn: Turn, before: Database, items: seq<OutboxItem>,
                       item: OutboxItem, added: string -> seq<OutboxItem>, added': string -> seq<OutboxItem>)
    requires OnCourse(w, before, items, added) && items + [item] <= Items(before)
    requires Turned(w, TakeTurn(json, w, item, turn), item)
    requires forall of: string ::
               && Moves(json, w, item, turn, of)
               && added'(of) == added(of) + AddedInTurn(json, w, item, turn, of)
    ensures OnCourse(TakeTurn(json, w, item, turn), before, items + [item], added')
  {
    hide TakeTurn, AddedInTurn;
    var w' := TakeTurn(json, w, item, turn);
    var outcome := w'.outcomes[|w.outcomes|];
    assert w'.outcomes == w.outcomes + [outcome];
    hide QueueKept, Sound, Pending, Leads;
    CountedSnoc(w.progress.report, w'.progress.report, w.outcomes, outcome);
    hide Counted;
    forall of: string
      ensures QueueKept(w', before, items + [item], of, added'(of))
    {
      assert QueueKept(w, before, items, of, added(of));
      assert Moves(json, w, item, turn, of);
      if outcome.Acknowledged? {
        QueueKeptByAcknowledgement(w, w', before, items, item, of, added(of), AddedInTurn(json, w, item, turn, of));
      } else {
        QueueKeptByTurn(w, w', before, items, item, outcome, of, added(of), AddedInTurn(json, w, item, turn, of));
      }
    }
    hide Items;
  }

  /** A submission is what its row says it is. */
  lemma ValidatedIsTheRow(json: Codec<SubmitEvent>, item: OutboxItem)
    requires ValidateOutboxItem(json, item).Some?
    ensures var submission := ValidateOutboxItem(json, item).value;
            item == OutboxItem(UuidText(submission.senderDeviceId), UuidText(submission.eventId),
                               json.encode(submission))
  {
  }

  lemma MeanwhileKeepsQueues(v: Shared, others: seq<Other>)
    requires Sound(v.db)
    ensures Sound(Meanwhile(v, others).db)
    ensures forall of: string :: Pending(Meanwhile(v, others).db, of) == Pending(v.db, of) + Added(v, others, of)
  {
    hide Pending, Meanwhile, Sound;
    MeanwhileAppends(v, others);
    forall of: string
      ensures Pending(Meanwhile(v, others).db, of) == Pending(v.db, of) + Added(v, others, of)
    {
      AppendsKeepPrefix(v.db, Meanwhile(v, others).db, of);
    }
  }

  lemma TurnTurns(json: Codec<SubmitEvent>, w: Work, item: OutboxItem, turn: Turn)
    requires Sound(w.vault.db)
    requires w.progress.stopped || item.deviceId in w.progress.blocked || Leads(w.vault.db, item)
    ensures Turned(w, TakeTurn(json, w, item, turn), item)
  {
    hide Sound, Pending, Meanwhile, UuidText, ValidateOutboxItem, Acknowledge, Added;
    if !w.progress.stopped {
      MeanwhileKeepsQueues(w.vault, turn.before);
      if StartTurn(json, w.progress, item, turn.enabled).1.Ok? {
        ValidatedIsTheRow(json, item);
        MeanwhileKeepsQueues(Meanwhile(w.vault, turn.before), turn.during);
        AcknowledgeTheHead(Meanwhile(Meanwhile(w.vault, turn.before), turn.during).db, item);
      }
    }
  }

  lemma TurnMoves(json: Codec<SubmitEvent>, w: Work, item: OutboxItem, turn: Turn, of: string)
    requires Sound(w.vault.db)
    requires w.progress.stopped || item.deviceId in w.progress.blocked || Leads(w.vault.db, item)
    ensures Moves(json, w, item, turn, of)
  {
    hide Sound, Pending, Meanwhile, UuidText, ValidateOutboxItem, Acknowledge, Added;
    if !w.progress.stopped {
      var v := Meanwhile(w.vault, turn.before);
      MeanwhileKeepsQueues(w.vault, turn.before);
      if StartTurn(json, w.progress, item, turn.enabled).1.Ok? {
        ValidatedIsTheRow(json, item);
        MeanwhileKeepsQueues(v, turn.during);
        var queue := Pending(w.vault.db, of);
        var before, during := Added(w.vault, turn.before, of), Added(v, turn.during, of);
        assert queue + before + during == queue + (before + during);
        if item.deviceId == of {
          AcknowledgeTheHead(Meanwhile(v, turn.during).db, item);
          assert (queue + before + during)[1..] == queue[1..] + (before + during);
        } else {
          AcknowledgeTheHead(Meanwhile(v, turn.during).db, item);
        }
      }
    }
  }

  lemma TurnOnTheHead(json: Codec<SubmitEvent>, w: Work, item: OutboxItem, turn: Turn)
    requires Sound(w.vault.db)
    requires w.progress.stopped || item.deviceId in w.progress.blocked || Leads(w.vault.db, item)
    ensures Turned(w, TakeTurn(json, w, item, turn), item)
    ensures forall of: string :: Moves(json, w, item, turn, of)
  {
    hide Turned, Moves, Sound, Leads;
    TurnTurns(json, w, item, turn);
    forall of: string
      ensures Moves(json, w, item, turn, of)
    {
      TurnMoves(json, w, item, turn, of);
    }
  }

  ghost predicate Leads(db: Database, item: OutboxItem) {
    Pending(db, item.deviceId) != [] && Pending(db, item.deviceId)[0] == item
  }

  lemma AcknowledgeTheHead(db: Database, item: OutboxItem)
    requires Sound(db) && Leads(db, item)
    ensures var db' := Acknowledge(db, item.deviceId, item.eventId);
            && Sound(db') && |db'.outbox| != |db.outbox|
            && forall of: string ::
                 Pending(db', of) == if of == item.deviceId then Pending(db, of)[1..] else Pending(db, of)
  {
    AcknowledgeRemovesOne(db, item.deviceId, item.eventId);
    PendingIsPresent(db, item.deviceId, 0);
    SoundEvents(db);
    var row :| row in db.outbox && row.item == item;
    assert Names(row, item.deviceId, item.eventId);
    hide Sound, EventsDiffer, Pending, Acknowledge;
    forall of: string
      ensures Pending(Acknowledge(db, item.deviceId, item.eventId), of)
              == if of == item.deviceId then Pending(db, of)[1..] else Pending(db, of)
    {
      AcknowledgeHead(db, item.deviceId, item.eventId, of);
    }
  }

  lemma StartIsOnCourse(json: Codec<SubmitEvent>, v: Shared, turn: nat -> Turn)
    requires Sound(v.db)
    ensures OnCourse(Starting(v), v.db, [], AddedFor(json, v, [], turn))
  {
    hide Sound;
  }

  /**
   * The loop over any part of the listing: every device loses a leading part of its queue and
   * nothing else, no row is tried before the earlier rows of its device are acknowledged, and
   * the report's numbers are the numbers of rows that fared so.
   */
  lemma {:induction false} LoopIsOnCourse(json: Codec<SubmitEvent>, v: Shared, items: seq<OutboxItem>,
                                          turn: nat -> Turn)
    requires Sound(v.db) && items <= Items(v.db)
    ensures OnCourse(Loop(json, Starting(v), items, turn), v.db, items, AddedFor(json, v, items, turn))
  {
    hide OnCourse, Sound, TakeTurn, Turned, Pending, Moves, AddedInTurn;
    if items == [] {
      StartIsOnCourse(json, v, turn);
    } else {
      var init, item := items[..|items| - 1], items[|items| - 1];
      LoopIsOnCourse(json, v, init, turn);
      var w := Loop(json, Starting(v), init, turn);
      assert init + [item] == items;
      assert Sound(w.vault.db) by { OnCourseIsSound(w, v.db, init, AddedFor(json, v, init, turn)); }
      if !w.progress.stopped && item.deviceId !in w.progress.blocked {
        HeadOfLine(w, v.db, init, item, AddedFor(json, v, init, turn));
      }
      TurnOnTheHead(json, w, item, turn(|init|));
      TurnIsOnCourse(json, w, turn(|init|), v.db, init, item, AddedFor(json, v, init, turn),
                     AddedFor(json, v, items, turn));
    }
  }

  lemma OnCourseIsSound(w: Work, before: Database, items: seq<OutboxItem>, added: string -> seq<OutboxItem>)
    requires OnCourse(w, before, items, added)
    ensures Sound(w.vault.db)
  {
  }

  /** How many of the device's rows the flush acknowledged, by its outcomes. */
  function SettledBy(json: Codec<SubmitEvent>, v: Shared, env: Environment, of: string): nat
    requires |LoopOf(json, v, env).outcomes| == |ListAll(v.db)|
  {
    if Lists(v, env) then Settled(ListAll(v.db), LoopOf(json, v, env).outcomes, of) else 0
  }

  /** What other threads queue for the device in the course of a flush. */
  function QueuedMeanwhile(json: Codec<SubmitEvent>, v: Shared, env: Environment, of: string): seq<OutboxItem> {
    if !Lists(v, env) then []
    else
      AddedInLoop(json, Starting(v), ListAll(v.db), env.turn, of)
      + Added(LoopOf(json, v, env).vault, env.last, of)
  }

  /**
   * A flush takes from every device exactly as many rows as it acknowledged, oldest first and
   * only listed ones. The others, listed or not, stay as they were and in order, and behind
   * them is exactly what other threads queued meanwhile.
   */
  lemma FlushTakesTheAcknowledged(json: Codec<SubmitEvent>, v: Shared, status: Status, env: Environment, of: string)
    requires Sound(v.db)
    ensures |LoopOf(json, v, env).outcomes| == |ListAll(v.db)|
    ensures var db', n := Flush(json, v, status, env).0.db, SettledBy(json, v, env, of);
            && Sound(db')
            && n <= |Filter(ListAll(v.db), OfDevice(of))| <= |Pending(v.db, of)|
            && Pending(db', of) == Pending(v.db, of)[n..] + QueuedMeanwhile(json, v, env, of)
    ensures !Lists(v, env) ==> Flush(json, v, status, env).0 == v
  {
    hide Sound, Pending, QueueKept, Loop, Meanwhile, Settled, Added, AddedInLoop;
    LoopIsOnCourse(json, v, ListAll(v.db), env.turn);
    var w, added := LoopOf(json, v, env), AddedFor(json, v, ListAll(v.db), env.turn);
    ListingFilters(v.db, of);
    if Lists(v, env) {
      MeanwhileKeepsQueues(w.vault, env.last);
      assert QueueKept(w, v.db, ListAll(v.db), of, added(of));
      QueueKeptMeans(w, v.db, ListAll(v.db), of, added(of));
    } else {
      assert Pending(v.db, of)[0..] == Pending(v.db, of);
    }
  }

  lemma ListingFilters(db: Database, of: string)
    ensures |Filter(ListAll(db), OfDevice(of))| <= |Pending(db, of)|
  {
    FilterPrefix(ListAll(db), Items(db), OfDevice(of));
  }

  lemma QueueKeptMeans(w: Work, before: Database, items: seq<OutboxItem>, of: string, added: seq<OutboxItem>)
    requires |items| == |w.outcomes| && QueueKept(w, before, items, of, added)
    ensures Settled(items, w.outcomes, of) <= |Filter(items, OfDevice(of))| <= |Pending(before, of)|
    ensures Pending(w.vault.db, of) == Pending(before, of)[Settled(items, w.outcomes, of)..] + added
  {
  }

  /** Nothing of a device is submitted after its first row that was not acknowledged. */
  lemma NothingAfterAFailure(json: Codec<SubmitEvent>, v: Shared, env: Environment, i: nat, j: nat)
    requires Sound(v.db) && i < j < |ListAll(v.db)| && ListAll(v.db)[i].deviceId == ListAll(v.db)[j].deviceId
    ensures var w := LoopOf(json, v, env);
            |w.outcomes| == |ListAll(v.db)| && (!w.outcomes[i].Acknowledged? ==> !Tried(w.outcomes[j]))
  {
    hide Sound, Loop, QueueKept;
    LoopIsOnCourse(json, v, ListAll(v.db), env.turn);
  }

  lemma {:induction false} CountsNest(outcomes: seq<Outcome>)
    ensures CountOf(outcomes, IsAcknowledged) <= CountOf(outcomes, Tried) <= |outcomes|
    ensures CountOf(outcomes, IsAcknowledged) + CountOf(outcomes, Faulty) <= |outcomes|
  {
    if outcomes != [] {
      CountsNest(outcomes[..|outcomes| - 1]);
    }
  }

  /** The report of a flush that got past its listing. */
  lemma ReportAddsUp(json: Codec<SubmitEvent>, v: Shared, status: Status, env: Environment)
    requires Sound(v.db) && Lists(v, env)
    ensures var report := Flush(json, v, status, env).1;
            && report.acknowledged <= report.attempted <= |ListAll(v.db)|
            && report.acknowledged + report.failed <= |ListAll(v.db)|
  {
    hide Sound, Loop, QueueKept;
    LoopIsOnCourse(json, v, ListAll(v.db), env.turn);
    CountsNest(LoopOf(json, v, env).outcomes);
  }

  /**
   * Idle is reported exactly if the worker is enabled, no row failed, and the last listing was
   * empty, or, if there was no last listing, every row of the first was acknowledged.
   */
  lemma IdleMeans(json: Codec<SubmitEvent>, v: Shared, status: Status, env: Environment)
    requires Sound(v.db) && Lists(v, env)
    ensures var (v', report) := Flush(json, v, status, env);
            report.state.Idle? <==>
              && env.lastEnabled && report.failed == 0
              && if v'.unlocked && !env.lastListFails then Items(v'.db) == []
                 else report.acknowledged == |ListAll(v.db)|
    ensures var (v', report) := Flush(json, v, status, env);
            && (report.state.Paused? <==> !env.lastEnabled) && !report.state.Sending?
            && (report.lastError.Some? <==> report.failed > 0)
            && report.pending == if v'.unlocked && !env.lastListFails then |ListAll(v'.db)|
                                 else |ListAll(v.db)| - report.acknowledged
  {
    hide Sound, QueueKept, Loop, Meanwhile;
    LoopIsOnCourse(json, v, ListAll(v.db), env.turn);
    CountsNest(LoopOf(json, v, env).outcomes);
    ReportKeepsPending(json, v, ListAll(v.db), env.turn);
  }

  lemma {:induction false} ReportKeepsPending(json: Codec<SubmitEvent>, v: Shared, items: seq<OutboxItem>,
                                              turn: nat -> Turn)
    ensures Loop(json, Starting(v), items, turn).progress.report.pending == |ListAll(v.db)|
  {
    if items != [] {
      var last := |items| - 1;
      ReportKeepsPending(json, v, items[..last], turn);
      TurnKeepsPending(json, Loop(json, Starting(v), items[..last], turn), items[last], turn(last));
      hide TakeTurn, ListAll;
    }
  }

  lemma TurnKeepsPending(json: Codec<SubmitEvent>, w: Work, item: OutboxItem, turn: Turn)
    ensures TakeTurn(json, w, item, turn).progress.report.pending == w.progress.report.pending
  {
    hide ValidateOutboxItem, Meanwhile, Acknowledge, ValidReceipt;
  }

  /** Whether the vault is open after these calls. */
  function OpenAfter(unlocked: bool, others: seq<Other>): bool {
    if others == [] then unlocked
    else
      var last := others[|others| - 1];
      if last.Unlock? then last.open else OpenAfter(unlocked, others[..|others| - 1])
  }

  lemma {:induction false} MeanwhileOpens(v: Shared, others: seq<Other>)
    ensures Meanwhile(v, others).unlocked == OpenAfter(v.unlocked, others)
  {
    if others != [] {
      MeanwhileOpens(v, others[..|others| - 1]);
    }
  }

  /** Whether the vault is open when turn i begins, if all turns before it ran in full. */
  function OpenBefore(unlocked: bool, turn: nat -> Turn, i: nat): bool {
    if i == 0 then unlocked
    else OpenAfter(OpenAfter(OpenBefore(unlocked, turn, i - 1), turn(i - 1).before), turn(i - 1).during)
  }

  /** The row holds the canonical form of this submission, under its IDs. */
  predicate HoldsRow(json: Codec<SubmitEvent>, item: OutboxItem, submission: SubmitEvent) {
    && json.decode(item.payload) == Some(submission) && json.encode(submission) == item.payload
    && item.eventId == UuidText(submission.eventId) && item.deviceId == UuidText(submission.senderDeviceId)
  }

  /** The receipt is for this event in this channel, numbered, and not expired when it was made. */
  predicate Confirms(receipt: AcceptedEvent, submission: SubmitEvent) {
    && receipt.eventId == submission.eventId && receipt.channelId == submission.channelId
    && receipt.sequence >= 1 && receipt.acceptedAt < receipt.expiresAt
  }

  /** In this turn the row can be sent, is confirmed, and the vault can record it. */
  predicate GoesWell(json: Codec<SubmitEvent>, unlocked: bool, item: OutboxItem, turn: Turn) {
    && turn.enabled && OpenAfter(OpenAfter(unlocked, turn.before), turn.during) && !turn.ackFails
    && json.decode(item.payload).Some? && HoldsRow(json, item, json.decode(item.payload).value)
    && turn.reply.Receipt? && Confirms(turn.reply.receipt, json.decode(item.payload).value)
  }

  lemma ChecksMean(json: Codec<SubmitEvent>, item: OutboxItem, receipt: AcceptedEvent)
    ensures forall submission ::
              ValidateOutboxItem(json, item) == Some(submission) <==> HoldsRow(json, item, submission)
    ensures ValidateOutboxItem(json, item).Some? ==>
              json.decode(item.payload) == ValidateOutboxItem(json, item)
    ensures forall submission :: ValidReceipt(submission, receipt) <==> Confirms(receipt, submission)
  {
    hide UuidText;
  }

  lemma AcknowledgedGoesWell(json: Codec<SubmitEvent>, w: Work, item: OutboxItem, turn: Turn)
    requires Sound(w.vault.db)
    requires w.progress.stopped || item.deviceId in w.progress.blocked || Leads(w.vault.db, item)
    ensures var w' := TakeTurn(json, w, item, turn);
            && |w'.outcomes| == |w.outcomes| + 1
            && (w'.outcomes[|w.outcomes|].Acknowledged? <==>
                 && GoesWell(json, w.vault.unlocked, item, turn)
                 && !w.progress.stopped && item.deviceId !in w.progress.blocked)
            && (w'.outcomes[|w.outcomes|].Acknowledged? ==>
                  w'.vault.unlocked == OpenAfter(OpenAfter(w.vault.unlocked, turn.before), turn.during))
  {
    hide Sound, Pending, Leads, Meanwhile, Acknowledge, ValidateOutboxItem, ValidReceipt, UuidText, OpenAfter, Confirms,
      HoldsRow;
    if turn.reply.Receipt? {
      ChecksMean(json, item, turn.reply.receipt);
    }
    TurnOnTheHead(json, w, item, turn);
    MeanwhileOpens(w.vault, turn.before);
    MeanwhileOpens(Meanwhile(w.vault, turn.before), turn.during);
  }

  /** The report counts one failure more, and names it unless an earlier one is named. */
  ghost predicate Fails(p: Progress, p': Progress, deviceId: string, error: WorkerError, attempted: nat) {
    && p'.blocked == p.blocked + {deviceId} && p'.stopped == p.stopped
    && p'.report.failed == p.report.failed + 1 && p'.report.attempted == p.report.attempted + attempted
    && p'.report.acknowledged == p.report.acknowledged
    && p'.report.lastError == if p.report.lastError.None? then Some(error) else p.report.lastError
  }

  /** The loop ends here, with nothing counted but the attempt. */
  ghost predicate Breaks(p: Progress, p': Progress, attempted: nat) {
    && p'.stopped && p'.blocked == p.blocked && p'.report.failed == p.report.failed
    && p'.report.attempted == p.report.attempted + attempted && p'.report.acknowledged == p.report.acknowledged
    && p'.report.lastError == p.report.lastError
  }

  /**
   * What becomes of a row that is taken up, for every way its turn can go. Only a receipt that
   * confirms the row, recorded by an open vault, takes it out of the outbox; any other receipt
   * leaves the outbox as it was, blocks the device and is reported.
   */
  lemma WhatBecomesOfTheRow(json: Codec<SubmitEvent>, w: Work, item: OutboxItem, turn: Turn)
    requires Sound(w.vault.db) && !w.progress.stopped && item.deviceId !in w.progress.blocked
    requires Leads(w.vault.db, item)
    ensures var w' := TakeTurn(json, w, item, turn);
            var p, p', submission := w.progress, w'.progress, json.decode(item.payload);
            var v := Meanwhile(w.vault, turn.before);
            var v' := Meanwhile(v, turn.during);
            if !turn.enabled then w'.vault == v && Breaks(p, p', 0)
            else if submission.None? || !HoldsRow(json, item, submission.value) then
              w'.vault == v && Fails(p, p', item.deviceId, InvalidOutboxEntry, 0)
            else
              match turn.reply
              case Cancelled => w'.vault == v' && Breaks(p, p', 1)
              case NoReceipt(error) => w'.vault == v' && Fails(p, p', item.deviceId, error, 1)
              case Receipt(receipt) =>
                if !Confirms(receipt, submission.value) then
                  w'.vault == v' && Fails(p, p', item.deviceId, InvalidRelayReceipt, 1)
                else if !v'.unlocked then w'.vault == v' && Breaks(p, p', 1)
                else if turn.ackFails then w'.vault == v' && Fails(p, p', item.deviceId, VaultAcknowledgementFailed, 1)
                else
                  && w'.vault.unlocked && w'.vault.db.messages == v'.db.messages
                  && w'.vault.db.snapshots == v'.db.snapshots
                  && Pending(v'.db, item.deviceId) != [] && Pending(v'.db, item.deviceId)[0] == item
                  && (forall of: string ::
                        Pending(w'.vault.db, of)
                        == if of == item.deviceId then Pending(v'.db, of)[1..] else Pending(v'.db, of))
                  && p'.blocked == p.blocked && !p'.stopped && p'.report.failed == p.report.failed
                  && p'.report.attempted == p.report.attempted + 1
                  && p'.report.acknowledged == p.report.acknowledged + 1 && p'.report.lastError == p.report.lastError
  {
    hide Sound, Pending, Meanwhile, Acknowledge, ValidateOutboxItem, ValidReceipt, UuidText, Added;
    var v := Meanwhile(w.vault, turn.before);
    MeanwhileKeepsQueues(w.vault, turn.before);
    MeanwhileKeepsQueues(v, turn.during);
    AcknowledgeTheHead(Meanwhile(v, turn.during).db, item);
    AcknowledgeOnlyRows(Meanwhile(v, turn.during).db, item);
    ChecksMean(json, item, if turn.reply.Receipt? then turn.reply.receipt else AcceptedEvent(0, 0, 0, 0, 0));
  }

  lemma AcknowledgeOnlyRows(db: Database, item: OutboxItem)
    ensures var db' := Acknowledge(db, item.deviceId, item.eventId);
            db'.messages == db.messages && db'.snapshots == db.snapshots
  {
  }

  /** A flush that does not get past its listing leaves the vault alone and says why. */
  lemma WithoutAListing(json: Codec<SubmitEvent>, v: Shared, status: Status, env: Environment)
    requires !env.enabled || !v.unlocked || env.listFails
    ensures var (v', report) := Flush(json, v, status, env);
            && v' == v && report.attempted == 0 && report.acknowledged == 0
            && (report.state.Paused? <==> !env.enabled || !v.unlocked)
            && (report.state.Paused? || report.state.Deferred?)
            && report.pending == (if env.enabled then 0 else status.pending)
            && report.failed == (if report.state.Paused? then 0 else 1)
            && report.lastError == if report.state.Paused? then None else Some(VaultReadFailed)
  {
  }

  ghost predicate AllAre(outcomes: seq<Outcome>) {
    forall i | 0 <= i < |outcomes| :: outcomes[i].Acknowledged?
  }

  ghost predicate AllGoWell(json: Codec<SubmitEvent>, unlocked: bool, items: seq<OutboxItem>, turn: nat -> Turn) {
    forall i | 0 <= i < |items| :: GoesWell(json, OpenBefore(unlocked, turn, i), items[i], turn(i))
  }

  lemma OneMoreGoesWell(json: Codec<SubmitEvent>, unlocked: bool, items: seq<OutboxItem>, item: OutboxItem,
                        turn: nat -> Turn)
    ensures AllGoWell(json, unlocked, items + [item], turn) <==>
            && AllGoWell(json, unlocked, items, turn)
            && GoesWell(json, OpenBefore(unlocked, turn, |items|), item, turn(|items|))
  {
    hide GoesWell, OpenBefore;
    if AllGoWell(json, unlocked, items + [item], turn) {
      forall i | 0 <= i < |items|
        ensures GoesWell(json, OpenBefore(unlocked, turn, i), items[i], turn(i))
      {
        assert (items + [item])[i] == items[i];
      }
      assert (items + [item])[|items|] == item;
    }
  }

  lemma OneMoreIs(w: Work, w': Work, item: OutboxItem)
    requires Turned(w, w', item)
    ensures |w'.outcomes| == |w.outcomes| + 1
    ensures AllAre(w'.outcomes) <==> AllAre(w.outcomes) && w'.outcomes[|w.outcomes|].Acknowledged?
    ensures w'.outcomes[|w.outcomes|].Acknowledged? ==>
              w'.progress.blocked == w.progress.blocked && !w'.progress.stopped
  {
    assert w'.outcomes == w.outcomes + [w'.outcomes[|w.outcomes|]];
  }

  /** A flush acknowledges every row it listed exactly if every turn goes well. */
  lemma {:induction false} AllAcknowledged(json: Codec<SubmitEvent>, v: Shared, items: seq<OutboxItem>,
                                           turn: nat -> Turn)
    requires Sound(v.db) && items <= Items(v.db)
    ensures var w := Loop(json, Starting(v), items, turn);
            && |w.outcomes| == |items|
            && (AllAre(w.outcomes) <==> AllGoWell(json, v.unlocked, items, turn))
            && (AllAre(w.outcomes) ==>
                  && !w.progress.stopped && w.progress.blocked == {}
                  && w.vault.unlocked == OpenBefore(v.unlocked, turn, |items|))
  {
    hide OnCourse, Sound, Pending, Turned, GoesWell, TakeTurn, Items;
    if items != [] {
      hide AllAre, AllGoWell, OpenAfter;
      var init, item := items[..|items| - 1], items[|items| - 1];
      LoopStep(json, v, items, turn);
      hide Loop;
      assert init + [item] == items;
      AllAcknowledged(json, v, init, turn);
      LoopIsOnCourse(json, v, init, turn);
      var w := Loop(json, Starting(v), init, turn);
      assert Sound(w.vault.db) by { OnCourseIsSound(w, v.db, init, AddedFor(json, v, init, turn)); }
      if !w.progress.stopped && item.deviceId !in w.progress.blocked {
        HeadOfLine(w, v.db, init, item, AddedFor(json, v, init, turn));
      }
      AcknowledgedGoesWell(json, w, item, turn(|init|));
      TurnOnTheHead(json, w, item, turn(|init|));
      OneMoreIs(w, TakeTurn(json, w, item, turn(|init|)), item);
      OneMoreGoesWell(json, v.unlocked, init, item, turn);
    }
  }

  lemma LoopStep(json: Codec<SubmitEvent>, v: Shared, items: seq<OutboxItem>, turn: nat -> Turn)
    requires items != []
    ensures var last := |items| - 1;
            Loop(json, Starting(v), items, turn)
            == TakeTurn(json, Loop(json, Starting(v), items[..last], turn), items[last], turn(last))
  {
  }

  /** Without a last listing, Idle can hide a row queued during the flush. */
  lemma IdleCanHideARow(json: Codec<SubmitEvent>, status: Status, turn: nat -> Turn, snapshot: Bytes,
                        item: OutboxItem)
    requires ValidItem(item) && ValidSnapshot(snapshot)
    ensures var env := Environment(true, false, turn, [Queue(snapshot, item, None, None)], true, true);
            var (v', report) := Flush(json, Shared(Database(map[], map[], []), true), status, env);
            report.state.Idle? && Items(v'.db) == [item]
  {
    hide ValidItem, ValidSnapshot, FindEvent;
    var db := Database(map[], map[], []);
    FindEventMeans(db, item.eventId);
    assert ListAll(db) == [];
    var others := [Queue(snapshot, item, None, None)];
    assert others[..0] == [];
    assert Meanwhile(Shared(db, true), others) == OutboxWorker.Apply(Shared(db, true), others[0]);
    assert StoreTransaction(db, true, snapshot, item, None, None).0 == Committed(db, snapshot, item, None);
  }
}
