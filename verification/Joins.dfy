/** Where the machines meet: what a lane of the attempt protocol has come to is what the routed
    call and the routed stream are told of it. */
module Joins {
  import opened Common
  import opened Verdicts
  import opened Attempts
  import AttemptRuns
  import Pool
  import Race
  import Route
  import Stream

  // ---------------------------------------------------------------------
  // What a lane reports
  // ---------------------------------------------------------------------

  /** A row that blames the model and leaves it in the call's reach. */
  predicate Blames(row: CallStatus) { row == Error || row == RateLimited || row == Unavailable }

  /** A settlement that runs its course answers over an OK row, or reports a verdict over a row
      that blames the model. */
  predicate Consistent(s: Settlement) {
    && (s.answers ==> s.row == Some(OK) && s.after.Returns? && s.fate.None?)
    && (s.fate.Some? ==> s.row == Some(Error) && s.after.Returns?)
    && (s.after.Crashes? ==> s.row == Some(Error))
    && (s.after.Returns? && !s.answers ==> s.row.Some? && Blames(s.row.value))
    && (s.answers ==> s.back.Answered?)
  }

  predicate Rejects(fate: Option<Fate>) { fate.Some? && fate.value.Failed? }

  /** The lane's task has ended of itself. */
  predicate RanOut(l: Lane) { l.gen.Over? && (l.task.Done? || l.task.Crashed?) }

  ghost predicate EndReported(l: Lane) {
    && (l.outcome.answered ==> l.task.Done? && l.outcome.verdict.None? && l.log.rows == [OK])
    && (l.task.Done? && l.log.rows == [OK] ==> l.outcome.answered)
    && (l.task.Crashed? ==> l.outcome.verdict.None? && (l.log.rows == [] || l.log.rows == [Error]))
    && (Rejects(l.outcome.verdict) ==>
          l.log.rows == [Error] || (!l.outcome.holdsSlot && l.outcome.verdict == Some(Failed(None))))
    && (l.outcome.verdict == Some(BudgetExpired) ==> l.log.rows == [Error] || (l.log.cut && l.kind.Streamed?))
    && (l.task.Done? && !l.outcome.answered && l.outcome.holdsSlot && !l.log.cut && !l.log.unwritten ==>
          |l.log.rows| == 1 && Blames(l.log.rows[0]))
    && (l.task.Done? && !l.outcome.holdsSlot ==> l.outcome.verdict == Some(Failed(None)))
    && (!l.outcome.holdsSlot || l.log.cut || l.log.unwritten ==> !l.outcome.answered)
    && (l.log.cut || l.log.unwritten ==> l.kind.Streamed? || l.task.Crashed? || l.task.Cancelled?)
  }

  ghost predicate Reported(l: Lane) {
    && (l.outcome.answered || l.outcome.verdict.Some? ==> l.gen.Over?)
    && match l.gen
       case Open(started) => started ==> l.kind.Streamed?
       case AtYield => l.kind.Streamed?
       case Settling(s) => Consistent(s)
       case Writing(s) => Consistent(s)
       case Over => EndReported(l)
       case _ => true
  }

  lemma DisposedReported(l: Lane, fault: Fault, budgetBound: bool, now: real, backoff: real, cap: Option<real>)
    requires SoundLane(l) && Reported(l) && l.gen.Open?
    ensures Reported(Disposed(l, Classify(fault, budgetBound), now, backoff, cap))
  {
    hide CanCool, CappedWait;
    EveryFailureExcludesOrCools(fault, budgetBound);
    match fault case HttpFault(_, _) => case _ =>
  }

  lemma OpenReported(l: Lane, e: LaneEvent, now: real)
    requires SoundLane(l) && Reported(l) && l.gen.Open?
    requires e.ProviderDone? || e.Fail? || e.BudgetMidAnswer? || e.Crash?
    ensures Reported(LaneStep(l, e, now).0)
  {
    hide Disposed, Classify;
    match e
    case ProviderDone(backoff, cap) => DisposedReported(l, InvalidResponse, false, now, backoff, cap);
    case Fail(fault, budgetBound, backoff, cap, _) =>
      DisposedReported(l, fault, budgetBound && !l.gen.started, now, backoff, cap);
    case _ =>
  }

  lemma LockReported(l: Lane, now: real)
    requires SoundLane(l) && Reported(l)
    ensures Reported(LaneStep(l, Lock, now).0)
  {
    hide SoundSettlement, CanWrite;
    match l.gen case Settling(_) => case KeyGone => case Unstarted => case Over => case _ =>
  }

  lemma WroteReported(l: Lane, now: real)
    requires SoundLane(l) && Reported(l)
    ensures Reported(LaneStep(l, Wrote, now).0)
  {
    if l.gen.Writing? {
      WritingHolds(l);
      hide SoundLane, EndReported;
      WrittenReported(l, l.gen.s);
    }
  }

  lemma WritingHolds(l: Lane)
    requires SoundLane(l) && l.gen.Writing?
    ensures l.outcome.holdsSlot && l.log.rows == [] && !l.log.cut && !l.log.unwritten && l.gen.s.row.Some?
    ensures l.stop.Closing? ==> l.task.Cancelled? && l.gen.s.after.Cancels?
  {}

  lemma WrittenReported(l: Lane, s: Settlement)
    requires Consistent(s) && s.row.Some? && (l.stop.Closing? ==> l.task.Cancelled? && !s.after.Returns?)
    requires l.outcome.holdsSlot && l.log.rows == [] && !l.log.cut && !l.log.unwritten
    ensures EndReported(Finish(Journaled(l, s.row.value).(outcome := l.outcome.(answered := s.answers, settledReceipt := s.settles,
                                                                               verdict := s.fate)), s))
  {
    assert Journaled(l, s.row.value).log.rows == [s.row.value];
  }

  lemma StopTurnReported(l: Lane, e: LaneEvent, now: real)
    requires SoundLane(l) && Reported(l) && (e.StopTurn? || e.StopCancelled?)
    ensures Reported(LaneStep(l, e, now).0)
  {
    hide SoundSettlement;
    match l.gen case Settling(_) => case Writing(_) => case Unstarted => case AtYield => case Over => case _ =>
  }

  lemma InterruptReported(l: Lane, landed: bool, now: real)
    requires SoundLane(l) && Reported(l)
    ensures Reported(LaneStep(l, Interrupt(landed), now).0)
  {
    hide SoundSettlement, SettlingTask;
    match l.gen case Settling(_) => case Writing(_) => case Open(_) => case Over => case _ =>
  }

  /** Asking a lane to stop leaves alone whatever it is settling or has ended with. */
  lemma AskedReported(l: Lane, superseded: bool, stopped: bool)
    requires SoundLane(l) && Reported(l) && !l.kind.Alone? && l.stop.NotAsked?
    ensures Reported(AskStop(l, superseded, stopped))
  {
    hide SoundSettlement, SoundOver;
    match l.gen case Settling(_) => case Writing(_) => case Open(_) => case AtYield => case Over => case _ =>
  }

  lemma AskReported(l: Lane, e: LaneEvent, now: real)
    requires SoundLane(l) && Reported(l) && (e.Supersede? || e.StopEarly? || e.Abandon?)
    ensures Reported(LaneStep(l, e, now).0)
  {
    hide SoundLane, Reported, AskStop;
    if !l.kind.Alone? && l.stop.NotAsked? {
      AskedReported(l, l.kind.Raced? || !l.task.Done?, false);
      AskedReported(l, false, !l.task.Done?);
      AskedReported(l, false, false);
    }
  }

  lemma MoveReported(l: Lane, e: LaneEvent, now: real)
    requires SoundLane(l) && Reported(l)
    requires e.Begin? || e.KeyFound? || e.KeyMissing? || e.Stumble? || e.Delta? || e.Resume?
    ensures Reported(LaneStep(l, e, now).0)
  {
    match l.gen case Resolving => case Over => case _ =>
  }

  lemma StepReported(l: Lane, e: LaneEvent, now: real)
    requires SoundLane(l) && Reported(l)
    ensures Reported(LaneStep(l, e, now).0)
  {
    hide SoundLane, Reported;
    if e.ProviderDone? || e.Fail? || e.BudgetMidAnswer? || e.Crash? {
      if l.gen.Open? {
        OpenReported(l, e, now);
      }
    } else if e.Lock? {
      LockReported(l, now);
    } else if e.Wrote? {
      WroteReported(l, now);
    } else if e.StopTurn? || e.StopCancelled? {
      StopTurnReported(l, e, now);
    } else if e.Interrupt? {
      InterruptReported(l, e.landed, now);
    } else if e.Supersede? || e.StopEarly? || e.Abandon? {
      AskReported(l, e, now);
    } else {
      MoveReported(l, e, now);
    }
  }

  ghost predicate AllReported(lanes: seq<Lane>) { forall i :: 0 <= i < |lanes| ==> Reported(lanes[i]) }

  lemma ApplyReports(s: System, e: Event)
    requires Inv(s) && AllReported(s.lanes)
    ensures AllReported(Apply(s, e).lanes)
  {
    hide Reported, LaneStep, Pool.Choice;
    match e
    case Grant(kind, ask, width, recoveryWidth, remaining, judge) =>
      if width > 0 {
        var best := Pool.Choice(s.pool, ask, width, recoveryWidth, Pool.Demand(remaining, s.now, judge));
        var added := OpenAll(kind, best, s.lanes);
        forall i | 0 <= i < |added| ensures Reported(added[i]) {
          OpenedReported(kind, best[i], Leases(s.lanes, best[i].config.name) == 0);
        }
      }
    case On(i, step) =>
      if i < |s.lanes| {
        assert SoundLane(s.lanes[i]);
        StepReported(s.lanes[i], step, s.now);
      }
    case _ =>
  }

  lemma OpenedReported(kind: Kind, slot: Pool.Slot, idle: bool)
    ensures Reported(Opened(kind, slot, idle))
  {}

  lemma {:induction false} RunReports(events: seq<Event>)
    ensures AllReported(Run(INITIAL, events).lanes)
    decreases |events|
  {
    if events != [] {
      RunReports(events[..|events| - 1]);
      AttemptRuns.RunSound(events[..|events| - 1]);
      ApplyReports(Run(INITIAL, events[..|events| - 1]), events[|events| - 1]);
    }
  }

  // ---------------------------------------------------------------------
  // The routed call
  // ---------------------------------------------------------------------

  /** What `opened` and `absorb` make of a lane whose task has ended. */
  function EndOfLane(l: Lane): Route.End {
    if l.task.Crashed? then Route.Crashes
    else if l.outcome.answered then Route.Answers
    else Route.Fails(l.outcome.verdict)
  }

  /** Over every run, an atomic lane whose task has ended of itself tells the routed call the
      truth: it answers exactly over an OK row; it crashes with its slot handed back and an
      error row, or with one of the two lost; and it fails with its slot handed back, rejecting
      the call only where its key was gone or its row is an error, and staying in the call's
      reach only where its row blames the model. */
  lemma EndsAreTrue(events: seq<Event>, i: nat)
    requires i < |Run(INITIAL, events).lanes|
    requires var l := Run(INITIAL, events).lanes[i]; RanOut(l) && !l.kind.Streamed?
    ensures var l := Run(INITIAL, events).lanes[i];
      match EndOfLane(l)
      case Answers => l.log.rows == [OK] && l.log.handBacks == 1
      case Crashes => l.outcome.verdict.None?
                      && (l.log.rows == [Error] && l.log.handBacks == 1 <==> !l.log.cut && !l.log.unwritten)
      case Fails(fate) =>
        && l.log.handBacks == 1 && l.log.rows != [OK]
        && (fate.None? ==> |l.log.rows| == 1 && Blames(l.log.rows[0]))
        && (fate == Some(BudgetExpired) ==> l.log.rows == [Error])
        && (Rejects(fate) ==> l.log.rows == [Error] || (fate == Some(Failed(None)) && !l.outcome.holdsSlot))
  {
    RunReports(events);
    AttemptRuns.RunSound(events);
    EndIsTrue(Run(INITIAL, events).lanes[i]);
  }

  lemma EndIsTrue(l: Lane)
    requires SoundLane(l) && Reported(l) && RanOut(l) && !l.kind.Streamed?
    ensures match EndOfLane(l)
      case Answers => l.log.rows == [OK] && l.log.handBacks == 1
      case Crashes => l.outcome.verdict.None?
                      && (l.log.rows == [Error] && l.log.handBacks == 1 <==> !l.log.cut && !l.log.unwritten)
      case Fails(fate) =>
        && l.log.handBacks == 1 && l.log.rows != [OK]
        && (fate.None? ==> |l.log.rows| == 1 && Blames(l.log.rows[0]))
        && (fate == Some(BudgetExpired) ==> l.log.rows == [Error])
        && (Rejects(fate) ==> l.log.rows == [Error] || (fate == Some(Failed(None)) && !l.outcome.holdsSlot))
  {}

  // ---------------------------------------------------------------------
  // The routed stream
  // ---------------------------------------------------------------------

  /** The stream has its whole text and is settling it. */
  predicate Completing(l: Lane) { (l.gen.Settling? || l.gen.Writing?) && l.gen.s.answers }

  /** A lane of the protocol and the stream's picture of it. */
  ghost predicate Alike(l: Lane, x: Race.StreamLane) {
    && (l.gen.AtYield? || (l.gen.Open? && l.gen.started) ==> x.deltas != [])
    && match x.stage
       case Running => !Completing(l) && !RanOut(l)
       case Completed(_) => Completing(l)
       case Answered(_) => RanOut(l) && l.outcome.answered
       case Broken(verdict, _, _) => RanOut(l) && !l.outcome.answered && verdict == l.outcome.verdict
  }

  /** What the stream's owner sees of a lane's step, if anything: `text` is what a delta said,
      `raised` and `crashed` how an end without an answer came about. */
  function Seen(l: Lane, m: Lane, k: nat, text: string, raised: bool, crashed: bool): Option<Stream.Event> {
    if !l.gen.AtYield? && m.gen.AtYield? then Some(Stream.Speak(k, text))
    else if !Completing(l) && Completing(m) then Some(Stream.Complete(k))
    else if Completing(l) && RanOut(m) then Some(Stream.Written(k))
    else if !RanOut(l) && RanOut(m) then Some(Stream.Break(k, m.outcome.verdict, raised, crashed))
    else None
  }

  function Shown(x: Race.StreamLane, e: Option<Stream.Event>, now: real): Race.StreamLane {
    if e.Some? then Stream.LaneTurn(x, e.value, now) else x
  }

  /** How a streamed lane moves between the stages: it completes only after it has spoken,
      what completes is answered, and an end is for good. */
  ghost predicate Proceeds(l: Lane, m: Lane) {
    && (Completing(l) ==> Completing(m) || (RanOut(m) && m.outcome.answered))
    && (RanOut(l) ==> RanOut(m) && m.outcome.answered == l.outcome.answered && m.outcome.verdict == l.outcome.verdict)
    && (!Completing(l) && !RanOut(l) && RanOut(m) ==> !m.outcome.answered)
    && (!Completing(l) && Completing(m) ==> l.gen.Open? && l.gen.started)
    && (m.gen.AtYield? && !l.gen.AtYield? ==> l.gen.Open?)
    && (m.gen.Open? && m.gen.started ==> l.gen.AtYield? || (l.gen.Open? && l.gen.started))
  }

  lemma OpenProceeds(l: Lane, e: LaneEvent, now: real)
    requires SoundLane(l) && Reported(l) && l.kind.Streamed? && l.gen.Open?
    ensures Proceeds(l, LaneStep(l, e, now).0)
  {
    hide Classify, CanCool, CappedWait, SoundSettlement, SoundOver;
    match e case Fail(_, _, _, _, _) => case ProviderDone(_, _) => case BudgetMidAnswer(_, _) => case Supersede => case _ =>
  }

  lemma SettlingProceeds(l: Lane, e: LaneEvent, now: real)
    requires SoundLane(l) && Reported(l) && l.kind.Streamed? && (l.gen.Settling? || l.gen.Writing?)
    ensures Proceeds(l, LaneStep(l, e, now).0)
  {
    hide SoundOver;
    match e case Lock => case Wrote => case Supersede => case StopEarly => case StopTurn => case _ =>
  }

  lemma OverProceeds(l: Lane, e: LaneEvent, now: real)
    requires SoundLane(l) && Reported(l) && l.kind.Streamed? && l.gen.Over?
    ensures Proceeds(l, LaneStep(l, e, now).0)
  {
    match e case Lock => case Supersede => case StopEarly => case StopTurn => case _ =>
  }

  lemma EarlyProceeds(l: Lane, e: LaneEvent, now: real)
    requires SoundLane(l) && Reported(l) && l.kind.Streamed?
    requires !l.gen.Over? && !l.gen.Open? && !l.gen.Settling? && !l.gen.Writing?
    ensures Proceeds(l, LaneStep(l, e, now).0)
  {
    match e case Lock => case Supersede => case StopEarly => case StopTurn => case KeyFound(_) => case _ =>
  }

  lemma StepProceeds(l: Lane, e: LaneEvent, now: real)
    requires SoundLane(l) && Reported(l) && l.kind.Streamed?
    ensures Proceeds(l, LaneStep(l, e, now).0)
  {
    hide SoundLane, Reported, LaneStep, Proceeds;
    if l.gen.Open? {
      OpenProceeds(l, e, now);
    } else if l.gen.Over? {
      OverProceeds(l, e, now);
    } else if l.gen.Settling? || l.gen.Writing? {
      SettlingProceeds(l, e, now);
    } else {
      EarlyProceeds(l, e, now);
    }
  }

  lemma PictureFollows(l: Lane, m: Lane, x: Race.StreamLane, k: nat, text: string, raised: bool, crashed: bool, now: real)
    requires Proceeds(l, m) && Alike(l, x)
    ensures Alike(m, Shown(x, Seen(l, m, k, text, raised, crashed), now))
  {}

  /** Every step of a streamed lane is one of the stream machine's lane events, or none: the
      stage the stream gives a lane follows the attempt that runs it, step by step. */
  lemma StreamedLaneFollows(l: Lane, e: LaneEvent, now: real, x: Race.StreamLane, k: nat, text: string, raised: bool,
                            crashed: bool)
    requires SoundLane(l) && Reported(l) && l.kind.Streamed? && Alike(l, x)
    ensures var m := LaneStep(l, e, now).0;
      Alike(m, Shown(x, Seen(l, m, k, text, raised, crashed), now))
  {
    hide SoundLane, Reported, LaneStep, Proceeds, Alike;
    StepProceeds(l, e, now);
    PictureFollows(l, LaneStep(l, e, now).0, x, k, text, raised, crashed, now);
  }

  lemma StreamedLaneStarts(slot: Pool.Slot, idle: bool, wave: nat)
    ensures Alike(Opened(Streamed, slot, idle), Race.StreamLane(slot.config.name, wave, [], 0, None, Race.Running))
  {}
}
