/** The attempt protocol: every lane borrowing from the pool, one step per await-free
    stretch, in any interleaving.

    A lane is one reserved slot and the generator that runs its attempt. `Alone` lanes are
    driven by the caller itself; `Raced` and `Streamed` ones run in their own task and are
    cancelled and then stopped by whoever owns the call. A stop can itself be cancelled
    while it waits: a race's stops run under its caller, where a stream's run in a shielded
    task. Disabled events change nothing, so a run is any sequence of events. A lane's
    `log` is history kept for the statements and read by no step. */
module Attempts {
  import opened Common
  import opened Models
  import opened Verdicts
  import Pool

  datatype Kind = Alone | Raced | Streamed

  /** How the slot goes back: plainly, as the answer that clears the cooldown, or cooled. */
  datatype Back = Plain | Answered | Cooled(until: real, delay: real)

  /** How the task ends once the settlement is through. */
  datatype After = Returns | Cancels | Crashes

  /** One settlement: the hand-back, then the row it owes the journal, then what it reports. */
  datatype Settlement = Settlement(back: Back, row: Option<CallStatus>, answers: bool, settles: bool,
                                   fate: Option<Fate>, after: After)

  /** Where the attempt's generator stands. */
  datatype Gen =
    | Unstarted
    | Resolving
    | KeyGone
    | Open(started: bool)
    | AtYield
    | Settling(s: Settlement)
    | Writing(s: Settlement)
    | Over

  datatype Task = Scheduled | Running | Done | Cancelled | Crashed

  /** How far the owner's `_stop` has got with the lane, or that it was cancelled on the way. */
  datatype Stop = NotAsked | Asked | Returning | Closing | Stopped | Dropped

  datatype Lane = Lane(
    name: string,
    kind: Kind,
    gen: Gen,
    task: Task,
    stop: Stop,
    outcome: Outcome,
    log: History,
    recheck: bool,
    sole: bool)

  /** The settlement facts one attempt reports. */
  datatype Outcome = Outcome(
    superseded: bool,
    stopped: bool,
    settling: bool,
    holdsSlot: bool,
    answered: bool,
    settledReceipt: bool,
    verdict: Option<Fate>)

  const FRESH := Outcome(false, false, false, false, false, false, None)

  /** What the lane has done so far: hand-backs made, rows handed to the journal, whether it was
      cut, and whether an exception took its row after the hand-back. */
  datatype History = History(handBacks: nat, rows: seq<CallStatus>, cut: bool, unwritten: bool)

  /** What a lane's step does to the pool beside changing the lane. */
  datatype Effect = Nothing | Missed(budget: real) | Returned(back: Back)

  datatype LaneEvent =
    | Begin
    | KeyFound(budgetSpent: bool)
    | KeyMissing
    | Stumble
    | Delta
    | Resume
    | ProviderDone(backoff: real, cap: Option<real>)
    | Fail(fault: Fault, budgetBound: bool, backoff: real, cap: Option<real>, timeout: real)
    | BudgetMidAnswer(timeout: real, overflows: bool)
    | Crash
    | Lock
    | Wrote
    | Supersede
    | StopEarly
    | Abandon
    | StopTurn
    | StopCancelled
    | Interrupt(landed: bool)

  // ---------------------------------------------------------------------
  // Settlements
  // ---------------------------------------------------------------------

  const SPENT := Settlement(Plain, Some(Error), false, false, Some(BudgetExpired), Returns)
  const SUPERSEDED := Settlement(Plain, Some(SupersededRow), false, false, None, Cancels)
  const UNRECORDED := Settlement(Plain, None, false, false, None, Cancels)
  const STOPPED_EARLY := Settlement(Answered, Some(OK), false, true, None, Cancels)

  function Success(kind: Kind): Settlement {
    Settlement(Answered, Some(OK), true, kind.Streamed?, None, Returns)
  }

  /** `_dispose`: cool the model or just hand the slot back, then journal. */
  function Disposal(v: Verdict, now: real, backoff: real, cap: Option<real>): Settlement {
    Settlement(if v.coolBase.None? then Plain else CoolingFor(CappedWait(v.coolBase.value, backoff, cap), now),
               Some(v.status), false, false, v.outcome, Returns)
  }

  function CoolingFor(delay: real, now: real): Back { Cooled(now + delay, delay) }

  /** The wait can be worked out and its end is an instant the calendar has. */
  predicate CanCool(base: int, now: real, backoff: real, cap: Option<real>) {
    FitsAFloat(base) && Pool.OnCalendar(now + CappedWait(base, backoff, cap))
  }

  /** A failed attempt's disposal raises before the hand-back: the failure cannot be classified,
      or the wait it asks for cannot be had. */
  predicate Raises(v: Option<Verdict>, now: real, backoff: real, cap: Option<real>) {
    v.None? || (v.value.coolBase.Some? && !CanCool(v.value.coolBase.value, now, backoff, cap))
  }

  /** Settling a lane that was cancelled while its provider was being awaited. */
  function Cancellation(l: Lane): Settlement {
    if l.outcome.superseded then SUPERSEDED
    else if l.outcome.stopped && l.kind.Streamed? then STOPPED_EARLY
    else UNRECORDED
  }

  function Settle(l: Lane, s: Settlement): Lane { l.(gen := Settling(s), outcome := l.outcome.(settling := true)) }

  function Holding(l: Lane): Lane { l.(outcome := l.outcome.(holdsSlot := true)) }

  function HandedBack(l: Lane): Lane { l.(log := l.log.(handBacks := l.log.handBacks + 1)) }

  function Journaled(l: Lane, row: CallStatus): Lane { l.(log := l.log.(rows := l.log.rows + [row])) }

  /** Ended at an await no handler covers: the slot is neither handed back nor owed by anyone. */
  function Cut(l: Lane): Lane { l.(gen := Over, task := Cancelled, log := l.log.(cut := true)) }

  /** How a task ends on an exception: a stream's lane keeps it as its failure. */
  function Excepted(kind: Kind): Task { if kind.Streamed? then Done else Crashed }

  /** Ended by an exception no handler covers, with the slot still in flight. */
  function Fallen(l: Lane): Lane { l.(gen := Over, task := Excepted(l.kind), log := l.log.(cut := true)) }

  /** An exception after the key was found and before the request is covered by the `try`: the
      power in `_backoff` overflows after enough failures, say. */
  function Stumbled(l: Lane): Lane { Fallen(Holding(l)) }

  /** A failed attempt disposed of, outside the `try` or inside a handler: nothing catches it. */
  function Disposed(l: Lane, v: Option<Verdict>, now: real, backoff: real, cap: Option<real>): Lane {
    if Raises(v, now, backoff, cap) then Fallen(l.(outcome := l.outcome.(settling := true)))
    else Settle(l, Disposal(v.value, now, backoff, cap))
  }

  /** The row repeats the cooldown's end from its own, later instant. */
  predicate CanWrite(back: Back, now: real) { back.Cooled? ==> Pool.OnCalendar(now + back.delay) }

  function Unwritten(l: Lane): Lane { l.(gen := Over, task := Excepted(l.kind), log := l.log.(unwritten := true)) }

  /** The slot is the stop's to hand back: its task was cancelled before it held a key. */
  predicate OwedByStop(l: Lane) { l.task.Cancelled? && !l.outcome.holdsSlot }

  /** `_stop` cancelled at the wait for the lane or at the pool's lock. A lane still settling
      settles all the same; one that never held its key has nobody left to hand it back. */
  function DropStop(l: Lane): Lane { (if OwedByStop(l) then Cut(l) else l).(stop := Dropped) }

  /** `task.cancel()` as the lane meets it: at the await it is suspended on, and not at all
      once it is settling or its task has ended. */
  function CancelTask(l: Lane): Lane {
    if l.outcome.settling || !(l.task.Scheduled? || l.task.Running?) then l
    else if l.gen.Unstarted? || l.gen.AtYield? then l.(task := Cancelled)
    else if l.gen.Resolving? || l.gen.KeyGone? then l.(gen := Over, task := Cancelled)
    else if l.gen.Open? then Settle(l, Cancellation(l))
    else l
  }

  /** Flag the lane, cancel it, and only then wait on it. */
  function AskStop(l: Lane, superseded: bool, stopped: bool): Lane {
    CancelTask(l.(outcome := l.outcome.(superseded := superseded, stopped := stopped))).(stop := Asked)
  }

  function EndOf(after: After): Task {
    match after case Returns => Done case Cancels => Cancelled case Crashes => Crashed
  }

  /** The generator has run out; a stop that was closing it is through too. */
  function Finish(l: Lane, s: Settlement): Lane {
    if l.stop.Closing? then l.(gen := Over, stop := Stopped) else l.(gen := Over, task := EndOf(s.after))
  }

  /** `produced.aclose()`, the last thing `_stop` does: a generator left at a yield settles there. */
  function CloseGen(l: Lane): Lane {
    if l.gen.AtYield? then
      l.(gen := Settling(if l.outcome.superseded then SUPERSEDED else STOPPED_EARLY), stop := Closing)
    else l.(gen := Over, stop := Stopped)
  }

  // ---------------------------------------------------------------------
  // One lane's step
  // ---------------------------------------------------------------------

  function LaneStep(l: Lane, e: LaneEvent, now: real): (Lane, Effect) {
    match e
    case Begin =>
      if l.gen.Unstarted? && l.task.Scheduled? then (l.(gen := Resolving, task := Running), Nothing) else (l, Nothing)
    case KeyFound(spent) =>
      if !l.gen.Resolving? then (l, Nothing)
      else if spent then (Settle(Holding(l), SPENT), Nothing)
      else (Holding(l).(gen := Open(false)), Nothing)
    case KeyMissing =>
      if l.gen.Resolving? then (l.(gen := KeyGone), Nothing) else (l, Nothing)
    case Stumble =>
      if l.gen.Resolving? then (Stumbled(l), Nothing) else (l, Nothing)
    case Delta =>
      if l.gen.Open? && l.kind.Streamed? then (l.(gen := AtYield), Nothing) else (l, Nothing)
    case Resume =>
      if l.gen.AtYield? && l.task.Running? then (l.(gen := Open(true)), Nothing) else (l, Nothing)
    case ProviderDone(backoff, cap) =>
      if !l.gen.Open? then (l, Nothing)
      else if l.kind.Streamed? && !l.gen.started then
        (Disposed(l, Classify(InvalidResponse, false), now, backoff, cap), Nothing)
      else (Settle(l, Success(l.kind)), Nothing)
    case Fail(fault, budgetBound, backoff, cap, timeout) =>
      if !l.gen.Open? then (l, Nothing)
      else
        var v := Classify(fault, budgetBound && !l.gen.started);
        (Disposed(l, v, now, backoff, cap),
         if v.Some? && v.value.outcome == Some(BudgetExpired) then Missed(timeout) else Nothing)
    case BudgetMidAnswer(timeout, overflows) =>
      if !(l.gen.Open? && l.gen.started) then (l, Nothing)
      else if overflows then
        (Fallen(l.(outcome := l.outcome.(settling := true, verdict := Some(BudgetExpired)))), Nothing)
      else (Settle(l, SPENT), Missed(timeout))
    case Crash =>
      if l.gen.Open? then
        (Settle(l, Settlement(Plain, Some(Error), false, false, None,
                              if l.kind.Streamed? then Returns else Crashes)), Nothing)
      else (l, Nothing)
    case Lock =>
      if l.gen.KeyGone? then
        (HandedBack(l).(gen := Over, task := Done, outcome := l.outcome.(verdict := Some(Failed(None)))), Returned(Plain))
      else if l.gen.Settling? then
        var s := l.gen.s;
        (if !CanWrite(s.back, now) then Unwritten(HandedBack(l))
         else if s.row.Some? then HandedBack(l).(gen := Writing(s))
         else Finish(HandedBack(l), s), Returned(s.back))
      else if l.stop.Returning? then (CloseGen(HandedBack(l)), Returned(Plain))
      else (l, Nothing)
    case Wrote =>
      if l.gen.Writing? && l.gen.s.row.Some? then
        var s := l.gen.s;
        (Finish(Journaled(l, s.row.value).(outcome := l.outcome.(answered := s.answers, settledReceipt := s.settles,
                                                                 verdict := s.fate)), s), Nothing)
      else (l, Nothing)
    case Supersede =>
      if l.kind.Alone? || !l.stop.NotAsked? then (l, Nothing)
      else (AskStop(l, l.kind.Raced? || !l.task.Done?, false), Nothing)
    case StopEarly =>
      if !l.kind.Streamed? || !l.stop.NotAsked? then (l, Nothing)
      else (AskStop(l, false, !l.task.Done?), Nothing)
    case Abandon =>
      if !l.kind.Raced? || !l.stop.NotAsked? then (l, Nothing)
      else (AskStop(l, false, false), Nothing)
    case StopTurn =>
      if !l.stop.Asked? || l.task.Scheduled? || l.task.Running? then (l, Nothing)
      else if OwedByStop(l) then (l.(stop := Returning), Nothing)
      else (CloseGen(l), Nothing)
    case StopCancelled =>
      if l.kind.Raced? && (l.stop.Asked? || l.stop.Returning?) then (DropStop(l), Nothing) else (l, Nothing)
    case Interrupt(landed) =>
      if !l.kind.Alone? then (l, Nothing)
      else (match l.gen
            case Resolving => Cut(l)
            case KeyGone => Cut(l)
            case Open(_) => Settle(l, UNRECORDED)
            case Settling(_) => Cut(l)
            case Writing(s) =>
              (if landed && s.row.Some? then Journaled(l, s.row.value) else l).(gen := Over, task := Cancelled)
            case _ => l, Nothing)
  }

  // ---------------------------------------------------------------------
  // What holds of a lane between steps
  // ---------------------------------------------------------------------

  ghost predicate SoundSettlement(l: Lane, s: Settlement) {
    && (s.row.None? ==> s == UNRECORDED && !l.kind.Streamed? && !l.outcome.superseded && !l.outcome.stopped)
    && (s.answers || s.settles ==> s.row == Some(OK))
    && (s.back.Answered? <==> s.row == Some(OK))
    && (s.back.Cooled? ==> s.row.Some? && s.after.Returns?)
    && (s.after.Cancels? && s.row.Some? ==> l.outcome.superseded || l.outcome.stopped)
    && (s.after.Cancels? && !l.kind.Alone? ==> !l.stop.NotAsked?)
    && (s.row == Some(SupersededRow) ==> l.outcome.superseded && s.after.Cancels?)
  }

  /** The task a settlement runs in: its own, or the stop that is closing a yielded stream. */
  ghost predicate SettlingTask(l: Lane, s: Settlement) {
    || (l.outcome.settling && l.task.Running? && (l.stop.NotAsked? || l.stop.Asked? || l.stop.Dropped?))
    || (l.kind.Streamed? && !l.outcome.settling && l.task.Cancelled? && l.stop.Closing? && s.after.Cancels?)
  }

  ghost predicate SoundOver(l: Lane) {
    && !l.task.Scheduled? && !l.task.Running?
    && !l.stop.Closing?
    && (l.stop.Returning? ==> OwedByStop(l))
    && (l.log.cut ==> l.log.rows == [] && (l.task.Cancelled? || Unguarded(l)))
    && (!l.outcome.holdsSlot ==> l.log.rows == [] && !l.task.Crashed?)
    && (l.log.handBacks == 1 <==>
          !l.log.cut && (l.outcome.holdsSlot || l.task.Done? || l.stop.Stopped?))
    && (l.outcome.holdsSlot && !l.kind.Alone? ==>
          (|l.log.rows| == 1 <==> !Unrecorded(l) && !l.log.cut && !l.log.unwritten))
    && (l.outcome.holdsSlot && !l.task.Cancelled? ==> (|l.log.rows| == 1 <==> !l.log.cut && !l.log.unwritten))
    && (OwedByStop(l) && (l.kind.Alone? || l.stop.Dropped?) ==> l.log.cut)
    && (l.kind.Alone? ==> l.stop.NotAsked?)
  }

  /** Cut by an exception no handler covers. */
  predicate Unguarded(l: Lane) { l.log.cut && l.outcome.holdsSlot && !l.task.Cancelled? }

  /** Cut with the stop that owed the hand-back. */
  predicate Forsaken(l: Lane) { l.log.cut && l.kind.Raced? && l.stop.Dropped? && OwedByStop(l) }

  /** The one ending that journals nothing although a key was held: a cancellation that
      neither a sibling's answer nor the reader's own stop explains. */
  predicate Unrecorded(l: Lane) { l.task.Cancelled? && !l.outcome.superseded && !l.outcome.stopped }

  ghost predicate SoundLane(l: Lane) {
    && l.log.handBacks <= 1
    && |l.log.rows| <= 1
    && (l.log.cut ==> l.gen.Over? && l.log.handBacks == 0 && (l.kind.Alone? || Unguarded(l) || Forsaken(l)))
    && (l.log.unwritten ==> l.gen.Over? && l.outcome.holdsSlot && !l.task.Cancelled? && l.log.handBacks == 1)
    && (l.stop.Dropped? ==> l.kind.Raced?)
    && (l.kind.Alone? ==> !l.outcome.superseded && !l.outcome.stopped && l.stop.NotAsked?)
    && (l.outcome.stopped ==> l.kind.Streamed?)
    && (l.outcome.answered || l.outcome.settledReceipt ==> l.log.rows == [OK])
    && (l.stop.NotAsked? ==> !l.outcome.superseded && !l.outcome.stopped)
    && (l.task.Cancelled? && l.kind.Streamed? ==> l.outcome.superseded || l.outcome.stopped)
    && (l.task.Cancelled? && !l.kind.Alone? ==> !l.stop.NotAsked?)
    && (!l.outcome.settling && !l.kind.Alone? && l.gen.Over? && l.outcome.holdsSlot ==> l.kind.Streamed? || l.log.cut)
    && match l.gen
       case Unstarted =>
         && !l.kind.Alone? && !l.outcome.holdsSlot && !l.outcome.settling && l.log.rows == [] && l.log.handBacks == 0
         && (if l.task.Scheduled? then l.stop.NotAsked? else l.task.Cancelled? && (l.stop.Asked? || l.stop.Returning?))
       case Resolving =>
         && !l.outcome.holdsSlot && !l.outcome.settling && l.log.rows == [] && l.log.handBacks == 0
         && l.task.Running? && l.stop.NotAsked?
       case KeyGone =>
         && !l.outcome.holdsSlot && !l.outcome.settling && l.log.rows == [] && l.log.handBacks == 0
         && l.task.Running? && l.stop.NotAsked?
       case Open(_) =>
         && l.outcome.holdsSlot && !l.outcome.settling && l.log.rows == [] && l.log.handBacks == 0
         && l.task.Running? && l.stop.NotAsked?
       case AtYield =>
         && l.kind.Streamed? && l.outcome.holdsSlot && !l.outcome.settling && l.log.rows == [] && l.log.handBacks == 0
         && (if l.task.Running? then l.stop.NotAsked? else l.task.Cancelled? && l.stop.Asked?)
       case Settling(s) =>
         l.outcome.holdsSlot && l.log.rows == [] && l.log.handBacks == 0 && SettlingTask(l, s) && SoundSettlement(l, s)
       case Writing(s) =>
         && l.outcome.holdsSlot && l.log.rows == [] && l.log.handBacks == 1 && s.row.Some?
         && SettlingTask(l, s) && SoundSettlement(l, s)
       case Over => SoundOver(l)
  }

  /** Nothing of the lane is left to run. */
  predicate Ended(l: Lane) {
    l.gen.Over? && (l.task.Cancelled? && !l.kind.Alone? ==> l.stop.Stopped? || l.stop.Dropped?)
  }

  /** Every step keeps a lane sound, and hands the slot back exactly when it says it does. */
  lemma LaneStepSound(l: Lane, e: LaneEvent, now: real)
    requires SoundLane(l)
    ensures SoundStep(l, e, now, LaneStep(l, e, now))
  {
    if e.Supersede? || e.StopEarly? || e.Abandon? {
      AskedSound(l, e, now);
    } else if e.StopTurn? {
      StopTurnSound(l, now);
    } else if e.StopCancelled? {
      StopCancelledSound(l, now);
    } else if e.Stumble? {
      StumbleSound(l, now);
    } else if e.Interrupt? {
      InterruptSound(l, e.landed, now);
    } else if e.Lock? {
      LockSound(l, now);
    } else if e.Wrote? {
      WroteSound(l, now);
    } else {
      RunningSound(l, e, now);
    }
  }

  /** The stretch in which the provider's outcome is settled raises before the hand-back. */
  predicate DisposalRaises(l: Lane, e: LaneEvent, now: real) {
    && l.gen.Open?
    && match e
       case ProviderDone(backoff, cap) =>
         l.kind.Streamed? && !l.gen.started && Raises(Classify(InvalidResponse, false), now, backoff, cap)
       case Fail(fault, budgetBound, backoff, cap, _) =>
         Raises(Classify(fault, budgetBound && !l.gen.started), now, backoff, cap)
       case BudgetMidAnswer(_, overflows) => l.gen.started && overflows
       case _ => false
  }

  /** How a slot is lost: the caller of a lane it drives alone is cancelled at an await that
      no handler covers, a race's caller is cancelled under the stop of a lane cancelled before
      it held its key, an exception falls between the key and the `try`, or the disposal of a
      failure raises before its hand-back. */
  predicate CutBy(l: Lane, e: LaneEvent, now: real) {
    || (e.Interrupt? && l.kind.Alone? && (l.gen.Resolving? || l.gen.KeyGone? || l.gen.Settling?))
    || (e.StopCancelled? && l.kind.Raced? && (l.stop.Asked? || l.stop.Returning?) && OwedByStop(l))
    || (e.Stumble? && l.gen.Resolving?)
    || DisposalRaises(l, e, now)
  }

  /** How a row alone is lost: by the time the slot is back, the cooldown's end, told from that
      later instant, is off the calendar. */
  predicate UnwrittenBy(l: Lane, e: LaneEvent, now: real) {
    e.Lock? && l.gen.Settling? && !CanWrite(l.gen.s.back, now)
  }

  ghost predicate SoundStep(l: Lane, e: LaneEvent, now: real, after: (Lane, Effect)) {
    && SoundLane(after.0) && after.0.name == l.name && after.0.kind == l.kind && after.0.sole == l.sole
    && (after.0.log.cut <==> l.log.cut || CutBy(l, e, now))
    && (after.0.log.unwritten <==> l.log.unwritten || UnwrittenBy(l, e, now))
    && after.0.log.handBacks == l.log.handBacks + (if after.1.Returned? then 1 else 0)
  }

  lemma AskedSound(l: Lane, e: LaneEvent, now: real)
    requires SoundLane(l) && (e.Supersede? || e.StopEarly? || e.Abandon?)
    ensures SoundStep(l, e, now, LaneStep(l, e, now))
  {
    if l.stop.NotAsked? && l.kind.Raced? && !e.StopEarly? {
      AskRacedSound(l, e, e.Supersede?, now);
    } else if l.stop.NotAsked? && l.kind.Streamed? && !e.Abandon? {
      AskStreamSound(l, e, e.Supersede?, now);
    }
    match e case Supersede => case StopEarly => case Abandon => case _ =>
  }

  lemma CancelKeeps(l: Lane)
    ensures var m := CancelTask(l);
      m.name == l.name && m.kind == l.kind && m.sole == l.sole && m.log == l.log
  {
    if l.outcome.settling || !(l.task.Scheduled? || l.task.Running?) {
    } else if l.gen.Unstarted? || l.gen.AtYield? {
    } else if l.gen.Resolving? || l.gen.KeyGone? {
    } else if l.gen.Open? {
    }
  }

  lemma AskRacedSound(l: Lane, e: LaneEvent, superseded: bool, now: real)
    requires SoundLane(l) && l.kind.Raced? && l.stop.NotAsked? && (e.Supersede? || e.Abandon?)
    ensures SoundStep(l, e, now, (AskStop(l, superseded, false), Nothing))
  {
    CancelKeeps(l.(outcome := l.outcome.(superseded := superseded, stopped := false)));
    AskedRaced(l, superseded);
  }

  lemma AskedRaced(l: Lane, superseded: bool)
    requires SoundLane(l) && l.kind.Raced? && l.stop.NotAsked?
    ensures SoundLane(AskStop(l, superseded, false))
  {
    match l.gen case Over => case Unstarted => case Open(_) => case Settling(_) => case _ =>
  }

  lemma AskStreamSound(l: Lane, e: LaneEvent, superseded: bool, now: real)
    requires SoundLane(l) && l.kind.Streamed? && l.stop.NotAsked? && (e.Supersede? || e.StopEarly?)
    ensures SoundStep(l, e, now, (AskStop(l, superseded && !l.task.Done?, !superseded && !l.task.Done?), Nothing))
  {
    CancelKeeps(l.(outcome := l.outcome.(superseded := superseded && !l.task.Done?,
                                         stopped := !superseded && !l.task.Done?)));
    AskedStream(l, superseded);
  }

  lemma AskedStream(l: Lane, superseded: bool)
    requires SoundLane(l) && l.kind.Streamed? && l.stop.NotAsked?
    ensures SoundLane(AskStop(l, superseded && !l.task.Done?, !superseded && !l.task.Done?))
  {
    match l.gen case Over => case Unstarted => case Open(_) => case Settling(_) => case AtYield => case _ =>
  }

  lemma StopTurnSound(l: Lane, now: real)
    requires SoundLane(l)
    ensures SoundStep(l, StopTurn, now, LaneStep(l, StopTurn, now))
  {
    hide LaneStep;
    if l.stop.Asked? && !l.task.Scheduled? && !l.task.Running? {
      StopTurnIs(l, now);
      if OwedByStop(l) {
        ReturningSound(l);
      } else {
        ClosingSound(l);
      }
    } else {
      StopTurnIs(l, now);
    }
  }

  lemma StopTurnIs(l: Lane, now: real)
    ensures LaneStep(l, StopTurn, now) ==
            (if !l.stop.Asked? || l.task.Scheduled? || l.task.Running? then l
             else if OwedByStop(l) then l.(stop := Returning)
             else CloseGen(l), Nothing)
  {}

  lemma ReturningSound(l: Lane)
    requires SoundLane(l) && l.stop.Asked? && OwedByStop(l)
    ensures SoundLane(l.(stop := Returning))
  {
    match l.gen case Over => case Unstarted => case _ =>
  }

  lemma ClosingSound(l: Lane)
    requires SoundLane(l) && l.stop.Asked? && !l.task.Scheduled? && !l.task.Running? && !OwedByStop(l)
    ensures var m := CloseGen(l);
      SoundLane(m) && m.name == l.name && m.kind == l.kind && m.sole == l.sole && m.log == l.log
  {
    match l.gen case Over => case AtYield => case _ =>
  }

  lemma StopCancelledSound(l: Lane, now: real)
    requires SoundLane(l)
    ensures SoundStep(l, StopCancelled, now, LaneStep(l, StopCancelled, now))
  {
    match l.gen case Over => case Unstarted => case Settling(_) => case Writing(_) => case _ =>
  }

  lemma StumbleSound(l: Lane, now: real)
    requires SoundLane(l)
    ensures SoundStep(l, Stumble, now, LaneStep(l, Stumble, now))
  {
    match l.gen case Resolving => case _ =>
  }

  lemma InterruptSound(l: Lane, landed: bool, now: real)
    requires SoundLane(l)
    ensures SoundStep(l, Interrupt(landed), now, LaneStep(l, Interrupt(landed), now))
  {
    match l.gen case Over => case Open(_) => case Settling(_) => case Writing(_) => case _ =>
  }

  lemma LockSound(l: Lane, now: real)
    requires SoundLane(l)
    ensures SoundStep(l, Lock, now, LaneStep(l, Lock, now))
  {
    hide SoundLane;
    if l.gen.Settling? {
      HandedBackSound(l);
      SettlingHasOneTask(l);
    } else if l.gen.KeyGone? {
      KeyGoneSound(l);
    } else if l.stop.Returning? {
      ReturnedSound(l);
    }
  }

  lemma SettlingHasOneTask(l: Lane)
    requires SoundLane(l) && l.gen.Settling?
    ensures l.gen.s.back.Cooled? ==> l.gen.s.row.Some?
    ensures !l.log.cut && !l.log.unwritten
  {}

  lemma KeyGoneSound(l: Lane)
    requires SoundLane(l) && l.gen.KeyGone?
    ensures SoundLane(HandedBack(l).(gen := Over, task := Done, outcome := l.outcome.(verdict := Some(Failed(None)))))
    ensures !l.log.cut && !l.log.unwritten
  {}

  lemma ReturnedSound(l: Lane)
    requires SoundLane(l) && !l.gen.Settling? && !l.gen.KeyGone? && l.stop.Returning?
    ensures SoundLane(CloseGen(HandedBack(l))) && CloseGen(HandedBack(l)).log == HandedBack(l).log
    ensures !l.log.cut && !l.log.unwritten
  {
    match l.gen case Over => case Unstarted => case _ =>
  }

  lemma HandedBackSound(l: Lane)
    requires SoundLane(l) && l.gen.Settling?
    ensures SoundLane(if l.gen.s.row.Some? then HandedBack(l).(gen := Writing(l.gen.s)) else Finish(HandedBack(l), l.gen.s))
    ensures l.gen.s.back.Cooled? ==> SoundLane(Unwritten(HandedBack(l)))
  {}

  lemma WroteSound(l: Lane, now: real)
    requires SoundLane(l)
    ensures SoundStep(l, Wrote, now, LaneStep(l, Wrote, now))
  {}

  lemma RunningSound(l: Lane, e: LaneEvent, now: real)
    requires SoundLane(l)
    requires !(e.Supersede? || e.StopEarly? || e.Abandon? || e.StopTurn? || e.StopCancelled? || e.Stumble?)
    requires !(e.Interrupt? || e.Lock? || e.Wrote?)
    ensures SoundStep(l, e, now, LaneStep(l, e, now))
  {
    if l.gen.Open? && (e.ProviderDone? || e.Fail? || e.BudgetMidAnswer? || e.Crash?) {
      ProviderSound(l, e, now);
    } else if e.KeyFound? {
      KeyFoundSound(l, e.budgetSpent, now);
    } else if !(e.ProviderDone? || e.Fail? || e.BudgetMidAnswer? || e.Crash?) {
      MovingSound(l, e, now);
    }
  }

  lemma KeyFoundSound(l: Lane, spent: bool, now: real)
    requires SoundLane(l)
    ensures SoundStep(l, KeyFound(spent), now, LaneStep(l, KeyFound(spent), now))
  {
    assert SoundSettlement(Holding(l), SPENT);
  }

  lemma MovingSound(l: Lane, e: LaneEvent, now: real)
    requires SoundLane(l) && (e.Begin? || e.KeyMissing? || e.Delta? || e.Resume?)
    ensures SoundStep(l, e, now, LaneStep(l, e, now))
  {
    hide SoundSettlement, SettlingTask, SoundOver;
  }

  lemma ProviderSound(l: Lane, e: LaneEvent, now: real)
    requires SoundLane(l) && l.gen.Open? && (e.ProviderDone? || e.Fail? || e.BudgetMidAnswer? || e.Crash?)
    ensures SoundStep(l, e, now, LaneStep(l, e, now))
  {
    hide SoundLane, Raises, Disposed;
    assert Classify(InvalidResponse, false).Some?;
    match e
    case ProviderDone(backoff, cap) =>
      if l.kind.Streamed? && !l.gen.started {
        DisposedSound(l, Classify(InvalidResponse, false), now, backoff, cap);
      } else {
        SettleSound(l, Success(l.kind));
      }
    case Fail(fault, budgetBound, backoff, cap, timeout) =>
      EveryFailureExcludesOrCools(fault, budgetBound && !l.gen.started);
      hide Classify;
      DisposedSound(l, Classify(fault, budgetBound && !l.gen.started), now, backoff, cap);
    case BudgetMidAnswer(_, _) => SettleSound(l, SPENT); FallenSound(l);
    case Crash =>
      SettleSound(l, Settlement(Plain, Some(Error), false, false, None, if l.kind.Streamed? then Returns else Crashes));
    case _ =>
  }

  lemma DisposedSound(l: Lane, v: Option<Verdict>, now: real, backoff: real, cap: Option<real>)
    requires SoundLane(l) && l.gen.Open? && (v.Some? ==> v.value.status != OK && v.value.status != SupersededRow)
    ensures var m := Disposed(l, v, now, backoff, cap);
      && SoundLane(m) && m.name == l.name && m.kind == l.kind && m.sole == l.sole && m.log.handBacks == l.log.handBacks
      && (m.log.cut <==> Raises(v, now, backoff, cap)) && !m.log.unwritten && !l.log.cut && !l.log.unwritten
  {
    hide CanCool, CappedWait;
    FallenSound(l);
    if !Raises(v, now, backoff, cap) {
      SettleSound(l, Disposal(v.value, now, backoff, cap));
    }
  }

  lemma FallenSound(l: Lane)
    requires SoundLane(l) && l.gen.Open?
    ensures SoundLane(Fallen(l.(outcome := l.outcome.(settling := true))))
    ensures SoundLane(Fallen(l.(outcome := l.outcome.(settling := true, verdict := Some(BudgetExpired)))))
  {}

  lemma SettleSound(l: Lane, s: Settlement)
    requires SoundLane(l) && l.gen.Open? && !s.after.Cancels? && s.row.Some? && s.row != Some(SupersededRow)
    requires (s.answers || s.settles ==> s.row == Some(OK)) && (s.back.Answered? <==> s.row == Some(OK))
    requires s.back.Cooled? ==> s.after.Returns?
    ensures SoundLane(Settle(l, s)) && !l.log.cut && !l.log.unwritten
  {}

  // ---------------------------------------------------------------------
  // The whole system: one pool, every lane ever opened
  // ---------------------------------------------------------------------

  datatype System = System(pool: Pool.PoolState, lanes: seq<Lane>, now: real)

  datatype Event =
    | Pass(elapsed: real)
    | AddModel(cfg: LLMConfig, order: Option<int>)
    | DropModel(name: string)
    | SetDisabled(name: string, flag: bool)
    | Grant(kind: Kind, ask: Pool.Ask, width: nat, recoveryWidth: nat, remaining: Option<real>, judge: Pool.Judge)
    | On(lane: nat, step: LaneEvent)

  const INITIAL := System(Pool.EMPTY, [], 0.0)

  predicate Holds(l: Lane, name: string) { l.name == name && l.log.handBacks == 0 }

  /** The leases of `name` nobody has handed back. */
  function Leases(lanes: seq<Lane>, name: string): nat {
    if lanes == [] then 0
    else (if Holds(lanes[|lanes| - 1], name) then 1 else 0) + Leases(lanes[..|lanes| - 1], name)
  }

  /** A new lane on a slot just taken. */
  function Opened(kind: Kind, slot: Pool.Slot, idle: bool): Lane {
    Lane(slot.config.name, kind, if kind.Alone? then Resolving else Unstarted,
         if kind.Alone? then Running else Scheduled, NotAsked, FRESH, History(0, [], false, false),
         slot.recoveryDue, slot.recoveryDue && idle)
  }

  function OpenAll(kind: Kind, best: seq<Pool.Slot>, lanes: seq<Lane>): (r: seq<Lane>)
    ensures |r| == |best|
    ensures forall i :: 0 <= i < |best| ==> r[i] == Opened(kind, best[i], Leases(lanes, best[i].config.name) == 0)
  {
    if best == [] then []
    else [Opened(kind, best[0], Leases(lanes, best[0].config.name) == 0)] + OpenAll(kind, best[1..], lanes)
  }

  function HandBack(p: Pool.PoolState, name: string, back: Back): Pool.PoolState {
    match back
    case Plain => Pool.Release(p, name)
    case Answered => Pool.ClearBudgetBound(Pool.ClearCooling(Pool.Release(p, name), name), name)
    case Cooled(until, _) => Pool.CoolDown(p, name, until)
  }

  function Applied(p: Pool.PoolState, name: string, effect: Effect, now: real): Pool.PoolState {
    match effect
    case Nothing => p
    case Missed(budget) => Pool.RaiseBudgetBound(p, name, budget, now)
    case Returned(back) => HandBack(p, name, back)
  }

  function Apply(s: System, e: Event): System {
    match e
    case Pass(elapsed) => if elapsed >= 0.0 then s.(now := s.now + elapsed) else s
    case AddModel(cfg, order) => s.(pool := Pool.Add(s.pool, cfg, order))
    case DropModel(name) => s.(pool := Pool.Drop(s.pool, name))
    case SetDisabled(name, flag) => s.(pool := Pool.SetDisabled(s.pool, name, flag))
    case Grant(kind, ask, width, recoveryWidth, remaining, judge) =>
      if width == 0 then s
      else
        var d := Pool.Demand(remaining, s.now, judge);
        s.(pool := Pool.Reserve(s.pool, ask, width, recoveryWidth, d).0,
           lanes := s.lanes + OpenAll(kind, Pool.Choice(s.pool, ask, width, recoveryWidth, d), s.lanes))
    case On(i, step) =>
      if i >= |s.lanes| then s
      else
        var (m, effect) := LaneStep(s.lanes[i], step, s.now);
        s.(lanes := s.lanes[i := m], pool := Applied(s.pool, s.lanes[i].name, effect, s.now))
  }

  function Run(s: System, events: seq<Event>): System {
    if events == [] then s else Apply(Run(s, events[..|events| - 1]), events[|events| - 1])
  }

  ghost predicate SoundLanes(lanes: seq<Lane>) {
    forall i :: 0 <= i < |lanes| ==> SoundLane(lanes[i])
  }

  /** A slot counts no more attempts than hold it. */
  ghost predicate CountsNoMore(s: System) {
    forall n :: n in s.pool.slots ==> s.pool.slots[n].inFlight <= Leases(s.lanes, n)
  }

  /** A slot counts exactly the attempts that hold it. */
  ghost predicate CountsExactly(s: System) {
    forall n :: n in s.pool.slots ==> s.pool.slots[n].inFlight == Leases(s.lanes, n)
  }

  ghost predicate Inv(s: System) {
    Pool.Sound(s.pool, s.now) && SoundLanes(s.lanes) && CountsNoMore(s)
  }

  // ---------------------------------------------------------------------
  // Counting leases
  // ---------------------------------------------------------------------

  lemma {:induction false} LeasesUpdate(lanes: seq<Lane>, i: nat, m: Lane, name: string)
    requires i < |lanes|
    ensures Leases(lanes[i := m], name) + (if Holds(lanes[i], name) then 1 else 0)
         == Leases(lanes, name) + (if Holds(m, name) then 1 else 0)
  {
    var last := |lanes| - 1;
    var updated := lanes[i := m];
    if i == last {
      assert updated[..last] == lanes[..last];
    } else {
      assert updated[..last] == lanes[..last][i := m];
      LeasesUpdate(lanes[..last], i, m, name);
    }
  }

  lemma {:induction false} LeasesAppend(lanes: seq<Lane>, added: seq<Lane>, name: string)
    ensures Leases(lanes + added, name) == Leases(lanes, name) + Leases(added, name)
  {
    if added == [] {
      assert lanes + added == lanes;
    } else {
      var all := lanes + added;
      assert all[..|all| - 1] == lanes + added[..|added| - 1];
      LeasesAppend(lanes, added[..|added| - 1], name);
    }
  }

  lemma {:induction false} LeasesSome(lanes: seq<Lane>, name: string)
    ensures Leases(lanes, name) > 0 <==> exists i :: 0 <= i < |lanes| && Holds(lanes[i], name)
  {
    if lanes != [] {
      LeasesSome(lanes[..|lanes| - 1], name);
      if i :| 0 <= i < |lanes| && Holds(lanes[i], name) {
        assert i < |lanes| - 1 ==> lanes[..|lanes| - 1][i] == lanes[i];
      }
    }
  }

  lemma {:induction false} LeasesOfFresh(added: seq<Lane>, name: string)
    requires forall i :: 0 <= i < |added| ==> added[i].log.handBacks == 0
    requires forall i, j :: 0 <= i < j < |added| ==> added[i].name != added[j].name
    ensures Leases(added, name) == if exists i :: 0 <= i < |added| && added[i].name == name then 1 else 0
  {
    if added != [] {
      var rest := added[..|added| - 1];
      LeasesOfFresh(rest, name);
      if i :| 0 <= i < |rest| && rest[i].name == name {
        assert added[i].name == name;
      }
      if added[|added| - 1].name == name {
        assert !exists i :: 0 <= i < |rest| && rest[i].name == name;
      } else if i :| 0 <= i < |added| && added[i].name == name {
        assert rest[i].name == name;
      }
    }
  }

  // ---------------------------------------------------------------------
  // What every event keeps
  // ---------------------------------------------------------------------

  lemma LeasesOfOpened(kind: Kind, best: seq<Pool.Slot>, lanes: seq<Lane>, name: string)
    requires forall i, j :: 0 <= i < j < |best| ==> best[i].config.name != best[j].config.name
    ensures Leases(OpenAll(kind, best, lanes), name) == if name in Pool.NamesOf(best) then 1 else 0
  {
    var added := OpenAll(kind, best, lanes);
    LeasesOfFresh(added, name);
    forall i | 0 <= i < |best| ensures added[i].name in Pool.NamesOf(best) {
      assert best[i] in best;
    }
    if name in Pool.NamesOf(best) {
      var x :| x in best && x.config.name == name;
      var i :| 0 <= i < |best| && best[i] == x;
      assert added[i].name == name;
    }
  }

  /** Marking slots in flight and opening a lane on each moves both counts together. */
  lemma OpeningCounts(p: Pool.PoolState, best: seq<Pool.Slot>, kind: Kind, lanes: seq<Lane>, name: string)
    requires forall i, j :: 0 <= i < j < |best| ==> best[i].config.name != best[j].config.name
    requires name in p.slots
    ensures Pool.Marked(p, Pool.NamesOf(best)).slots[name].inFlight - p.slots[name].inFlight
         == Leases(lanes + OpenAll(kind, best, lanes), name) - Leases(lanes, name)
  {
    LeasesAppend(lanes, OpenAll(kind, best, lanes), name);
    LeasesOfOpened(kind, best, lanes, name);
  }

  lemma GrantCounts(s: System, e: Event)
    requires Inv(s) && e.Grant? && e.width > 0
    ensures var t := Apply(s, e);
      && t.pool.slots.Keys == s.pool.slots.Keys
      && forall n :: n in s.pool.slots ==>
           t.pool.slots[n].inFlight - s.pool.slots[n].inFlight == Leases(t.lanes, n) - Leases(s.lanes, n)
  {
    var d := Pool.Demand(e.remaining, s.now, e.judge);
    var best := Pool.Choice(s.pool, e.ask, e.width, e.recoveryWidth, d);
    assert forall i, j :: 0 <= i < j < |best| ==> best[i].config.name != best[j].config.name by {
      Pool.ReservationGrants(s.pool, e.ask, e.width, e.recoveryWidth, d);
    }
    var t := Apply(s, e);
    assert t.pool == Pool.Marked(s.pool, Pool.NamesOf(best)) && t.lanes == s.lanes + OpenAll(e.kind, best, s.lanes);
    forall n | n in s.pool.slots
      ensures t.pool.slots[n].inFlight - s.pool.slots[n].inFlight == Leases(t.lanes, n) - Leases(s.lanes, n)
    {
      OpeningCounts(s.pool, best, e.kind, s.lanes, n);
    }
  }

  lemma AppliedCounts(p: Pool.PoolState, name: string, effect: Effect, now: real, other: string)
    requires other in p.slots
    ensures var q := Applied(p, name, effect, now);
      && other in q.slots
      && q.slots[other].inFlight == if effect.Returned? && other == name then Pool.OneFewer(p.slots[other].inFlight)
                                    else p.slots[other].inFlight
  {}

  lemma MoveCounts(p: Pool.PoolState, lanes: seq<Lane>, i: nat, m: Lane, effect: Effect, now: real, name: string)
    requires i < |lanes| && name in p.slots && m.name == lanes[i].name && m.log.handBacks <= 1
    requires m.log.handBacks == lanes[i].log.handBacks + (if effect.Returned? then 1 else 0)
    ensures var (q, after) := (Applied(p, lanes[i].name, effect, now), lanes[i := m]);
      && name in q.slots
      && Leases(after, name) <= Leases(lanes, name)
      && q.slots[name].inFlight == MaxInt(0, p.slots[name].inFlight - (Leases(lanes, name) - Leases(after, name)))
  {
    hide Applied, Leases;
    LeasesUpdate(lanes, i, m, name);
    AppliedCounts(p, lanes[i].name, effect, now, name);
  }

  lemma LaneCounts(s: System, i: nat, step: LaneEvent, name: string)
    requires Inv(s) && i < |s.lanes| && name in s.pool.slots
    ensures var t := Apply(s, On(i, step));
      && name in t.pool.slots
      && Leases(t.lanes, name) <= Leases(s.lanes, name)
      && t.pool.slots[name].inFlight
           == MaxInt(0, s.pool.slots[name].inFlight - (Leases(s.lanes, name) - Leases(t.lanes, name)))
  {
    hide LaneStep, SoundOver, SoundSettlement, SettlingTask, Applied, Leases, Pool.Sound;
    var (m, effect) := LaneStep(s.lanes[i], step, s.now);
    LaneStepSound(s.lanes[i], step, s.now);
    MoveCounts(s.pool, s.lanes, i, m, effect, s.now, name);
  }

  lemma ApplyKeepsPool(s: System, e: Event)
    requires Inv(s)
    ensures Pool.Sound(Apply(s, e).pool, Apply(s, e).now)
  {
    match e
    case Pass(_) =>
    case AddModel(cfg, order) => Pool.AddSound(s.pool, s.now, cfg, order);
    case DropModel(name) => Pool.DropSound(s.pool, s.now, name);
    case SetDisabled(name, flag) => Pool.SetDisabledSound(s.pool, s.now, name, flag);
    case Grant(kind, ask, width, recoveryWidth, remaining, judge) =>
      if width > 0 {
        Pool.ReserveSound(s.pool, ask, width, recoveryWidth, Pool.Demand(remaining, s.now, judge));
      }
    case On(i, step) =>
      if i < |s.lanes| {
        AppliedSound(s.pool, s.lanes[i].name, LaneStep(s.lanes[i], step, s.now).1, s.now);
      }
  }

  lemma AppliedSound(p: Pool.PoolState, name: string, effect: Effect, now: real)
    requires Pool.Sound(p, now)
    ensures Pool.Sound(Applied(p, name, effect, now), now)
  {
    match effect
    case Nothing =>
    case Missed(budget) =>
    case Returned(back) =>
      Pool.ReleaseSound(p, now, name);
      Pool.ClearCoolingSound(Pool.Release(p, name), now, name);
      if back.Cooled? {
        Pool.CoolDownSound(p, now, name, back.until);
      }
  }

  lemma ApplyKeepsLanes(s: System, e: Event)
    requires Inv(s)
    ensures SoundLanes(Apply(s, e).lanes)
  {
    match e
    case Grant(kind, ask, width, recoveryWidth, remaining, judge) =>
      if width > 0 {
        var best := Pool.Choice(s.pool, ask, width, recoveryWidth, Pool.Demand(remaining, s.now, judge));
        var added := OpenAll(kind, best, s.lanes);
        forall i | 0 <= i < |added| ensures SoundLane(added[i]) {}
      }
    case On(i, step) =>
      if i < |s.lanes| {
        LaneStepSound(s.lanes[i], step, s.now);
      }
    case _ =>
  }

  lemma ApplyKeepsCounts(s: System, e: Event)
    requires Inv(s)
    ensures CountsNoMore(Apply(s, e))
  {
    var t := Apply(s, e);
    if e.Grant? && e.width > 0 {
      GrantCounts(s, e);
    } else if e.On? && e.lane < |s.lanes| {
      AppliedNames(s.pool, s.lanes[e.lane].name, LaneStep(s.lanes[e.lane], e.step, s.now).1, s.now);
      forall n | n in t.pool.slots ensures t.pool.slots[n].inFlight <= Leases(t.lanes, n) {
        LaneCounts(s, e.lane, e.step, n);
      }
    }
  }

  lemma AppliedNames(p: Pool.PoolState, name: string, effect: Effect, now: real)
    ensures Applied(p, name, effect, now).slots.Keys == p.slots.Keys
  {}

  lemma ApplyKeeps(s: System, e: Event)
    requires Inv(s)
    ensures Inv(Apply(s, e))
  {
    ApplyKeepsPool(s, e);
    ApplyKeepsLanes(s, e);
    ApplyKeepsCounts(s, e);
  }

  lemma {:induction false} RunKeeps(s: System, events: seq<Event>)
    requires Inv(s)
    ensures Inv(Run(s, events))
    decreases |events|
  {
    if events != [] {
      RunKeeps(s, events[..|events| - 1]);
      ApplyKeeps(Run(s, events[..|events| - 1]), events[|events| - 1]);
    }
  }
}
