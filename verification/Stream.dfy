/** One routed stream as a state machine: its owner's program counter, the lanes racing
    underneath it, and the reader pulling from it, one event per await-free stretch and in
    any order. Disabled events change nothing. The budget's own arithmetic is in `Budget`;
    what a lane does to the pool is in `Attempts`. */
module Stream {
  import opened Common
  import opened Verdicts
  import opened Race

  /** What one call asked for. */
  datatype Setup = Setup(explicit: bool, width: nat, recoveryWidth: nat, window: real, answerDeadline: Option<real>)

  /** Where the owner goes once a top-up has been settled. */
  datatype Back = ToTop | ToSelect | ToHand(delta: string) | ToVisible | ToNext

  datatype Pc =
    | Top
    | Select
    | Pick
    | Visible
    | Hand(delta: string)
    | Flush(winner: nat)
    | Acquire(initial: bool)
    | Refill(needed: int, back: Back)
    | Idle
    | Next
    | AfterRefill
    | Delivering(lane: nat)
    | Raised

  datatype Ending = NotYet | Whole(winner: nat) | Replaced(winner: nat)

  /** The candidate set and the wave the lanes are opened in. */
  datatype Opening = Opening(wave: nat, waveWidth: nat, eligible: set<string>, attempted: set<string>, refreshUsed: bool)

  /** What the caller has been given. */
  datatype Told = Told(output: seq<string>, ending: Ending, delivered: set<nat>, answers: seq<nat>, terminal: bool)

  datatype Clock = Clock(now: real, selectBy: real)

  datatype Facts = Facts(expired: bool, clientError: bool)

  datatype Stream = Stream(
    setup: Setup,
    lanes: seq<StreamLane>,
    exposed: Option<nat>,
    pc: Pc,
    opening: Opening,
    told: Told,
    clock: Clock,
    facts: Facts)

  datatype Event =
    | Elapse(elapsed: real)
    | Speak(lane: nat, text: string)
    | Complete(lane: nat)
    | Written(lane: nat)
    | Break(lane: nat, verdict: Option<Fate>, raised: bool, crashed: bool)
    | Turn(late: bool)
    | Granted(names: seq<string>)
    | ToppedUp(names: seq<string>)
    | Exhausted(refresh: Option<set<string>>)
    | Another

  function Start(setup: Setup, eligible: set<string>, now: real): Stream {
    Stream(setup, [], None, Top, Opening(0, setup.width, eligible, {}, false),
           Told([], NotYet, {}, [], false), Clock(now, 0.0), Facts(false, false))
  }

  // ---------------------------------------------------------------------
  // Reading the lanes
  // ---------------------------------------------------------------------

  predicate AnyLive(lanes: seq<StreamLane>) { exists i :: 0 <= i < |lanes| && !Finished(lanes[i]) }

  /** Folding finished lanes' verdicts into the call: once is as good as often. */
  function Absorb(s: Stream): Stream {
    s.(facts := Facts(s.facts.expired || SomeExpired(s.lanes), s.facts.clientError || SomeFaulted(s.lanes)))
  }

  predicate SomeExpired(lanes: seq<StreamLane>) {
    exists i :: 0 <= i < |lanes| && lanes[i].stage.Broken? && lanes[i].stage.verdict == Some(BudgetExpired)
  }

  predicate SomeFaulted(lanes: seq<StreamLane>) {
    exists i :: 0 <= i < |lanes| && lanes[i].stage.Broken? && ClientFault(lanes[i].stage.verdict)
  }

  predicate ClientFault(v: Option<Fate>) { v.Some? && v.value.Failed? && v.value.error.Some? }

  predicate Crashed(lanes: seq<StreamLane>) {
    exists i :: 0 <= i < |lanes| && lanes[i].stage.Broken? && lanes[i].stage.crashed
  }

  /** Lanes of the wave already handed to the caller. */
  function DeliveredIn(lanes: seq<StreamLane>, wave: nat, delivered: set<nat>): nat {
    if lanes == [] then 0
    else
      var last := |lanes| - 1;
      DeliveredIn(lanes[..last], wave, delivered) + if lanes[last].wave == wave && last in delivered then 1 else 0
  }

  /** Lanes of the wave still live, or completed and not handed over yet. */
  function PendingIn(lanes: seq<StreamLane>, wave: nat, delivered: set<nat>): nat {
    if lanes == [] then 0
    else
      var last := |lanes| - 1;
      PendingIn(lanes[..last], wave, delivered)
      + if lanes[last].wave == wave && (!Finished(lanes[last]) || HasAnswer(lanes[last])) && last !in delivered then 1 else 0
  }

  function Needed(s: Stream): int {
    var delivered := DeliveredIn(s.lanes, s.opening.wave, s.told.delivered);
    var pending := PendingIn(s.lanes, s.opening.wave, s.told.delivered);
    MaxInt(s.opening.waveWidth - delivered, 0) - pending
  }

  function After(back: Back): Pc {
    match back
    case ToTop => Top
    case ToSelect => Select
    case ToHand(delta) => Hand(delta)
    case ToVisible => Visible
    case ToNext => AfterRefill
  }

  /** `_refill_free` up to its await, and past it where there is nothing to ask for. */
  function StartRefill(s: Stream, back: Back): Stream {
    if s.facts.expired || Buffered(s.lanes, s.told.delivered).Some? || Needed(s) <= 0 then s.(pc := After(back))
    else s.(pc := Refill(Needed(s), back))
  }

  // ---------------------------------------------------------------------
  // Opening lanes
  // ---------------------------------------------------------------------

  function NewLanes(names: seq<string>, wave: nat): (r: seq<StreamLane>)
    ensures |r| == |names|
    ensures forall i :: 0 <= i < |names| ==> r[i] == StreamLane(names[i], wave, [], 0, None, Running)
  {
    if names == [] then [] else [StreamLane(names[0], wave, [], 0, None, Running)] + NewLanes(names[1..], wave)
  }

  function SetOf(names: seq<string>): set<string> { set n | n in names }

  /** What the pool can hand this stream: distinct models, eligible and never tried by it. */
  predicate Grantable(s: Stream, names: seq<string>) {
    && (forall i, j :: 0 <= i < j < |names| ==> names[i] != names[j])
    && (forall n :: n in names ==> n in s.opening.eligible && n !in s.opening.attempted)
  }

  function OpenLanes(s: Stream, names: seq<string>): Stream {
    s.(lanes := s.lanes + NewLanes(names, s.opening.wave),
       opening := s.opening.(attempted := s.opening.attempted + SetOf(names)))
  }

  function NewWave(s: Stream, count: nat): Stream {
    s.(opening := s.opening.(wave := s.opening.wave + 1, waveWidth := MaxInt(s.setup.width, count)))
  }

  // ---------------------------------------------------------------------
  // The owner's stretches
  // ---------------------------------------------------------------------

  /** Hand over one delta of a lane. */
  function Yield(s: Stream, i: nat, pc: Pc): Stream
    requires i < |s.lanes| && s.lanes[i].sent < |s.lanes[i].deltas|
  {
    var l := s.lanes[i];
    s.(lanes := s.lanes[i := l.(sent := l.sent + 1)],
       told := s.told.(output := s.told.output + [l.deltas[l.sent]]), pc := pc)
  }

  /** `_complete_initial`. */
  function CompleteInitial(s: Stream, winner: nat, ending: Ending): Stream {
    s.(told := s.told.(ending := ending, delivered := s.told.delivered + {winner}), pc := Idle)
  }

  function RaiseOrAcquire(s: Stream): Stream {
    s.(pc := if s.facts.expired then Raised else Acquire(true))
  }

  /** The raced stream's loop: a finished winner ends it, an empty field is refilled with a
      new wave, and otherwise somebody is shown and one delta of theirs goes out. */
  function ExplicitTurn(s0: Stream): Stream {
    var s := Absorb(s0);
    var w := Winner(s.lanes, s.exposed);
    if w.Some? && w.value < |s.lanes| && Finished(s.lanes[w.value]) then WinnerFinished(s, w.value)
    else if !AnyLive(s.lanes) then RaiseOrAcquire(s)
    else ShowOne(s)
  }

  function WinnerFinished(s: Stream, w: nat): Stream {
    if s.exposed.None? || s.exposed.value == w then s.(exposed := Some(w), pc := Flush(w))
    else CompleteInitial(s, w, Replaced(w))
  }

  function Shown(s: Stream): Option<nat> {
    if s.exposed.None? && s.lanes != [] then Race.Select(s.lanes, s.clock.selectBy, s.clock.now) else s.exposed
  }

  function ShowOne(s: Stream): Stream { ReadOn(s.(exposed := Shown(s))) }

  predicate Unread(s: Stream) {
    s.exposed.Some? && s.exposed.value < |s.lanes| && s.lanes[s.exposed.value].sent < |s.lanes[s.exposed.value].deltas|
  }

  function ReadOn(s: Stream): Stream {
    if Unread(s) then Yield(s, s.exposed.value, Top) else StartRefill(s, ToTop)
  }

  /** What is left of the winner's answer, one delta a pull. */
  function FlushTurn(s: Stream, w: nat): Stream {
    if w < |s.lanes| && s.lanes[w].sent < |s.lanes[w].deltas| then Yield(s, w, Flush(w))
    else CompleteInitial(s, w, Whole(w))
  }

  function OrdinaryTurn(s0: Stream): Stream {
    var s := Absorb(s0);
    if s.lanes != [] then StartRefill(s, ToSelect) else s.(pc := Select)
  }

  function SelectTurn(s: Stream): Stream {
    if !AnyLive(s.lanes) then RaiseOrAcquire(s) else s.(pc := Pick)
  }

  /** The first delta of any lane decides, once and for good, who is read. */
  function PickTurn(s: Stream): Stream {
    var f := FirstDelta(s.lanes);
    if f.None? then s.(pc := Top) else s.(exposed := f, pc := Visible)
  }

  function VisibleTurn(s: Stream): Stream {
    if s.exposed.None? || s.exposed.value >= |s.lanes| then s
    else
      var e := s.exposed.value;
      var l := s.lanes[e];
      if l.sent < |l.deltas| then
        StartRefill(s.(lanes := s.lanes[e := l.(sent := l.sent + 1)]), ToHand(l.deltas[l.sent]))
      else if !Finished(l) then StartRefill(s, ToVisible)
      else if l.stage.Broken? then s.(pc := Raised)
      else CompleteInitial(s, e, Whole(e))
  }

  function HandTurn(s: Stream, delta: string): Stream {
    s.(told := s.told.(output := s.told.output + [delta]), pc := Visible)
  }

  /** `another()`: the earliest completed answer nobody has, or wider, or nothing more. */
  function NextTurn(s: Stream): Stream { Pursue(Absorb(s)) }

  function Pursue(s: Stream): Stream {
    var b := Buffered(s.lanes, s.told.delivered);
    if b.None? then StartRefill(s, ToNext)
    else if b.value < |s.lanes| && Finished(s.lanes[b.value]) then Deliver(s, b.value)
    else s.(pc := Delivering(b.value))
  }

  function Deliver(s: Stream, i: nat): Stream {
    s.(told := s.told.(delivered := s.told.delivered + {i}, answers := s.told.answers + [i]), pc := Idle)
  }

  function AfterRefillTurn(s: Stream, late: bool): Stream {
    if Buffered(s.lanes, s.told.delivered).Some? || AnyLive(s.lanes) then s.(pc := Next)
    else if s.facts.expired || late then GiveUp(s)
    else s.(pc := Acquire(false))
  }

  /** No further answer: the caller's own fault first, then a bug, and otherwise `None`. */
  function GiveUp(s: Stream): Stream {
    if s.facts.clientError || Crashed(s.lanes) then s.(pc := Raised)
    else s.(told := s.told.(terminal := true), pc := Idle)
  }

  function DeliveringTurn(s: Stream, i: nat): Stream {
    if i < |s.lanes| && Finished(s.lanes[i]) then Deliver(s, i) else s
  }

  function OwnerTurn(s: Stream, late: bool): Stream {
    match s.pc
    case Top => if s.setup.explicit then ExplicitTurn(s) else OrdinaryTurn(s)
    case Select => SelectTurn(s)
    case Pick => PickTurn(s)
    case Visible => VisibleTurn(s)
    case Hand(delta) => HandTurn(s, delta)
    case Flush(w) => FlushTurn(s, w)
    case Next => NextTurn(s)
    case AfterRefill => AfterRefillTurn(s, late)
    case Delivering(i) => DeliveringTurn(s, i)
    case _ => s
  }

  function GrantTurn(s: Stream, names: seq<string>): Stream {
    if !s.pc.Acquire? || names == [] || !Grantable(s, names) || |names| > MaxInt(s.setup.width, s.setup.recoveryWidth) then s
    else
      var t := OpenLanes(NewWave(s, |names|), names);
      if !s.pc.initial then t.(pc := Next)
      else if !s.setup.explicit then t.(pc := Pick)
      else
        var shut := s.clock.now + s.setup.window;
        var cut := if s.setup.answerDeadline.Some? then Min(shut, s.setup.answerDeadline.value) else shut;
        t.(pc := Top, clock := s.clock.(selectBy := cut))
  }

  /** What a top-up may open: nothing more once an answer is waiting. */
  predicate TopsUp(s: Stream, names: seq<string>) {
    && s.pc.Refill? && Grantable(s, names) && |names| <= s.pc.needed
    && (names != [] ==> Buffered(s.lanes, s.told.delivered).None?)
  }

  function TopUpTurn(s: Stream, names: seq<string>): Stream {
    if TopsUp(s, names) then OpenLanes(s.(pc := After(s.pc.back)), names) else s
  }

  function ExhaustedTurn(s: Stream, refresh: Option<set<string>>): Stream {
    if !s.pc.Acquire? then s
    else if !s.pc.initial then GiveUp(s)
    else if refresh.Some? && !s.opening.refreshUsed then
      s.(opening := s.opening.(eligible := s.opening.eligible + refresh.value, refreshUsed := true))
    else s.(pc := Raised)
  }

  // ---------------------------------------------------------------------
  // The lanes' stretches
  // ---------------------------------------------------------------------

  function LaneTurn(l: StreamLane, e: Event, now: real): StreamLane {
    match e
    case Speak(_, text) =>
      if l.stage.Running? then
        l.(deltas := l.deltas + [text], firstAt := if l.firstAt.None? then Some(now) else l.firstAt)
      else l
    case Complete(_) => if l.stage.Running? && l.deltas != [] then l.(stage := Completed(now)) else l
    case Written(_) => if l.stage.Completed? then l.(stage := Answered(l.stage.at)) else l
    case Break(_, verdict, raised, crashed) =>
      if l.stage.Running? then l.(stage := Broken(verdict, raised, crashed)) else l
    case _ => l
  }

  function LaneEvent(s: Stream, i: nat, e: Event): Stream {
    if i < |s.lanes| then s.(lanes := s.lanes[i := LaneTurn(s.lanes[i], e, s.clock.now)]) else s
  }

  function Wait(s: Stream, elapsed: real): Stream {
    if elapsed >= 0.0 then s.(clock := s.clock.(now := s.clock.now + elapsed)) else s
  }

  function AskAnother(s: Stream): Stream { if s.pc.Idle? && !s.told.terminal then s.(pc := Next) else s }

  function Apply(s: Stream, e: Event): Stream {
    match e
    case Elapse(t) => Wait(s, t)
    case Speak(i, _) => LaneEvent(s, i, e)
    case Complete(i) => LaneEvent(s, i, e)
    case Written(i) => LaneEvent(s, i, e)
    case Break(i, _, _, _) => LaneEvent(s, i, e)
    case Turn(late) => OwnerTurn(s, late)
    case Granted(names) => GrantTurn(s, names)
    case ToppedUp(names) => TopUpTurn(s, names)
    case Exhausted(refresh) => ExhaustedTurn(s, refresh)
    case Another => AskAnother(s)
  }

  function Run(s: Stream, events: seq<Event>): Stream {
    if events == [] then s else Apply(Run(s, events[..|events| - 1]), events[|events| - 1])
  }
}
