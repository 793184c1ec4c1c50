/** The queue before the pool: callers asleep on its condition, what wakes them, and why a
    wake-up is never lost.

    A caller that finds nothing free sleeps until it is notified or its timer fires, and runs
    another turn then. Adding, dropping and enabling a model and every hand-back notify all
    sleepers; disabling, reserving, clearing a cooldown and the budget bounds do not. What a
    caller asks for is fixed when it arrives. One clock stands for both of the source's: they
    run at one rate. */
module Queue {
  import opened Common
  import opened Models
  import opened Attempts
  import opened AttemptRuns
  import Pool

  /** Where a caller stands; `fire` is the instant its timer wakes it, if it set one. */
  datatype Where = Runnable | Asleep(fire: Option<real>) | Left(last: Option<Pool.Turn>)

  datatype Caller = Caller(
    ask: Pool.Ask,
    width: nat,
    recoveryWidth: nat,
    queueDeadline: Option<real>,
    answerDeadline: Option<real>,
    at: Where)

  datatype Hall = Hall(sys: System, callers: seq<Caller>)

  datatype Move =
    | Elsewhere(e: Event)
    | Arrive(ask: Pool.Ask, width: nat, recoveryWidth: nat, queueDeadline: Option<real>, answerDeadline: Option<real>)
    | Turn(caller: nat, kind: Kind, judge: Pool.Judge)
    | GiveUp(caller: nat)

  const EMPTY_HALL := Hall(INITIAL, [])

  /** The operations that end in `notify_all`. */
  predicate Notifies(s: System, e: Event) {
    match e
    case AddModel(_, _) => true
    case DropModel(_) => true
    case SetDisabled(_, flag) => !flag
    case On(i, step) => i < |s.lanes| && LaneStep(s.lanes[i], step, s.now).1.Returned?
    case _ => false
  }

  function WakeAll(callers: seq<Caller>): (r: seq<Caller>)
    ensures |r| == |callers|
    ensures forall i :: 0 <= i < |callers| ==> r[i] == if callers[i].at.Asleep? then callers[i].(at := Runnable) else callers[i]
  {
    if callers == [] then []
    else [if callers[0].at.Asleep? then callers[0].(at := Runnable) else callers[0]] + WakeAll(callers[1..])
  }

  function DemandOf(c: Caller, now: real, judge: Pool.Judge): Pool.Demand {
    Pool.Demand(RemainingOf(c, now), now, judge)
  }

  function RemainingOf(c: Caller, now: real): Option<real> {
    if c.answerDeadline.Some? then Some(c.answerDeadline.value - now) else None
  }

  function TurnOf(c: Caller, p: Pool.PoolState, now: real, judge: Pool.Judge): Pool.Turn {
    Pool.AcquireTurn(p, c.ask, c.width, c.recoveryWidth, DemandOf(c, now, judge), c.queueDeadline, now).1
  }

  function AfterTurn(c: Caller, turn: Pool.Turn, now: real): Caller {
    if turn.Sleep? then c.(at := Asleep(if turn.timeout.Some? then Some(now + turn.timeout.value) else None))
    else c.(at := Left(Some(turn)))
  }

  /** A notified caller runs when it gets the lock, a sleeping one once its timer fires. */
  predicate MayRun(c: Caller, now: real) {
    c.at.Runnable? || (c.at.Asleep? && c.at.fire.Some? && c.at.fire.value <= now)
  }

  function Moved(h: Hall, m: Move): Hall {
    match m
    case Elsewhere(e) => Hall(Apply(h.sys, e), if Notifies(h.sys, e) then WakeAll(h.callers) else h.callers)
    case Arrive(ask, width, recoveryWidth, queueDeadline, answerDeadline) =>
      if width == 0 then h
      else h.(callers := h.callers + [Caller(ask, width, recoveryWidth, queueDeadline, answerDeadline, Runnable)])
    case Turn(i, kind, judge) =>
      if i >= |h.callers| || !MayRun(h.callers[i], h.sys.now) then h
      else
        var c := h.callers[i];
        var turn := TurnOf(c, h.sys.pool, h.sys.now, judge);
        Hall(if turn.Served?
             then Apply(h.sys, Grant(kind, c.ask, c.width, c.recoveryWidth, RemainingOf(c, h.sys.now), judge))
             else h.sys,
             h.callers[i := AfterTurn(c, turn, h.sys.now)])
    case GiveUp(i) =>
      if i >= |h.callers| || h.callers[i].at.Left? then h else h.(callers := h.callers[i := h.callers[i].(at := Left(None))])
  }

  function Day(moves: seq<Move>): Hall {
    if moves == [] then EMPTY_HALL else Moved(Day(moves[..|moves| - 1]), moves[|moves| - 1])
  }

  // ---------------------------------------------------------------------
  // What a sleeper may rely on
  // ---------------------------------------------------------------------

  /** The caller would take it, were it enabled. */
  predicate Wanted(x: Pool.Slot, ask: Pool.Ask) { Pool.Admits(x.(disabled := false), ask) }

  /** Not free before the timer fires, whatever the clock does meanwhile. */
  predicate Withheld(x: Pool.Slot, fire: Option<real>) {
    x.recoveryClaimed || !Pool.UnderCap(x) || (fire.Some? && x.cooldownUntil.Some? && fire.value <= x.cooldownUntil.value)
  }

  ghost predicate SleeperOk(p: Pool.PoolState, c: Caller)
    requires c.at.Asleep?
  {
    && (forall n :: n in p.slots && Pool.Admits(p.slots[n], c.ask) ==> Withheld(p.slots[n], c.at.fire))
    && (exists n :: n in p.slots && Wanted(p.slots[n], c.ask) && Withheld(p.slots[n], c.at.fire))
    && (c.queueDeadline.Some? ==> c.at.fire.Some? && c.at.fire.value <= c.queueDeadline.value)
  }

  ghost predicate HallOk(h: Hall) {
    && Inv(h.sys)
    && (forall i :: 0 <= i < |h.callers| ==> h.callers[i].width >= 1)
    && (forall i :: 0 <= i < |h.callers| && h.callers[i].at.Asleep? ==> SleeperOk(h.sys.pool, h.callers[i]))
  }

  /** A step that notifies nobody takes no sleeper's ground away: no slot comes or goes or is
      enabled, and one that was withheld still is. */
  ghost predicate Quiet(p: Pool.PoolState, q: Pool.PoolState) {
    && q.slots.Keys == p.slots.Keys
    && forall n :: n in p.slots ==>
         && q.slots[n].config == p.slots[n].config
         && (p.slots[n].disabled ==> q.slots[n].disabled)
         && (forall fire :: Withheld(p.slots[n], fire) ==> Withheld(q.slots[n], fire))
  }

  lemma GrantIsQuiet(s: System, e: Event)
    requires Inv(s) && e.Grant? && e.width > 0
    ensures Quiet(s.pool, Apply(s, e).pool)
  {
    var d := Pool.Demand(e.remaining, s.now, e.judge);
    var best := Pool.Choice(s.pool, e.ask, e.width, e.recoveryWidth, d);
    Pool.ReservationGrants(s.pool, e.ask, e.width, e.recoveryWidth, d);
    var q := Apply(s, e).pool;
    assert q == Pool.Marked(s.pool, Pool.NamesOf(best));
    forall n, fire | n in s.pool.slots && Withheld(s.pool.slots[n], fire) ensures Withheld(q.slots[n], fire) {
      if n in Pool.NamesOf(best) {
        var x :| x in best && x.config.name == n;
        assert Pool.Takable(s.pool, e.ask, s.now, x);
      }
    }
  }

  lemma LaneIsQuiet(s: System, i: nat, step: LaneEvent)
    requires !Notifies(s, On(i, step))
    ensures Quiet(s.pool, Apply(s, On(i, step)).pool)
  {
    hide LaneStep;
  }

  lemma QuietStep(s: System, e: Event)
    requires Inv(s) && !Notifies(s, e)
    ensures Quiet(s.pool, Apply(s, e).pool)
  {
    hide Inv;
    match e
    case Grant(_, _, width, _, _, _) => if width > 0 { GrantIsQuiet(s, e); }
    case On(i, step) => LaneIsQuiet(s, i, step);
    case _ =>
  }

  lemma QuietKeeps(p: Pool.PoolState, q: Pool.PoolState, c: Caller)
    requires Quiet(p, q) && c.at.Asleep? && SleeperOk(p, c)
    ensures SleeperOk(q, c)
  {
    forall n | n in q.slots && Pool.Admits(q.slots[n], c.ask) ensures Withheld(q.slots[n], c.at.fire) {
      assert Pool.Admits(p.slots[n], c.ask);
    }
    var n :| n in p.slots && Wanted(p.slots[n], c.ask) && Withheld(p.slots[n], c.at.fire);
    assert Wanted(q.slots[n], c.ask) && Withheld(q.slots[n], c.at.fire);
  }

  /** A caller that goes to sleep has every candidate withheld until its timer fires. */
  lemma FallsAsleep(p: Pool.PoolState, c: Caller, now: real, judge: Pool.Judge)
    requires Pool.WellFormed(p) && c.width >= 1 && TurnOf(c, p, now, judge).Sleep?
    ensures SleeperOk(p, AfterTurn(c, TurnOf(c, p, now, judge), now))
  {
    var candidates := Pool.Candidates(p, c.ask);
    var fire := AfterTurn(c, TurnOf(c, p, now, judge), now).at.fire;
    Pool.CandidatesAre(p, c.ask);
    Pool.ReservationGrants(p, c.ask, c.width, c.recoveryWidth, DemandOf(c, now, judge));
    forall n | n in p.slots && Pool.Admits(p.slots[n], c.ask) ensures Withheld(p.slots[n], fire) {
      var x := p.slots[n];
      assert x in candidates && !Pool.IsFree(x, now);
      if !x.recoveryClaimed && Pool.UnderCap(x) {
        Pool.EarliestWakeupBounds(candidates, now, x);
      }
    }
    var first := candidates[0];
    assert first in candidates;
    assert Wanted(p.slots[first.config.name], c.ask) && Withheld(p.slots[first.config.name], fire);
  }

  lemma ElsewhereKeeps(h: Hall, e: Event)
    requires HallOk(h)
    ensures HallOk(Moved(h, Elsewhere(e)))
  {
    hide Apply, Inv, Quiet;
    var g := Moved(h, Elsewhere(e));
    assert Inv(g.sys) by { ApplyKeeps(h.sys, e); }
    if !Notifies(h.sys, e) {
      QuietStep(h.sys, e);
      forall i | 0 <= i < |g.callers| && g.callers[i].at.Asleep? ensures SleeperOk(g.sys.pool, g.callers[i]) {
        QuietKeeps(h.sys.pool, g.sys.pool, h.callers[i]);
      }
    }
  }

  lemma TurnKeeps(h: Hall, i: nat, kind: Kind, judge: Pool.Judge)
    requires HallOk(h)
    ensures HallOk(Moved(h, Turn(i, kind, judge)))
  {
    hide Apply, Inv, Quiet, TurnOf;
    if i < |h.callers| && MayRun(h.callers[i], h.sys.now) {
      var c := h.callers[i];
      var turn := TurnOf(c, h.sys.pool, h.sys.now, judge);
      var grant := Grant(kind, c.ask, c.width, c.recoveryWidth, RemainingOf(c, h.sys.now), judge);
      var g := Moved(h, Turn(i, kind, judge));
      ApplyKeeps(h.sys, grant);
      QuietStep(h.sys, grant);
      assert Quiet(h.sys.pool, h.sys.pool) by { QuietSelf(h.sys.pool); }
      forall k | 0 <= k < |g.callers| && g.callers[k].at.Asleep? ensures SleeperOk(g.sys.pool, g.callers[k]) {
        if k == i {
          SoundPool(h.sys);
          FallsAsleep(h.sys.pool, c, h.sys.now, judge);
        } else {
          QuietKeeps(h.sys.pool, g.sys.pool, h.callers[k]);
        }
      }
    }
  }

  lemma QuietSelf(p: Pool.PoolState)
    ensures Quiet(p, p)
  {}

  lemma SoundPool(s: System)
    requires Inv(s)
    ensures Pool.Sound(s.pool, s.now)
  {}

  lemma MoveKeeps(h: Hall, m: Move)
    requires HallOk(h)
    ensures HallOk(Moved(h, m))
  {
    match m
    case Elsewhere(e) => ElsewhereKeeps(h, e);
    case Turn(i, kind, judge) => TurnKeeps(h, i, kind, judge);
    case Arrive(_, _, _, _, _) => hide Inv, SleeperOk;
    case GiveUp(_) => hide Inv, SleeperOk;
  }

  lemma {:induction false} DayKeeps(moves: seq<Move>)
    ensures HallOk(Day(moves))
  {
    hide HallOk, Moved;
    if moves != [] {
      DayKeeps(moves[..|moves| - 1]);
      MoveKeeps(Day(moves[..|moves| - 1]), moves[|moves| - 1]);
    } else {
      EmptyHall();
    }
  }

  lemma EmptyHall()
    ensures HallOk(EMPTY_HALL)
  {
    RunSound([]);
  }

  // ---------------------------------------------------------------------
  // Main results
  // ---------------------------------------------------------------------

  /** No wake-up is lost: over every run, a caller still asleep before its timer has no free
      candidate, and it never sleeps past its own deadline. */
  lemma NoLostWakeup(moves: seq<Move>, i: nat, name: string)
    requires var h := Day(moves);
      && i < |h.callers| && h.callers[i].at.Asleep?
      && (h.callers[i].at.fire.Some? ==> h.sys.now < h.callers[i].at.fire.value)
    ensures var (h, c) := (Day(moves), Day(moves).callers[i]);
      && (name in h.sys.pool.slots && Pool.Admits(h.sys.pool.slots[name], c.ask) ==>
            !Pool.IsFree(h.sys.pool.slots[name], h.sys.now))
      && (c.queueDeadline.Some? ==> c.at.fire.Some? && c.at.fire.value <= c.queueDeadline.value)
  {
    DayKeeps(moves);
    assert SleeperOk(Day(moves).sys.pool, Day(moves).callers[i]);
  }

  /** So whoever has a free candidate is about to run, and its turn takes one. */
  lemma RunnableIsServed(moves: seq<Move>, i: nat, kind: Kind, judge: Pool.Judge, name: string)
    requires var h := Day(moves);
      && i < |h.callers| && !h.callers[i].at.Left?
      && name in h.sys.pool.slots && Pool.Takable(h.sys.pool, h.callers[i].ask, h.sys.now, h.sys.pool.slots[name])
    ensures MayRun(Day(moves).callers[i], Day(moves).sys.now)
    ensures var at := Moved(Day(moves), Turn(i, kind, judge)).callers[i].at;
      at.Left? && at.last.Some? && at.last.value.Served?
  {
    var (h, c) := (Day(moves), Day(moves).callers[i]);
    DayKeeps(moves);
    if !MayRun(c, h.sys.now) {
      NoLostWakeup(moves, i, name);
    }
    Pool.ReservationGrants(h.sys.pool, c.ask, c.width, c.recoveryWidth, DemandOf(c, h.sys.now, judge));
  }

  predicate HeldBy(lanes: seq<Lane>, i: nat, name: string) {
    i < |lanes| && Holds(lanes[i], name) && (Ended(lanes[i]) ==> lanes[i].log.cut)
  }

  /** Some model the caller asked for, and every one of them still enabled, is held by a lane
      that has yet to hand it back, or by one that was cut and never will. */
  ghost predicate Owed(s: System, ask: Pool.Ask) {
    && (exists n, k :: OwedBy(s, ask, n, k))
    && (forall n :: n in s.pool.slots && Pool.Admits(s.pool.slots[n], ask) ==> exists k :: HeldBy(s.lanes, k, n))
  }

  predicate OwedBy(s: System, ask: Pool.Ask, name: string, i: nat) {
    name in s.pool.slots && Wanted(s.pool.slots[name], ask) && HeldBy(s.lanes, i, name)
  }

  /** A unit withheld with no timer to free it is somebody's. */
  lemma WithheldIsHeld(s: System, name: string)
    requires Inv(s) && name in s.pool.slots && Withheld(s.pool.slots[name], None)
    requires s.pool.slots[name].config.parallel.Some? ==> s.pool.slots[name].config.parallel.value > 0
    ensures exists i :: HeldBy(s.lanes, i, name)
  {
    assert Pool.SoundSlot(s.pool.slots[name], s.now);
    assert Leases(s.lanes, name) >= 1;
    LeasesSome(s.lanes, name);
    var i :| 0 <= i < |s.lanes| && Holds(s.lanes[i], name);
    assert SoundLane(s.lanes[i]);
    assert HeldBy(s.lanes, i, name);
  }

  ghost predicate CapsPositive(p: Pool.PoolState) {
    forall n :: n in p.slots && p.slots[n].config.parallel.Some? ==> p.slots[n].config.parallel.value > 0
  }

  lemma WithheldAreHeld(s: System, c: Caller)
    requires Inv(s) && c.at == Asleep(None) && SleeperOk(s.pool, c) && CapsPositive(s.pool)
    ensures Owed(s, c.ask)
  {
    hide Inv, Wanted, HeldBy, Withheld, Pool.Admits;
    forall n | n in s.pool.slots && Pool.Admits(s.pool.slots[n], c.ask) ensures exists k :: HeldBy(s.lanes, k, n) {
      WithheldIsHeld(s, n);
    }
    var n :| n in s.pool.slots && Wanted(s.pool.slots[n], c.ask) && Withheld(s.pool.slots[n], None);
    WithheldIsHeld(s, n);
    var k :| HeldBy(s.lanes, k, n);
    assert OwedBy(s, c.ask, n, k);
  }

  /** The hand-back of a lane that owes this caller makes it runnable. */
  ghost predicate WokenByWhoOwes(h: Hall, i: nat)
    requires i < |h.callers|
  {
    forall n: string, k: nat, step :: OwedBy(h.sys, h.callers[i].ask, n, k) && LaneStep(h.sys.lanes[k], step, h.sys.now).1.Returned? ==>
      Moved(h, Elsewhere(On(k, step))).callers[i].at.Runnable?
  }

  lemma OwersWake(h: Hall, i: nat)
    requires i < |h.callers| && h.callers[i].at.Asleep?
    ensures WokenByWhoOwes(h, i)
  {
    hide LaneStep, Apply;
  }

  /** A caller asleep with no timer is owed a wake-up, over every run: somebody holds what it
      waits for, and whoever does wakes it by handing back. */
  lemma SleeperIsOwed(moves: seq<Move>, i: nat)
    requires i < |Day(moves).callers| && Day(moves).callers[i].at == Asleep(None) && CapsPositive(Day(moves).sys.pool)
    ensures Owed(Day(moves).sys, Day(moves).callers[i].ask) && WokenByWhoOwes(Day(moves), i)
  {
    hide Inv, SleeperOk, Owed, Day, CapsPositive, WokenByWhoOwes;
    DayKeeps(moves);
    WithheldAreHeld(Day(moves).sys, Day(moves).callers[i]);
    OwersWake(Day(moves), i);
  }

  // The other way out of that last clause is open.

  function Elsewheres(events: seq<Event>): (r: seq<Move>)
    ensures |r| == |events| && forall i :: 0 <= i < |events| ==> r[i] == Elsewhere(events[i])
  {
    if events == [] then [] else [Elsewhere(events[0])] + Elsewheres(events[1..])
  }

  lemma {:induction false} NobodyQueues(events: seq<Event>)
    ensures Day(Elsewheres(events)) == Hall(Run(INITIAL, events), [])
    decreases |events|
  {
    if events != [] {
      var rest := events[..|events| - 1];
      NobodyQueues(rest);
      assert Elsewheres(events)[..|events| - 1] == Elsewheres(rest);
    }
  }

  lemma OneMoreMove(moves: seq<Move>, m: Move)
    ensures Day(moves + [m]) == Moved(Day(moves), m)
  {
    assert (moves + [m])[..|moves|] == moves;
  }

  lemma EventsTo(s: System) returns (events: seq<Event>)
    requires Reachable(s)
    ensures Run(INITIAL, events) == s
  {
    events :| Run(INITIAL, events) == s;
  }

  const PATIENT := Caller(ANYONE, 1, 1, None, None, Runnable)

  lemma FindsItTaken(p: Pool.PoolState, slot: Pool.Slot)
    requires slot == Pool.Taken(Pool.NewSlot(PLAIN_MODEL, 0)) && p == Pool.PoolState(["m"], map["m" := slot], 1, map[])
    ensures TurnOf(PATIENT, p, 0.0, NO_JUDGE) == Pool.Sleep(None)
  {
    assert Pool.InOrder(p, ["m"]) == [slot];
    FilterAll([slot], Pool.AdmittedBy(ANYONE));
    assert Pool.Candidates(p, ANYONE) == [slot];
    assert Filter([slot], Pool.FreeAt(0.0)) == [];
    assert Pool.Choice(p, ANYONE, 1, 1, DemandOf(PATIENT, 0.0, NO_JUDGE)) == [];
    assert Pool.EarliestWakeup([slot], 0.0).None?;
  }

  /** A lost unit can cost a caller its answer: queued without a deadline for a model whose only
      unit was lost, it sleeps with no timer beside lanes none of which will ever notify. */
  lemma LostUnitLeavesASleeper()
    ensures exists moves :: var h := Day(moves);
      && |h.callers| == 1 && h.callers[0].at == Asleep(None)
      && |h.sys.lanes| == 1 && h.sys.lanes[0].log.cut
      && forall step :: !Notifies(h.sys, On(0, step))
  {
    hide AttemptRuns.Reachable, Attempts.SoundLanes, Attempts.LaneStep, TurnOf, Pool.Marked, Pool.Choice;
    var s := LosesItsOnlyUnit();
    var events := EventsTo(s);
    var (arrive, turn) := (Arrive(ANYONE, 1, 1, None, None), Turn(0, Alone, NO_JUDGE));
    var start := Elsewheres(events);
    NobodyQueues(events);
    OneMoreMove(start, arrive);
    OneMoreMove(start + [arrive], turn);
    FindsItTaken(s.pool, s.pool.slots["m"]);
    assert Day(start + [arrive]) == Hall(s, [PATIENT]);
    assert Day(start + [arrive] + [turn]) == Hall(s, [PATIENT.(at := Asleep(None))]);
    CutLaneOf(events);
    NothingFromACutLane(s);
  }

  lemma CutLaneOf(events: seq<Event>)
    ensures SoundLanes(Run(INITIAL, events).lanes)
  {
    RunSound(events);
  }

  lemma NothingFromACutLane(s: System)
    requires |s.lanes| == 1 && SoundLanes(s.lanes) && s.lanes[0].log.cut
    ensures forall step :: !Notifies(s, On(0, step))
  {
    hide LaneStep, SoundLane;
    forall step ensures !Notifies(s, On(0, step)) { CutStays(s.lanes[0], step, s.now); }
  }
}
