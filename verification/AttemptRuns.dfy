/** What holds over whole runs of the attempt protocol: hand-backs, the caps, the journal
    and the recovery claim. */
module AttemptRuns {
  import opened Common
  import opened Models
  import opened Verdicts
  import opened Attempts
  import Pool

  lemma RunSound(events: seq<Event>)
    ensures Inv(Run(INITIAL, events))
  {
    Pool.SoundEmpty(0.0);
    RunKeeps(INITIAL, events);
  }

  // ---------------------------------------------------------------------
  // Every slot goes back exactly once
  // ---------------------------------------------------------------------

  /** Over every interleaving a lane hands its slot back at most once, and one that has
      ended has done so exactly once unless it was cut. A streamed lane is cut by nothing but
      an exception no handler covers, and a raced one by that or with its stop. */
  lemma ExactlyOneHandBack(events: seq<Event>, i: nat)
    requires i < |Run(INITIAL, events).lanes|
    ensures var l := Run(INITIAL, events).lanes[i];
      && l.log.handBacks <= 1
      && (Ended(l) ==> (l.log.handBacks == 1 <==> !l.log.cut))
      && (l.kind.Streamed? && l.log.cut ==> Unguarded(l))
      && (l.kind.Raced? && l.log.cut ==> Unguarded(l) || Forsaken(l))
  {
    RunSound(events);
    assert SoundLane(Run(INITIAL, events).lanes[i]);
  }

  /** A lane is cut exactly where its caller is cancelled while driving it alone and awaiting
      neither its provider nor its journal row; where the stop of a raced lane is cancelled,
      the lane itself having been cancelled before it held its key; where an exception falls
      between the key and the request; and where a failed attempt cannot be disposed of: a rate
      limit's date is off the calendar, the wait's base is too large for a float, now plus the
      capped wait leaves the calendar, or the backoff's power overflows in mid-answer. */
  lemma CutExactlyThere(l: Lane, e: LaneEvent, now: real)
    requires SoundLane(l) && !l.log.cut
    ensures LaneStep(l, e, now).0.log.cut
       <==> || (e.Interrupt? && l.kind.Alone? && (l.gen.Resolving? || l.gen.KeyGone? || l.gen.Settling?))
            || (e.StopCancelled? && l.kind.Raced? && (l.stop.Asked? || l.stop.Returning?)
                && l.task.Cancelled? && !l.outcome.holdsSlot)
            || (e.Stumble? && l.gen.Resolving?)
            || (e.Fail? && l.gen.Open? && Undisposable(e.fault, e.budgetBound && !l.gen.started, now, e.backoff, e.cap))
            || (e.ProviderDone? && l.gen.Open? && l.kind.Streamed? && !l.gen.started
                && Undisposable(InvalidResponse, false, now, e.backoff, e.cap))
            || (e.BudgetMidAnswer? && l.gen.Open? && l.gen.started && e.overflows)
  {
    hide SoundLane, LaneStep, CappedWait, Classify;
    LaneStepSound(l, e, now);
    if e.Fail? && l.gen.Open? {
      RaisesIs(e.fault, e.budgetBound && !l.gen.started, now, e.backoff, e.cap);
    } else if e.ProviderDone? {
      RaisesIs(InvalidResponse, false, now, e.backoff, e.cap);
    }
  }

  /** What a caller can tell of a failure before it is disposed of. */
  predicate Undisposable(fault: Fault, budgetBound: bool, now: real, backoff: real, cap: Option<real>) {
    || (fault.HttpFault? && IsRateLimit(fault.code) && fault.header.OffCalendar?)
    || (Cools(fault) && (!FitsAFloat(BaseOf(fault)) || !Pool.OnCalendar(now + CappedWait(BaseOf(fault), backoff, cap))))
  }

  /** Every failure cools but the request's own faults and dead keys. */
  predicate Cools(fault: Fault) {
    !(fault.HttpFault? && (IsClientError(fault.code) || IsAuthFailure(fault.code)))
  }

  /** A rate limit's own delay, where it names one. */
  function BaseOf(fault: Fault): int {
    if fault.HttpFault? && IsRateLimit(fault.code) && fault.header.DelaySeconds? then fault.header.n else DEFAULT_RATE_LIMIT_SEC
  }

  lemma RaisesIs(fault: Fault, budgetBound: bool, now: real, backoff: real, cap: Option<real>)
    ensures Raises(Classify(fault, budgetBound), now, backoff, cap) <==> Undisposable(fault, budgetBound, now, backoff, cap)
  {
    hide CappedWait, FitsAFloat, Pool.OnCalendar;
    match fault case HttpFault(_, _) => case _ =>
  }

  /** Under a ceiling the calendar has room for, only a provider's header can raise: a date off
      the calendar, a number no float holds, or one so far in the past that, scaled by the
      streak, it leaves the calendar's start behind. */
  lemma OnlyFarHeadersRaise(fault: Fault, budgetBound: bool, now: real, backoff: real, ceiling: real)
    requires Pool.OnCalendar(now) && Pool.OnCalendar(now + ceiling) && ceiling > 0.0 && backoff > 0.0
    ensures Undisposable(fault, budgetBound, now, backoff, Some(ceiling)) <==>
            && fault.HttpFault? && IsRateLimit(fault.code)
            && match fault.header
               case NoDelay => false
               case OffCalendar => true
               case DelaySeconds(n) => !FitsAFloat(n) || now + n as real * backoff < Pool.CALENDAR_START
  {
    hide FitsAFloat;
    SmallFits(DEFAULT_RATE_LIMIT_SEC);
    WaitIsUnderTheCeiling(BaseOf(fault), backoff, ceiling);
  }

  lemma WaitIsUnderTheCeiling(base: int, backoff: real, ceiling: real)
    requires ceiling > 0.0 && backoff > 0.0
    ensures CappedWait(base, backoff, Some(ceiling)) <= ceiling
    ensures base > 0 ==> CappedWait(base, backoff, Some(ceiling)) > 0.0 && base as real * backoff > 0.0
    ensures base <= 0 ==> CappedWait(base, backoff, Some(ceiling)) == base as real * backoff
  {
    WaitIsPositive(base, backoff, Some(ceiling));
    if base <= 0 {
      assert base as real * backoff <= 0.0;
    }
  }

  lemma CutStays(l: Lane, e: LaneEvent, now: real)
    requires SoundLane(l) && l.log.cut
    ensures LaneStep(l, e, now).0.log == l.log && LaneStep(l, e, now).1.Nothing?
  {
    hide SoundSettlement, Settle, Classify, Disposal;
    assert l.gen.Over?;
    match e case Supersede => case StopEarly => case Abandon => case StopTurn => case StopCancelled => case _ =>
  }

  /** A cut lane's slot is gone for good: nothing that happens later returns it. */
  lemma {:induction false} CutIsForGood(s: System, events: seq<Event>, i: nat)
    requires Inv(s) && i < |s.lanes| && s.lanes[i].log.cut
    ensures i < |Run(s, events).lanes| && Run(s, events).lanes[i].log == s.lanes[i].log
    ensures s.lanes[i].log.handBacks == 0
    decreases |events|
  {
    if events != [] {
      var t := Run(s, events[..|events| - 1]);
      CutIsForGood(s, events[..|events| - 1], i);
      RunKeeps(s, events[..|events| - 1]);
      var e := events[|events| - 1];
      if e.On? && e.lane == i {
        CutStays(t.lanes[i], e.step, t.now);
      }
    }
  }

  const PLAIN_MODEL := LLMConfig("m", "u", "m", "K", Some(1), true, None, 0.5, map[])
  const ANYONE := Pool.Ask({"K"}, {}, None)
  const NO_JUDGE := Pool.Judge({}, map[])

  function Borrow(kind: Kind): Event { Grant(kind, ANYONE, 1, 1, None, NO_JUDGE) }

  lemma {:induction false} RunThen(s: System, events: seq<Event>, e: Event)
    ensures Run(s, events + [e]) == Apply(Run(s, events), e)
  {
    assert (events + [e])[..|events|] == events;
  }

  /** One reservation of the only model there is. */
  lemma BorrowsTheOnlyModel(s: System, kind: Kind, slot: Pool.Slot)
    requires s.pool.names == ["m"] && s.pool.slots == map["m" := slot]
    requires slot.config == PLAIN_MODEL.(parallel := slot.config.parallel)
    requires Pool.IsFree(slot, s.now) && !slot.disabled
    ensures Apply(s, Borrow(kind)) ==
      s.(pool := s.pool.(slots := map["m" := Pool.Taken(slot)]),
         lanes := s.lanes + [Opened(kind, slot, Leases(s.lanes, "m") == 0)])
  {
    var d := Pool.Demand(None, s.now, NO_JUDGE);
    assert Pool.InOrder(s.pool, ["m"]) == [slot];
    FilterAll([slot], Pool.AdmittedBy(ANYONE));
    FilterAll([slot], Pool.FreeAt(s.now));
    assert StableSort([slot], Pool.SlotLe(s.pool.bounds, d)) == [slot];
    assert Pool.Choice(s.pool, ANYONE, 1, 1, d) == [slot];
    assert Pool.NamesOf([slot]) == {"m"};
    assert Pool.Marked(s.pool, {"m"}).slots == map["m" := Pool.Taken(slot)];
    assert OpenAll(kind, [slot], s.lanes) == [Opened(kind, slot, Leases(s.lanes, "m") == 0)];
  }

  ghost predicate Reachable(s: System) { exists events :: Run(INITIAL, events) == s }

  lemma ReachStep(s: System, e: Event)
    requires Reachable(s)
    ensures Reachable(Apply(s, e))
  {
    var events :| Run(INITIAL, events) == s;
    RunThen(INITIAL, events, e);
  }

  lemma FirstModel(cfg: LLMConfig) returns (s: System)
    requires cfg.name == "m"
    ensures Reachable(s) && s == System(Pool.PoolState(["m"], map["m" := Pool.NewSlot(cfg, 0)], 1, map[]), [], 0.0)
  {
    assert Run(INITIAL, []) == INITIAL;
    ReachStep(INITIAL, AddModel(cfg, None));
    s := Apply(INITIAL, AddModel(cfg, None));
    assert [] + ["m"] == ["m"];
  }

  lemma Borrows(s: System, slot: Pool.Slot) returns (t: System, l: Lane)
    requires Reachable(s) && s.pool.names == ["m"] && s.pool.slots == map["m" := slot]
    requires slot.config == PLAIN_MODEL.(parallel := slot.config.parallel) && Pool.IsFree(slot, s.now) && !slot.disabled
    ensures Reachable(t) && t.lanes == s.lanes + [l] && t.now == s.now
    ensures t.pool == s.pool.(slots := map["m" := Pool.Taken(slot)])
    ensures l == Opened(Alone, slot, Leases(s.lanes, "m") == 0)
  {
    BorrowsTheOnlyModel(s, Alone, slot);
    ReachStep(s, Borrow(Alone));
    t, l := Apply(s, Borrow(Alone)), Opened(Alone, slot, Leases(s.lanes, "m") == 0);
  }

  lemma InterruptedWhileResolving(s: System) returns (t: System)
    requires Reachable(s) && |s.lanes| == 1 && s.lanes[0].kind.Alone? && s.lanes[0].gen.Resolving?
    ensures Reachable(t)
    ensures t == s.(lanes := [Cut(s.lanes[0])])
  {
    var l := s.lanes[0];
    ReachStep(s, On(0, Interrupt(false)));
    t := Apply(s, On(0, Interrupt(false)));
    assert s.lanes[0 := Cut(l)] == [Cut(l)];
  }

  lemma LosesItsOnlyUnit() returns (s: System)
    ensures Reachable(s) && |s.lanes| == 1 && Ended(s.lanes[0]) && s.lanes[0].log.cut && s.now == 0.0
    ensures s.pool == Pool.PoolState(["m"], map["m" := Pool.Taken(Pool.NewSlot(PLAIN_MODEL, 0))], 1, map[])
  {
    var s1 := FirstModel(PLAIN_MODEL);
    var s2, l := Borrows(s1, Pool.NewSlot(PLAIN_MODEL, 0));
    s := InterruptedWhileResolving(s2);
  }

  /** The slot an abandoned call can cost: cancelled while its key is being read, a call
      that drives its one attempt itself leaves the model's only unit in flight for ever. */
  lemma AloneCallCanLeak()
    ensures exists s :: Reachable(s) && |s.lanes| == 1 && Ended(s.lanes[0]) && s.lanes[0].log.cut
              && "m" in s.pool.slots && s.pool.slots["m"].inFlight == 1 && !Pool.UnderCap(s.pool.slots["m"])
  {
    var s := LosesItsOnlyUnit();
  }

  const OTHER_MODEL := PLAIN_MODEL.(name := "n")
  const BOTH_FREE := Pool.PoolState(["m", "n"], map["m" := Pool.NewSlot(PLAIN_MODEL, 0), "n" := Pool.NewSlot(OTHER_MODEL, 1)],
                                    2, map[])
  const RACE := Grant(Raced, ANYONE, 2, 1, None, NO_JUDGE)

  lemma TwoModels() returns (s: System)
    ensures Reachable(s) && s == System(BOTH_FREE, [], 0.0)
  {
    var s1 := FirstModel(PLAIN_MODEL);
    ReachStep(s1, AddModel(OTHER_MODEL, None));
    s := Apply(s1, AddModel(OTHER_MODEL, None));
    assert ["m"] + ["n"] == ["m", "n"];
    assert s.pool.slots == BOTH_FREE.slots;
  }

  /** Both models are free and weigh the same, so a race takes them in their standing order. */
  lemma BothAreChosen(best: seq<Pool.Slot>)
    requires best == [Pool.NewSlot(PLAIN_MODEL, 0), Pool.NewSlot(OTHER_MODEL, 1)]
    ensures Pool.Choice(BOTH_FREE, ANYONE, 2, 1, Pool.Demand(None, 0.0, NO_JUDGE)) == best
    ensures Pool.NamesOf(best) == {"m", "n"}
  {
    var d := Pool.Demand(None, 0.0, NO_JUDGE);
    assert Pool.InOrder(BOTH_FREE, ["n"]) == [best[1]];
    assert Pool.InOrder(BOTH_FREE, ["m", "n"]) == best;
    FilterAll(best, Pool.AdmittedBy(ANYONE));
    FilterAll(best, Pool.FreeAt(0.0));
    var le := Pool.SlotLe(map[], d);
    assert StableSort([best[1]], le) == [best[1]];
    assert best[1..] == [best[1]] && le(best[0], best[1]);
    assert StableSort(best, le) == best;
    assert best[0] in best && best[1] in best;
  }

  lemma RaceOpens(s: System) returns (t: System, a: Lane, b: Lane)
    requires Reachable(s) && s == System(BOTH_FREE, [], 0.0)
    ensures Reachable(t) && t.lanes == [a, b]
    ensures a == Opened(Raced, Pool.NewSlot(PLAIN_MODEL, 0), true) && b == Opened(Raced, Pool.NewSlot(OTHER_MODEL, 1), true)
    ensures "n" in t.pool.slots && t.pool.slots["n"] == Pool.Taken(Pool.NewSlot(OTHER_MODEL, 1))
  {
    var best := [Pool.NewSlot(PLAIN_MODEL, 0), Pool.NewSlot(OTHER_MODEL, 1)];
    BothAreChosen(best);
    hide Pool.Choice, Pool.NamesOf, Pool.Marked, Reachable;
    ReachStep(s, RACE);
    t := Apply(s, RACE);
    a, b := Opened(Raced, best[0], true), Opened(Raced, best[1], true);
    OpensBoth(best);
    assert t.lanes == [] + OpenAll(Raced, best, []);
    assert t.pool == Pool.Marked(BOTH_FREE, {"m", "n"});
    MarksBoth();
  }

  lemma OpensBoth(best: seq<Pool.Slot>)
    requires |best| == 2
    ensures OpenAll(Raced, best, []) == [Opened(Raced, best[0], true), Opened(Raced, best[1], true)]
  {
    hide Opened;
    var added := OpenAll(Raced, best, []);
    assert |added| == 2 && added[0] == Opened(Raced, best[0], true) && added[1] == Opened(Raced, best[1], true);
  }

  lemma MarksBoth()
    ensures "n" in Pool.Marked(BOTH_FREE, {"m", "n"}).slots
    ensures Pool.Marked(BOTH_FREE, {"m", "n"}).slots["n"] == Pool.Taken(Pool.NewSlot(OTHER_MODEL, 1))
  {}

  lemma LaneMoves(s: System, i: nat, step: LaneEvent) returns (t: System)
    requires Reachable(s) && i < |s.lanes|
    ensures Reachable(t) && t.lanes == s.lanes[i := LaneStep(s.lanes[i], step, s.now).0] && t.now == s.now
    ensures t.pool == Applied(s.pool, s.lanes[i].name, LaneStep(s.lanes[i], step, s.now).1, s.now)
  {
    ReachStep(s, On(i, step));
    t := Apply(s, On(i, step));
  }

  lemma OthersKeepTheirSlots(p: Pool.PoolState, name: string, effect: Effect, now: real, other: string)
    requires other in p.slots && other != name
    ensures other in Applied(p, name, effect, now).slots && Applied(p, name, effect, now).slots[other] == p.slots[other]
  {}

  /** One step of a race's first lane, which holds "m". */
  lemma FirstLaneMoves(s: System, step: LaneEvent) returns (t: System)
    requires Reachable(s) && |s.lanes| == 2 && s.lanes[0].name == "m" && "n" in s.pool.slots
    ensures Reachable(t) && t.lanes == [LaneStep(s.lanes[0], step, s.now).0, s.lanes[1]] && t.now == s.now
    ensures "n" in t.pool.slots && t.pool.slots["n"] == s.pool.slots["n"]
  {
    hide Reachable, LaneStep, Applied;
    t := LaneMoves(s, 0, step);
    OthersKeepTheirSlots(s.pool, "m", LaneStep(s.lanes[0], step, s.now).1, s.now, "n");
  }

  /** The first lane of a race gets its answer. */
  lemma FirstLaneAnswers(s: System, b: Lane) returns (t: System)
    requires Reachable(s) && s.lanes == [Opened(Raced, Pool.NewSlot(PLAIN_MODEL, 0), true), b]
    requires "n" in s.pool.slots
    ensures Reachable(t) && |t.lanes| == 2 && t.lanes[1] == b && t.lanes[0].outcome.answered && t.lanes[0].task.Done?
    ensures "n" in t.pool.slots && t.pool.slots["n"] == s.pool.slots["n"]
  {
    hide Reachable, Applied, Classify, CappedWait, Pool.OnCalendar;
    var s1 := FirstLaneMoves(s, Begin);
    var s2 := FirstLaneMoves(s1, KeyFound(false));
    var s3 := FirstLaneMoves(s2, ProviderDone(1.0, None));
    var s4 := FirstLaneMoves(s3, Lock);
    t := FirstLaneMoves(s4, Wrote);
  }

  /** And the slot an answered race can cost: a lane superseded before it held its key owes
      its hand-back to its stop, and the caller cancelled while that stop settles beside the
      answer cancels the stop with it. */
  lemma RacedLaneCanLeak()
    ensures exists s :: Reachable(s) && |s.lanes| == 2 && s.lanes[0].outcome.answered
              && Ended(s.lanes[1]) && Forsaken(s.lanes[1]) && s.lanes[1].outcome.superseded
              && "n" in s.pool.slots && s.pool.slots["n"].inFlight == 1 && !Pool.UnderCap(s.pool.slots["n"])
  {
    hide Reachable;
    var s1 := TwoModels();
    var s2, a, b := RaceOpens(s1);
    var s3 := FirstLaneAnswers(s2, b);
    var s4 := LaneMoves(s3, 1, Supersede);
    var s5 := LaneMoves(s4, 1, StopCancelled);
    assert Reachable(s5) && Forsaken(s5.lanes[1]);
  }

  /** The slot a provider can cost with one header: a rate limit that asks for a wait ending
      before the year 1, under the stock ceiling of an hour, or names a date off the calendar. */
  lemma HeadersCanLeak(header: RetryAfter)
    requires header == DelaySeconds(-100_000_000_000) || header == OffCalendar
    ensures exists s :: Reachable(s) && |s.lanes| == 1 && Ended(s.lanes[0]) && Unguarded(s.lanes[0])
              && s.lanes[0].log.rows == [] && s.lanes[0].outcome.settling
              && "m" in s.pool.slots && s.pool.slots["m"].inFlight == 1 && !Pool.UnderCap(s.pool.slots["m"])
  {
    hide Reachable;
    var s1 := FirstModel(PLAIN_MODEL);
    var s2, l := Borrows(s1, Pool.NewSlot(PLAIN_MODEL, 0));
    var s3 := LaneMoves(s2, 0, KeyFound(false));
    HeaderRaises(header);
    var s4 := LaneMoves(s3, 0, Fail(HttpFault(429, header), false, 1.0, Some(3600.0), 60.0));
    assert Reachable(s4) && Unguarded(s4.lanes[0]);
  }

  lemma HeaderRaises(header: RetryAfter)
    requires header == DelaySeconds(-100_000_000_000) || header == OffCalendar
    ensures Raises(Classify(HttpFault(429, header), false), 0.0, 1.0, Some(3600.0))
  {
    hide FitsAFloat;
  }

  /** And the slot of any kind of attempt that trips between its key and its request. */
  lemma StumblingLeaks()
    ensures exists s :: Reachable(s) && |s.lanes| == 1 && Ended(s.lanes[0]) && Unguarded(s.lanes[0])
              && "m" in s.pool.slots && s.pool.slots["m"].inFlight == 1 && !Pool.UnderCap(s.pool.slots["m"])
  {
    hide Reachable;
    var s1 := FirstModel(PLAIN_MODEL);
    var s2, l := Borrows(s1, Pool.NewSlot(PLAIN_MODEL, 0));
    var s3 := LaneMoves(s2, 0, Stumble);
    assert Reachable(s3) && Unguarded(s3.lanes[0]);
  }

  // ---------------------------------------------------------------------
  // What a slot counts
  // ---------------------------------------------------------------------

  /** A model re-added under the name of one dropped while attempts still hold it. */
  predicate ReAddsUnderLease(s: System, e: Event) {
    e.AddModel? && e.cfg.name !in s.pool.slots && Leases(s.lanes, e.cfg.name) > 0
  }

  /** A slot never counts more attempts than hold it, over every run. */
  lemma NeverCountsMore(events: seq<Event>, name: string)
    requires name in Run(INITIAL, events).pool.slots
    ensures Run(INITIAL, events).pool.slots[name].inFlight <= Leases(Run(INITIAL, events).lanes, name)
  {
    RunSound(events);
  }

  lemma GrantExactly(s: System, e: Event)
    requires Inv(s) && CountsExactly(s) && e.Grant? && e.width > 0
    ensures CountsExactly(Apply(s, e))
  {
    hide Inv, Apply;
    GrantCounts(s, e);
  }

  lemma LaneExactly(s: System, i: nat, step: LaneEvent)
    requires Inv(s) && CountsExactly(s) && i < |s.lanes|
    ensures CountsExactly(Apply(s, On(i, step)))
  {
    hide Inv, LaneStep, Applied;
    var t := Apply(s, On(i, step));
    AppliedNames(s.pool, s.lanes[i].name, LaneStep(s.lanes[i], step, s.now).1, s.now);
    forall n | n in t.pool.slots ensures t.pool.slots[n].inFlight == Leases(t.lanes, n) {
      LaneCounts(s, i, step, n);
    }
  }

  lemma MembershipExactly(s: System, e: Event)
    requires CountsExactly(s) && !e.Grant? && !e.On?
    ensures CountsExactly(Apply(s, e)) <==> !ReAddsUnderLease(s, e)
  {
    if e.AddModel? {
      assert e.cfg.name in Apply(s, e).pool.slots;
    }
  }

  /** And it keeps counting exactly those, step by step, but for one kind of step. */
  lemma CountsExactlyUnless(s: System, e: Event)
    requires Inv(s) && CountsExactly(s)
    ensures CountsExactly(Apply(s, e)) <==> !ReAddsUnderLease(s, e)
  {
    hide Inv;
    if e.Grant? && e.width > 0 {
      hide CountsExactly;
      GrantExactly(s, e);
    } else if e.On? && e.lane < |s.lanes| {
      hide CountsExactly;
      LaneExactly(s, e.lane, e.step);
    } else if !e.Grant? && !e.On? {
      hide CountsExactly;
      MembershipExactly(s, e);
    }
  }

  /** A run in which no model is re-added under its own outstanding leases. */
  ghost predicate Careful(s: System, events: seq<Event>)
    decreases |events|
  {
    events != [] ==>
      && Careful(s, events[..|events| - 1])
      && !ReAddsUnderLease(Run(s, events[..|events| - 1]), events[|events| - 1])
  }

  lemma {:induction false} CarefulRunsCountExactly(events: seq<Event>)
    requires Careful(INITIAL, events)
    ensures CountsExactly(Run(INITIAL, events))
    decreases |events|
  {
    if events != [] {
      CarefulRunsCountExactly(events[..|events| - 1]);
      RunSound(events[..|events| - 1]);
      CountsExactlyUnless(Run(INITIAL, events[..|events| - 1]), events[|events| - 1]);
    }
  }

  /** When every lane of a careful run has ended and none was cut, the whole pool is idle. */
  lemma IdleAtTheEnd(events: seq<Event>, name: string)
    requires Careful(INITIAL, events)
    requires var s := Run(INITIAL, events);
      name in s.pool.slots && forall i :: 0 <= i < |s.lanes| ==> Ended(s.lanes[i]) && !s.lanes[i].log.cut
    ensures Run(INITIAL, events).pool.slots[name].inFlight == 0
  {
    var s := Run(INITIAL, events);
    CarefulRunsCountExactly(events);
    LeasesSome(s.lanes, name);
    forall i | 0 <= i < |s.lanes| ensures !Holds(s.lanes[i], name) {
      ExactlyOneHandBack(events, i);
    }
  }

  // ---------------------------------------------------------------------
  // The cap is a cap
  // ---------------------------------------------------------------------

  ghost predicate WithinCaps(p: Pool.PoolState) {
    forall n :: n in p.slots && p.slots[n].config.parallel.Some? ==>
      p.slots[n].inFlight <= MaxInt(0, p.slots[n].config.parallel.value)
  }

  /** The one step that can leave a slot above its cap: refreshing the entry with a cap
      lower than what is running. */
  predicate LowersBelowRunning(s: System, e: Event) {
    && e.AddModel? && e.cfg.name in s.pool.slots && e.cfg.parallel.Some?
    && s.pool.slots[e.cfg.name].inFlight > MaxInt(0, e.cfg.parallel.value)
  }

  lemma GrantWithinCaps(s: System, e: Event)
    requires Inv(s) && WithinCaps(s.pool) && e.Grant? && e.width > 0
    ensures WithinCaps(Apply(s, e).pool)
  {
    var d := Pool.Demand(e.remaining, s.now, e.judge);
    var best := Pool.Choice(s.pool, e.ask, e.width, e.recoveryWidth, d);
    Pool.ReservationGrants(s.pool, e.ask, e.width, e.recoveryWidth, d);
    var q := Pool.Marked(s.pool, Pool.NamesOf(best));
    assert Apply(s, e).pool == q;
    forall n | n in q.slots && q.slots[n].config.parallel.Some?
      ensures q.slots[n].inFlight <= MaxInt(0, q.slots[n].config.parallel.value)
    {
      if n in Pool.NamesOf(best) {
        var x :| x in best && x.config.name == n;
        assert Pool.Takable(s.pool, e.ask, s.now, x);
      }
    }
  }

  lemma AppliedWithinCaps(p: Pool.PoolState, name: string, effect: Effect, now: real)
    requires WithinCaps(p)
    ensures WithinCaps(Applied(p, name, effect, now))
  {}

  lemma AddWithinCaps(s: System, e: Event)
    requires Inv(s) && WithinCaps(s.pool) && e.AddModel?
    ensures WithinCaps(Apply(s, e).pool) <==> !LowersBelowRunning(s, e)
  {
    assert e.cfg.name in Apply(s, e).pool.slots;
  }

  lemma CapsHoldUnless(s: System, e: Event)
    requires Inv(s) && WithinCaps(s.pool)
    ensures WithinCaps(Apply(s, e).pool) <==> !LowersBelowRunning(s, e)
  {
    if e.Grant? && e.width > 0 {
      GrantWithinCaps(s, e);
    } else if e.On? && e.lane < |s.lanes| {
      AppliedWithinCaps(s.pool, s.lanes[e.lane].name, LaneStep(s.lanes[e.lane], e.step, s.now).1, s.now);
    } else if e.AddModel? {
      AddWithinCaps(s, e);
    }
  }

  ghost predicate KeepsCaps(s: System, events: seq<Event>)
    decreases |events|
  {
    events != [] ==>
      && KeepsCaps(s, events[..|events| - 1])
      && !LowersBelowRunning(Run(s, events[..|events| - 1]), events[|events| - 1])
  }

  lemma {:induction false} RunWithinCaps(events: seq<Event>)
    requires KeepsCaps(INITIAL, events)
    ensures WithinCaps(Run(INITIAL, events).pool)
    decreases |events|
  {
    if events != [] {
      RunWithinCaps(events[..|events| - 1]);
      RunSound(events[..|events| - 1]);
      CapsHoldUnless(Run(INITIAL, events[..|events| - 1]), events[|events| - 1]);
    }
  }

  /** `parallel` caps the requests really running against a model, over every careful run
      that lowers no cap under running calls. */
  lemma NeverMoreRunningThanTheCap(events: seq<Event>, name: string)
    requires Careful(INITIAL, events) && KeepsCaps(INITIAL, events)
    requires name in Run(INITIAL, events).pool.slots
    requires Run(INITIAL, events).pool.slots[name].config.parallel.Some?
    ensures var s := Run(INITIAL, events);
      Leases(s.lanes, name) <= MaxInt(0, s.pool.slots[name].config.parallel.value)
  {
    CarefulRunsCountExactly(events);
    RunWithinCaps(events);
  }

  // ---------------------------------------------------------------------
  // The journal
  // ---------------------------------------------------------------------

  /** At most one row an attempt, none before a key was held, and exactly one on every
      ending of a raced or streamed lane that held one but for the unexplained cancellation
      and the exception that cuts it; a receipt settles, and an answer is reported, only over the row that says so. */
  lemma AtMostOneRow(events: seq<Event>, i: nat)
    requires i < |Run(INITIAL, events).lanes|
    ensures var l := Run(INITIAL, events).lanes[i];
      && |l.log.rows| <= 1
      && (!l.outcome.holdsSlot ==> l.log.rows == [])
      && (Ended(l) && l.outcome.holdsSlot && !l.kind.Alone? ==>
            (|l.log.rows| == 1 <==> !Unrecorded(l) && !l.log.cut && !l.log.unwritten))
      && (Ended(l) && l.outcome.holdsSlot && !l.task.Cancelled? ==> (|l.log.rows| == 1 <==> !l.log.cut && !l.log.unwritten))
      && !(l.log.cut && l.log.unwritten)
      && (l.outcome.settledReceipt || l.outcome.answered ==> l.log.rows == [OK])
      && (l.kind.Streamed? && Ended(l) && l.outcome.holdsSlot ==> (|l.log.rows| == 1 <==> !l.log.cut && !l.log.unwritten))
  {
    RunSound(events);
    assert SoundLane(Run(INITIAL, events).lanes[i]);
  }

  /** A held attempt that ran its course writes no row in one case beside being cut: its slot
      came back so late that the cooldown's end, worked out again for the row, left the
      calendar. */
  lemma UnwrittenExactlyThere(l: Lane, e: LaneEvent, now: real)
    requires SoundLane(l) && !l.log.unwritten
    ensures LaneStep(l, e, now).0.log.unwritten
       <==> e.Lock? && l.gen.Settling? && l.gen.s.back.Cooled?
            && (now + l.gen.s.back.delay < Pool.CALENDAR_START || Pool.CALENDAR_END < now + l.gen.s.back.delay)
  {
    hide SoundLane, LaneStep;
    LaneStepSound(l, e, now);
  }

  /** Without a ceiling, a rate limit can ask for a wait to the last second of the calendar;
      a second at the pool's lock and the row is never written. */
  lemma RowCanBeLost()
    ensures exists s :: Reachable(s) && |s.lanes| == 1 && Ended(s.lanes[0]) && s.lanes[0].log.unwritten
              && s.lanes[0].log.handBacks == 1 && s.lanes[0].log.rows == []
  {
    hide Reachable, FitsAFloat;
    var fault := HttpFault(429, DelaySeconds(253402300799));
    SmallFits(253402300799);
    var s1 := FirstModel(PLAIN_MODEL);
    var s2, l := Borrows(s1, Pool.NewSlot(PLAIN_MODEL, 0));
    var s3 := LaneMoves(s2, 0, KeyFound(false));
    LastSecond(fault);
    var s4 := LaneMoves(s3, 0, Fail(fault, false, 1.0, None, 60.0));
    var s5 := Waits(s4, 1.0);
    var s6 := LaneMoves(s5, 0, Lock);
    assert Reachable(s6) && s6.lanes[0].log.unwritten;
  }

  lemma LastSecond(fault: Fault)
    requires fault == HttpFault(429, DelaySeconds(253402300799)) && FitsAFloat(253402300799)
    ensures var v := Classify(fault, false);
      !Raises(v, 0.0, 1.0, None) && Disposal(v.value, 0.0, 1.0, None).back == Cooled(253402300799.0, 253402300799.0)
  {
    hide FitsAFloat;
  }

  // ---------------------------------------------------------------------
  // The recovery claim
  // ---------------------------------------------------------------------

  /** A claim means a recheck is due, the cooldown is over and an attempt is in flight. */
  lemma ClaimsAreReal(events: seq<Event>, name: string)
    requires name in Run(INITIAL, events).pool.slots
    ensures var s := Run(INITIAL, events);
      var slot := s.pool.slots[name];
      && (slot.recoveryClaimed ==>
            slot.recoveryDue && Pool.CoolOver(slot, s.now) && slot.inFlight >= 1 && Leases(s.lanes, name) >= 1)
      && (slot.recoveryDue <==> slot.cooldownUntil.Some?)
  {
    RunSound(events);
    assert Pool.SoundSlot(Run(INITIAL, events).pool.slots[name], Run(INITIAL, events).now);
  }

  /** The lane rechecks its model, was idle to begin with, and has not settled. */
  predicate SoleRecheck(l: Lane) { l.sole && l.log.handBacks == 0 }

  /** A recheck begun on an idle slot is the only attempt on it, and the claim still stands. */
  ghost predicate RechecksAlone(s: System) {
    forall i :: 0 <= i < |s.lanes| && SoleRecheck(s.lanes[i]) && s.lanes[i].name in s.pool.slots ==>
      s.pool.slots[s.lanes[i].name].recoveryClaimed && Leases(s.lanes, s.lanes[i].name) == 1
  }

  lemma {:induction false} OnlyHolder(lanes: seq<Lane>, i: nat, j: nat, name: string)
    requires i < |lanes| && j < |lanes| && Holds(lanes[i], name) && Holds(lanes[j], name)
    requires Leases(lanes, name) == 1
    ensures i == j
  {
    var last := |lanes| - 1;
    LeasesSome(lanes[..last], name);
    assert i < last ==> lanes[..last][i] == lanes[i];
    assert j < last ==> lanes[..last][j] == lanes[j];
    if i < last && j < last {
      OnlyHolder(lanes[..last], i, j, name);
    }
  }

  /** Opening lanes on slots that were free leaves every lone recheck alone. */
  lemma OpeningKeepsRechecks(s: System, best: seq<Pool.Slot>, kind: Kind, i: nat)
    requires RechecksAlone(s)
    requires forall x :: x in best ==> x.config.name in s.pool.slots && s.pool.slots[x.config.name] == x && !x.recoveryClaimed
    requires forall i, j :: 0 <= i < j < |best| ==> best[i].config.name != best[j].config.name
    requires i < |s.lanes| + |best|
    ensures var lanes := s.lanes + OpenAll(kind, best, s.lanes);
      var slots := Pool.Marked(s.pool, Pool.NamesOf(best)).slots;
      SoleRecheck(lanes[i]) && lanes[i].name in s.pool.slots ==>
        slots[lanes[i].name].recoveryClaimed && Leases(lanes, lanes[i].name) == 1
  {
    var added := OpenAll(kind, best, s.lanes);
    var lanes := s.lanes + added;
    var name := lanes[i].name;
    LeasesAppend(s.lanes, added, name);
    LeasesOfOpened(kind, best, s.lanes, name);
    if i >= |s.lanes| {
      assert best[i - |s.lanes|] in best;
      assert name in Pool.NamesOf(best);
    }
  }

  lemma GrantKeepsRechecks(s: System, e: Event)
    requires Inv(s) && RechecksAlone(s) && e.Grant? && e.width > 0
    ensures RechecksAlone(Apply(s, e))
  {
    var d := Pool.Demand(e.remaining, s.now, e.judge);
    var best := Pool.Choice(s.pool, e.ask, e.width, e.recoveryWidth, d);
    Pool.ReservationGrants(s.pool, e.ask, e.width, e.recoveryWidth, d);
    var t := Apply(s, e);
    assert t.pool == Pool.Marked(s.pool, Pool.NamesOf(best));
    assert t.lanes == s.lanes + OpenAll(e.kind, best, s.lanes);
    forall i | 0 <= i < |t.lanes| && SoleRecheck(t.lanes[i]) && t.lanes[i].name in t.pool.slots
      ensures t.pool.slots[t.lanes[i].name].recoveryClaimed && Leases(t.lanes, t.lanes[i].name) == 1
    {
      OpeningKeepsRechecks(s, best, e.kind, i);
    }
  }

  /** One lane moving leaves every lone recheck alone: no other lane holds its model. */
  lemma MoveKeepsRechecks(s: System, k: nat, m: Lane, effect: Effect, i: nat)
    requires RechecksAlone(s) && k < |s.lanes| && i < |s.lanes|
    requires m.name == s.lanes[k].name && m.sole == s.lanes[k].sole && m.log.handBacks <= 1
    requires m.log.handBacks == s.lanes[k].log.handBacks + (if effect.Returned? then 1 else 0)
    ensures var lanes := s.lanes[k := m];
      var slots := Applied(s.pool, m.name, effect, s.now).slots;
      SoleRecheck(lanes[i]) && lanes[i].name in s.pool.slots ==>
        && lanes[i].name in slots && slots[lanes[i].name].recoveryClaimed && Leases(lanes, lanes[i].name) == 1
  {
    var name := s.lanes[i].name;
    LeasesUpdate(s.lanes, k, m, name);
    if SoleRecheck(s.lanes[k := m][i]) && name in s.pool.slots && effect.Returned? && m.name == name {
      assert SoleRecheck(s.lanes[i]);
      OnlyHolder(s.lanes, i, k, name);
    }
  }

  lemma StepKeepsRechecks(s: System, e: Event)
    requires Inv(s) && RechecksAlone(s) && e.On? && e.lane < |s.lanes|
    ensures RechecksAlone(Apply(s, e))
  {
    var (m, effect) := LaneStep(s.lanes[e.lane], e.step, s.now);
    LaneStepSound(s.lanes[e.lane], e.step, s.now);
    AppliedNames(s.pool, m.name, effect, s.now);
    var t := Apply(s, e);
    forall i | 0 <= i < |t.lanes| && SoleRecheck(t.lanes[i]) && t.lanes[i].name in t.pool.slots
      ensures t.pool.slots[t.lanes[i].name].recoveryClaimed && Leases(t.lanes, t.lanes[i].name) == 1
    {
      MoveKeepsRechecks(s, e.lane, m, effect, i);
    }
  }

  lemma RechecksStayAlone(s: System, e: Event)
    requires Inv(s) && RechecksAlone(s) && !ReAddsUnderLease(s, e)
    ensures RechecksAlone(Apply(s, e))
  {
    if e.Grant? && e.width > 0 {
      GrantKeepsRechecks(s, e);
    } else if e.On? && e.lane < |s.lanes| {
      StepKeepsRechecks(s, e);
    } else if e.AddModel? {
      LeasesSome(s.lanes, e.cfg.name);
    }
  }

  /** Over every careful run, a recheck begun on an idle slot runs alone until it settles. */
  lemma {:induction false} RecheckRunsAlone(events: seq<Event>)
    requires Careful(INITIAL, events)
    ensures RechecksAlone(Run(INITIAL, events))
    decreases |events|
  {
    if events != [] {
      RecheckRunsAlone(events[..|events| - 1]);
      RunSound(events[..|events| - 1]);
      RechecksStayAlone(Run(INITIAL, events[..|events| - 1]), events[|events| - 1]);
    }
  }

  // The selection rules call a claim exclusive whatever the slot's capacity. It is not: any
  // other attempt on the model that settles lifts it under the recheck still running.

  /** Any hand-back on a claimed model lifts the claim, whoever took it. */
  lemma AnyHandBackLiftsTheClaim(s: System, i: nat, j: nat, step: LaneEvent)
    requires Inv(s) && i < |s.lanes| && j < |s.lanes| && i != j
    requires Holds(s.lanes[i], s.lanes[j].name) && s.lanes[j].name in s.pool.slots
    requires LaneStep(s.lanes[j], step, s.now).1.Returned?
    ensures var t := Apply(s, On(j, step));
      t.lanes[i] == s.lanes[i] && !t.pool.slots[s.lanes[j].name].recoveryClaimed
  {
    hide Inv, Holds;
  }

  /** Two calls borrow one model, the first cools it, and the cooldown passes. */
  lemma DueWithOneRunning() returns (s: System, l1: Lane, slot: Pool.Slot)
    ensures Reachable(s) && |s.lanes| == 2 && s.lanes[1] == l1 && l1.name == "m" && l1.kind.Alone? && l1.gen.Resolving?
    ensures s.pool.names == ["m"] && s.pool.slots == map["m" := slot] && slot.config == PLAIN_MODEL.(parallel := None)
    ensures slot.recoveryDue && Pool.IsFree(slot, s.now) && !slot.disabled
  {
    hide Reachable;
    var uncapped := PLAIN_MODEL.(parallel := None);
    var plain := Pool.NewSlot(uncapped, 0);
    var s1 := FirstModel(uncapped);
    var s2, l0 := Borrows(s1, plain);
    var s3, l := Borrows(s2, Pool.Taken(plain));
    var s4 := CoolsDown(s3, l0, l);
    s := Waits(s4, 60.0);
    l1, slot := l, s.pool.slots["m"];
  }

  /** Two rechecks of one model at once, reached from a fresh installation: the first recheck
      claims it, the call already running loses its key and lifts the claim, and a second
      recheck follows. */
  lemma TwoRechecksAtOnce()
    ensures exists s :: Reachable(s) && |s.lanes| == 4 &&
              forall i :: i == 2 || i == 3 ==> s.lanes[i].recheck && Holds(s.lanes[i], "m")
  {
    hide Reachable;
    var s5, l1, slot := DueWithOneRunning();
    var s6, l2 := Borrows(s5, slot);
    var s7 := LosesItsKey(s6, l1);
    var s8, l3 := Borrows(s7, s7.pool.slots["m"]);
    assert s8.lanes[2] == l2 && s8.lanes[3] == l3;
    assert Reachable(s8);
  }

  lemma Waits(s: System, elapsed: real) returns (t: System)
    requires Reachable(s) && elapsed >= 0.0
    ensures Reachable(t) && t == s.(now := s.now + elapsed)
  {
    ReachStep(s, Pass(elapsed));
    t := Apply(s, Pass(elapsed));
  }

  lemma CoolsDown(s: System, l0: Lane, l1: Lane) returns (t: System)
    requires Reachable(s) && s.lanes == [l0, l1] && s.now == 0.0 && s.pool.names == ["m"]
    requires l0.name == "m" && l0.kind.Alone? && l0.gen.Resolving? && "m" in s.pool.slots
    ensures Reachable(t) && |t.lanes| == 2 && t.lanes[1] == l1 && t.now == 0.0
    ensures t.pool == Pool.CoolDown(s.pool, "m", 60.0)
  {
    hide Reachable, FitsAFloat;
    SmallFits(60);
    var fail := Fail(HttpFault(500, NoDelay), false, 1.0, None, 0.0);
    var a := LaneMoves(s, 0, KeyFound(false));
    CoolsForAMinute(a.lanes[0], fail);
    var b := LaneMoves(a, 0, fail);
    t := LaneMoves(b, 0, Lock);
  }

  lemma CoolsForAMinute(l: Lane, fail: LaneEvent)
    requires l.gen.Open? && FitsAFloat(60) && fail == Fail(HttpFault(500, NoDelay), false, 1.0, None, 0.0)
    ensures LaneStep(l, fail, 0.0) ==
            (Settle(l, Settlement(Cooled(60.0, 60.0), Some(Error), false, false, None, Returns)), Nothing)
  {
    hide FitsAFloat;
  }

  lemma LosesItsKey(s: System, l1: Lane) returns (t: System)
    requires Reachable(s) && |s.lanes| == 3 && s.lanes[1] == l1
    requires l1.name == "m" && l1.kind.Alone? && l1.gen.Resolving? && "m" in s.pool.slots
    ensures Reachable(t) && |t.lanes| == 3 && t.lanes[2] == s.lanes[2] && t.now == s.now
    ensures t.pool == Pool.Release(s.pool, "m")
  {
    var a := Apply(s, On(1, KeyMissing));
    ReachStep(s, On(1, KeyMissing));
    t := Apply(a, On(1, Lock));
    ReachStep(a, On(1, Lock));
  }

  /** How a step hands this model's slot back, if it does. */
  function BackOf(s: System, e: Event, name: string): Option<Back> {
    if e.On? && e.lane < |s.lanes| && s.lanes[e.lane].name == name && LaneStep(s.lanes[e.lane], e.step, s.now).1.Returned?
    then Some(LaneStep(s.lanes[e.lane], e.step, s.now).1.back)
    else None
  }

  /** A model owes a recheck from the failure that cooled it until an attempt on it succeeds:
      nothing else arms the debt, and nothing but a success clears it. */
  lemma DueUntilAnswered(s: System, e: Event, name: string)
    requires Inv(s) && name in s.pool.slots && name in Apply(s, e).pool.slots
    ensures var (before, after, back) := (s.pool.slots[name], Apply(s, e).pool.slots[name], BackOf(s, e, name));
      && (after.recoveryDue <==>
            (back.Some? && back.value.Cooled?) || (before.recoveryDue && !(back.Some? && back.value.Answered?)))
      && (back.Some? && back.value.Cooled? ==>
            after.cooldownUntil == Some(back.value.until) && after.failCount == before.failCount + 1)
      && (back.Some? && back.value.Answered? ==> after.cooldownUntil.None?)
  {
    hide Inv, LaneStep;
    if e.On? && e.lane < |s.lanes| {
      var effect := LaneStep(s.lanes[e.lane], e.step, s.now).1;
      assert Apply(s, e).pool == Applied(s.pool, s.lanes[e.lane].name, effect, s.now);
    }
  }
}
