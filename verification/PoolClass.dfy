/** `LLMPool`: the pool's fields, updated in place. Every method is proved against the
    function of the same name in module `Pool`. */
module PoolClass {
  import opened Common
  import opened Models
  import opened Pool

  class LLMPool {
    var names: seq<string>
    var slots: map<string, Slot>
    var nextOrder: int
    var bounds: map<string, Bound>

    function State(): PoolState
      reads this
    {
      PoolState(names, slots, nextOrder, bounds)
    }

    constructor ()
      ensures State() == EMPTY
    {
      names, slots, nextOrder, bounds := [], map[], 0, map[];
    }

    method Add(cfg: LLMConfig, order: Option<int>)
      modifies this
      ensures State() == Pool.Add(old(State()), cfg, order)
    {
      var at := if order.Some? then order.value else nextOrder;
      nextOrder := MaxInt(nextOrder, at + 1);
      if cfg.name in slots {
        slots := slots[cfg.name := slots[cfg.name].(config := cfg, order := at)];
      } else {
        names := names + [cfg.name];
        slots := slots[cfg.name := NewSlot(cfg, at)];
      }
    }

    method Drop(name: string)
      modifies this
      ensures State() == Pool.Drop(old(State()), name)
    {
      names := Filter(names, n => n != name);
      slots := slots - {name};
      bounds := bounds - {name};
    }

    method SetDisabled(name: string, flag: bool)
      modifies this`slots
      ensures State() == Pool.SetDisabled(old(State()), name, flag)
    {
      if name in slots {
        slots := slots[name := slots[name].(disabled := flag)];
      }
    }

    method ApplyBudgetBounds(observed: map<string, (real, real)>)
      modifies this`bounds
      ensures State() == Pool.ApplyBudgetBounds(old(State()), observed)
    {
      bounds := map n | n in observed :: Bound(observed[n].0, observed[n].1 + BUDGET_BOUND_WINDOW_SEC);
    }

    method RaiseBudgetBound(name: string, budget: real, observedAt: real)
      modifies this`bounds
      ensures State() == Pool.RaiseBudgetBound(old(State()), name, budget, observedAt)
    {
      var previous := 0.0;
      if name in bounds && bounds[name].until > observedAt {
        previous := bounds[name].seconds;
      }
      bounds := bounds[name := Bound(Max(previous, budget), observedAt + BUDGET_BOUND_WINDOW_SEC)];
    }

    method ClearBudgetBound(name: string)
      modifies this`bounds
      ensures State() == Pool.ClearBudgetBound(old(State()), name)
    {
      bounds := bounds - {name};
    }

    method Release(name: string)
      modifies this`slots
      ensures State() == Pool.Release(old(State()), name)
    {
      if name in slots {
        var s := slots[name];
        slots := slots[name := s.(inFlight := OneFewer(s.inFlight), recoveryClaimed := false)];
      }
    }

    method ClearCooling(name: string)
      modifies this`slots
      ensures State() == Pool.ClearCooling(old(State()), name)
    {
      if name in slots {
        slots := slots[name := slots[name].(cooldownUntil := None, recoveryDue := false, recoveryClaimed := false)];
      }
    }

    /** Raises, and touches nothing, where the instant is off the calendar. */
    method CoolDown(name: string, now: real, delay: real) returns (raised: bool)
      modifies this`slots
      ensures raised <==> Pool.CoolFor(old(State()), name, now, delay).None?
      ensures State() == if raised then old(State()) else Pool.CoolFor(old(State()), name, now, delay).value
    {
      var until := now + delay;
      if !OnCalendar(until) {
        return true;
      }
      if name in slots {
        var s := slots[name];
        slots := slots[name := s.(cooldownUntil := Some(until), failCount := s.failCount + 1,
                                  inFlight := OneFewer(s.inFlight), recoveryDue := true,
                                  recoveryClaimed := false)];
      }
      return false;
    }

    /** Marks the best free candidates in flight, one by one. */
    method Reserve(candidates: seq<Slot>, width: nat, recoveryWidth: nat, d: Demand) returns (configs: seq<LLMConfig>)
      requires WellFormed(State()) && Distinct(candidates)
      requires forall s :: s in candidates ==> s.config.name in slots && slots[s.config.name] == s
      modifies this`slots
      ensures var best := Chosen(Ranked(bounds, candidates, d), width, recoveryWidth);
        && State() == Marked(old(State()), NamesOf(best))
        && configs == ConfigsOf(best)
    {
      var ranked := StableSort(Filter(candidates, FreeAt(d.now)), SlotLe(bounds, d));
      var best := Take(ranked, width);
      if best != [] && best[0].recoveryDue {
        best := best + Cover(Skip(ranked, width), recoveryWidth - width);
      }
      assert best == Chosen(Ranked(bounds, candidates, d), width, recoveryWidth);
      ChosenFromCandidates(candidates, bounds, width, recoveryWidth, d);
      assert forall k :: 0 <= k < |best| ==> best[k] in best && best[k] in candidates;
      configs := MarkAll(best);
    }

    method MarkAll(best: seq<Slot>) returns (configs: seq<LLMConfig>)
      requires Distinct(best)
      requires forall k :: 0 <= k < |best| ==> best[k].config.name in slots && slots[best[k].config.name] == best[k]
      modifies this`slots
      ensures State() == Marked(old(State()), NamesOf(best))
      ensures configs == ConfigsOf(best)
    {
      ghost var before := State();
      configs := [];
      assert best[..0] == [] && NamesOf([]) == {} && Marked(before, {}).slots == slots;
      for i := 0 to |best|
        invariant State() == Marked(before, NamesOf(best[..i]))
        invariant configs == ConfigsOf(best[..i])
      {
        var name := best[i].config.name;
        MarkStep(before, best, i);
        var slot := slots[name];
        slots := slots[name := slot.(inFlight := slot.inFlight + 1, recoveryClaimed := slot.recoveryDue)];
        configs := configs + [slot.config];
      }
      assert best[..|best|] == best;
    }

    /** One await-free turn of a queued caller, from the wake to the next sleep. */
    method AcquireTurn(ask: Ask, width: nat, recoveryWidth: nat, queueDeadline: Option<real>,
                       answerDeadline: Option<real>, now: real, mono: real, judge: Judge)
      returns (turn: Turn)
      requires WellFormed(State()) && width >= 1
      modifies this`slots
      ensures var d := Demand(if answerDeadline.None? then None else Some(answerDeadline.value - mono), now, judge);
        (State(), turn) == Pool.AcquireTurn(old(State()), ask, width, recoveryWidth, d, queueDeadline, mono)
    {
      var remaining := if answerDeadline.None? then None else Some(answerDeadline.value - mono);
      var d := Demand(remaining, now, judge);
      var candidates := Candidates(State(), ask);
      CandidatesAre(State(), ask);
      ghost var before := State();
      var taken := Reserve(candidates, width, recoveryWidth, d);
      if taken != [] {
        return Served(taken);
      }
      assert State() == before by {
        NothingChosen(Choice(before, ask, width, recoveryWidth, d), before);
      }
      if candidates == [] {
        return Exhausted(ExhaustionReason(State(), ask));
      }
      if queueDeadline.Some? && mono >= queueDeadline.value {
        return TimedOut(EarliestReturn(candidates, now));
      }
      var timeout := WakeTimeout(now, mono, queueDeadline, candidates);
      return Sleep(timeout);
    }

    /** Whatever is free this instant, or nothing: it never waits. */
    method TakeFree(ask: Ask, width: nat, answerDeadline: Option<real>, now: real, mono: real, judge: Judge,
                    stillNeeded: bool)
      returns (configs: seq<LLMConfig>)
      requires WellFormed(State()) && width >= 1
      modifies this`slots
      ensures var d := Demand(if answerDeadline.None? then None else Some(answerDeadline.value - mono), now, judge);
        (State(), configs) == if stillNeeded then Pool.Reserve(old(State()), ask, width, 1, d) else (old(State()), [])
    {
      if !stillNeeded {
        return [];
      }
      var remaining := if answerDeadline.None? then None else Some(answerDeadline.value - mono);
      var candidates := Candidates(State(), ask);
      CandidatesAre(State(), ask);
      configs := Reserve(candidates, width, 1, Demand(remaining, now, judge));
    }

    /** The timer a caller sleeps on: the nearest return among the candidates, and its deadline. */
    method WakeTimeout(now: real, mono: real, queueDeadline: Option<real>, candidates: seq<Slot>)
      returns (timeout: Option<real>)
      ensures timeout == Pool.WakeTimeout(now, mono, queueDeadline, candidates)
    {
      timeout := None;
      for i := 0 to |candidates|
        invariant timeout == EarliestWakeup(candidates[..i], now)
      {
        var slot := candidates[i];
        if !(slot.config.parallel.Some? && slot.inFlight >= slot.config.parallel.value) {
          if slot.cooldownUntil.Some? && slot.cooldownUntil.value > now {
            timeout := MinOption(timeout, Some(slot.cooldownUntil.value - now));
          }
        }
        assert candidates[..i + 1] == candidates[..i] + [slot];
        EarliestAppend(candidates[..i], slot, now);
      }
      assert candidates[..|candidates|] == candidates;
      if queueDeadline.Some? {
        timeout := MinOption(timeout, Some(queueDeadline.value - mono));
      }
    }
  }

  lemma {:induction false} EarliestAppend(candidates: seq<Slot>, s: Slot, now: real)
    ensures EarliestWakeup(candidates + [s], now) == MinOption(EarliestWakeup(candidates, now), Wakeup(s, now))
  {
    if candidates == [] {
    } else {
      assert (candidates + [s])[1..] == candidates[1..] + [s];
      EarliestAppend(candidates[1..], s, now);
    }
  }

  lemma ChosenFromCandidates(candidates: seq<Slot>, bounds: map<string, Bound>, width: nat, recoveryWidth: nat, d: Demand)
    requires Distinct(candidates)
    ensures var best := Chosen(Ranked(bounds, candidates, d), width, recoveryWidth);
      Distinct(best) && forall s :: s in best ==> s in candidates
  {
    var free := Filter(candidates, FreeAt(d.now));
    FilterDistinct(candidates, FreeAt(d.now));
    FilterMembers(candidates, FreeAt(d.now));
    SortMembers(free, SlotLe(bounds, d));
    SortDistinct(free, SlotLe(bounds, d));
    var ranked := Ranked(bounds, candidates, d);
    if width >= 1 {
      ChosenAre(ranked, width, recoveryWidth);
    }
  }

  lemma MarkStep(p: PoolState, best: seq<Slot>, i: nat)
    requires i < |best| && Distinct(best)
    requires forall k :: 0 <= k < |best| ==> best[k].config.name in p.slots && p.slots[best[k].config.name] == best[k]
    ensures var (name, q) := (best[i].config.name, Marked(p, NamesOf(best[..i])));
      && name in q.slots && q.slots[name] == best[i]
      && Marked(p, NamesOf(best[..i + 1])) == q.(slots := q.slots[name := Taken(best[i])])
    ensures ConfigsOf(best[..i + 1]) == ConfigsOf(best[..i]) + [best[i].config]
  {
    var done := best[..i];
    assert best[..i + 1] == done + [best[i]];
    forall k | 0 <= k < i ensures best[k].config.name != best[i].config.name {
      assert best[k] != best[i];
    }
    assert best[i].config.name !in NamesOf(done);
    MarkOneMore(p, done, best[i]);
    ConfigsAppend(done, best[i]);
  }

  lemma MarkOneMore(p: PoolState, done: seq<Slot>, next: Slot)
    requires next.config.name in p.slots && next.config.name !in NamesOf(done)
    ensures var q := Marked(p, NamesOf(done));
      Marked(p, NamesOf(done + [next])) == q.(slots := q.slots[next.config.name := Taken(p.slots[next.config.name])])
  {
    var names := NamesOf(done + [next]);
    assert names == NamesOf(done) + {next.config.name} by {
      assert next in done + [next];
      forall x | x in done ensures x in done + [next] {}
    }
    var q := Marked(p, NamesOf(done));
    assert Marked(p, names).slots == q.slots[next.config.name := Taken(p.slots[next.config.name])];
  }

  lemma ConfigsAppend(done: seq<Slot>, next: Slot)
    ensures ConfigsOf(done + [next]) == ConfigsOf(done) + [next.config]
  {
    var all := done + [next];
    assert forall i :: 0 <= i < |all| ==> ConfigsOf(all)[i] == all[i].config;
  }

  lemma NothingChosen(best: seq<Slot>, p: PoolState)
    requires ConfigsOf(best) == []
    ensures Marked(p, NamesOf(best)) == p
  {
    assert best == [] && NamesOf(best) == {};
    assert Marked(p, {}).slots == p.slots;
  }
}
