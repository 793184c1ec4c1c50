/** The routed stream's owner as the object it is: fields updated in place, one method for
    each stretch between two awaits, every one proved against the step it stands for. Where
    the coroutine is suspended is ghost: in the program it is the call stack. */
module StreamOwner {
  import opened Common
  import opened Verdicts
  import opened Race
  import opened Stream
  import Steps = Stream

  class RoutedStream {
    const setup: Setup
    var lanes: seq<StreamLane>
    var exposed: Option<nat>
    var wave: nat
    var waveWidth: nat
    var eligible: set<string>
    var attempted: set<string>
    var refreshUsed: bool
    var output: seq<string>
    var ending: Ending
    var delivered: set<nat>
    var answers: seq<nat>
    var terminal: bool
    var now: real
    var selectBy: real
    var expired: bool
    var clientError: bool
    ghost var pc: Pc

    ghost function State(): Steps.Stream reads this {
      Steps.Stream.Stream(setup, lanes, exposed, pc,
             Opening(wave, waveWidth, eligible, attempted, refreshUsed),
             Told(output, ending, delivered, answers, terminal),
             Clock(now, selectBy), Facts(expired, clientError))
    }

    constructor (setup: Setup, eligible: set<string>, now: real)
      ensures State() == Start(setup, eligible, now)
    {
      this.setup, lanes, exposed := setup, [], None;
      wave, waveWidth, this.eligible, attempted, refreshUsed := 0, setup.width, eligible, {}, false;
      output, ending, delivered, answers, terminal := [], NotYet, {}, [], false;
      this.now, selectBy, expired, clientError := now, 0.0, false, false;
      pc := Top;
    }

    /** `_absorb_finished`. */
    method AbsorbFinished()
      modifies this`expired, this`clientError
      ensures State() == Absorb(old(State()))
    {
      var all := lanes;
      for i := 0 to |all|
        invariant expired == (old(expired) || SomeExpired(all[..i]))
        invariant clientError == (old(clientError) || SomeFaulted(all[..i]))
      {
        OneMoreLane(all, i);
        if all[i].stage.Broken? {
          if all[i].stage.verdict == Some(BudgetExpired) {
            expired := true;
          } else if ClientFault(all[i].stage.verdict) {
            clientError := true;
          }
        }
      }
      assert all[..|all|] == all;
    }

    /** The counts `_refill_free` makes over the lanes of the wave. */
    method CountWave() returns (done: nat, pending: nat)
      ensures done == DeliveredIn(lanes, wave, delivered) && pending == PendingIn(lanes, wave, delivered)
    {
      done, pending := 0, 0;
      for i := 0 to |lanes|
        invariant done == DeliveredIn(lanes[..i], wave, delivered) && pending == PendingIn(lanes[..i], wave, delivered)
      {
        assert lanes[..i + 1][..i] == lanes[..i];
        if lanes[i].wave == wave {
          if i in delivered {
            done := done + 1;
          } else if !Finished(lanes[i]) || HasAnswer(lanes[i]) {
            pending := pending + 1;
          }
        }
      }
      assert lanes[..|lanes|] == lanes;
    }

    /** `_refill_free` up to its await: how many lanes it asks the pool for, if any. */
    method Refill(ghost back: Back) returns (asked: Option<int>)
      modifies this`pc
      ensures State() == StartRefill(old(State()), back)
      ensures asked.Some? <==> pc.Refill?
      ensures asked.Some? ==> asked.value == pc.needed
    {
      pc := After(back);
      if expired || Buffered(lanes, delivered).Some? {
        return None;
      }
      var done, pending := CountWave();
      var needed := MaxInt(waveWidth - done, 0) - pending;
      if needed <= 0 {
        return None;
      }
      pc := Pc.Refill(needed, back);
      asked := Some(needed);
    }

    /** `_open`: one lane a model, in the order the pool gave them. */
    method Open(names: seq<string>)
      modifies this`lanes, this`attempted
      ensures State() == OpenLanes(old(State()), names)
    {
      hide SetOf;
      NothingOpened(names, wave);
      for i := 0 to |names|
        invariant lanes == old(lanes) + NewLanes(names[..i], wave)
        invariant attempted == old(attempted) + SetOf(names[..i])
      {
        OneMoreName(names, i, wave);
        lanes := lanes + [StreamLane(names[i], wave, [], 0, None, Running)];
        attempted := attempted + {names[i]};
      }
      assert names[..|names|] == names;
    }

    /** One delta of a lane handed to the reader. */
    method YieldFrom(i: nat, ghost at: Pc) returns (delta: string)
      requires i < |lanes| && lanes[i].sent < |lanes[i].deltas|
      modifies this`lanes, this`output, this`pc
      ensures State() == Yield(old(State()), i, at) && delta == old(lanes[i].deltas[lanes[i].sent])
    {
      var l := lanes[i];
      delta := l.deltas[l.sent];
      lanes := lanes[i := l.(sent := l.sent + 1)];
      output := output + [delta];
      pc := at;
    }

    method FinishInitial(winner: nat, how: Ending)
      modifies this`ending, this`delivered, this`pc
      ensures State() == CompleteInitial(old(State()), winner, how)
    {
      ending := how;
      delivered := delivered + {winner};
      pc := Idle;
    }

    /** One turn of the raced stream's loop; the delta it yields, if it yields one. */
    method RacedTurn() returns (delta: Option<string>)
      requires pc.Top? && setup.explicit
      modifies this
      ensures State() == ExplicitTurn(old(State()))
      ensures output == old(output) + if delta.Some? then [delta.value] else []
    {
      hide Winner, SomeExpired, SomeFaulted, AnyLive, Buffered, Needed;
      delta := None;
      AbsorbFinished();
      var winner := Winner(lanes, exposed);
      if winner.Some? && winner.value < |lanes| && Finished(lanes[winner.value]) {
        if exposed.None? || exposed == winner {
          exposed := winner;
          pc := Flush(winner.value);
        } else {
          FinishInitial(winner.value, Replaced(winner.value));
        }
        return;
      }
      if !AnyLive(lanes) {
        pc := if expired then Raised else Acquire(true);
        return;
      }
      if exposed.None? && lanes != [] {
        exposed := Race.Select(lanes, selectBy, now);
      }
      if exposed.Some? && exposed.value < |lanes| && lanes[exposed.value].sent < |lanes[exposed.value].deltas| {
        var yielded := YieldFrom(exposed.value, Top);
        return Some(yielded);
      }
      var _ := Refill(ToTop);
    }

    /** One turn of the winner's remaining text. */
    method FlushTurn(winner: nat) returns (delta: Option<string>)
      requires pc == Flush(winner)
      modifies this
      ensures State() == Steps.FlushTurn(old(State()), winner)
    {
      if winner < |lanes| && lanes[winner].sent < |lanes[winner].deltas| {
        var yielded := YieldFrom(winner, Flush(winner));
        return Some(yielded);
      }
      FinishInitial(winner, Whole(winner));
      delta := None;
    }

    /** One turn of the ordinary stream's wait for a first delta, up to its top-up. */
    method OrdinaryTurn()
      requires pc.Top? && !setup.explicit
      modifies this
      ensures State() == Steps.OrdinaryTurn(old(State()))
    {
      AbsorbFinished();
      if lanes != [] {
        var _ := Refill(ToSelect);
      } else {
        pc := Pc.Select;
      }
    }

    /** What follows the top-up: nothing live, and the pool is asked for more. */
    method AskOrPick()
      requires pc.Select?
      modifies this`pc
      ensures State() == SelectTurn(old(State()))
    {
      if !AnyLive(lanes) {
        pc := if expired then Raised else Acquire(true);
      } else {
        pc := Pick;
      }
    }

    /** The first delta of any lane decides who is read. */
    method PickFirst()
      requires pc.Pick?
      modifies this`pc, this`exposed
      ensures State() == PickTurn(old(State()))
    {
      var selected := FirstDelta(lanes);
      if selected.None? {
        pc := Top;
      } else {
        exposed, pc := selected, Visible;
      }
    }

    /** One turn of `_yield_visible`: the delta it takes, and the top-up in front of it. */
    method VisibleTurn() returns (delta: Option<string>)
      requires pc.Visible?
      modifies this
      ensures State() == Steps.VisibleTurn(old(State()))
    {
      delta := None;
      if exposed.None? || exposed.value >= |lanes| {
        return;
      }
      var e := exposed.value;
      var l := lanes[e];
      if l.sent < |l.deltas| {
        delta := Some(l.deltas[l.sent]);
        lanes := lanes[e := l.(sent := l.sent + 1)];
        var _ := Refill(ToHand(l.deltas[l.sent]));
      } else if !Finished(l) {
        var _ := Refill(ToVisible);
      } else if l.stage.Broken? {
        pc := Raised;
      } else {
        FinishInitial(e, Whole(e));
      }
    }

    method HandOver(delta: string)
      requires pc == Hand(delta)
      modifies this`output, this`pc
      ensures State() == HandTurn(old(State()), delta)
    {
      output, pc := output + [delta], Visible;
    }

    method DeliverLane(i: nat)
      modifies this`delivered, this`answers, this`pc
      ensures State() == Deliver(old(State()), i)
    {
      delivered := delivered + {i};
      answers := answers + [i];
      pc := Idle;
    }

    /** One turn of `another()`, up to its first await. */
    method NextTurn()
      requires pc.Next?
      modifies this
      ensures State() == Steps.NextTurn(old(State()))
    {
      AbsorbFinished();
      var lane := Buffered(lanes, delivered);
      if lane.None? {
        var _ := Refill(ToNext);
      } else if lane.value < |lanes| && Finished(lanes[lane.value]) {
        DeliverLane(lane.value);
      } else {
        pc := Delivering(lane.value);
      }
    }

    /** What follows its top-up: round again, no further answer, or wider. */
    method AfterTopUp(late: bool)
      requires pc.AfterRefill?
      modifies this`pc, this`terminal
      ensures State() == AfterRefillTurn(old(State()), late)
    {
      if Buffered(lanes, delivered).Some? || AnyLive(lanes) {
        pc := Next;
      } else if expired || late {
        if clientError || Crashed(lanes) {
          pc := Raised;
        } else {
          terminal, pc := true, Idle;
        }
      } else {
        pc := Acquire(false);
      }
    }

    /** Lanes the pool granted, opened as a new wave. */
    method OpenWave(names: seq<string>, initial: bool)
      requires pc == Acquire(initial) && names != [] && |names| <= MaxInt(setup.width, setup.recoveryWidth)
      requires Grantable(State(), names)
      modifies this
      ensures State() == GrantTurn(old(State()), names)
    {
      hide Grantable, NewLanes, SetOf, OpenLanes;
      wave := wave + 1;
      waveWidth := MaxInt(setup.width, |names|);
      assert State() == NewWave(old(State()), |names|);
      Open(names);
      ghost var grown := State();
      if initial && setup.explicit {
        var shut := now + setup.window;
        selectBy := if setup.answerDeadline.Some? then Min(shut, setup.answerDeadline.value) else shut;
      }
      if !initial {
        pc := Next;
        assert State() == grown.(pc := Next);
      } else if !setup.explicit {
        pc := Pick;
        assert State() == grown.(pc := Pick);
      } else {
        pc := Top;
        assert State() == grown.(pc := Top, clock := State().clock);
      }
    }
  }

  lemma OneMoreLane(lanes: seq<StreamLane>, i: nat)
    requires i < |lanes|
    ensures SomeExpired(lanes[..i + 1]) <==>
              SomeExpired(lanes[..i]) || (lanes[i].stage.Broken? && lanes[i].stage.verdict == Some(BudgetExpired))
    ensures SomeFaulted(lanes[..i + 1]) <==>
              SomeFaulted(lanes[..i]) || (lanes[i].stage.Broken? && ClientFault(lanes[i].stage.verdict))
  {
    var (before, after) := (lanes[..i], lanes[..i + 1]);
    assert after[i] == lanes[i] && forall j :: 0 <= j < i ==> after[j] == before[j];
  }

  lemma NothingOpened(names: seq<string>, wave: nat)
    ensures NewLanes(names[..0], wave) == [] && SetOf(names[..0]) == {}
  {}

  lemma OneMoreName(names: seq<string>, i: nat, wave: nat)
    requires i < |names|
    ensures NewLanes(names[..i + 1], wave) == NewLanes(names[..i], wave) + [StreamLane(names[i], wave, [], 0, None, Running)]
    ensures SetOf(names[..i + 1]) == SetOf(names[..i]) + {names[i]}
  {
    assert names[..i + 1] == names[..i] + [names[i]];
  }
}
