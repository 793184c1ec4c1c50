/** What holds of a routed call over every run. */
module RouteRuns {
  import opened Common
  import opened Verdicts
  import opened Models
  import opened Route
  import Pool

  // ---------------------------------------------------------------------
  // One wait's settlements
  // ---------------------------------------------------------------------

  ghost predicate LaneMoved(a: Round, b: Round, i: nat)
    requires i < |a.lanes| && |b.lanes| == |a.lanes|
  {
    var (x, y) := (a.lanes[i], b.lanes[i]);
    && y.name == x.name && y.race == x.race
    && (!x.state.Live? ==> y == x)
    && (x.state.Live? && y.state.Emptied? && Rejected(y.state.fate) ==> y.name in b.tally.clientFailed)
    && (x.state.Live? && y.state.Winner? ==> b.winner == Some(i))
    && (x.state.Live? && y.state.Superseded? ==> b.winner.Some?)
    && (x.state.Live? && y.state.Crashed? ==> b.crashed)
    && (x.state.Live? ==> !y.state.Abandoned? && !y.state.Lost?)
  }

  ghost predicate Progress(a: Round, b: Round) {
    && |b.lanes| == |a.lanes|
    && (forall i :: 0 <= i < |a.lanes| ==> LaneMoved(a, b, i))
    && a.tally.clientFailed <= b.tally.clientFailed
    && (b.winner.Some? ==>
          b.winner.value < |b.lanes| && b.lanes[b.winner.value].state.Winner? && a.lanes[b.winner.value].state.Live?)
    && (TallyOk(a.tally) ==> TallyOk(b.tally))
  }

  lemma AbsorbedKeeps(t: Tally, name: string, fate: Option<Fate>)
    requires TallyOk(t)
    ensures TallyOk(Absorbed(t, name, fate))
  {
    var after := Absorbed(t, name, fate);
    assert after.absorbed[..|after.absorbed| - 1] == t.absorbed;
  }

  lemma OneMoreLane(a: Round, b: Round, i: nat, end: End, k: nat)
    requires |b.lanes| == |a.lanes| && k < |a.lanes| && i < |a.lanes| && LaneMoved(a, b, k) && LaneMoved(a, b, i)
    requires b.lanes[i].state.Live? && !b.crashed
    ensures LaneMoved(a, SettleOne(b, i, end), k)
  {}

  lemma OneMoreTally(b: Round, i: nat, end: End)
    ensures b.tally.clientFailed <= SettleOne(b, i, end).tally.clientFailed
    ensures TallyOk(b.tally) ==> TallyOk(SettleOne(b, i, end).tally)
  {
    if i < |b.lanes| && !b.crashed && end.Fails? && TallyOk(b.tally) {
      AbsorbedKeeps(b.tally, b.lanes[i].name, end.fate);
    }
  }

  lemma OneMoreWinner(b: Round, i: nat, end: End)
    requires b.winner.Some? ==> b.winner.value < |b.lanes| && b.lanes[b.winner.value].state.Winner?
    ensures var c := SettleOne(b, i, end);
      && |c.lanes| == |b.lanes|
      && (c.winner.Some? ==> c.winner.value < |c.lanes| && c.lanes[c.winner.value].state.Winner?)
      && (c.winner == b.winner || (c.winner == Some(i) && i < |b.lanes| && b.lanes[i].state.Live?))
  {}

  lemma LiveBefore(a: Round, b: Round, i: nat)
    requires |b.lanes| == |a.lanes| && i < |a.lanes| && LaneMoved(a, b, i) && b.lanes[i].state.Live?
    ensures a.lanes[i].state.Live?
  {}

  lemma OneMore(a: Round, b: Round, i: nat, end: End)
    requires Progress(a, b) && a.winner.None? && i < |b.lanes| && b.lanes[i].state.Live? && !b.crashed
    ensures Progress(a, SettleOne(b, i, end))
  {
    hide LaneMoved, SettleOne, TallyOk;
    OneMoreTally(b, i, end);
    OneMoreWinner(b, i, end);
    assert LaneMoved(a, b, i);
    LiveBefore(a, b, i);
    forall k | 0 <= k < |a.lanes| ensures LaneMoved(a, SettleOne(b, i, end), k) {
      assert LaneMoved(a, b, k);
      OneMoreLane(a, b, i, end, k);
    }
  }

  lemma {:induction false} SettledProgress(a: Round, done: seq<(nat, End)>)
    requires a.winner.None?
    ensures Progress(a, Settled(a, done))
  {
    if done != [] {
      var (i, end) := done[|done| - 1];
      var b := Settled(a, done[..|done| - 1]);
      SettledProgress(a, done[..|done| - 1]);
      if i < |b.lanes| && b.lanes[i].state.Live? && !b.crashed {
        OneMore(a, b, i, end);
      }
    }
  }

  // ---------------------------------------------------------------------
  // Steps
  // ---------------------------------------------------------------------

  /** Names settled or live stay; nothing excluded comes back. */
  ghost predicate Advances(c: Call, d: Call) {
    && d.width == c.width && d.recoveryWidth == c.recoveryWidth
    && |c.lanes| <= |d.lanes|
    && (forall i :: 0 <= i < |c.lanes| ==>
          d.lanes[i].name == c.lanes[i].name && (!c.lanes[i].state.Live? ==> d.lanes[i] == c.lanes[i]))
    && c.tally.clientFailed <= d.tally.clientFailed
    && (forall i :: |c.lanes| <= i < |d.lanes| ==> d.lanes[i].name !in c.tally.clientFailed)
  }

  function RoundOf(c: Call, done: seq<(nat, End)>): Round { Settled(Round(c.lanes, c.tally, None, false), done) }

  /** What one wait does to one lane of the call; `first` is the lane that answered first. */
  ghost predicate LaneSettled(c: Call, t: Call, first: Option<nat>, i: nat)
    requires i < |c.lanes| && |t.lanes| == |c.lanes|
  {
    var (x, y) := (c.lanes[i], t.lanes[i]);
    && y.name == x.name && y.race == x.race
    && (!x.state.Live? ==> y == x)
    && (x.state.Live? && y.state.Emptied? && Rejected(y.state.fate) ==> y.name in t.tally.clientFailed)
    && (x.state.Live? && y.state.Winner? ==> t.phase == Answered(i))
    && (x.state.Live? && (y.state.Lost? || y.state.Crashed?) ==> t.phase == Raised(Crash))
    && (x.state.Live? && First(y) ==> first == Some(i))
    && (x.state.Live? && y.state.Superseded? ==> first.Some? && first.value < |t.lanes| && First(t.lanes[first.value]))
  }

  lemma DoneLane(c: Call, done: seq<(nat, End)>, i: nat)
    requires c.phase.Racing? && i < |c.lanes|
    ensures |DoneTurn(c, done).lanes| == |c.lanes| && LaneSettled(c, DoneTurn(c, done), RoundOf(c, done).winner, i)
  {
    hide Settled, Progress;
    var r0 := Round(c.lanes, c.tally, None, false);
    var r := Settled(r0, done);
    assert |r.lanes| == |c.lanes| && LaneMoved(r0, r, i) && (r.winner.Some? ==> WonLive(c, r)) by {
      SettledProgress(r0, done);
      SettledFacts(c, r, i);
    }
    if r.crashed {
      CrashedLane(c, r, i);
    } else {
      hide LaneMoved;
      EndedLane(c, r, i);
    }
  }

  predicate WonLive(c: Call, r: Round) {
    && r.winner.Some? && r.winner.value < |c.lanes| && |r.lanes| == |c.lanes|
    && c.lanes[r.winner.value].state.Live? && r.lanes[r.winner.value].state.Winner?
  }

  lemma SettledFacts(c: Call, r: Round, i: nat)
    requires Progress(Round(c.lanes, c.tally, None, false), r) && i < |c.lanes|
    ensures |r.lanes| == |c.lanes| && LaneMoved(Round(c.lanes, c.tally, None, false), r, i)
    ensures r.winner.Some? ==> WonLive(c, r)
  {
    hide LaneMoved, TallyOk;
  }

  lemma CrashedLane(c: Call, r: Round, i: nat)
    requires i < |c.lanes| == |r.lanes| && r.crashed && (r.winner.Some? ==> WonLive(c, r))
    requires LaneMoved(Round(c.lanes, c.tally, None, false), r, i)
    ensures LaneSettled(c, After(c, r), r.winner, i)
  {
    hide Rejected;
  }

  lemma EndedLane(c: Call, r: Round, i: nat)
    requires i < |c.lanes| == |r.lanes| && !r.crashed && (r.winner.Some? ==> WonLive(c, r))
    requires LaneMoved(Round(c.lanes, c.tally, None, false), r, i)
    ensures LaneSettled(c, After(c, r), r.winner, i)
  {
    hide Rejected;
  }

  lemma DoneWhole(c: Call, done: seq<(nat, End)>)
    requires c.phase.Racing? && TallyOk(c.tally)
    ensures var t := DoneTurn(c, done);
      && |t.lanes| == |c.lanes| && TallyOk(t.tally) && c.tally.clientFailed <= t.tally.clientFailed
      && t.race == c.race && t.width == c.width && t.recoveryWidth == c.recoveryWidth
      && (t.phase.Asking? ==> !AnyLive(t.lanes))
      && (t.phase.Answered? ==> t.phase.winner < |t.lanes| && t.lanes[t.phase.winner].state.Winner? && !AnyLive(t.lanes))
  {
    hide Settled, TallyOk;
    var r0 := Round(c.lanes, c.tally, None, false);
    SettledProgress(r0, done);
    var (r, t) := (Settled(r0, done), DoneTurn(c, done));
    if r.crashed {
      assert t.tally == r.tally;
    } else if r.winner.Some? {
      assert !AnyLive(t.lanes);
    } else {
      assert t.lanes == r.lanes;
    }
  }

  lemma SettledLanesOk(c: Call, t: Call, first: Option<nat>)
    requires Inv(c) && |t.lanes| == |c.lanes| && t.race == c.race && c.tally.clientFailed <= t.tally.clientFailed
    requires forall i :: 0 <= i < |c.lanes| ==> LaneSettled(c, t, first, i)
    requires t.phase.Asking? ==> !AnyLive(t.lanes)
    ensures LanesOk(t) && ExclusionOk(t)
  {
    forall i | 0 <= i < |t.lanes|
      ensures t.lanes[i].name == c.lanes[i].name && t.lanes[i].race == c.lanes[i].race
      ensures !c.lanes[i].state.Live? ==> t.lanes[i] == c.lanes[i]
      ensures t.lanes[i].state.Emptied? && Rejected(t.lanes[i].state.fate) ==> t.lanes[i].name in t.tally.clientFailed
    {
      assert LaneSettled(c, t, first, i);
    }
  }

  lemma SettledWinnerOk(c: Call, t: Call, first: Option<nat>)
    requires WinnerOk(c) && c.phase.Racing? && |t.lanes| == |c.lanes|
    requires forall i :: 0 <= i < |c.lanes| ==> LaneSettled(c, t, first, i)
    requires t.phase.Answered? ==> t.phase.winner < |t.lanes| && t.lanes[t.phase.winner].state.Winner? && !AnyLive(t.lanes)
    ensures WinnerOk(t)
  {
    forall i | 0 <= i < |t.lanes|
      ensures t.lanes[i].state.Winner? ==> t.phase == Answered(i)
      ensures t.lanes[i].state.Lost? || t.lanes[i].state.Crashed? ==> t.phase == Raised(Crash)
      ensures First(t.lanes[i]) ==> first == Some(i)
      ensures t.lanes[i].state.Superseded? ==> exists j :: 0 <= j < |t.lanes| && First(t.lanes[j])
    {
      assert LaneSettled(c, t, first, i);
      NothingDecided(c, i);
    }
  }

  predicate Undecided(l: Lane) { !First(l) && !l.state.Crashed? && !l.state.Superseded? }

  /** Until the call ends, nothing is decided; and where nothing is, nothing is wrong. */
  lemma NothingDecided(c: Call, i: nat)
    requires WinnerOk(c) && !c.phase.Answered? && !c.phase.Raised? && i < |c.lanes|
    ensures Undecided(c.lanes[i])
  {}

  lemma UndecidedIsOk(t: Call)
    requires !t.phase.Answered? && forall i :: 0 <= i < |t.lanes| ==> Undecided(t.lanes[i])
    ensures WinnerOk(t)
  {}

  lemma NewLanesUndecided(c: Call, names: seq<string>, race: nat)
    requires WinnerOk(c) && !c.phase.Answered? && !c.phase.Raised?
    ensures var lanes := c.lanes + NewLanes(names, race); forall i :: 0 <= i < |lanes| ==> Undecided(lanes[i])
  {
    hide WinnerOk;
    forall i | 0 <= i < |c.lanes| ensures Undecided(c.lanes[i]) { NothingDecided(c, i); }
  }

  lemma DoneKeeps(c: Call, done: seq<(nat, End)>)
    requires Inv(c) && c.phase.Racing?
    ensures Inv(DoneTurn(c, done)) && Advances(c, DoneTurn(c, done))
  {
    hide DoneTurn, LanesOk, ExclusionOk, WinnerOk;
    var (t, first) := (DoneTurn(c, done), RoundOf(c, done).winner);
    DoneWhole(c, done);
    forall i | 0 <= i < |c.lanes| ensures LaneSettled(c, t, first, i) { DoneLane(c, done, i); }
    SettledLanesOk(c, t, first);
    SettledWinnerOk(c, t, first);
    SettledAdvances(c, t, first);
  }

  lemma SettledAdvances(c: Call, t: Call, first: Option<nat>)
    requires |t.lanes| == |c.lanes| && t.width == c.width && t.recoveryWidth == c.recoveryWidth
    requires c.tally.clientFailed <= t.tally.clientFailed
    requires forall i :: 0 <= i < |c.lanes| ==> LaneSettled(c, t, first, i)
    ensures Advances(c, t)
  {
    forall i | 0 <= i < |c.lanes|
      ensures t.lanes[i].name == c.lanes[i].name && (!c.lanes[i].state.Live? ==> t.lanes[i] == c.lanes[i])
    {
      assert LaneSettled(c, t, first, i);
    }
  }

  lemma GrantDecidesNothing(c: Call, names: seq<string>)
    requires WinnerOk(c) && Grantable(c, names)
    ensures WinnerOk(Apply(c, Granted(names)))
  {
    hide WinnerOk, Undecided, Grantable;
    var t := Apply(c, Granted(names));
    assert c.phase.Asking? by { AskingIfGrantable(c, names); }
    NewLanesUndecided(c, names, c.race + 1);
    assert t.lanes == c.lanes + NewLanes(names, c.race + 1);
    UndecidedIsOk(t);
  }

  lemma AskingIfGrantable(c: Call, names: seq<string>)
    requires Grantable(c, names)
    ensures c.phase.Asking?
  {}

  lemma GrantKeeps(c: Call, names: seq<string>)
    requires Inv(c)
    ensures Inv(Apply(c, Granted(names))) && Advances(c, Apply(c, Granted(names)))
  {
    hide WinnerOk;
    if Grantable(c, names) {
      var t := Apply(c, Granted(names));
      forall i | |c.lanes| <= i < |t.lanes|
        ensures t.lanes[i] == Lane(names[i - |c.lanes|], c.race + 1, Live) && names[i - |c.lanes|] in names
      {}
      assert WinnerOk(t) by { GrantDecidesNothing(c, names); }
    }
  }

  lemma RefillNames(c: Call, names: seq<string>)
    requires LanesOk(c) && Refillable(c, names)
    ensures LanesOk(c.(lanes := c.lanes + NewLanes(names, c.race), phase := Racing))
  {
    var t := c.(lanes := c.lanes + NewLanes(names, c.race), phase := Racing);
    forall i | |c.lanes| <= i < |t.lanes|
      ensures t.lanes[i] == Lane(names[i - |c.lanes|], c.race, Live) && names[i - |c.lanes|] in names
    {}
    forall i, j | 0 <= i < j < |t.lanes| && t.lanes[i].race == t.lanes[j].race ensures t.lanes[i].name != t.lanes[j].name {
      if i < |c.lanes| <= j {
        assert c.lanes[i].name in OpenedIn(c.lanes, c.race);
      }
    }
  }

  lemma RefillLanes(c: Call, names: seq<string>)
    requires Inv(c) && Refillable(c, names)
    ensures var t := c.(lanes := c.lanes + NewLanes(names, c.race), phase := Racing);
      Inv(t) && Advances(c, t)
  {
    var t := c.(lanes := c.lanes + NewLanes(names, c.race), phase := Racing);
    RefillNames(c, names);
    forall i | |c.lanes| <= i < |t.lanes|
      ensures t.lanes[i] == Lane(names[i - |c.lanes|], c.race, Live) && names[i - |c.lanes|] in names
    {}
    hide LanesOk, WinnerOk;
    assert ExclusionOk(t);
    NewLanesUndecided(c, names, c.race);
    UndecidedIsOk(t);
  }

  lemma NextRoundKeeps(c: Call)
    requires Inv(c) && c.phase.Racing?
    ensures Inv(NextRound(c)) && NextRound(c).lanes == c.lanes && NextRound(c).tally == c.tally
  {
    hide WinnerOk;
    forall i | 0 <= i < |c.lanes| ensures Undecided(c.lanes[i]) { NothingDecided(c, i); }
    UndecidedIsOk(NextRound(c));
  }

  lemma RefillKeeps(c: Call, names: seq<string>)
    requires Inv(c)
    ensures Inv(Apply(c, Refilled(names))) && Advances(c, Apply(c, Refilled(names)))
  {
    if Refillable(c, names) {
      RefillLanes(c, names);
      var t := c.(lanes := c.lanes + NewLanes(names, c.race), phase := Racing);
      NextRoundKeeps(t);
      assert NextRound(c.(lanes := t.lanes)) == NextRound(t);
    }
  }

  lemma BrokeKeeps(c: Call)
    requires Inv(c) && (c.phase.Racing? || c.phase.Refilling?)
    ensures Inv(Apply(c, Broke)) && Advances(c, Apply(c, Broke))
  {
    hide WinnerOk;
    var t := Apply(c, Broke);
    forall i | 0 <= i < |c.lanes|
      ensures t.lanes[i].name == c.lanes[i].name && t.lanes[i].race == c.lanes[i].race
      ensures t.lanes[i] == c.lanes[i] || t.lanes[i].state.Abandoned?
      ensures !t.lanes[i].state.Live?
    {}
    assert LanesOk(t);
    assert ExclusionOk(t);
    forall i | 0 <= i < |t.lanes| ensures Undecided(t.lanes[i]) { NothingDecided(c, i); }
    UndecidedIsOk(t);
  }

  lemma RaisedKeeps(c: Call, e: Event)
    requires Inv(c) && (e.Refused? || e.Timeout?)
    ensures Inv(Apply(c, e)) && Advances(c, Apply(c, e))
  {
    var t := Apply(c, e);
    assert t.lanes == c.lanes && t.tally == c.tally && t.race == c.race;
    assert WinnerOk(t);
  }

  lemma ApplyKeeps(c: Call, e: Event)
    requires Inv(c)
    ensures Inv(Apply(c, e)) && Advances(c, Apply(c, e))
  {
    hide Inv;
    match e
    case Granted(names) => GrantKeeps(c, names);
    case Done(done) => if c.phase.Racing? && Batch(c, done) { DoneKeeps(c, done); }
    case Refilled(names) => RefillKeeps(c, names);
    case Broke =>
      if c.phase.Racing? || c.phase.Refilling? {
        BrokeKeeps(c);
      }
    case _ => RaisedKeeps(c, e);
  }

  lemma {:induction false} RunKeeps(width: nat, recoveryWidth: nat, events: seq<Event>)
    ensures Inv(StateAfter(width, recoveryWidth, events))
    decreases |events|
  {
    hide Inv;
    if events != [] {
      RunKeeps(width, recoveryWidth, events[..|events| - 1]);
      ApplyKeeps(StateAfter(width, recoveryWidth, events[..|events| - 1]), events[|events| - 1]);
    } else {
      StartKeeps(width, recoveryWidth);
    }
  }

  lemma StartKeeps(width: nat, recoveryWidth: nat)
    ensures Inv(Start(width, recoveryWidth))
  {}

  lemma {:induction false} RunAdvances(width: nat, recoveryWidth: nat, events: seq<Event>, more: seq<Event>)
    ensures Advances(StateAfter(width, recoveryWidth, events), StateAfter(width, recoveryWidth, events + more))
    decreases |more|
  {
    hide Inv, Apply;
    if more == [] {
      assert events + more == events;
    } else {
      var all := events + more;
      assert all[..|all| - 1] == events + more[..|more| - 1];
      RunAdvances(width, recoveryWidth, events, more[..|more| - 1]);
      RunKeeps(width, recoveryWidth, all[..|all| - 1]);
      ApplyKeeps(StateAfter(width, recoveryWidth, all[..|all| - 1]), all[|all| - 1]);
    }
  }

  // ---------------------------------------------------------------------
  // Main results
  // ---------------------------------------------------------------------

  /** A model whose attempt was rejected is never opened again by the call. */
  lemma RejectedIsNeverReopened(width: nat, recoveryWidth: nat, events: seq<Event>, more: seq<Event>, i: nat, j: nat)
    requires var (c, d) := (StateAfter(width, recoveryWidth, events), StateAfter(width, recoveryWidth, events + more));
      && i < |c.lanes| && c.lanes[i].state.Emptied? && Rejected(c.lanes[i].state.fate)
      && |c.lanes| <= j < |d.lanes|
    ensures StateAfter(width, recoveryWidth, events + more).lanes[j].name != StateAfter(width, recoveryWidth, events).lanes[i].name
  {
    RunAdvances(width, recoveryWidth, events, more);
    RunKeeps(width, recoveryWidth, events);
  }

  /** Over every run at most one lane answers first. It is the call's winner and nobody is
      live beside it, or its answer went down with a sibling's exception that the call raised;
      and a lane is superseded by nothing but such a one. */
  lemma OneWinner(width: nat, recoveryWidth: nat, events: seq<Event>)
    ensures var c := StateAfter(width, recoveryWidth, events);
      && (forall i, j :: 0 <= i < j < |c.lanes| ==> !(First(c.lanes[i]) && First(c.lanes[j])))
      && ((exists i :: 0 <= i < |c.lanes| && c.lanes[i].state.Winner?) <==> c.phase.Answered?)
      && (c.phase.Answered? ==> !AnyLive(c.lanes))
      && (forall i :: 0 <= i < |c.lanes| && c.lanes[i].state.Lost? ==> c.phase == Raised(Crash))
      && (forall i :: 0 <= i < |c.lanes| && c.lanes[i].state.Superseded? ==>
            exists j :: 0 <= j < |c.lanes| && First(c.lanes[j]))
  {
    RunKeeps(width, recoveryWidth, events);
  }

  predicate AnAnswer(done: seq<(nat, End)>) { exists k :: 0 <= k < |done| && done[k].1.Answers? }

  predicate ACrash(done: seq<(nat, End)>) { exists k :: 0 <= k < |done| && done[k].1.Crashes? }

  /** How far one wait's settlements have got: who is still live, and which entry won. */
  ghost predicate HalfDone(c: Call, done: seq<(nat, End)>, k: nat, r: Round)
    requires k <= |done|
  {
    && |r.lanes| == |c.lanes|
    && (r.crashed <==> ACrash(done[..k]))
    && (!r.crashed ==> (r.winner.Some? <==> AnAnswer(done[..k])))
    && (r.winner.Some? ==> exists j :: 0 <= j < k && FirstAnswer(done, j) && done[j].0 == r.winner.value)
    && (!r.crashed ==> forall j :: k <= j < |done| ==> done[j].0 < |r.lanes| && r.lanes[done[j].0].state.Live?)
  }

  predicate FirstAnswer(done: seq<(nat, End)>, j: nat) {
    j < |done| && done[j].1.Answers? && forall i :: 0 <= i < j ==> done[i].1.Fails?
  }

  lemma {:induction false} SettlesInOrder(c: Call, done: seq<(nat, End)>, k: nat)
    requires Batch(c, done) && k <= |done|
    ensures HalfDone(c, done, k, Settled(Round(c.lanes, c.tally, None, false), done[..k]))
    decreases k
  {
    if k > 0 {
      var r0 := Round(c.lanes, c.tally, None, false);
      SettlesInOrder(c, done, k - 1);
      assert done[..k][..k - 1] == done[..k - 1];
      OneMoreSettled(c, done, k - 1, Settled(r0, done[..k - 1]));
    }
  }

  lemma PrefixKinds(done: seq<(nat, End)>, k: nat)
    requires k < |done|
    ensures AnAnswer(done[..k + 1]) <==> AnAnswer(done[..k]) || done[k].1.Answers?
    ensures ACrash(done[..k + 1]) <==> ACrash(done[..k]) || done[k].1.Crashes?
  {
    assert done[..k + 1] == done[..k] + [done[k]];
    assert done[..k + 1][k] == done[k];
    assert forall j :: 0 <= j < k ==> done[..k + 1][j] == done[..k][j];
  }

  lemma OneMoreSettled(c: Call, done: seq<(nat, End)>, k: nat, r: Round)
    requires Batch(c, done) && k < |done| && HalfDone(c, done, k, r)
    ensures HalfDone(c, done, k + 1, SettleOne(r, done[k].0, done[k].1))
  {
    hide AnAnswer, ACrash;
    PrefixKinds(done, k);
    if !r.crashed && done[k].1.Answers? && r.winner.None? {
      NoneYet(done, k);
      assert FirstAnswer(done, k);
    }
  }

  lemma NoneYet(done: seq<(nat, End)>, k: nat)
    requires k <= |done| && !AnAnswer(done[..k]) && !ACrash(done[..k])
    ensures forall i :: 0 <= i < k ==> done[i].1.Fails?
  {
    forall i | 0 <= i < k ensures done[i].1.Fails? { assert done[..k][i] == done[i]; }
  }

  /** What one wait decides. The call is answered exactly when some lane answered and none
      crashed, and then by the first in the order they were opened; a crash in the same wait
      is raised whatever its place, so an answer found beside one is lost. */
  lemma AnsweredUnlessACrash(c: Call, done: seq<(nat, End)>)
    requires c.phase.Racing? && Batch(c, done)
    ensures var phase := Apply(c, Done(done)).phase;
      && (phase.Answered? <==> AnAnswer(done) && !ACrash(done))
      && (phase == Raised(Crash) <==> ACrash(done))
      && (phase.Answered? ==> exists j: nat :: FirstAnswer(done, j) && phase.winner == done[j].0)
  {
    hide Settled, AnAnswer, ACrash;
    SettlesInOrder(c, done, |done|);
    assert done[..|done|] == done;
  }

  /** Two lanes end in one wait, the first with an answer and the second by crashing: the
      answer is lost. */
  lemma AnswerCanBeLost()
    ensures var c := StateAfter(2, 1, [Granted(["a", "b"]), Done([(0, Answers), (1, Crashes)])]);
      |c.lanes| == 2 && c.lanes[0].state.Lost? && c.lanes[1].state.Crashed? && c.phase == Raised(Crash)
  {
    hide Apply;
    var grant := Granted(["a", "b"]);
    RunTwo(Start(2, 1), grant, Done([(0, Answers), (1, Crashes)]));
    TwoOpen();
    LosesOne(Apply(Start(2, 1), grant));
  }

  lemma RunTwo(c: Call, e: Event, f: Event)
    ensures Run(c, [e, f]) == Apply(Apply(c, e), f)
  {
    hide Apply;
    assert [e, f][..1] == [e];
    assert Run(c, [e][..0]) == c;
    assert Run(c, [e]) == Apply(c, e);
  }

  lemma TwoOpen()
    ensures OpensTwo(Apply(Start(2, 1), Granted(["a", "b"])))
  {
    assert ["a", "b"][1..] == ["b"];
    assert Grantable(Start(2, 1), ["a", "b"]);
  }

  predicate OpensTwo(c: Call) { c.phase.Racing? && c.lanes == [Lane("a", 1, Live), Lane("b", 1, Live)] }

  lemma LosesOne(c: Call)
    requires OpensTwo(c)
    ensures var t := Apply(c, Done([(0, Answers), (1, Crashes)]));
      |t.lanes| == 2 && t.lanes[0].state.Lost? && t.lanes[1].state.Crashed? && t.phase == Raised(Crash)
  {
    var done: seq<(nat, End)> := [(0, Answers), (1, Crashes)];
    var r0 := Round(c.lanes, c.tally, None, false);
    var one := done[..1];
    assert one[0] == (0, Answers) && |one[..|one| - 1]| == 0;
    var r1 := SettleOne(r0, 0, Answers);
    assert Settled(r0, done[..1]) == r1;
    assert r1.lanes == [Lane("a", 1, Winner), Lane("b", 1, Live)];
    assert Settled(r0, done) == SettleOne(r1, 1, Crashes);
  }

  ghost predicate AllRejected(lanes: seq<Lane>) {
    forall i :: 0 <= i < |lanes| && !lanes[i].state.Live? ==> lanes[i].state.Emptied? && Rejected(lanes[i].state.fate)
  }

  function Names(lanes: seq<Lane>): set<string> { set i | 0 <= i < |lanes| :: lanes[i].name }

  /** While every candidate rejects, no model is opened twice, so a call makes no more
      attempts than the pool has members. */
  lemma EveryCandidateOnce(width: nat, recoveryWidth: nat, events: seq<Event>, members: set<string>)
    requires var c := StateAfter(width, recoveryWidth, events); AllRejected(c.lanes) && Names(c.lanes) <= members
    ensures var c := StateAfter(width, recoveryWidth, events);
      (forall i, j :: 0 <= i < j < |c.lanes| ==> c.lanes[i].name != c.lanes[j].name) && |c.lanes| <= |members|
  {
    var c := StateAfter(width, recoveryWidth, events);
    RunKeeps(width, recoveryWidth, events);
    RacesAscend(width, recoveryWidth, events);
    forall i, j | 0 <= i < j < |c.lanes| ensures c.lanes[i].name != c.lanes[j].name {
      assert c.lanes[i].race <= c.lanes[j].race;
    }
    NamesCount(c.lanes);
    SubsetIsSmaller(Names(c.lanes), members);
  }

  lemma {:induction false} RacesAscend(width: nat, recoveryWidth: nat, events: seq<Event>)
    ensures var c := StateAfter(width, recoveryWidth, events);
      forall i, j :: 0 <= i < j < |c.lanes| ==> c.lanes[i].race <= c.lanes[j].race
    decreases |events|
  {
    if events != [] {
      var (rest, e) := (events[..|events| - 1], events[|events| - 1]);
      RacesAscend(width, recoveryWidth, rest);
      RunKeeps(width, recoveryWidth, rest);
      RacesStep(StateAfter(width, recoveryWidth, rest), e);
    }
  }

  lemma DoneRaces(c: Call, done: seq<(nat, End)>)
    requires c.phase.Racing?
    ensures |DoneTurn(c, done).lanes| == |c.lanes|
    ensures forall i :: 0 <= i < |c.lanes| ==> DoneTurn(c, done).lanes[i].race == c.lanes[i].race
  {
    hide DoneTurn;
    SameLength(c, done);
    forall i | 0 <= i < |c.lanes| ensures DoneTurn(c, done).lanes[i].race == c.lanes[i].race { DoneLane(c, done, i); }
  }

  lemma SameLength(c: Call, done: seq<(nat, End)>)
    ensures |DoneTurn(c, done).lanes| == |c.lanes|
  {
    hide Settled;
    SettledProgress(Round(c.lanes, c.tally, None, false), done);
  }

  lemma RacesStep(c: Call, e: Event)
    requires LanesOk(c) && forall i, j :: 0 <= i < j < |c.lanes| ==> c.lanes[i].race <= c.lanes[j].race
    ensures var d := Apply(c, e); forall i, j :: 0 <= i < j < |d.lanes| ==> d.lanes[i].race <= d.lanes[j].race
  {
    var d := Apply(c, e);
    if e.Done? && c.phase.Racing? && Batch(c, e.done) {
      DoneRaces(c, e.done);
    }
  }

  lemma {:induction false} NamesCount(lanes: seq<Lane>)
    requires forall i, j :: 0 <= i < j < |lanes| ==> lanes[i].name != lanes[j].name
    ensures |Names(lanes)| == |lanes|
  {
    if lanes != [] {
      var last := |lanes| - 1;
      NamesCount(lanes[..last]);
      assert Names(lanes) == Names(lanes[..last]) + {lanes[last].name};
    }
  }

  // How wide a call gets.

  ghost predicate WidthOk(c: Call) {
    && LiveCount(c.lanes) <= c.raceWidth <= MaxInt(c.width, c.recoveryWidth)
    && (c.phase.Refilling? ==> LiveCount(c.lanes) + c.phase.needed == c.raceWidth)
  }

  lemma {:induction false} NobodyLive(lanes: seq<Lane>)
    requires !AnyLive(lanes)
    ensures LiveCount(lanes) == 0
  {
    if lanes != [] {
      assert !lanes[|lanes| - 1].state.Live?;
      assert forall i :: 0 <= i < |lanes| - 1 ==> lanes[..|lanes| - 1][i] == lanes[i];
      NobodyLive(lanes[..|lanes| - 1]);
    }
  }

  lemma {:induction false} LiveUpdate(lanes: seq<Lane>, i: nat, l: Lane)
    requires i < |lanes| && lanes[i].state.Live? && !l.state.Live?
    ensures LiveCount(lanes[i := l]) == LiveCount(lanes) - 1
  {
    var (last, after) := (|lanes| - 1, lanes[i := l]);
    if i == last {
      assert after[..last] == lanes[..last];
    } else {
      assert after[..last] == lanes[..last][i := l];
      LiveUpdate(lanes[..last], i, l);
    }
  }

  lemma {:induction false} LiveAppend(lanes: seq<Lane>, more: seq<Lane>)
    requires forall i :: 0 <= i < |more| ==> more[i].state.Live?
    ensures LiveCount(lanes + more) == LiveCount(lanes) + |more|
  {
    if more == [] {
      assert lanes + more == lanes;
    } else {
      var all := lanes + more;
      assert all[..|all| - 1] == lanes + more[..|more| - 1];
      LiveAppend(lanes, more[..|more| - 1]);
    }
  }

  lemma {:induction false} SettledLive(r: Round, done: seq<(nat, End)>)
    ensures LiveCount(Settled(r, done).lanes) <= LiveCount(r.lanes)
  {
    if done != [] {
      var (before, last) := (Settled(r, done[..|done| - 1]), done[|done| - 1]);
      SettledLive(r, done[..|done| - 1]);
      if last.0 < |before.lanes| && before.lanes[last.0].state.Live? && !before.crashed {
        var after := SettleOne(before, last.0, last.1);
        assert after.lanes == before.lanes[last.0 := after.lanes[last.0]];
        LiveUpdate(before.lanes, last.0, after.lanes[last.0]);
      }
    }
  }

  lemma DoneWidth(c: Call, done: seq<(nat, End)>)
    requires WidthOk(c) && c.phase.Racing?
    ensures WidthOk(DoneTurn(c, done))
  {
    hide Settled;
    var r := Settled(Round(c.lanes, c.tally, None, false), done);
    SettledLive(Round(c.lanes, c.tally, None, false), done);
    if r.crashed {
      NobodyLive(Close(Unwon(r.lanes, r.winner), Abandoned));
    } else if r.winner.Some? {
      NobodyLive(Close(r.lanes, Superseded));
    }
  }

  lemma OpenedWidth(c: Call, names: seq<string>, race: nat)
    ensures LiveCount(c.lanes + NewLanes(names, race)) == LiveCount(c.lanes) + |names|
  {
    LiveAppend(c.lanes, NewLanes(names, race));
  }

  lemma OpeningWidth(c: Call, e: Event)
    requires LanesOk(c) && WidthOk(c) && (e.Granted? || e.Refilled?)
    ensures WidthOk(Apply(c, e))
  {
    hide LiveCount, Clear, Simple, OpenedIn;
    match e
    case Granted(names) =>
      if Grantable(c, names) {
        NobodyLive(c.lanes);
        OpenedWidth(c, names, c.race + 1);
      }
    case Refilled(names) =>
      if Refillable(c, names) {
        OpenedWidth(c, names, c.race);
      }
  }

  lemma EndingWidth(c: Call, e: Event)
    requires WidthOk(c) && (e.Refused? || e.Timeout? || e.Broke?)
    ensures WidthOk(Apply(c, e))
  {
    hide LiveCount;
    NobodyLive(Close(c.lanes, Abandoned));
  }

  lemma WidthStep(c: Call, e: Event)
    requires LanesOk(c) && WidthOk(c)
    ensures WidthOk(Apply(c, e))
  {
    hide WidthOk, LanesOk;
    match e
    case Done(done) => if c.phase.Racing? && Batch(c, done) { DoneWidth(c, done); }
    case _ => if e.Granted? || e.Refilled? { OpeningWidth(c, e); } else { EndingWidth(c, e); }
  }

  /** A call never has more attempts live than its widest race may have, and a refill fills a
      race back to its width and no further. */
  lemma {:induction false} NeverWiderThanTheRace(width: nat, recoveryWidth: nat, events: seq<Event>)
    ensures var c := StateAfter(width, recoveryWidth, events);
      && LiveCount(c.lanes) <= c.raceWidth <= MaxInt(width, recoveryWidth)
      && (c.phase.Refilling? ==> LiveCount(c.lanes) + c.phase.needed == c.raceWidth)
    decreases |events|
  {
    if events != [] {
      var rest := events[..|events| - 1];
      NeverWiderThanTheRace(width, recoveryWidth, rest);
      RunKeeps(width, recoveryWidth, rest);
      RunAdvances(width, recoveryWidth, [], rest);
      assert [] + rest == rest;
      WidthStep(StateAfter(width, recoveryWidth, rest), events[|events| - 1]);
      RunAdvances(width, recoveryWidth, [], events);
      assert [] + events == events;
    }
  }

  /** The error in hand is the newest client error of all the call has absorbed. */
  lemma NewestErrorIsInHand(width: nat, recoveryWidth: nat, events: seq<Event>)
    ensures var t := StateAfter(width, recoveryWidth, events).tally; t.lastClientError == NewestError(t.absorbed)
  {
    RunKeeps(width, recoveryWidth, events);
  }

  /** When every model the caller could be given has rejected the request, the pool refuses
      at once as "excluded", and the call raises the newest client error, or that reason
      where no rejection carried one. */
  lemma ExhaustionRaises(c: Call, p: Pool.PoolState, ask: Pool.Ask, d: Pool.Demand, queueDeadline: Option<real>, mono: real)
    requires Inv(c) && c.phase.Asking? && c.width >= 1 && Pool.WellFormed(p)
    requires ask.exclude == c.tally.clientFailed
    requires forall n :: n in p.slots && Pool.Admits(p.slots[n], ask.(exclude := {})) ==> n in c.tally.clientFailed
    requires c.tally.clientFailed * p.slots.Keys != {}
    ensures Pool.AcquireTurn(p, ask, c.width, c.recoveryWidth, d, queueDeadline, mono) == (p, Pool.Exhausted(Pool.Excluded))
    ensures Apply(c, Refused(Pool.Excluded)).phase ==
            Raised(match NewestError(c.tally.absorbed)
                   case Some(error) => ClientFault(error)
                   case None => NoModel(Pool.Excluded))
  {
    Pool.CandidatesAre(p, ask);
    Pool.ReservationGrants(p, ask, c.width, c.recoveryWidth, d);
  }

  /** A reservation made for this call, excluding what rejected it, is one it may open. */
  lemma ReservationsAreGrantable(c: Call, p: Pool.PoolState, ask: Pool.Ask, d: Pool.Demand, names: seq<string>)
    requires c.phase.Asking? && c.width >= 1 && Pool.WellFormed(p) && c.tally.clientFailed <= ask.exclude
    requires var best := Pool.Choice(p, ask, c.width, c.recoveryWidth, d);
      |names| == |best| > 0 && forall i :: 0 <= i < |names| ==> names[i] == best[i].config.name
    ensures Grantable(c, names)
  {
    hide Pool.Choice, Pool.WellFormed, Pool.IsFree;
    Pool.ReservationGrants(p, ask, c.width, c.recoveryWidth, d);
    var best := Pool.Choice(p, ask, c.width, c.recoveryWidth, d);
    assert forall i :: 0 <= i < |names| ==> best[i] in best;
  }

  /** What `_untried` takes to refill a race, excluding what the race has opened and what
      rejected the call, is something its machine may open. */
  lemma RefillsAreRefillable(c: Call, p: Pool.PoolState, ask: Pool.Ask, d: Pool.Demand, names: seq<string>)
    requires c.phase.Refilling? && Pool.WellFormed(p)
    requires c.tally.clientFailed + OpenedIn(c.lanes, c.race) <= ask.exclude
    requires if c.phase.needed <= 0 then names == []
             else
               var best := Pool.Choice(p, ask, c.phase.needed, 1, d);
               |names| == |best| && forall i :: 0 <= i < |names| ==> names[i] == best[i].config.name
    ensures Refillable(c, names)
  {
    hide Pool.Choice, Pool.WellFormed, Pool.IsFree, OpenedIn;
    if c.phase.needed > 0 {
      Pool.ReservationGrants(p, ask, c.phase.needed, 1, d);
      var best := Pool.Choice(p, ask, c.phase.needed, 1, d);
      assert forall i :: 0 <= i < |names| ==> best[i] in best;
    }
  }
}
