/** What every reachable state of a routed stream satisfies, whatever the order of lane
    progress, pool answers and reader pulls. */
module StreamSafety {
  import opened Common
  import opened Verdicts
  import opened Race
  import opened Stream

  // ---------------------------------------------------------------------
  // The invariant, part by part
  // ---------------------------------------------------------------------

  ghost predicate LaneOk(l: StreamLane, now: real) {
    && l.sent <= |l.deltas|
    && (l.firstAt.Some? <==> l.deltas != []) && (l.firstAt.Some? ==> l.firstAt.value <= now)
    && (HasAnswer(l) ==> l.deltas != [] && l.stage.at <= now)
  }

  ghost predicate LanesOk(s: Stream) {
    && (forall i :: 0 <= i < |s.lanes| ==> LaneOk(s.lanes[i], s.clock.now))
    && (s.exposed.Some? ==> s.exposed.value < |s.lanes|)
    && (forall i :: 0 <= i < |s.lanes| && s.exposed != Some(i) ==> s.lanes[i].sent == 0)
  }

  ghost predicate NamesOk(s: Stream) {
    && (forall i, j :: 0 <= i < j < |s.lanes| ==> s.lanes[i].name != s.lanes[j].name)
    && s.opening.attempted == (set i | 0 <= i < |s.lanes| :: s.lanes[i].name)
    && s.opening.attempted <= s.opening.eligible
  }

  /** Lanes of the wave that count against its width. */
  function Used(lanes: seq<StreamLane>, wave: nat): nat {
    if lanes == [] then 0
    else
      var last := |lanes| - 1;
      Used(lanes[..last], wave) + if lanes[last].wave == wave && !lanes[last].stage.Broken? then 1 else 0
  }

  ghost predicate WavesOk(s: Stream) {
    && (forall i :: 0 <= i < |s.lanes| ==> s.lanes[i].wave <= s.opening.wave)
    && (forall i :: 0 <= i < |s.lanes| && s.lanes[i].wave < s.opening.wave ==> Finished(s.lanes[i]))
    && Used(s.lanes, s.opening.wave) <= s.opening.waveWidth <= MaxInt(s.setup.width, s.setup.recoveryWidth)
    && (s.pc.Refill? ==> Used(s.lanes, s.opening.wave) + s.pc.needed <= s.opening.waveWidth)
    && (s.pc.Acquire? ==> !AnyLive(s.lanes))
  }

  /** A delta taken from its lane and not with the reader yet. */
  function InHand(pc: Pc): seq<string> {
    match pc
    case Hand(delta) => [delta]
    case Refill(_, ToHand(delta)) => [delta]
    case _ => []
  }

  predicate InitialPc(pc: Pc) {
    match pc
    case Top => true
    case Select => true
    case Pick => true
    case Visible => true
    case Hand(_) => true
    case Flush(_) => true
    case Acquire(initial) => initial
    case Refill(_, back) => !back.ToNext?
    case _ => false
  }

  predicate LaterPc(pc: Pc) { !InitialPc(pc) && !pc.Raised? }

  /** Which program points each kind of stream uses, and whether somebody is shown there. */
  ghost predicate PcOk(s: Stream) {
    && (InitialPc(s.pc) ==> s.told.ending.NotYet?)
    && (LaterPc(s.pc) ==> !s.told.ending.NotYet?)
    && (InitialPc(s.pc) && s.setup.explicit ==>
          s.pc.Top? || s.pc.Flush? || s.pc.Acquire? || (s.pc.Refill? && s.pc.back.ToTop?))
    && (InitialPc(s.pc) && !s.setup.explicit ==> !s.pc.Flush? && !(s.pc.Refill? && s.pc.back.ToTop?))
    && (InitialPc(s.pc) && !s.setup.explicit ==>
          (s.exposed.Some? <==> s.pc.Visible? || s.pc.Hand? || (s.pc.Refill? && !s.pc.back.ToSelect?)))
  }

  ghost predicate ReadOk(s: Stream) {
    && (s.exposed.None? ==> s.told.output == [] && InHand(s.pc) == [])
    && (s.exposed.Some? && s.exposed.value < |s.lanes| ==>
          var l := s.lanes[s.exposed.value];
          l.sent <= |l.deltas| && s.told.output + InHand(s.pc) == l.deltas[..l.sent])
    && (s.pc.Flush? ==> s.exposed == Some(s.pc.winner) && IsAnswered(s, s.pc.winner))
    && match s.told.ending
       case NotYet => true
       case Whole(w) => s.exposed == Some(w) && IsAnswered(s, w) && s.told.output == s.lanes[w].deltas
       case Replaced(w) => s.setup.explicit && s.exposed.Some? && s.exposed != Some(w) && IsAnswered(s, w)
  }

  predicate IsAnswered(s: Stream, i: nat) { i < |s.lanes| && s.lanes[i].stage.Answered? }

  ghost predicate DeliveredOk(s: Stream) {
    && (forall i :: i in s.told.delivered ==> IsAnswered(s, i))
    && (s.told.ending.NotYet? ==> s.told.delivered == {} && s.told.answers == [])
    && (!s.told.ending.NotYet? ==> s.told.ending.winner in s.told.delivered && s.told.ending.winner !in s.told.answers)
    && (forall k :: 0 <= k < |s.told.answers| ==> s.told.answers[k] in s.told.delivered)
    && (forall k, m :: 0 <= k < m < |s.told.answers| ==> s.told.answers[k] != s.told.answers[m])
  }

  /** `i` completed no later than any completed answer still undelivered. */
  ghost predicate Foremost(s: Stream, i: nat) {
    && i < |s.lanes| && HasAnswer(s.lanes[i])
    && forall j :: 0 <= j < |s.lanes| && HasAnswer(s.lanes[j]) && j !in s.told.delivered ==>
         s.lanes[i].stage.at <= s.lanes[j].stage.at
  }

  ghost predicate OrderOk(s: Stream) {
    && (forall k :: 0 <= k < |s.told.answers| ==> Foremost(s, s.told.answers[k]))
    && (forall k, m :: 0 <= k < m < |s.told.answers| ==> NoLater(s.lanes, s.told.answers[k], s.told.answers[m]))
    && (s.pc.Delivering? ==> Foremost(s, s.pc.lane) && s.pc.lane !in s.told.delivered)
    && (s.pc == Acquire(false) ==> AllDelivered(s))
    && (s.told.terminal ==> s.pc.Idle? && !AnyLive(s.lanes) && AllDelivered(s))
  }

  predicate NoLater(lanes: seq<StreamLane>, i: nat, j: nat) {
    && i < |lanes| && j < |lanes| && HasAnswer(lanes[i]) && HasAnswer(lanes[j])
    && lanes[i].stage.at <= lanes[j].stage.at
  }

  ghost predicate AllDelivered(s: Stream) {
    forall i :: 0 <= i < |s.lanes| && HasAnswer(s.lanes[i]) ==> i in s.told.delivered
  }

  ghost predicate Inv(s: Stream) {
    LanesOk(s) && NamesOk(s) && WavesOk(s) && PcOk(s) && ReadOk(s) && DeliveredOk(s) && OrderOk(s)
  }

  lemma StartInv(setup: Setup, eligible: set<string>, now: real)
    ensures Inv(Start(setup, eligible, now))
  {}

  // ---------------------------------------------------------------------
  // Counting
  // ---------------------------------------------------------------------

  lemma {:induction false} CountsAgree(lanes: seq<StreamLane>, wave: nat, delivered: set<nat>)
    requires forall i :: 0 <= i < |lanes| && i in delivered ==> lanes[i].stage.Answered?
    ensures DeliveredIn(lanes, wave, delivered) + PendingIn(lanes, wave, delivered) == Used(lanes, wave)
  {
    if lanes != [] {
      CountsAgree(lanes[..|lanes| - 1], wave, delivered);
    }
  }

  /** Same lanes but for how much the reader has had of them. */
  ghost predicate SameShape(a: seq<StreamLane>, b: seq<StreamLane>) {
    |a| == |b| && forall i :: 0 <= i < |a| ==> b[i] == a[i].(sent := b[i].sent)
  }

  lemma {:induction false} UsedSame(a: seq<StreamLane>, b: seq<StreamLane>, wave: nat)
    requires SameShape(a, b)
    ensures Used(a, wave) == Used(b, wave)
  {
    if a != [] {
      UsedSame(a[..|a| - 1], b[..|b| - 1], wave);
    }
  }

  lemma {:induction false} UsedUpdate(lanes: seq<StreamLane>, i: nat, l: StreamLane, wave: nat)
    requires i < |lanes| && l.wave == lanes[i].wave && (lanes[i].stage.Broken? ==> l.stage.Broken?)
    ensures Used(lanes[i := l], wave) <= Used(lanes, wave)
  {
    var last := |lanes| - 1;
    if i == last {
      assert lanes[i := l][..last] == lanes[..last];
    } else {
      assert lanes[i := l][..last] == lanes[..last][i := l];
      UsedUpdate(lanes[..last], i, l, wave);
    }
  }

  lemma {:induction false} UsedAppend(lanes: seq<StreamLane>, more: seq<StreamLane>, wave: nat)
    requires forall i :: 0 <= i < |more| ==> more[i].wave == wave && !more[i].stage.Broken?
    ensures Used(lanes + more, wave) == Used(lanes, wave) + |more|
  {
    if more == [] {
      assert lanes + more == lanes;
    } else {
      var all := lanes + more;
      assert all[..|all| - 1] == lanes + more[..|more| - 1];
      UsedAppend(lanes, more[..|more| - 1], wave);
    }
  }

  lemma {:induction false} UsedElsewhere(lanes: seq<StreamLane>, wave: nat)
    requires forall i :: 0 <= i < |lanes| ==> lanes[i].wave < wave
    ensures Used(lanes, wave) == 0
  {
    if lanes != [] {
      UsedElsewhere(lanes[..|lanes| - 1], wave);
    }
  }

  function Live(lanes: seq<StreamLane>): nat {
    if lanes == [] then 0
    else Live(lanes[..|lanes| - 1]) + if Finished(lanes[|lanes| - 1]) then 0 else 1
  }

  lemma {:induction false} LiveIsUsed(lanes: seq<StreamLane>, wave: nat)
    requires forall i :: 0 <= i < |lanes| && !Finished(lanes[i]) ==> lanes[i].wave == wave
    ensures Live(lanes) <= Used(lanes, wave)
  {
    if lanes != [] {
      LiveIsUsed(lanes[..|lanes| - 1], wave);
    }
  }

  // ---------------------------------------------------------------------
  // Lane events
  // ---------------------------------------------------------------------

  /** How one lane may change under its own events: text only grows while it runs, and
      what has finished is frozen. */
  ghost predicate Progress(l: StreamLane, m: StreamLane, now: real) {
    && m.name == l.name && m.wave == l.wave && m.sent == l.sent
    && l.deltas <= m.deltas
    && (!l.stage.Running? ==> m.deltas == l.deltas)
    && (Finished(l) ==> m == l)
    && (HasAnswer(l) ==> HasAnswer(m) && m.stage.at == l.stage.at)
    && (!HasAnswer(l) && HasAnswer(m) ==> m.stage == Completed(now))
    && (l.stage.Broken? ==> m.stage.Broken?)
    && (if l.firstAt.Some? then m.firstAt == l.firstAt else m.firstAt.Some? ==> m.firstAt.value == now)
  }

  lemma LaneProgress(l: StreamLane, e: Event, now: real)
    requires LaneOk(l, now)
    ensures LaneOk(LaneTurn(l, e, now), now) && Progress(l, LaneTurn(l, e, now), now)
  {}

  lemma LaneKeepsWaves(s: Stream, i: nat, m: StreamLane)
    requires WavesOk(s) && i < |s.lanes| && Progress(s.lanes[i], m, s.clock.now)
    ensures WavesOk(s.(lanes := s.lanes[i := m]))
  {
    var t := s.(lanes := s.lanes[i := m]);
    UsedUpdate(s.lanes, i, m, s.opening.wave);
    if AnyLive(t.lanes) {
      var k :| 0 <= k < |t.lanes| && !Finished(t.lanes[k]);
      assert !Finished(s.lanes[k]);
    }
  }

  lemma LaneKeepsShape(s: Stream, i: nat, m: StreamLane)
    requires LanesOk(s) && NamesOk(s) && PcOk(s)
    requires i < |s.lanes| && LaneOk(m, s.clock.now) && Progress(s.lanes[i], m, s.clock.now)
    ensures var t := s.(lanes := s.lanes[i := m]); LanesOk(t) && NamesOk(t) && PcOk(t)
  {
    var t := s.(lanes := s.lanes[i := m]);
    assert forall k :: 0 <= k < |t.lanes| ==> t.lanes[k].name == s.lanes[k].name;
  }

  lemma LaneKeepsReading(s: Stream, i: nat, m: StreamLane)
    requires Inv(s) && i < |s.lanes| && LaneOk(m, s.clock.now) && Progress(s.lanes[i], m, s.clock.now)
    ensures var t := s.(lanes := s.lanes[i := m]); ReadOk(t) && DeliveredOk(t)
  {
    var t := s.(lanes := s.lanes[i := m]);
    if s.exposed == Some(i) {
      assert m.deltas[..m.sent] == s.lanes[i].deltas[..s.lanes[i].sent];
    }
  }

  lemma LaneKeepsOrder(s: Stream, i: nat, m: StreamLane)
    requires Inv(s) && i < |s.lanes| && LaneOk(m, s.clock.now) && Progress(s.lanes[i], m, s.clock.now)
    ensures OrderOk(s.(lanes := s.lanes[i := m]))
  {
    var t := s.(lanes := s.lanes[i := m]);
    forall k | 0 <= k < |s.lanes| && Foremost(s, k) ensures Foremost(t, k) {
      assert LaneOk(s.lanes[k], s.clock.now);
    }
  }

  lemma LaneEventKeeps(s: Stream, i: nat, e: Event)
    requires Inv(s)
    ensures Inv(LaneEvent(s, i, e))
  {
    if i < |s.lanes| {
      LaneProgress(s.lanes[i], e, s.clock.now);
      var m := LaneTurn(s.lanes[i], e, s.clock.now);
      LaneKeepsWaves(s, i, m);
      LaneKeepsShape(s, i, m);
      LaneKeepsReading(s, i, m);
      LaneKeepsOrder(s, i, m);
    }
  }

  // ---------------------------------------------------------------------
  // Top-ups
  // ---------------------------------------------------------------------

  lemma NeededFits(s: Stream)
    requires DeliveredOk(s) && Used(s.lanes, s.opening.wave) <= s.opening.waveWidth
    ensures Used(s.lanes, s.opening.wave) + Needed(s) <= s.opening.waveWidth
  {
    CountsAgree(s.lanes, s.opening.wave, s.told.delivered);
  }

  /** Asking for a top-up, or going on without one, keeps the invariant wherever it stood. */
  lemma RefillKeeps(s: Stream, back: Back)
    requires Inv(s.(pc := After(back)))
    requires back.ToTop? ==> s.setup.explicit
    requires back.ToNext? ==> !s.told.terminal
    ensures Inv(StartRefill(s, back))
  {
    hide LanesOk, NamesOk, ReadOk;
    var u := s.(pc := After(back));
    NeededFits(s);
    var t := StartRefill(s, back);
    if t.pc.Refill? {
      assert t == u.(pc := Refill(Needed(s), back));
      MoveTo(u, t.pc);
    }
  }

  /** Moving the program counter alone keeps the invariant where the new point asks for
      nothing the state does not already give. */
  lemma MoveTo(s: Stream, pc: Pc)
    requires Inv(s) && PcOk(s.(pc := pc)) && InHand(pc) == InHand(s.pc) && !s.told.terminal
    requires pc.Refill? ==> Used(s.lanes, s.opening.wave) + pc.needed <= s.opening.waveWidth
    requires pc.Acquire? ==> !AnyLive(s.lanes) && (!pc.initial ==> AllDelivered(s))
    requires pc.Flush? ==> s.exposed == Some(pc.winner) && IsAnswered(s, pc.winner)
    requires pc.Delivering? ==> Foremost(s, pc.lane) && pc.lane !in s.told.delivered
    ensures Inv(s.(pc := pc))
  {
    var t := s.(pc := pc);
    assert WavesOk(t);
    assert ReadOk(t);
    assert DeliveredOk(t);
    forall k | 0 <= k < |s.told.answers| ensures Foremost(t, t.told.answers[k]) {
      assert Foremost(s, s.told.answers[k]);
    }
    assert OrderOk(t);
  }

  lemma AbsorbKeeps(s: Stream)
    requires Inv(s)
    ensures Inv(Absorb(s))
  {
    FactsAside(s, Absorb(s).facts);
  }

  lemma FactsAside(s: Stream, facts: Facts)
    requires Inv(s)
    ensures Inv(s.(facts := facts))
  {
    var t := s.(facts := facts);
    assert LanesOk(t) && NamesOk(t) && WavesOk(t) && PcOk(t) && ReadOk(t) && DeliveredOk(t);
    forall k | 0 <= k < |s.told.answers| ensures Foremost(t, t.told.answers[k]) {
      assert Foremost(s, s.told.answers[k]);
    }
  }

  // ---------------------------------------------------------------------
  // The initial answer
  // ---------------------------------------------------------------------

  /** Showing a lane nobody had shown: none of its text has gone out yet. */
  lemma ExposeKeeps(s: Stream, e: nat, pc: Pc)
    requires Inv(s) && s.exposed.None? && e < |s.lanes| && InitialPc(s.pc)
    requires InHand(pc) == [] && !pc.Refill? && !pc.Acquire? && !pc.Delivering?
    requires pc.Flush? ==> pc.winner == e && IsAnswered(s, e)
    requires PcOk(s.(exposed := Some(e), pc := pc))
    ensures Inv(s.(exposed := Some(e), pc := pc))
  {
    var t := s.(exposed := Some(e), pc := pc);
    assert s.lanes[e].sent == 0;
    assert ReadOk(t);
    assert DeliveredOk(t) && OrderOk(t);
  }

  lemma TakeReads(s: Stream, e: nat, told: Told, pc: Pc)
    requires LanesOk(s) && ReadOk(s) && DeliveredOk(s)
    requires s.exposed == Some(e) && s.lanes[e].sent < |s.lanes[e].deltas| && InHand(s.pc) == []
    requires told.(output := s.told.output) == s.told && told.ending.NotYet? && (pc.Flush? ==> s.pc == pc)
    requires told.output + InHand(pc) == s.told.output + [s.lanes[e].deltas[s.lanes[e].sent]]
    ensures var t := s.(lanes := s.lanes[e := s.lanes[e].(sent := s.lanes[e].sent + 1)], told := told, pc := pc);
      ReadOk(t) && DeliveredOk(t)
  {
    var l := s.lanes[e];
    assert l.deltas[..l.sent + 1] == l.deltas[..l.sent] + [l.deltas[l.sent]];
  }

  /** One more delta of the shown lane goes out, or into the owner's hand. */
  lemma TakeKeeps(s: Stream, e: nat, told: Told, pc: Pc)
    requires Inv(s) && s.exposed == Some(e) && s.lanes[e].sent < |s.lanes[e].deltas| && InHand(s.pc) == []
    requires told.(output := s.told.output) == s.told && told.ending.NotYet?
    requires told.output + InHand(pc) == s.told.output + [s.lanes[e].deltas[s.lanes[e].sent]]
    requires !pc.Refill? && !pc.Acquire? && !pc.Delivering? && (pc.Flush? ==> s.pc == pc)
    requires PcOk(s.(pc := pc))
    ensures Inv(s.(lanes := s.lanes[e := s.lanes[e].(sent := s.lanes[e].sent + 1)], told := told, pc := pc))
  {
    var l := s.lanes[e];
    var t := s.(lanes := s.lanes[e := l.(sent := l.sent + 1)], told := told, pc := pc);
    assert SameShape(s.lanes, t.lanes);
    UsedSame(s.lanes, t.lanes, s.opening.wave);
    TakeShape(s, t);
    TakeReads(s, e, told, pc);
    assert OrderOk(t);
  }

  lemma TakeShape(s: Stream, t: Stream)
    requires Inv(s) && SameShape(s.lanes, t.lanes) && t.opening == s.opening && t.clock == s.clock
    requires t.exposed == s.exposed && t.setup == s.setup && !t.pc.Refill? && !t.pc.Acquire?
    requires Used(s.lanes, s.opening.wave) == Used(t.lanes, s.opening.wave)
    requires forall i :: 0 <= i < |t.lanes| ==> t.lanes[i].sent <= |t.lanes[i].deltas|
    requires forall i :: 0 <= i < |t.lanes| && s.exposed != Some(i) ==> t.lanes[i].sent == 0
    ensures LanesOk(t) && NamesOk(t) && WavesOk(t)
  {
    forall i | 0 <= i < |t.lanes| ensures t.lanes[i].name == s.lanes[i].name && LaneOk(t.lanes[i], t.clock.now) {
      assert LaneOk(s.lanes[i], s.clock.now);
    }
  }

  lemma CompleteKeeps(s: Stream, w: nat, ending: Ending)
    requires Inv(s) && InitialPc(s.pc) && IsAnswered(s, w) && InHand(s.pc) == []
    requires ending == Whole(w) || ending == Replaced(w)
    requires ending.Whole? ==> s.exposed == Some(w) && s.lanes[w].sent == |s.lanes[w].deltas|
    requires ending.Replaced? ==> s.setup.explicit && s.exposed.Some? && s.exposed != Some(w)
    ensures Inv(CompleteInitial(s, w, ending))
  {
    var t := CompleteInitial(s, w, ending);
    if ending.Whole? {
      assert s.lanes[w].deltas[..s.lanes[w].sent] == s.lanes[w].deltas;
    }
    assert ReadOk(t);
    assert DeliveredOk(t) && OrderOk(t);
  }

  lemma RaiseOrAcquireKeeps(s: Stream)
    requires Inv(s) && (s.pc.Top? || s.pc.Select?) && !AnyLive(s.lanes)
    ensures Inv(RaiseOrAcquire(s))
  {
    MoveTo(s, if s.facts.expired then Raised else Acquire(true));
  }

  lemma ExplicitKeeps(s0: Stream)
    requires Inv(s0) && s0.pc.Top? && s0.setup.explicit
    ensures Inv(ExplicitTurn(s0))
  {
    AbsorbKeeps(s0);
    var s := Absorb(s0);
    var w := Winner(s.lanes, s.exposed);
    WinnerIsFirst(s.lanes, s.exposed);
    if w.Some? && Finished(s.lanes[w.value]) {
      WinnerKeeps(s, w.value);
    } else if !AnyLive(s.lanes) {
      RaiseOrAcquireKeeps(s);
    } else {
      ShowKeeps(s);
    }
  }

  lemma WinnerKeeps(s: Stream, w: nat)
    requires Inv(s) && s.pc.Top? && s.setup.explicit && IsAnswered(s, w)
    ensures Inv(WinnerFinished(s, w))
  {
    if s.exposed.None? {
      ExposeKeeps(s, w, Flush(w));
    } else if s.exposed.value == w {
      MoveTo(s, Flush(w));
    } else {
      CompleteKeeps(s, w, Replaced(w));
    }
  }

  lemma ShownKeeps(s: Stream)
    requires Inv(s) && s.pc.Top? && s.setup.explicit
    ensures Inv(s.(exposed := Shown(s)))
  {
    if s.exposed.None? && s.lanes != [] {
      SelectIsFair(s.lanes, s.clock.selectBy, s.clock.now);
      if Shown(s).Some? {
        ExposeKeeps(s, Shown(s).value, Top);
      }
    }
  }

  lemma ReadOnKeeps(s: Stream)
    requires Inv(s) && s.pc.Top? && s.setup.explicit
    ensures Inv(ReadOn(s))
  {
    if Unread(s) {
      TakeKeeps(s, s.exposed.value, Yield(s, s.exposed.value, Top).told, Top);
    } else {
      RefillKeeps(s, ToTop);
    }
  }

  lemma ShowKeeps(s: Stream)
    requires Inv(s) && s.pc.Top? && s.setup.explicit
    ensures Inv(ShowOne(s))
  {
    hide LanesOk, NamesOk, WavesOk, ReadOk, DeliveredOk, OrderOk;
    ShownKeeps(s);
    ReadOnKeeps(s.(exposed := Shown(s)));
  }

  lemma FlushKeeps(s: Stream)
    requires Inv(s) && s.pc.Flush?
    ensures Inv(FlushTurn(s, s.pc.winner))
  {
    var w := s.pc.winner;
    assert LaneOk(s.lanes[w], s.clock.now);
    if s.lanes[w].sent < |s.lanes[w].deltas| {
      TakeKeeps(s, w, Yield(s, w, Flush(w)).told, Flush(w));
    } else {
      CompleteKeeps(s, w, Whole(w));
    }
  }

  lemma OrdinaryKeeps(s0: Stream)
    requires Inv(s0) && s0.pc.Top? && !s0.setup.explicit
    ensures Inv(OrdinaryTurn(s0))
  {
    AbsorbKeeps(s0);
    var s := Absorb(s0);
    MoveTo(s, Select);
    if s.lanes != [] {
      RefillKeeps(s, ToSelect);
    }
  }

  lemma SelectKeeps(s: Stream)
    requires Inv(s) && s.pc.Select?
    ensures Inv(SelectTurn(s))
  {
    hide LanesOk, NamesOk, WavesOk, ReadOk, DeliveredOk;
    if !AnyLive(s.lanes) {
      RaiseOrAcquireKeeps(s);
    } else {
      MoveTo(s, Pick);
    }
  }

  lemma PickKeeps(s: Stream)
    requires Inv(s) && s.pc.Pick?
    ensures Inv(PickTurn(s))
  {
    hide NamesOk, WavesOk, ReadOk, DeliveredOk;
    FirstDeltaIsFirst(s.lanes);
    var f := FirstDelta(s.lanes);
    if f.None? {
      MoveTo(s, Top);
    } else {
      ExposeKeeps(s, f.value, Visible);
    }
  }

  lemma HoldKeeps(s: Stream, e: nat)
    requires Inv(s) && s.pc.Visible? && s.exposed == Some(e) && s.lanes[e].sent < |s.lanes[e].deltas|
    ensures Inv(VisibleTurn(s))
  {
    hide NamesOk, WavesOk, DeliveredOk, OrderOk;
    var l := s.lanes[e];
    var delta := l.deltas[l.sent];
    TakeKeeps(s, e, s.told, Hand(delta));
    RefillKeeps(s.(lanes := s.lanes[e := l.(sent := l.sent + 1)]), ToHand(delta));
  }

  lemma VisibleKeeps(s: Stream)
    requires Inv(s) && s.pc.Visible?
    ensures Inv(VisibleTurn(s))
  {
    hide NamesOk, WavesOk, DeliveredOk;
    var e := s.exposed.value;
    var l := s.lanes[e];
    assert LaneOk(l, s.clock.now);
    if l.sent < |l.deltas| {
      HoldKeeps(s, e);
    } else if !Finished(l) {
      RefillKeeps(s, ToVisible);
    } else if l.stage.Broken? {
      MoveTo(s, Raised);
    } else {
      CompleteKeeps(s, e, Whole(e));
    }
  }

  lemma HandKeeps(s: Stream)
    requires Inv(s) && s.pc.Hand?
    ensures Inv(HandTurn(s, s.pc.delta))
  {
    var t := HandTurn(s, s.pc.delta);
    assert t.told.output + InHand(t.pc) == s.told.output + InHand(s.pc);
    assert ReadOk(t);
    assert DeliveredOk(t) && OrderOk(t);
  }

  // ---------------------------------------------------------------------
  // Further answers
  // ---------------------------------------------------------------------

  lemma DeliverInOrder(s: Stream, i: nat)
    requires OrderOk(s) && DeliveredOk(s) && IsAnswered(s, i) && Foremost(s, i) && i !in s.told.delivered && !s.told.terminal
    ensures OrderOk(Deliver(s, i))
  {
    var t := Deliver(s, i);
    forall k | 0 <= k < |t.told.answers| ensures Foremost(t, t.told.answers[k]) {
      assert k < |s.told.answers| ==> Foremost(s, s.told.answers[k]);
    }
    forall k, m | 0 <= k < m < |t.told.answers| ensures NoLater(t.lanes, t.told.answers[k], t.told.answers[m]) {
      assert Foremost(s, s.told.answers[k]);
    }
  }

  lemma DeliverOnce(s: Stream, i: nat)
    requires ReadOk(s) && DeliveredOk(s) && PcOk(s) && LaterPc(s.pc) && IsAnswered(s, i) && i !in s.told.delivered
    ensures ReadOk(Deliver(s, i)) && DeliveredOk(Deliver(s, i))
  {}

  lemma DeliverKeeps(s: Stream, i: nat)
    requires Inv(s) && (s.pc.Next? || s.pc.Delivering?) && IsAnswered(s, i)
    requires Foremost(s, i) && i !in s.told.delivered
    ensures Inv(Deliver(s, i))
  {
    var t := Deliver(s, i);
    DeliverInOrder(s, i);
    DeliverOnce(s, i);
    assert LanesOk(t) && NamesOk(t) && WavesOk(t) && PcOk(t);
  }

  lemma WidenKeeps(s: Stream)
    requires Inv(s) && s.pc.Next? && AllDelivered(s)
    ensures Inv(StartRefill(s, ToNext))
  {
    hide LanesOk, NamesOk, WavesOk, ReadOk, DeliveredOk;
    MoveTo(s, AfterRefill);
    RefillKeeps(s, ToNext);
  }

  lemma AwaitKeeps(s: Stream, i: nat)
    requires Inv(s) && s.pc.Next? && Foremost(s, i) && i !in s.told.delivered
    ensures Inv(if Finished(s.lanes[i]) then Deliver(s, i) else s.(pc := Delivering(i)))
  {
    hide LanesOk, NamesOk, WavesOk, ReadOk, DeliveredOk;
    if Finished(s.lanes[i]) {
      DeliverKeeps(s, i);
    } else {
      MoveTo(s, Delivering(i));
    }
  }

  lemma PursueKeeps(s: Stream)
    requires Inv(s) && s.pc.Next?
    ensures Inv(Pursue(s))
  {
    hide LanesOk, NamesOk, WavesOk, ReadOk, DeliveredOk;
    BufferedIsFirst(s.lanes, s.told.delivered);
    if Buffered(s.lanes, s.told.delivered).None? {
      assert AllDelivered(s);
      WidenKeeps(s);
    } else {
      AwaitKeeps(s, Buffered(s.lanes, s.told.delivered).value);
    }
  }

  lemma NextKeeps(s: Stream)
    requires Inv(s) && s.pc.Next?
    ensures Inv(NextTurn(s))
  {
    hide LanesOk, NamesOk, WavesOk, ReadOk, DeliveredOk, OrderOk;
    AbsorbKeeps(s);
    PursueKeeps(Absorb(s));
  }

  lemma StopHere(s: Stream)
    requires Inv(s) && s.pc.Idle? && !AnyLive(s.lanes) && AllDelivered(s)
    ensures Inv(s.(told := s.told.(terminal := true)))
  {
    var t := s.(told := s.told.(terminal := true));
    forall k | 0 <= k < |s.told.answers| ensures Foremost(t, t.told.answers[k]) {
      assert Foremost(s, s.told.answers[k]);
    }
    assert LanesOk(t) && NamesOk(t) && WavesOk(t) && PcOk(t);
    assert ReadOk(t) && DeliveredOk(t) && AllDelivered(t);
  }

  lemma GiveUpKeeps(s: Stream)
    requires Inv(s) && (s.pc.AfterRefill? || s.pc == Acquire(false)) && !AnyLive(s.lanes) && AllDelivered(s)
    ensures Inv(GiveUp(s))
  {
    if s.facts.clientError || Crashed(s.lanes) {
      MoveTo(s, Raised);
    } else {
      MoveTo(s, Idle);
      StopHere(s.(pc := Idle));
    }
  }

  lemma AfterRefillKeeps(s: Stream, late: bool)
    requires Inv(s) && s.pc.AfterRefill?
    ensures Inv(AfterRefillTurn(s, late))
  {
    hide LanesOk, NamesOk, ReadOk, DeliveredOk;
    BufferedIsFirst(s.lanes, s.told.delivered);
    if Buffered(s.lanes, s.told.delivered).Some? || AnyLive(s.lanes) {
      MoveTo(s, Next);
    } else if s.facts.expired || late {
      GiveUpKeeps(s);
    } else {
      MoveTo(s, Acquire(false));
    }
  }

  lemma DeliveringKeeps(s: Stream)
    requires Inv(s) && s.pc.Delivering?
    ensures Inv(DeliveringTurn(s, s.pc.lane))
  {
    if Finished(s.lanes[s.pc.lane]) {
      DeliverKeeps(s, s.pc.lane);
    }
  }

  // ---------------------------------------------------------------------
  // Opening lanes
  // ---------------------------------------------------------------------

  lemma OpenNames(s: Stream, names: seq<string>)
    requires NamesOk(s) && Grantable(s, names)
    ensures NamesOk(OpenLanes(s, names))
  {
    var t := OpenLanes(s, names);
    var more := NewLanes(names, s.opening.wave);
    forall i, j | 0 <= i < j < |t.lanes| ensures t.lanes[i].name != t.lanes[j].name {
      if i < |s.lanes| <= j {
        assert s.lanes[i].name in s.opening.attempted && names[j - |s.lanes|] in names;
      }
    }
    var all := set i | 0 <= i < |t.lanes| :: t.lanes[i].name;
    forall n | n in t.opening.attempted ensures n in all {
      if n in s.opening.attempted {
        var i :| 0 <= i < |s.lanes| && s.lanes[i].name == n;
        assert t.lanes[i].name == n;
      } else {
        var k :| 0 <= k < |names| && names[k] == n;
        assert t.lanes[|s.lanes| + k].name == n;
      }
    }
    forall n | n in all ensures n in t.opening.attempted {
      var i :| 0 <= i < |t.lanes| && t.lanes[i].name == n;
      if i >= |s.lanes| {
        assert names[i - |s.lanes|] in names;
      }
    }
  }

  lemma OpenOrder(s: Stream, names: seq<string>)
    requires LanesOk(s) && DeliveredOk(s) && OrderOk(s) && !s.told.terminal && !s.pc.Acquire?
    ensures DeliveredOk(OpenLanes(s, names)) && OrderOk(OpenLanes(s, names))
  {
    var t := OpenLanes(s, names);
    assert forall i :: 0 <= i < |s.lanes| ==> t.lanes[i] == s.lanes[i];
    assert DeliveredOk(t);
    forall i | 0 <= i < |s.lanes| && Foremost(s, i) ensures Foremost(t, i) {}
  }

  lemma OpenRest(s: Stream, names: seq<string>)
    requires LanesOk(s) && PcOk(s) && ReadOk(s)
    ensures var t := OpenLanes(s, names); LanesOk(t) && PcOk(t) && ReadOk(t)
  {
    var t := OpenLanes(s, names);
    assert forall i :: 0 <= i < |s.lanes| ==> t.lanes[i] == s.lanes[i];
    assert LanesOk(t);
  }

  lemma OpenWaves(s: Stream, names: seq<string>)
    requires WavesOk(s) && !s.pc.Acquire? && !s.pc.Refill?
    requires Used(s.lanes, s.opening.wave) + |names| <= s.opening.waveWidth
    ensures WavesOk(OpenLanes(s, names))
  {
    UsedAppend(s.lanes, NewLanes(names, s.opening.wave), s.opening.wave);
  }

  lemma TopUpKeeps(s: Stream, names: seq<string>)
    requires Inv(s)
    ensures Inv(TopUpTurn(s, names))
  {
    if TopsUp(s, names) {
      var u := s.(pc := After(s.pc.back));
      MoveTo(s, After(s.pc.back));
      OpenNames(u, names);
      OpenRest(u, names);
      OpenOrder(u, names);
      OpenWaves(u, names);
    }
  }

  /** A new wave opens only over lanes that have all finished, so nothing is used in it yet. */
  lemma NewWaveKeeps(s: Stream, count: nat, pc: Pc)
    requires Inv(s) && s.pc.Acquire? && count <= MaxInt(s.setup.width, s.setup.recoveryWidth)
    requires InHand(pc) == [] && !pc.Refill? && !pc.Acquire? && !pc.Flush? && !pc.Delivering? && PcOk(s.(pc := pc))
    ensures var t := NewWave(s, count).(pc := pc);
      Inv(t) && Used(t.lanes, t.opening.wave) == 0
  {
    MoveTo(s, pc);
    var u := s.(pc := pc);
    var t := NewWave(s, count).(pc := pc);
    assert forall i :: 0 <= i < |s.lanes| ==> Finished(s.lanes[i]);
    UsedElsewhere(t.lanes, t.opening.wave);
    assert WavesOk(t) && NamesOk(t) && LanesOk(t);
    assert ReadOk(t) && DeliveredOk(t);
    forall i | 0 <= i < |s.lanes| && Foremost(u, i) ensures Foremost(t, i) {}
  }

  lemma GrantKeeps(s: Stream, names: seq<string>)
    requires Inv(s)
    ensures Inv(GrantTurn(s, names))
  {
    hide LanesOk, NamesOk, ReadOk, DeliveredOk;
    if s.pc.Acquire? && names != [] && Grantable(s, names) && |names| <= MaxInt(s.setup.width, s.setup.recoveryWidth) {
      var pc := if !s.pc.initial then Next else if !s.setup.explicit then Pick else Top;
      var u := NewWave(s, |names|).(pc := pc);
      NewWaveKeeps(s, |names|, pc);
      OpenNames(u, names);
      OpenRest(u, names);
      OpenOrder(u, names);
      OpenWaves(u, names);
      var t := OpenLanes(u, names);
      assert OpenLanes(NewWave(s, |names|), names).(pc := pc) == t;
      ClockAside(t, GrantTurn(s, names).clock);
    }
  }

  lemma ClockAside(s: Stream, clock: Clock)
    requires Inv(s) && clock.now >= s.clock.now
    ensures Inv(s.(clock := clock))
  {
    var t := s.(clock := clock);
    assert LanesOk(t) && NamesOk(t) && WavesOk(t) && PcOk(t);
    assert ReadOk(t) && DeliveredOk(t);
    forall i | 0 <= i < |s.lanes| && Foremost(s, i) ensures Foremost(t, i) {}
  }

  /** A refresh of the pool may widen the candidates once; it never narrows them. */
  lemma RefreshKeeps(s: Stream, more: set<string>)
    requires Inv(s)
    ensures Inv(s.(opening := s.opening.(eligible := s.opening.eligible + more, refreshUsed := true)))
  {
    var t := s.(opening := s.opening.(eligible := s.opening.eligible + more, refreshUsed := true));
    assert LanesOk(t) && NamesOk(t) && WavesOk(t) && PcOk(t);
    assert ReadOk(t) && DeliveredOk(t);
    forall k | 0 <= k < |s.told.answers| ensures Foremost(t, t.told.answers[k]) {
      assert Foremost(s, s.told.answers[k]);
    }
  }

  lemma ExhaustedKeeps(s: Stream, refresh: Option<set<string>>)
    requires Inv(s)
    ensures Inv(ExhaustedTurn(s, refresh))
  {
    hide LanesOk, NamesOk, ReadOk, DeliveredOk;
    if s.pc.Acquire? {
      if !s.pc.initial {
        GiveUpKeeps(s);
      } else if refresh.Some? && !s.opening.refreshUsed {
        RefreshKeeps(s, refresh.value);
      } else {
        MoveTo(s, Raised);
      }
    }
  }

  // ---------------------------------------------------------------------
  // Every run
  // ---------------------------------------------------------------------

  lemma OwnerKeeps(s: Stream, late: bool)
    requires Inv(s)
    ensures Inv(OwnerTurn(s, late))
  {
    hide LanesOk, NamesOk, WavesOk, ReadOk, DeliveredOk, OrderOk;
    match s.pc
    case Top => if s.setup.explicit { ExplicitKeeps(s); } else { OrdinaryKeeps(s); }
    case Select => SelectKeeps(s);
    case Pick => PickKeeps(s);
    case Visible => VisibleKeeps(s);
    case Hand(_) => HandKeeps(s);
    case Flush(_) => FlushKeeps(s);
    case Next => NextKeeps(s);
    case AfterRefill => AfterRefillKeeps(s, late);
    case Delivering(_) => DeliveringKeeps(s);
    case _ =>
  }

  lemma WaitKeeps(s: Stream, elapsed: real)
    requires Inv(s)
    ensures Inv(Wait(s, elapsed))
  {
    if elapsed >= 0.0 {
      ClockAside(s, s.clock.(now := s.clock.now + elapsed));
    }
  }

  lemma AskKeeps(s: Stream)
    requires Inv(s)
    ensures Inv(AskAnother(s))
  {
    if s.pc.Idle? && !s.told.terminal {
      MoveTo(s, Next);
    }
  }

  lemma PoolEventKeeps(s: Stream, e: Event)
    requires Inv(s) && (e.Granted? || e.ToppedUp? || e.Exhausted?)
    ensures Inv(Apply(s, e))
  {
    hide Inv;
    match e
    case Granted(names) => GrantKeeps(s, names);
    case ToppedUp(names) => TopUpKeeps(s, names);
    case Exhausted(refresh) => ExhaustedKeeps(s, refresh);
  }

  lemma SomeLaneEventKeeps(s: Stream, e: Event)
    requires Inv(s) && (e.Speak? || e.Complete? || e.Written? || e.Break?)
    ensures Inv(Apply(s, e))
  {
    hide Inv;
    LaneEventKeeps(s, e.lane, e);
  }

  /** Every stretch of every task keeps the invariant. */
  lemma ApplyKeeps(s: Stream, e: Event)
    requires Inv(s)
    ensures Inv(Apply(s, e))
  {
    hide Inv;
    match e
    case Elapse(t) => WaitKeeps(s, t);
    case Turn(late) => OwnerKeeps(s, late);
    case Another => AskKeeps(s);
    case _ => if e.Granted? || e.ToppedUp? || e.Exhausted? { PoolEventKeeps(s, e); } else { SomeLaneEventKeeps(s, e); }
  }

  lemma {:induction false} RunKeeps(setup: Setup, eligible: set<string>, now: real, events: seq<Event>)
    ensures Inv(Run(Start(setup, eligible, now), events))
    decreases |events|
  {
    if events == [] {
      StartInv(setup, eligible, now);
    } else {
      RunKeeps(setup, eligible, now, events[..|events| - 1]);
      ApplyKeeps(Run(Start(setup, eligible, now), events[..|events| - 1]), events[|events| - 1]);
    }
  }
}
