/** What holds of a routed stream over every run: every order of lane progress, of pool
    answers and of reader pulls. */
module StreamRuns {
  import opened Common
  import opened Models
  import opened Verdicts
  import opened Race
  import opened Stream
  import opened StreamSafety
  import Pool

  /** The stream after these events, from the start of a call. */
  function StreamAfter(setup: Setup, eligible: set<string>, now: real, events: seq<Event>): Stream {
    Run(Start(setup, eligible, now), events)
  }

  // ---------------------------------------------------------------------
  // What the reader was given
  // ---------------------------------------------------------------------

  /** The reader only ever has a prefix of one lane's text. A normal ending has given it all
      of that lane's text; a replacement has given a prefix of the shown lane and names a
      different lane whose whole answer is in. */
  lemma OneLaneIsRead(setup: Setup, eligible: set<string>, now: real, events: seq<Event>)
    ensures var s := StreamAfter(setup, eligible, now, events);
      && (s.exposed.None? ==> s.told.output == [])
      && (s.exposed.Some? ==>
            s.exposed.value < |s.lanes| && s.told.output <= s.lanes[s.exposed.value].deltas)
      && match s.told.ending
         case NotYet => true
         case Whole(w) => s.exposed == Some(w) && IsAnswered(s, w) && s.told.output == s.lanes[w].deltas
         case Replaced(w) => s.setup.explicit && s.exposed.Some? && s.exposed != Some(w) && IsAnswered(s, w)
  {
    RunKeeps(setup, eligible, now, events);
    var s := StreamAfter(setup, eligible, now, events);
    if s.exposed.Some? {
      var l := s.lanes[s.exposed.value];
      assert s.told.output <= l.deltas[..l.sent];
    }
  }

  /** Whoever a raced stream ends with completed no later than any lane ever does. */
  ghost predicate First(s: Stream, w: nat) {
    && IsAnswered(s, w)
    && forall i :: 0 <= i < |s.lanes| && HasAnswer(s.lanes[i]) ==> s.lanes[w].stage.at <= s.lanes[i].stage.at
  }

  ghost predicate FirstOk(s: Stream) {
    && (s.setup.explicit && s.pc.Flush? ==> First(s, s.pc.winner))
    && (s.setup.explicit && !s.told.ending.NotYet? ==> First(s, s.told.ending.winner))
  }

  /** What a step may do to the lanes, seen from outside: text grows while a lane runs,
      completions happen now, new lanes have none, and what finished is frozen. */
  ghost predicate Grown(s: Stream, t: Stream) {
    && |s.lanes| <= |t.lanes|
    && (forall i :: 0 <= i < |s.lanes| ==>
          && s.lanes[i].name == t.lanes[i].name && s.lanes[i].deltas <= t.lanes[i].deltas
          && (HasAnswer(s.lanes[i]) ==>
                HasAnswer(t.lanes[i]) && t.lanes[i].stage.at == s.lanes[i].stage.at && t.lanes[i].deltas == s.lanes[i].deltas)
          && (Finished(s.lanes[i]) ==> t.lanes[i].stage == s.lanes[i].stage && t.lanes[i].deltas == s.lanes[i].deltas)
          && (!HasAnswer(s.lanes[i]) && HasAnswer(t.lanes[i]) ==> t.lanes[i].stage.at == s.clock.now)
          && (if s.lanes[i].firstAt.Some? then t.lanes[i].firstAt == s.lanes[i].firstAt
              else t.lanes[i].firstAt.Some? ==> t.lanes[i].firstAt.value == s.clock.now))
    && (forall i :: |s.lanes| <= i < |t.lanes| ==> !HasAnswer(t.lanes[i]) && t.lanes[i].firstAt.None?)
  }

  /** What the caller was told is never taken back. */
  ghost predicate Kept(s: Stream, t: Stream) {
    && t.setup == s.setup
    && (s.exposed.Some? ==> t.exposed == s.exposed)
    && s.told.output <= t.told.output
    && (!s.told.ending.NotYet? ==> t.told.ending == s.told.ending && t.told.output == s.told.output)
    && s.told.delivered <= t.told.delivered
    && s.told.answers <= t.told.answers
    && (s.told.terminal ==> t == s.(lanes := t.lanes, clock := t.clock))
    && s.clock.now <= t.clock.now
    && s.opening.attempted <= t.opening.attempted
    && s.opening.eligible <= t.opening.eligible
  }

  lemma LaneStep(s: Stream, i: nat, e: Event)
    requires Inv(s)
    ensures Grown(s, LaneEvent(s, i, e)) && Kept(s, LaneEvent(s, i, e))
  {}

  lemma ShapeGrows(s: Stream, t: Stream)
    requires SameShape(s.lanes, t.lanes)
    ensures Grown(s, t)
  {}

  /** An owner's stretch: lanes keep their own state, waves and candidates stay. */
  ghost predicate Calm(s: Stream, t: Stream) {
    SameShape(s.lanes, t.lanes) && t.opening == s.opening && Kept(s, t)
  }

  lemma RefillStep(s: Stream, back: Back)
    ensures StartRefill(s, back) == s.(pc := StartRefill(s, back).pc)
    ensures StartRefill(s, back).pc == After(back) || StartRefill(s, back).pc.Refill?
  {}

  lemma CalmStill(s: Stream)
    ensures Calm(s, s)
  {}

  lemma ExplicitStep(s0: Stream)
    requires PcOk(s0) && OrderOk(s0) && s0.pc.Top? && s0.setup.explicit
    ensures Calm(s0, ExplicitTurn(s0))
  {
    hide Winner, StartRefill, AnyLive;
    var s := Absorb(s0);
    var w := Winner(s.lanes, s.exposed);
    if w.Some? && w.value < |s.lanes| && Finished(s.lanes[w.value]) {
    } else if !AnyLive(s.lanes) {
    } else {
      RefillStep(s.(exposed := Shown(s)), ToTop);
    }
  }

  lemma OrdinaryStep(s0: Stream)
    requires PcOk(s0) && OrderOk(s0) && s0.pc.Top? && !s0.setup.explicit
    ensures Calm(s0, OrdinaryTurn(s0))
  {
    RefillStep(Absorb(s0), ToSelect);
  }

  lemma VisibleStep(s: Stream)
    requires PcOk(s) && OrderOk(s) && s.pc.Visible?
    ensures Calm(s, VisibleTurn(s))
  {
    if s.exposed.Some? && s.exposed.value < |s.lanes| {
      var e := s.exposed.value;
      var l := s.lanes[e];
      if l.sent < |l.deltas| {
        RefillStep(s.(lanes := s.lanes[e := l.(sent := l.sent + 1)]), ToHand(l.deltas[l.sent]));
      } else if !Finished(l) {
        RefillStep(s, ToVisible);
      }
    }
  }

  lemma NextStep(s0: Stream)
    requires OrderOk(s0) && s0.pc.Next?
    ensures Calm(s0, NextTurn(s0))
  {
    RefillStep(Absorb(s0), ToNext);
  }

  lemma InitialStep(s: Stream, late: bool)
    requires PcOk(s) && OrderOk(s) && (s.pc.Select? || s.pc.Pick? || s.pc.Hand? || s.pc.Flush?)
    ensures Calm(s, OwnerTurn(s, late))
  {
    match s.pc
    case Select =>
    case Pick =>
    case Hand(_) =>
    case Flush(_) =>
  }

  lemma AfterRefillStep(s: Stream, late: bool)
    requires !s.told.terminal
    ensures Calm(s, AfterRefillTurn(s, late))
  {
    hide Buffered, AnyLive, Crashed;
    if Buffered(s.lanes, s.told.delivered).Some? || AnyLive(s.lanes) {
    } else if s.facts.expired || late {
    }
  }

  lemma LaterStep(s: Stream, late: bool)
    requires OrderOk(s) && (s.pc.AfterRefill? || s.pc.Delivering?)
    ensures Calm(s, OwnerTurn(s, late))
  {
    if s.pc.AfterRefill? {
      AfterRefillStep(s, late);
    }
  }

  lemma OwnerStep(s: Stream, late: bool)
    requires Inv(s)
    ensures Calm(s, OwnerTurn(s, late))
  {
    hide LanesOk, NamesOk, WavesOk, PcOk, ReadOk, DeliveredOk, OrderOk, Calm;
    match s.pc
    case Top => if s.setup.explicit { ExplicitStep(s); } else { OrdinaryStep(s); }
    case Visible => VisibleStep(s);
    case Next => NextStep(s);
    case _ =>
      if s.pc.Select? || s.pc.Pick? || s.pc.Hand? || s.pc.Flush? {
        InitialStep(s, late);
      } else if s.pc.AfterRefill? || s.pc.Delivering? {
        LaterStep(s, late);
      } else {
        CalmStill(s);
      }
  }

  lemma GrantStep(s: Stream, names: seq<string>)
    requires OrderOk(s)
    ensures Grown(s, GrantTurn(s, names)) && Kept(s, GrantTurn(s, names))
  {}

  lemma TopUpStep(s: Stream, names: seq<string>)
    requires OrderOk(s)
    ensures Grown(s, TopUpTurn(s, names)) && Kept(s, TopUpTurn(s, names))
  {}

  lemma ExhaustedStep(s: Stream, refresh: Option<set<string>>)
    requires OrderOk(s)
    ensures Grown(s, ExhaustedTurn(s, refresh)) && Kept(s, ExhaustedTurn(s, refresh))
  {}

  /** No stretch of any task takes anything back. */
  lemma Step(s: Stream, e: Event)
    requires Inv(s)
    ensures Grown(s, Apply(s, e)) && Kept(s, Apply(s, e))
  {
    hide LanesOk, NamesOk, WavesOk, PcOk, ReadOk, DeliveredOk;
    match e
    case Speak(i, _) => LaneStep(s, i, e);
    case Complete(i) => LaneStep(s, i, e);
    case Written(i) => LaneStep(s, i, e);
    case Break(i, _, _, _) => LaneStep(s, i, e);
    case Turn(late) =>
      OwnerStep(s, late);
      ShapeGrows(s, OwnerTurn(s, late));
    case Granted(names) => GrantStep(s, names);
    case ToppedUp(names) => TopUpStep(s, names);
    case Exhausted(refresh) => ExhaustedStep(s, refresh);
    case _ =>
  }

  // ---------------------------------------------------------------------
  // Over whole runs
  // ---------------------------------------------------------------------

  lemma {:induction false} RunsExtend(s: Stream, events: seq<Event>, more: seq<Event>)
    requires Inv(s)
    ensures Inv(Run(s, events)) && Inv(Run(s, events + more))
    ensures Kept(Run(s, events), Run(s, events + more)) && Frozen(Run(s, events), Run(s, events + more))
    decreases |events| + |more|
  {
    hide Inv;
    if more == [] {
      assert events + more == events;
      if events != [] {
        RunsExtend(s, events[..|events| - 1], []);
        assert events[..|events| - 1] + [] == events[..|events| - 1];
        ApplyKeeps(Run(s, events[..|events| - 1]), events[|events| - 1]);
      }
    } else {
      var all, last := events + more, |events + more| - 1;
      assert all[..last] == events + more[..|more| - 1];
      RunsExtend(s, events, more[..|more| - 1]);
      Step(Run(s, all[..last]), all[last]);
      ApplyKeeps(Run(s, all[..last]), all[last]);
    }
  }

  /** Lanes that finished never change again. */
  ghost predicate Frozen(s: Stream, t: Stream) {
    && |s.lanes| <= |t.lanes|
    && forall i :: 0 <= i < |s.lanes| ==>
         && s.lanes[i].name == t.lanes[i].name && s.lanes[i].deltas <= t.lanes[i].deltas
         && (HasAnswer(s.lanes[i]) ==>
               HasAnswer(t.lanes[i]) && t.lanes[i].stage.at == s.lanes[i].stage.at && t.lanes[i].deltas == s.lanes[i].deltas)
         && (Finished(s.lanes[i]) ==> t.lanes[i].stage == s.lanes[i].stage && t.lanes[i].deltas == s.lanes[i].deltas)
  }

  predicate SameText(s: Stream, t: Stream, i: nat) {
    i < |s.lanes| && i < |t.lanes| && t.lanes[i].deltas == s.lanes[i].deltas
  }

  /** However a run goes on, nothing the caller was told changes: the shown lane stays the
      shown lane, what was read stays read, the ending and its lane's whole text stay, and
      answers already handed over keep their place. */
  lemma NothingIsTakenBack(setup: Setup, eligible: set<string>, now: real, events: seq<Event>, more: seq<Event>)
    ensures var (s, t) := (StreamAfter(setup, eligible, now, events), StreamAfter(setup, eligible, now, events + more));
      && (s.exposed.Some? ==> t.exposed == s.exposed)
      && s.told.output <= t.told.output
      && (!s.told.ending.NotYet? ==>
            && t.told.ending == s.told.ending && t.told.output == s.told.output
            && SameText(s, t, s.told.ending.winner))
      && s.told.answers <= t.told.answers
      && (forall k :: 0 <= k < |s.told.answers| ==> SameText(s, t, s.told.answers[k]))
      && (s.told.terminal ==> t.told == s.told)
  {
    var start := Start(setup, eligible, now);
    StartInv(setup, eligible, now);
    RunsExtend(start, events, more);
  }

  lemma FirstStays(s: Stream, t: Stream, w: nat)
    requires LanesOk(s) && Grown(s, t) && First(s, w)
    ensures First(t, w)
  {
    forall i | 0 <= i < |t.lanes| && HasAnswer(t.lanes[i]) ensures t.lanes[w].stage.at <= t.lanes[i].stage.at {
      assert LaneOk(s.lanes[w], s.clock.now);
      assert i < |s.lanes|;
    }
  }

  lemma WinnerIsNamed(s: Stream)
    requires Inv(s) && s.setup.explicit && s.pc.Top?
    ensures ExplicitTurn(s).pc.Flush? ==> First(s, ExplicitTurn(s).pc.winner)
    ensures !ExplicitTurn(s).told.ending.NotYet? ==> First(s, ExplicitTurn(s).told.ending.winner)
  {
    hide LanesOk, NamesOk, WavesOk, ReadOk, DeliveredOk, OrderOk, StartRefill, Winner, Shown;
    var u := Absorb(s);
    var w := Winner(u.lanes, u.exposed);
    WinnerIsFirst(u.lanes, u.exposed);
    if w.Some? && Finished(u.lanes[w.value]) {
      assert First(s, w.value);
    } else if AnyLive(u.lanes) {
      RefillStep(u.(exposed := Shown(u)), ToTop);
    }
  }

  lemma FirstKeeps(s: Stream, e: Event)
    requires Inv(s) && FirstOk(s)
    ensures FirstOk(Apply(s, e))
  {
    var t := Apply(s, e);
    Step(s, e);
    if s.setup.explicit {
      NamesAWinner(s, e);
      if t.pc.Flush? {
        FirstStays(s, t, t.pc.winner);
      }
      if !t.told.ending.NotYet? {
        FirstStays(s, t, t.told.ending.winner);
      }
    }
  }

  lemma NamesAWinner(s: Stream, e: Event)
    requires Inv(s) && FirstOk(s) && s.setup.explicit
    ensures Apply(s, e).pc.Flush? ==> First(s, Apply(s, e).pc.winner)
    ensures !Apply(s, e).told.ending.NotYet? ==> First(s, Apply(s, e).told.ending.winner)
  {
    hide LanesOk, NamesOk, WavesOk, ReadOk, DeliveredOk, First;
    match e
    case Turn(late) => TurnNames(s, late);
    case _ =>
  }

  lemma TurnNames(s: Stream, late: bool)
    requires Inv(s) && FirstOk(s) && s.setup.explicit
    ensures OwnerTurn(s, late).pc.Flush? ==> First(s, OwnerTurn(s, late).pc.winner)
    ensures !OwnerTurn(s, late).told.ending.NotYet? ==> First(s, OwnerTurn(s, late).told.ending.winner)
  {
    hide LanesOk, NamesOk, WavesOk, ReadOk, DeliveredOk, First;
    match s.pc
    case Top => WinnerIsNamed(s);
    case _ =>
  }

  lemma {:induction false} FirstThroughout(setup: Setup, eligible: set<string>, now: real, events: seq<Event>)
    ensures FirstOk(StreamAfter(setup, eligible, now, events))
    decreases |events|
  {
    hide FirstOk;
    if events == [] {
      StartFirst(setup, eligible, now);
    } else {
      var rest := events[..|events| - 1];
      FirstThroughout(setup, eligible, now, rest);
      RunKeeps(setup, eligible, now, rest);
      FirstKeeps(StreamAfter(setup, eligible, now, rest), events[|events| - 1]);
    }
  }

  lemma StartFirst(setup: Setup, eligible: set<string>, now: real)
    ensures FirstOk(Start(setup, eligible, now))
  {}

  /** A raced stream ends with the lane that completed first, of all that ever complete:
      those that had answered when it was chosen and those that answer after. */
  lemma TheRaceGoesToTheFirst(setup: Setup, eligible: set<string>, now: real, events: seq<Event>, i: nat)
    requires var s := StreamAfter(setup, eligible, now, events);
      s.setup.explicit && !s.told.ending.NotYet? && i < |s.lanes| && HasAnswer(s.lanes[i])
    ensures var s := StreamAfter(setup, eligible, now, events);
      s.told.ending.winner < |s.lanes| && HasAnswer(s.lanes[s.told.ending.winner])
      && s.lanes[s.told.ending.winner].stage.at <= s.lanes[i].stage.at
  {
    FirstThroughout(setup, eligible, now, events);
  }

  /** The lane an ordinary stream reads spoke no later than any lane ever does. */
  ghost predicate Earliest(s: Stream) {
    !s.setup.explicit && s.exposed.Some? ==>
      && s.exposed.value < |s.lanes| && s.lanes[s.exposed.value].firstAt.Some?
      && forall i :: 0 <= i < |s.lanes| && s.lanes[i].firstAt.Some? ==>
           s.lanes[s.exposed.value].firstAt.value <= s.lanes[i].firstAt.value
  }

  lemma EarliestStays(s: Stream, t: Stream)
    requires LanesOk(s) && Earliest(s) && Grown(s, t) && t.setup == s.setup && t.exposed == s.exposed
    ensures Earliest(t)
  {
    if !s.setup.explicit && s.exposed.Some? {
      assert LaneOk(s.lanes[s.exposed.value], s.clock.now);
      forall i | 0 <= i < |t.lanes| && t.lanes[i].firstAt.Some?
        ensures t.lanes[s.exposed.value].firstAt.value <= t.lanes[i].firstAt.value
      {
        assert i < |s.lanes|;
      }
    }
  }

  lemma PickedIsEarliest(s: Stream)
    requires s.pc.Pick? && !s.setup.explicit && s.exposed.None?
    ensures Earliest(PickTurn(s))
  {
    FirstDeltaIsFirst(s.lanes);
  }

  /** An ordinary stream chooses whom to read at one place only. */
  lemma OnlyPickShows(s: Stream, late: bool)
    requires PcOk(s) && OrderOk(s) && !s.setup.explicit && s.exposed.None? && !s.pc.Pick?
    ensures OwnerTurn(s, late).exposed.None?
  {
    match s.pc
    case Top => RefillStep(Absorb(s), ToSelect);
    case Visible =>
    case Next => RefillStep(Absorb(s), ToNext);
    case AfterRefill => hide Buffered, AnyLive, Crashed;
    case _ =>
  }

  lemma EarliestKeeps(s: Stream, e: Event)
    requires Inv(s) && Earliest(s)
    ensures Earliest(Apply(s, e))
  {
    hide NamesOk, WavesOk, ReadOk, DeliveredOk, Earliest;
    var t := Apply(s, e);
    Step(s, e);
    if s.setup.explicit {
      NotOrdinary(t);
    } else if s.exposed.Some? || !e.Turn? {
      SameShown(s, e);
      EarliestStays(s, t);
    } else if s.pc.Pick? {
      PickedIsEarliest(s);
    } else {
      OnlyPickShows(s, e.late);
      NobodyShown(t);
    }
  }

  lemma NotOrdinary(s: Stream)
    requires s.setup.explicit
    ensures Earliest(s)
  {}

  lemma NobodyShown(s: Stream)
    requires s.exposed.None?
    ensures Earliest(s)
  {}

  lemma SameShown(s: Stream, e: Event)
    requires Kept(s, Apply(s, e)) && (s.exposed.Some? || !e.Turn?)
    ensures Apply(s, e).exposed == s.exposed
  {}

  lemma {:induction false} EarliestThroughout(setup: Setup, eligible: set<string>, now: real, events: seq<Event>)
    ensures Earliest(StreamAfter(setup, eligible, now, events))
    decreases |events|
  {
    if events != [] {
      hide Earliest;
      var rest := events[..|events| - 1];
      EarliestThroughout(setup, eligible, now, rest);
      RunKeeps(setup, eligible, now, rest);
      EarliestKeeps(StreamAfter(setup, eligible, now, rest), events[|events| - 1]);
    }
  }

  /** An ordinary stream reads the lane whose first delta came first, of all that ever speak. */
  lemma TheFirstToSpeakIsRead(setup: Setup, eligible: set<string>, now: real, events: seq<Event>, i: nat)
    requires !setup.explicit
    requires var s := StreamAfter(setup, eligible, now, events);
      s.exposed.Some? && i < |s.lanes| && s.lanes[i].firstAt.Some?
    ensures var s := StreamAfter(setup, eligible, now, events);
      s.exposed.value < |s.lanes| && s.lanes[s.exposed.value].firstAt.Some?
      && s.lanes[s.exposed.value].firstAt.value <= s.lanes[i].firstAt.value
  {
    EarliestThroughout(setup, eligible, now, events);
    StartInv(setup, eligible, now);
    RunsExtend(Start(setup, eligible, now), [], events);
    assert [] + events == events;
  }

  // ---------------------------------------------------------------------
  // How wide it gets
  // ---------------------------------------------------------------------

  /** No model is opened twice, every lane's model is eligible, so the lanes are bounded by
      the eligible names; never more are live at once than the widest wave allows; and a
      wave's delivered and pending answers together never exceed its width. */
  lemma NeverTooWide(setup: Setup, eligible: set<string>, now: real, events: seq<Event>)
    ensures var s := StreamAfter(setup, eligible, now, events);
      && (forall i, j :: 0 <= i < j < |s.lanes| ==> s.lanes[i].name != s.lanes[j].name)
      && |s.lanes| <= |s.opening.eligible|
      && Live(s.lanes) <= MaxInt(setup.width, setup.recoveryWidth)
      && DeliveredIn(s.lanes, s.opening.wave, s.told.delivered) + PendingIn(s.lanes, s.opening.wave, s.told.delivered)
         <= s.opening.waveWidth
  {
    var s := StreamAfter(setup, eligible, now, events);
    RunKeeps(setup, eligible, now, events);
    StartInv(setup, eligible, now);
    RunsExtend(Start(setup, eligible, now), [], events);
    assert [] + events == events;
    LiveIsUsed(s.lanes, s.opening.wave);
    CountsAgree(s.lanes, s.opening.wave, s.told.delivered);
    NamesCount(s.lanes);
    SubsetIsSmaller(s.opening.attempted, s.opening.eligible);
  }

  function NamesIn(lanes: seq<StreamLane>): set<string> { set i | 0 <= i < |lanes| :: lanes[i].name }

  lemma {:induction false} NamesCount(lanes: seq<StreamLane>)
    requires forall i, j :: 0 <= i < j < |lanes| ==> lanes[i].name != lanes[j].name
    ensures |NamesIn(lanes)| == |lanes|
  {
    if lanes != [] {
      var last := |lanes| - 1;
      NamesCount(lanes[..last]);
      assert NamesIn(lanes) == NamesIn(lanes[..last]) + {lanes[last].name};
    }
  }

  /** A top-up asks for exactly the lanes its wave still lacks, and is made exactly where the
      call has not expired, no answer is waiting, and the wave is not full. */
  lemma TopUpAsksForTheRest(setup: Setup, eligible: set<string>, now: real, events: seq<Event>, back: Back)
    ensures var s := StreamAfter(setup, eligible, now, events);
      var t := StartRefill(s, back);
      && (t.pc.Refill? <==>
            !s.facts.expired && Buffered(s.lanes, s.told.delivered).None? && Used(s.lanes, s.opening.wave) < s.opening.waveWidth)
      && (t.pc.Refill? ==> Used(s.lanes, s.opening.wave) + t.pc.needed == s.opening.waveWidth)
  {
    RunKeeps(setup, eligible, now, events);
    var s := StreamAfter(setup, eligible, now, events);
    CountsAgree(s.lanes, s.opening.wave, s.told.delivered);
    RefillStep(s, back);
  }

  /** A new wave opens only over a stream with nothing live, and one at a time. */
  lemma WavesDoNotOverlap(setup: Setup, eligible: set<string>, now: real, events: seq<Event>, e: Event)
    ensures var s := StreamAfter(setup, eligible, now, events);
      Apply(s, e).opening.wave == s.opening.wave
      || (!AnyLive(s.lanes) && Apply(s, e).opening.wave == s.opening.wave + 1)
  {
    RunKeeps(setup, eligible, now, events);
    var s := StreamAfter(setup, eligible, now, events);
    hide LanesOk, NamesOk, ReadOk, DeliveredOk, OrderOk, PcOk;
    match e
    case Turn(late) => OwnerStep(s, late);
    case _ =>
  }

  // ---------------------------------------------------------------------
  // Further answers
  // ---------------------------------------------------------------------

  /** What `another()` hands over: never the initial answer, never one twice, each completed
      no earlier than the one before; and it stops for good only when nothing is live and
      every completed answer has been handed over. */
  lemma AnswersInOrder(setup: Setup, eligible: set<string>, now: real, events: seq<Event>)
    ensures var s := StreamAfter(setup, eligible, now, events);
      && (s.told.ending.NotYet? ==> s.told.answers == [])
      && (!s.told.ending.NotYet? ==> s.told.ending.winner !in s.told.answers)
      && (forall k :: 0 <= k < |s.told.answers| ==> IsAnswered(s, s.told.answers[k]))
      && (forall k, m :: 0 <= k < m < |s.told.answers| ==>
            s.told.answers[k] != s.told.answers[m] && NoLater(s.lanes, s.told.answers[k], s.told.answers[m]))
      && (s.told.terminal ==>
            !AnyLive(s.lanes) && forall i :: 0 <= i < |s.lanes| && HasAnswer(s.lanes[i]) ==> i in s.told.delivered)
  {
    RunKeeps(setup, eligible, now, events);
  }

  // ---------------------------------------------------------------------
  // What the pool hands over is what the stream may open
  // ---------------------------------------------------------------------

  function NameList(configs: seq<LLMConfig>): (r: seq<string>)
    ensures |r| == |configs| && forall i :: 0 <= i < |r| ==> r[i] == configs[i].name
  {
    if configs == [] then [] else [configs[0].name] + NameList(configs[1..])
  }

  /** A reservation made for this stream, excluding what it has tried and keeping to its
      eligible names, is always one it may open. */
  lemma ReservationsAreGrantable(s: Stream, p: Pool.PoolState, ask: Pool.Ask, width: nat, recoveryWidth: nat, d: Pool.Demand)
    requires Pool.WellFormed(p) && width >= 1
    requires ask.eligible == Some(s.opening.eligible) && s.opening.attempted <= ask.exclude
    ensures var names := NameList(Pool.Reserve(p, ask, width, recoveryWidth, d).1);
      Grantable(s, names) && |names| <= MaxInt(width, recoveryWidth)
  {
    hide Pool.Choice, Pool.WellFormed, Pool.Marked, Pool.IsFree;
    Pool.ReservationGrants(p, ask, width, recoveryWidth, d);
    var best := Pool.Choice(p, ask, width, recoveryWidth, d);
    var names := NameList(Pool.Reserve(p, ask, width, recoveryWidth, d).1);
    assert forall i :: 0 <= i < |names| ==> names[i] == best[i].config.name && best[i] in best;
  }
}
