/** One routed call over the pool: acquire, drive the candidates taken, fail over. Which
    models it may open again, who wins a race, and what it raises when nobody answers. */
module Route {
  import opened Common
  import opened Verdicts
  import Pool

  /** What one settled lane produced: an answer, nothing and a verdict, or an exception that is
      nobody's verdict and is raised where its result is asked for. */
  datatype End = Answers | Fails(fate: Option<Fate>) | Crashes

  /** A `Lost` lane answered first and had its answer dropped for a sibling's exception. */
  datatype LaneState = Live | Emptied(fate: Option<Fate>) | Winner | Lost | Superseded | Abandoned | Crashed

  datatype Lane = Lane(name: string, race: nat, state: LaneState)

  /** The call-wide selection state, and every settlement folded into it, in order. */
  datatype Tally = Tally(
    clientFailed: set<string>,
    lastClientError: Option<ProviderError>,
    expired: bool,
    absorbed: seq<(string, Option<Fate>)>)

  function Absorbed(t: Tally, name: string, fate: Option<Fate>): Tally {
    var noted := t.(absorbed := t.absorbed + [(name, fate)]);
    if fate == Some(BudgetExpired) then noted.(expired := true)
    else if fate.Some? then
      noted.(clientFailed := t.clientFailed + {name},
             lastClientError := if fate.value.error.Some? then fate.value.error else t.lastClientError)
    else noted
  }

  class RouteCall {
    var clientFailed: set<string>
    var lastClientError: Option<ProviderError>
    var expired: bool
    ghost var absorbed: seq<(string, Option<Fate>)>

    ghost function State(): Tally reads this { Tally(clientFailed, lastClientError, expired, absorbed) }

    constructor ()
      ensures State() == Tally({}, None, false, [])
    {
      clientFailed, lastClientError, expired, absorbed := {}, None, false, [];
    }

    method Absorb(name: string, fate: Option<Fate>)
      modifies this
      ensures State() == Absorbed(old(State()), name, fate)
    {
      absorbed := absorbed + [(name, fate)];
      if fate.None? {
        return;
      }
      match fate.value
      case BudgetExpired => expired := true;
      case Failed(error) =>
        clientFailed := clientFailed + {name};
        if error.Some? {
          lastClientError := error;
        }
    }

    /** The lanes one wait found done, in the order they were opened: the first that answered
        wins, a later one is superseded, and the rest are folded into the call, up to the first
        that crashed, whose exception leaves the loop. */
    method SettleDone(lanes: seq<Lane>, done: seq<(nat, End)>)
      returns (after: seq<Lane>, winner: Option<nat>, crashed: bool)
      requires forall k :: 0 <= k < |done| ==> done[k].0 < |lanes|
      modifies this
      ensures Round(after, State(), winner, crashed) == Settled(Round(lanes, old(State()), None, false), done)
    {
      after, winner, crashed := lanes, None, false;
      for k := 0 to |done|
        invariant |after| == |lanes| && !crashed
        invariant Round(after, State(), winner, false) == Settled(Round(lanes, old(State()), None, false), done[..k])
      {
        assert done[..k + 1][..k] == done[..k];
        var (i, end) := done[k];
        if !after[i].state.Live? {
          continue;
        }
        if end.Crashes? {
          after, crashed := after[i := after[i].(state := Crashed)], true;
          CrashStops(Round(lanes, old(State()), None, false), done, k + 1);
          return;
        }
        if end.Fails? {
          Absorb(after[i].name, end.fate);
          after := after[i := after[i].(state := Emptied(end.fate))];
        } else if winner.None? {
          winner := Some(i);
          after := after[i := after[i].(state := Winner)];
        } else {
          after := after[i := after[i].(state := Superseded)];
        }
      }
      assert done[..|done|] == done;
    }
  }

  datatype Round = Round(lanes: seq<Lane>, tally: Tally, winner: Option<nat>, crashed: bool)

  function SettleOne(r: Round, i: nat, end: End): Round {
    if r.crashed || i >= |r.lanes| || !r.lanes[i].state.Live? then r
    else if end.Crashes? then r.(lanes := r.lanes[i := r.lanes[i].(state := Crashed)], crashed := true)
    else if end.Fails? then
      r.(lanes := r.lanes[i := r.lanes[i].(state := Emptied(end.fate))],
         tally := Absorbed(r.tally, r.lanes[i].name, end.fate))
    else if r.winner.None? then r.(lanes := r.lanes[i := r.lanes[i].(state := Winner)], winner := Some(i))
    else r.(lanes := r.lanes[i := r.lanes[i].(state := Superseded)])
  }

  function Settled(r: Round, done: seq<(nat, End)>): Round {
    if done == [] then r
    else
      var (last, before) := (done[|done| - 1], Settled(r, done[..|done| - 1]));
      SettleOne(before, last.0, last.1)
  }

  lemma {:induction false} CrashStops(r: Round, done: seq<(nat, End)>, k: nat)
    requires k <= |done| && Settled(r, done[..k]).crashed
    ensures Settled(r, done) == Settled(r, done[..k])
  {
    if k == |done| {
      assert done[..k] == done;
    } else {
      assert done[..|done| - 1][..k] == done[..k];
      CrashStops(r, done[..|done| - 1], k);
    }
  }

  // ---------------------------------------------------------------------
  // The call as a machine
  // ---------------------------------------------------------------------

  datatype Trouble = ClientFault(error: ProviderError) | NoModel(reason: Pool.Reason) | OutOfTime | Crash

  datatype Phase = Asking | Racing | Refilling(needed: int) | Answered(winner: nat) | Raised(trouble: Trouble)

  datatype Call = Call(
    width: nat,
    recoveryWidth: nat,
    lanes: seq<Lane>,
    tally: Tally,
    race: nat,
    raceWidth: nat,
    phase: Phase)

  datatype Event =
    | Granted(names: seq<string>)
    | Refused(reason: Pool.Reason)
    | Timeout
    | Done(done: seq<(nat, End)>)
    | Refilled(names: seq<string>)
    | Broke

  function Start(width: nat, recoveryWidth: nat): Call {
    Call(width, recoveryWidth, [], Tally({}, None, false, []), 0, 0, Asking)
  }

  function OpenedIn(lanes: seq<Lane>, race: nat): set<string> {
    set i | 0 <= i < |lanes| && lanes[i].race == race :: lanes[i].name
  }

  function NewLanes(names: seq<string>, race: nat): (r: seq<Lane>)
    ensures |r| == |names| && forall i :: 0 <= i < |names| ==> r[i] == Lane(names[i], race, Live)
  {
    if names == [] then [] else [Lane(names[0], race, Live)] + NewLanes(names[1..], race)
  }

  predicate Simple(names: seq<string>) { forall i, j :: 0 <= i < j < |names| ==> names[i] != names[j] }

  predicate Clear(names: seq<string>, excluded: set<string>) { forall n :: n in names ==> n !in excluded }

  /** A turn of the pool serves distinct models, none of them excluded, and no more than the
      call or its recovery asked for. */
  predicate Grantable(c: Call, names: seq<string>) {
    && c.phase.Asking? && names != [] && Simple(names) && Clear(names, c.tally.clientFailed)
    && |names| <= MaxInt(c.width, c.recoveryWidth)
  }

  predicate Refillable(c: Call, names: seq<string>) {
    && c.phase.Refilling? && Simple(names) && (names != [] ==> |names| <= c.phase.needed)
    && Clear(names, c.tally.clientFailed + OpenedIn(c.lanes, c.race))
  }

  predicate AnyLive(lanes: seq<Lane>) { exists i :: 0 <= i < |lanes| && lanes[i].state.Live? }

  function LiveCount(lanes: seq<Lane>): nat {
    if lanes == [] then 0 else LiveCount(lanes[..|lanes| - 1]) + if lanes[|lanes| - 1].state.Live? then 1 else 0
  }

  /** Every lane still live is marked the same way at once. */
  function Close(lanes: seq<Lane>, state: LaneState): (r: seq<Lane>)
    ensures |r| == |lanes|
    ensures forall i :: 0 <= i < |lanes| ==> r[i] == if lanes[i].state.Live? then lanes[i].(state := state) else lanes[i]
  {
    if lanes == [] then []
    else [if lanes[0].state.Live? then lanes[0].(state := state) else lanes[0]] + Close(lanes[1..], state)
  }

  function OrClientFault(t: Tally, otherwise: Trouble): Trouble {
    if t.lastClientError.Some? then ClientFault(t.lastClientError.value) else otherwise
  }

  /** A race with nobody left goes round again, unless the caller's clock ran out in it. */
  function NextRound(c: Call): Call {
    if AnyLive(c.lanes) then c.(phase := Racing)
    else if c.tally.expired then c.(phase := Raised(OrClientFault(c.tally, OutOfTime)))
    else c.(phase := Asking)
  }

  /** What one wait finds: lanes still live, in the order they were opened. */
  predicate Batch(c: Call, done: seq<(nat, End)>) {
    && (forall k :: 0 <= k < |done| ==> done[k].0 < |c.lanes| && c.lanes[done[k].0].state.Live?)
    && (forall j, k :: 0 <= j < k < |done| ==> done[j].0 < done[k].0)
  }

  /** An exception on its way out takes an answer already found with it. */
  function Unwon(lanes: seq<Lane>, winner: Option<nat>): (r: seq<Lane>)
    ensures |r| == |lanes|
  {
    if winner.Some? && winner.value < |lanes|
    then lanes[winner.value := lanes[winner.value].(state := Lost)]
    else lanes
  }

  function DoneTurn(c: Call, done: seq<(nat, End)>): Call {
    After(c, Settled(Round(c.lanes, c.tally, None, false), done))
  }

  function After(c: Call, r: Round): Call {
    var t := c.(lanes := r.lanes, tally := r.tally);
    if r.crashed then t.(lanes := Close(Unwon(r.lanes, r.winner), Abandoned), phase := Raised(Crash))
    else if r.winner.Some? then t.(lanes := Close(r.lanes, Superseded), phase := Answered(r.winner.value))
    else if c.raceWidth > 1 && !r.tally.expired then t.(phase := Refilling(c.raceWidth - LiveCount(r.lanes)))
    else NextRound(t)
  }

  function Apply(c: Call, e: Event): Call {
    match e
    case Granted(names) =>
      if Grantable(c, names) then
        c.(lanes := c.lanes + NewLanes(names, c.race + 1), race := c.race + 1, raceWidth := |names|, phase := Racing)
      else c
    case Refused(reason) =>
      if c.phase.Asking? then
        c.(phase := Raised(if reason.Excluded? then OrClientFault(c.tally, NoModel(reason)) else NoModel(reason)))
      else c
    case Timeout => if c.phase.Asking? then c.(phase := Raised(OutOfTime)) else c
    case Done(done) => if c.phase.Racing? && Batch(c, done) then DoneTurn(c, done) else c
    case Refilled(names) =>
      if Refillable(c, names) then NextRound(c.(lanes := c.lanes + NewLanes(names, c.race))) else c
    case Broke =>
      if c.phase.Racing? || c.phase.Refilling? then c.(lanes := Close(c.lanes, Abandoned), phase := Raised(Crash)) else c
  }

  function Run(c: Call, events: seq<Event>): Call {
    if events == [] then c else Apply(Run(c, events[..|events| - 1]), events[|events| - 1])
  }

  function StateAfter(width: nat, recoveryWidth: nat, events: seq<Event>): Call {
    Run(Start(width, recoveryWidth), events)
  }

  // ---------------------------------------------------------------------
  // The invariant
  // ---------------------------------------------------------------------

  predicate Rejected(fate: Option<Fate>) { fate.Some? && fate.value.Failed? }

  ghost predicate LanesOk(c: Call) {
    && (forall i :: 0 <= i < |c.lanes| ==> c.lanes[i].race <= c.race)
    && (forall i :: 0 <= i < |c.lanes| && c.lanes[i].race < c.race ==> !c.lanes[i].state.Live?)
    && (c.phase.Asking? ==> !AnyLive(c.lanes))
    && (forall i, j :: 0 <= i < j < |c.lanes| && c.lanes[i].race == c.lanes[j].race ==> c.lanes[i].name != c.lanes[j].name)
  }

  /** A lane whose verdict excludes its model has put it out of the call's reach, and no lane
      opened after that carries the name. */
  ghost predicate ExclusionOk(c: Call) {
    && (forall i :: 0 <= i < |c.lanes| && c.lanes[i].state.Emptied? && Rejected(c.lanes[i].state.fate) ==>
          c.lanes[i].name in c.tally.clientFailed)
    && (forall i, j :: 0 <= i < j < |c.lanes| && c.lanes[i].state.Emptied? && Rejected(c.lanes[i].state.fate)
                       && c.lanes[i].race < c.lanes[j].race ==>
          c.lanes[i].name != c.lanes[j].name)
  }

  predicate First(l: Lane) { l.state.Winner? || l.state.Lost? }

  ghost predicate WinnerOk(c: Call) {
    && (forall i :: 0 <= i < |c.lanes| && c.lanes[i].state.Winner? ==> c.phase == Answered(i))
    && (forall i :: 0 <= i < |c.lanes| && (c.lanes[i].state.Lost? || c.lanes[i].state.Crashed?) ==> c.phase == Raised(Crash))
    && (forall i, j :: 0 <= i < j < |c.lanes| ==> !(First(c.lanes[i]) && First(c.lanes[j])))
    && (forall i :: 0 <= i < |c.lanes| && c.lanes[i].state.Superseded? ==>
          exists j :: 0 <= j < |c.lanes| && First(c.lanes[j]))
    && (c.phase.Answered? ==> c.phase.winner < |c.lanes| && c.lanes[c.phase.winner].state.Winner? && !AnyLive(c.lanes))
  }

  /** The newest client error among these settlements. */
  function NewestError(absorbed: seq<(string, Option<Fate>)>): Option<ProviderError> {
    if absorbed == [] then None
    else
      var fate := absorbed[|absorbed| - 1].1;
      if fate.Some? && fate.value.Failed? && fate.value.error.Some? then fate.value.error
      else NewestError(absorbed[..|absorbed| - 1])
  }

  ghost predicate TallyOk(t: Tally) { t.lastClientError == NewestError(t.absorbed) }

  ghost predicate Inv(c: Call) { LanesOk(c) && ExclusionOk(c) && WinnerOk(c) && TallyOk(c.tally) }
}
