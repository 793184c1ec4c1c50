/** The clock of the model-list refresh: what provisioning, ticks, hot-path checks and
    refreshes in flight may do to it, in any order. `None` as a deadline is "never yet". */
module Refresher {
  import opened Common

  /** What the installation follows, and how often. */
  datatype Policy = Policy(interval: Option<real>, hasSource: bool, followsAlias: bool)

  /** Where `before_provision` stands. */
  datatype Gate = Untried | Loading | Filling | Rebuilding | Passed

  /** Where the background task stands. */
  datatype Task = NoTask | Fetching | Finishing

  datatype Clock = Clock(armed: bool, nextRefresh: Option<real>, gate: Gate, task: Task)

  const START := Clock(false, None, Untried, NoTask)

  /** The deadline the check record allows: one interval after the check it names, or at once. */
  function FirstDeadline(interval: real, now: real, age: Option<real>): real {
    if age.Some? && age.value < interval then now + (interval - age.value) else 0.0
  }

  function Arm(p: Policy, c: Clock, now: real, age: Option<real>): Clock {
    if c.armed then c
    else c.(armed := true,
            nextRefresh := if p.interval.Some? then Some(FirstDeadline(p.interval.value, now, age)) else c.nextRefresh)
  }

  predicate Due(p: Policy, c: Clock, now: real) {
    p.interval.Some? && c.nextRefresh.Some? && now >= c.nextRefresh.value && c.task.NoTask?
  }

  function Schedule(p: Policy, c: Clock, now: real): Clock {
    if Due(p, c, now) then c.(nextRefresh := Some(now + p.interval.value), task := Fetching) else c
  }

  function Tick(p: Policy, c: Clock, now: real, age: Option<real>): Clock {
    Schedule(p, if p.followsAlias then Arm(p, c, now, age) else c, now)
  }

  function Provision(p: Policy, c: Clock, now: real, age: Option<real>): Clock {
    if !c.gate.Untried? then c
    else if p.interval.None? then c.(gate := Passed)
    else if !p.hasSource then (if p.followsAlias then Arm(p, c, now, age) else c).(gate := Passed)
    else c.(gate := Loading)
  }

  function Loaded(p: Policy, c: Clock, empty: bool, now: real, age: Option<real>): Clock {
    if !c.gate.Loading? then c
    else if empty then c.(armed := true, gate := Filling)
    else Arm(p, c, now, age).(gate := Passed)
  }

  /** However an attempt ends, the next check is one interval on. */
  function Ended(p: Policy, c: Clock, now: real): Clock {
    if p.interval.Some? then c.(nextRefresh := Some(now + p.interval.value)) else c
  }

  class ModelListRefresher {
    const policy: Policy
    var attempted: bool
    var armed: bool
    var filling: bool
    var nextRefresh: Option<real>
    var running: bool
    ghost var gate: Gate
    ghost var task: Task

    ghost predicate Valid() reads this {
      && (attempted <==> !gate.Untried?)
      && (filling <==> gate.Filling? || gate.Rebuilding?)
      && (running <==> !task.NoTask?)
    }

    ghost function State(): Clock reads this { Clock(armed, nextRefresh, gate, task) }

    constructor (policy: Policy)
      ensures this.policy == policy && Valid() && State() == START
    {
      this.policy := policy;
      attempted, armed, filling, nextRefresh, running := false, false, false, None, false;
      gate, task := Untried, NoTask;
    }

    /** `before_provision` up to its first await; true where it goes on to read the registry. */
    method BeforeProvision(now: real, age: Option<real>) returns (load: bool)
      requires Valid()
      modifies this
      ensures Valid() && State() == Provision(policy, old(State()), now, age)
      ensures load <==> old(gate).Untried? && gate.Loading?
    {
      load := false;
      if attempted {
        return;
      }
      attempted, gate := true, Passed;
      if policy.interval.None? {
        return;
      }
      if !policy.hasSource {
        if policy.followsAlias {
          SetFirstDeadline(now, age);
        }
        return;
      }
      load, gate := true, Loading;
    }

    /** Its next stretch, the registry read; true where it fills the registry blocking. */
    method AfterLoad(empty: bool, now: real, age: Option<real>) returns (fill: bool)
      requires Valid() && gate.Loading?
      modifies this
      ensures Valid() && State() == Loaded(policy, old(State()), empty, now, age) && fill == empty
    {
      if empty {
        armed, filling, gate := true, true, Filling;
        return true;
      }
      gate := Passed;
      SetFirstDeadline(now, age);
      fill := false;
    }

    method SetFirstDeadline(now: real, age: Option<real>)
      requires Valid()
      modifies this`armed, this`nextRefresh
      ensures Valid() && State() == Arm(policy, old(State()), now, age)
    {
      if armed {
        return;
      }
      armed := true;
      if policy.interval.None? {
        return;
      }
      var interval := policy.interval.value;
      nextRefresh := Some(if age.Some? && age.value < interval then now + (interval - age.value) else 0.0);
    }

    /** The hot path's one comparison; true where it starts a background refresh. */
    method ScheduleRefresh(now: real) returns (started: bool)
      requires Valid()
      modifies this`nextRefresh, this`running, this`task
      ensures Valid() && State() == Schedule(policy, old(State()), now)
      ensures started <==> Due(policy, old(State()), now)
    {
      if policy.interval.None? || nextRefresh.None? || now < nextRefresh.value || running {
        return false;
      }
      nextRefresh := Some(now + policy.interval.value);
      running, task := true, Fetching;
      started := true;
    }

    method OnTick(now: real, age: Option<real>) returns (started: bool)
      requires Valid()
      modifies this
      ensures Valid() && State() == Tick(policy, old(State()), now, age)
    {
      if !armed && policy.followsAlias {
        SetFirstDeadline(now, age);
      }
      started := ScheduleRefresh(now);
    }

    /** The `finally` around the blocking fill. */
    method FillDone()
      requires Valid() && gate.Rebuilding?
      modifies this`filling, this`gate
      ensures Valid() && State() == old(State()).(gate := Passed)
    {
      filling, gate := false, Passed;
    }

    /** The `finally` of an attempt, background or blocking. */
    method AttemptEnds(now: real)
      requires Valid()
      modifies this`nextRefresh
      ensures Valid() && State() == Ended(policy, old(State()), now)
    {
      if policy.interval.Some? {
        nextRefresh := Some(now + policy.interval.value);
      }
    }
  }

  // ---------------------------------------------------------------------
  // Every interleaving
  // ---------------------------------------------------------------------

  datatype Event =
    | Elapse(seconds: real)
    | Provisioned(age: Option<real>)
    | RegistryRead(empty: bool, age: Option<real>)
    | FillEnds
    | FillDone
    | Ticked(age: Option<real>)
    | Checked
    | FetchEnds
    | TaskDone

  /** What an observer writes down: when background refreshes start and are over, when any
      attempt's fetch ends, how often the clock was armed and the registry filled. */
  datatype Log = Log(starts: seq<real>, over: nat, ends: seq<real>, armings: nat, fills: nat)

  datatype World = World(now: real, clock: Clock, log: Log)

  function Begin(now: real): World { World(now, START, Log([], 0, [], 0, 0)) }

  /** Move the clock, writing down what moved. */
  function Moved(w: World, c: Clock): World {
    var started := w.clock.task.NoTask? && !c.task.NoTask?;
    w.(clock := c,
       log := w.log.(starts := if started then w.log.starts + [w.now] else w.log.starts,
                     armings := w.log.armings + if !w.clock.armed && c.armed then 1 else 0,
                     fills := w.log.fills + if !w.clock.gate.Filling? && c.gate.Filling? then 1 else 0))
  }

  function EndsNow(w: World, c: Clock): World { w.(clock := c, log := w.log.(ends := w.log.ends + [w.now])) }

  function Apply(p: Policy, w: World, e: Event): World {
    match e
    case Elapse(t) => if t >= 0.0 then w.(now := w.now + t) else w
    case Provisioned(age) => Moved(w, Provision(p, w.clock, w.now, age))
    case RegistryRead(empty, age) => Moved(w, Loaded(p, w.clock, empty, w.now, age))
    case FillEnds => if w.clock.gate.Filling? then EndsNow(w, Ended(p, w.clock, w.now).(gate := Rebuilding)) else w
    case FillDone => if w.clock.gate.Rebuilding? then w.(clock := w.clock.(gate := Passed)) else w
    case Ticked(age) => Moved(w, Tick(p, w.clock, w.now, age))
    case Checked => Moved(w, Schedule(p, w.clock, w.now))
    case FetchEnds => if w.clock.task.Fetching? then EndsNow(w, Ended(p, w.clock, w.now).(task := Finishing)) else w
    case TaskDone =>
      if w.clock.task.Finishing? then w.(clock := w.clock.(task := NoTask), log := w.log.(over := w.log.over + 1)) else w
  }

  function Run(p: Policy, w: World, events: seq<Event>): World {
    if events == [] then w else Apply(p, Run(p, w, events[..|events| - 1]), events[|events| - 1])
  }

  /** Nothing recorded is nearer the next deadline than one interval. */
  ghost predicate Spaced(times: seq<real>, next: Option<real>, interval: real, now: real) {
    forall i :: 0 <= i < |times| ==> times[i] <= now && next.Some? && times[i] + interval <= next.value
  }

  ghost predicate Inv(p: Policy, w: World) {
    var (c, log) := (w.clock, w.log);
    && (c.nextRefresh.Some? ==> c.armed && p.interval.Some?)
    && (c.gate.Loading? || c.gate.Filling? || c.gate.Rebuilding? ==> p.hasSource && p.interval.Some?)
    && (c.gate.Filling? || c.gate.Rebuilding? ==> c.armed)
    && (p.interval.None? ==> log.starts == [] && log.ends == [])
    && (p.interval.Some? ==>
          && Spaced(log.starts, c.nextRefresh, p.interval.value, w.now)
          && Spaced(log.ends, c.nextRefresh, p.interval.value, w.now)
          && forall i, j :: 0 <= i < j < |log.starts| ==> log.starts[i] + p.interval.value <= log.starts[j])
    && |log.starts| == log.over + (if c.task.NoTask? then 0 else 1)
    && log.armings == (if c.armed then 1 else 0)
    && log.fills <= 1 && (c.gate.Untried? || c.gate.Loading? ==> log.fills == 0)
  }

  lemma ArmKeeps(p: Policy, w: World, age: Option<real>, gate: Gate)
    requires Inv(p, w) && (gate == w.clock.gate || gate.Passed?)
    ensures Inv(p, Moved(w, Arm(p, w.clock, w.now, age).(gate := gate)))
  {}

  lemma ScheduleKeeps(p: Policy, w: World)
    requires Inv(p, w)
    ensures Inv(p, Moved(w, Schedule(p, w.clock, w.now)))
  {}

  /** Writing down two moves of one instant is writing down both. */
  lemma MovedTwice(p: Policy, w: World, age: Option<real>)
    ensures Moved(w, Tick(p, w.clock, w.now, age)) ==
            var armed := Moved(w, if p.followsAlias then Arm(p, w.clock, w.now, age) else w.clock);
            Moved(armed, Schedule(p, armed.clock, w.now))
  {}

  lemma EndsKeep(p: Policy, w: World, c: Clock)
    requires Inv(p, w) && p.interval.Some? && w.clock.armed
    requires c == Ended(p, w.clock, w.now).(gate := c.gate, task := c.task)
    requires (c.gate == w.clock.gate || (w.clock.gate.Filling? && c.gate.Rebuilding?))
    requires c.task == w.clock.task || (w.clock.task.Fetching? && c.task.Finishing?)
    ensures Inv(p, EndsNow(w, c))
  {}

  /** Nothing starts before the clock is armed. */
  lemma StartedIsArmed(p: Policy, w: World)
    requires Inv(p, w)
    ensures w.log.starts != [] || !w.clock.task.NoTask? ==> w.clock.armed && p.interval.Some?
  {
    if w.log.starts != [] && p.interval.Some? {
      assert w.log.starts[0] <= w.now;
    }
  }

  lemma ApplyKeeps(p: Policy, w: World, e: Event)
    requires Inv(p, w)
    ensures Inv(p, Apply(p, w, e))
  {
    match e
    case Elapse(t) =>
    case Provisioned(age) =>
      ArmKeeps(p, w, age, Passed);
    case RegistryRead(empty, age) =>
      ArmKeeps(p, w, age, Passed);
    case FillEnds =>
      if w.clock.gate.Filling? {
        EndsKeep(p, w, Ended(p, w.clock, w.now).(gate := Rebuilding));
      }
    case FillDone =>
    case Ticked(age) =>
      MovedTwice(p, w, age);
      ArmKeeps(p, w, age, w.clock.gate);
      ScheduleKeeps(p, Moved(w, if p.followsAlias then Arm(p, w.clock, w.now, age) else w.clock));
    case Checked =>
      ScheduleKeeps(p, w);
    case FetchEnds =>
      if w.clock.task.Fetching? {
        StartedIsArmed(p, w);
        EndsKeep(p, w, Ended(p, w.clock, w.now).(task := Finishing));
      }
    case TaskDone =>
  }

  lemma {:induction false} RunKeeps(p: Policy, now: real, events: seq<Event>)
    ensures Inv(p, Run(p, Begin(now), events))
    decreases |events|
  {
    if events != [] {
      RunKeeps(p, now, events[..|events| - 1]);
      ApplyKeeps(p, Run(p, Begin(now), events[..|events| - 1]), events[|events| - 1]);
    }
  }

  /** Whatever the order of ticks, provisioning and refreshes: at most one background refresh
      is live, any two start at least one interval apart, the clock is armed at most once, the
      registry is filled at most once, and an installation with no interval fetches nothing. */
  lemma OneRefreshAtATime(p: Policy, now: real, events: seq<Event>)
    ensures var log := Run(p, Begin(now), events).log;
      && log.over <= |log.starts| <= log.over + 1
      && (p.interval.Some? ==>
            forall i, j :: 0 <= i < j < |log.starts| ==> log.starts[i] + p.interval.value <= log.starts[j])
      && log.armings <= 1 && log.fills <= 1
      && (p.interval.None? ==> log.starts == [] && log.fills == 0)
      && (!p.hasSource && !p.followsAlias ==> log.starts == [] && log.fills == 0)
  {
    RunKeeps(p, now, events);
    NothingToFollow(p, now, events);
  }

  /** A refresh started now comes one interval or more after every fetch that has ended,
      the blocking fill's included. */
  lemma StartsAfterEveryEnd(p: Policy, now: real, events: seq<Event>, e: Event, i: nat)
    requires p.interval.Some?
    requires var w := Run(p, Begin(now), events); |Apply(p, w, e).log.starts| > |w.log.starts| && i < |w.log.ends|
    ensures var w := Run(p, Begin(now), events); w.log.ends[i] + p.interval.value <= w.now
  {
    RunKeeps(p, now, events);
    var w := Run(p, Begin(now), events);
    if e.Ticked? {
      MovedTwice(p, w, e.age);
    }
  }

  lemma {:induction false} NothingToFollow(p: Policy, now: real, events: seq<Event>)
    ensures var w := Run(p, Begin(now), events);
      && (p.interval.None? ==> w.log.fills == 0)
      && (!p.hasSource && !p.followsAlias ==> w.clock.nextRefresh.None? && w.log.starts == [] && w.log.fills == 0)
    decreases |events|
  {
    if events != [] {
      NothingToFollow(p, now, events[..|events| - 1]);
      RunKeeps(p, now, events[..|events| - 1]);
    }
  }

  /** A check on record defers the first background refresh to one interval after it, and a
      record older than that, or none, lets it start at once. */
  lemma RecordDefersTheFirst(p: Policy, now: real, events: seq<Event>, e: Event, age: Option<real>)
    requires p.interval.Some?
    requires var w := Run(p, Begin(now), events); !w.clock.armed && w.now >= 0.0
    requires e == Provisioned(age) || e == RegistryRead(false, age) || e == Ticked(age)
    requires Apply(p, Run(p, Begin(now), events), e).clock.armed
    ensures var w := Run(p, Begin(now), events); var t := Apply(p, w, e);
      var recent := age.Some? && age.value < p.interval.value;
      && t.clock.nextRefresh.Some?
      && (recent ==> t.clock.nextRefresh.value == w.now - age.value + p.interval.value && t.log.starts == [])
      && (!recent ==> Due(p, t.clock, w.now) || |t.log.starts| == 1)
  {
    RunKeeps(p, now, events);
    StartedIsArmed(p, Run(p, Begin(now), events));
  }
}
