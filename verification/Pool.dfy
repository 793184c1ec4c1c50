/** The live slot pool: membership, cooldowns, ranked reservation, recovery claims and
    the timer a queued caller sleeps on.

    `PoolState` is the value the pool's fields spell; every mutating operation is a
    function on it, `LLMPool` (in PoolClass.dfy) updates the fields in place and is proved
    against these functions, and the lemmas below are about the functions. Wall-clock time
    is `real` seconds since 1970, on a calendar that ends both ways; monotonic time is `real`
    seconds. */
module Pool {
  import opened Common
  import opened Models

  const BUDGET_SLACK_SEC := 1.0
  const BUDGET_BOUND_WINDOW_SEC := 600.0

  /** The first instant of the year 1 and the last of the year 9999. */
  const CALENDAR_START := -62135596800.0
  const CALENDAR_END := 253402300799.999999

  /** Python's `datetime` holds this instant; arithmetic that leaves the calendar raises. */
  predicate OnCalendar(at: real) { CALENDAR_START <= at <= CALENDAR_END }

  datatype Bound = Bound(seconds: real, until: real)

  datatype Slot = Slot(
    config: LLMConfig,
    inFlight: nat,
    cooldownUntil: Option<real>,
    failCount: nat,
    disabled: bool,
    order: int,
    recoveryDue: bool,
    recoveryClaimed: bool)

  /** The optimizer's answers for one operation; a name it says nothing about keeps its weight. */
  datatype Judge = Judge(demoted: set<string>, priority: map<string, real>) {
    function PriorityOf(c: LLMConfig): real {
      if c.name in priority then priority[c.name] else c.weight
    }
  }

  /** What one caller asks from: the refs it can pay for, what it will not take again, and
      the names a stream may open at all. */
  datatype Ask = Ask(payable: set<string>, exclude: set<string>, eligible: Option<set<string>>)

  /** Against what a choice is ranked. */
  datatype Demand = Demand(remaining: Option<real>, now: real, judge: Judge)

  /** `names` is the dictionary's insertion order. */
  datatype PoolState = PoolState(
    names: seq<string>,
    slots: map<string, Slot>,
    nextOrder: int,
    bounds: map<string, Bound>)

  const EMPTY := PoolState([], map[], 0, map[])

  ghost predicate WellFormed(p: PoolState) {
    && Distinct(p.names)
    && (forall n :: n in p.names <==> n in p.slots)
    && (forall n :: n in p.slots ==> p.slots[n].config.name == n)
  }

  // ---------------------------------------------------------------------
  // Membership
  // ---------------------------------------------------------------------

  function NewSlot(cfg: LLMConfig, order: int): Slot {
    Slot(cfg, 0, None, 0, false, order, false, false)
  }

  function Add(p: PoolState, cfg: LLMConfig, order: Option<int>): PoolState {
    var at := if order.Some? then order.value else p.nextOrder;
    var next := MaxInt(p.nextOrder, at + 1);
    if cfg.name in p.slots then
      p.(slots := p.slots[cfg.name := p.slots[cfg.name].(config := cfg, order := at)], nextOrder := next)
    else
      p.(names := p.names + [cfg.name], slots := p.slots[cfg.name := NewSlot(cfg, at)], nextOrder := next)
  }

  function Drop(p: PoolState, name: string): PoolState {
    p.(names := Filter(p.names, n => n != name), slots := p.slots - {name}, bounds := p.bounds - {name})
  }

  function SetDisabled(p: PoolState, name: string, flag: bool): PoolState {
    if name in p.slots then p.(slots := p.slots[name := p.slots[name].(disabled := flag)]) else p
  }

  // ---------------------------------------------------------------------
  // Handing a slot back
  // ---------------------------------------------------------------------

  function OneFewer(n: nat): nat { if n == 0 then 0 else n - 1 }

  function Release(p: PoolState, name: string): PoolState {
    if name in p.slots then
      var s := p.slots[name];
      p.(slots := p.slots[name := s.(inFlight := OneFewer(s.inFlight), recoveryClaimed := false)])
    else p
  }

  function CoolDown(p: PoolState, name: string, until: real): PoolState {
    if name in p.slots then
      var s := p.slots[name];
      p.(slots := p.slots[name := s.(cooldownUntil := Some(until), failCount := s.failCount + 1,
                                     inFlight := OneFewer(s.inFlight), recoveryDue := true,
                                     recoveryClaimed := false)])
    else p
  }

  /** `cool_down`: its instant is worked out before anything is touched, and one off the
      calendar raises there with the slot still in flight. */
  function CoolFor(p: PoolState, name: string, now: real, delay: real): Option<PoolState> {
    if OnCalendar(now + delay) then Some(CoolDown(p, name, now + delay)) else None
  }

  function ClearCooling(p: PoolState, name: string): PoolState {
    if name in p.slots then
      p.(slots := p.slots[name := p.slots[name].(cooldownUntil := None, recoveryDue := false,
                                                recoveryClaimed := false)])
    else p
  }

  // ---------------------------------------------------------------------
  // Missed budgets
  // ---------------------------------------------------------------------

  function RaiseBudgetBound(p: PoolState, name: string, budget: real, observedAt: real): PoolState {
    var previous := if name in p.bounds && p.bounds[name].until > observedAt then p.bounds[name].seconds else 0.0;
    p.(bounds := p.bounds[name := Bound(Max(previous, budget), observedAt + BUDGET_BOUND_WINDOW_SEC)])
  }

  function ClearBudgetBound(p: PoolState, name: string): PoolState {
    p.(bounds := p.bounds - {name})
  }

  function ApplyBudgetBounds(p: PoolState, observed: map<string, (real, real)>): PoolState {
    p.(bounds := map n | n in observed :: Bound(observed[n].0, observed[n].1 + BUDGET_BOUND_WINDOW_SEC))
  }

  function OverBudget(bounds: map<string, Bound>, s: Slot, remaining: Option<real>, now: real): bool {
    && remaining.Some? && s.config.name in bounds && bounds[s.config.name].until > now
    && remaining.value < bounds[s.config.name].seconds + BUDGET_SLACK_SEC
  }

  // ---------------------------------------------------------------------
  // Choosing
  // ---------------------------------------------------------------------

  predicate Admits(s: Slot, ask: Ask) {
    && (ask.eligible.Some? ==> s.config.name in ask.eligible.value)
    && s.config.apiKeyRef in ask.payable
    && !s.disabled
    && s.config.name !in ask.exclude
  }

  predicate UnderCap(s: Slot) {
    s.config.parallel.Some? ==> s.inFlight < s.config.parallel.value
  }

  predicate CoolOver(s: Slot, now: real) {
    s.cooldownUntil.Some? ==> s.cooldownUntil.value <= now
  }

  predicate IsFree(s: Slot, now: real) {
    !s.recoveryClaimed && UnderCap(s) && CoolOver(s, now)
  }

  function InOrder(p: PoolState, names: seq<string>): seq<Slot> {
    if names == [] then []
    else if names[0] in p.slots then [p.slots[names[0]]] + InOrder(p, names[1..])
    else InOrder(p, names[1..])
  }

  function Candidates(p: PoolState, ask: Ask): seq<Slot> {
    Filter(InOrder(p, p.names), AdmittedBy(ask))
  }

  function AdmittedBy(ask: Ask): Slot -> bool { (s: Slot) => Admits(s, ask) }

  function FreeAt(now: real): Slot -> bool { (s: Slot) => IsFree(s, now) }

  function Recheck(due: bool): Slot -> bool { (s: Slot) => s.recoveryDue == due }

  function NotNamed(names: set<string>): Slot -> bool { (s: Slot) => s.config.name !in names }

  datatype Rank = Rank(overBudget: bool, demoted: bool, negPriority: real, order: int)

  function RankOf(bounds: map<string, Bound>, s: Slot, d: Demand): Rank {
    Rank(OverBudget(bounds, s, d.remaining, d.now), s.config.name in d.judge.demoted,
         -d.judge.PriorityOf(s.config), s.order)
  }

  /** Python's tuple order: `False` sorts before `True`. */
  predicate RankLe(a: Rank, b: Rank) {
    if a.overBudget != b.overBudget then b.overBudget
    else if a.demoted != b.demoted then b.demoted
    else if a.negPriority != b.negPriority then a.negPriority < b.negPriority
    else a.order <= b.order
  }

  function SlotLe(bounds: map<string, Bound>, d: Demand): (Slot, Slot) -> bool {
    (a: Slot, b: Slot) => RankLe(RankOf(bounds, a, d), RankOf(bounds, b, d))
  }

  function Ranked(bounds: map<string, Bound>, candidates: seq<Slot>, d: Demand): seq<Slot> {
    StableSort(Filter(candidates, FreeAt(d.now)), SlotLe(bounds, d))
  }

  function Take<T>(s: seq<T>, count: int): seq<T> {
    if count <= 0 then [] else if count >= |s| then s else s[..count]
  }

  function Skip<T>(s: seq<T>, count: int): seq<T> {
    if count <= 0 then s else if count >= |s| then [] else s[count..]
  }

  function Cover(rest: seq<Slot>, count: int): seq<Slot> {
    if count <= 0 then []
    else Take(Filter(rest, Recheck(false)) + Filter(rest, Recheck(true)), count)
  }

  function Chosen(ranked: seq<Slot>, width: nat, recoveryWidth: nat): seq<Slot> {
    var best := Take(ranked, width);
    if best != [] && best[0].recoveryDue then best + Cover(Skip(ranked, width), recoveryWidth - width) else best
  }

  function NamesOf(s: seq<Slot>): set<string> { set x | x in s :: x.config.name }

  function ConfigsOf(s: seq<Slot>): (r: seq<LLMConfig>)
    ensures |r| == |s| && forall i :: 0 <= i < |s| ==> r[i] == s[i].config
  {
    if s == [] then [] else [s[0].config] + ConfigsOf(s[1..])
  }

  function Taken(s: Slot): Slot { s.(inFlight := s.inFlight + 1, recoveryClaimed := s.recoveryDue) }

  function Marked(p: PoolState, taken: set<string>): PoolState {
    p.(slots := map n | n in p.slots :: if n in taken then Taken(p.slots[n]) else p.slots[n])
  }

  function Choice(p: PoolState, ask: Ask, width: nat, recoveryWidth: nat, d: Demand): seq<Slot> {
    Chosen(Ranked(p.bounds, Candidates(p, ask), d), width, recoveryWidth)
  }

  /** One reservation: the pool after it, and the configs taken in the order they were chosen. */
  function Reserve(p: PoolState, ask: Ask, width: nat, recoveryWidth: nat, d: Demand): (PoolState, seq<LLMConfig>) {
    var best := Choice(p, ask, width, recoveryWidth, d);
    (Marked(p, NamesOf(best)), ConfigsOf(best))
  }

  // ---------------------------------------------------------------------
  // One turn of a queued caller
  // ---------------------------------------------------------------------

  datatype Reason = Excluded | EmptyPool | NoKeys | AllDisabled

  datatype Turn =
    | Served(configs: seq<LLMConfig>)
    | Exhausted(reason: Reason)
    | TimedOut(retryAt: Option<real>)
    | Sleep(timeout: Option<real>)

  function ExhaustionReason(p: PoolState, ask: Ask): Reason {
    if ask.exclude * p.slots.Keys != {} then Excluded
    else if p.slots == map[] then EmptyPool
    else if !exists n | n in p.slots :: p.slots[n].config.apiKeyRef in ask.payable then NoKeys
    else AllDisabled
  }

  /** The least of the values present, `None` when there is none: Python's `min(..) if .. else None`. */
  function MinOption(a: Option<real>, b: Option<real>): Option<real> {
    if a.None? then b else if b.None? then a else Some(Min(a.value, b.value))
  }

  function EarliestReturn(candidates: seq<Slot>, now: real): Option<real> {
    if candidates == [] then None
    else
      var s := candidates[0];
      MinOption(if CoolOver(s, now) then None else s.cooldownUntil, EarliestReturn(candidates[1..], now))
  }

  /** A slot already at its cap comes free by a hand-back and not by time, so it sets no timer. */
  function Wakeup(s: Slot, now: real): Option<real> {
    if !UnderCap(s) || CoolOver(s, now) then None else Some(s.cooldownUntil.value - now)
  }

  function EarliestWakeup(candidates: seq<Slot>, now: real): Option<real> {
    if candidates == [] then None
    else MinOption(Wakeup(candidates[0], now), EarliestWakeup(candidates[1..], now))
  }

  function WakeTimeout(now: real, mono: real, queueDeadline: Option<real>, candidates: seq<Slot>): Option<real> {
    MinOption(EarliestWakeup(candidates, now),
              if queueDeadline.Some? then Some(queueDeadline.value - mono) else None)
  }

  /** What `acquire_many` does between two awaits. */
  function AcquireTurn(p: PoolState, ask: Ask, width: nat, recoveryWidth: nat, d: Demand,
                       queueDeadline: Option<real>, mono: real): (PoolState, Turn)
  {
    var (after, configs) := Reserve(p, ask, width, recoveryWidth, d);
    var candidates := Candidates(p, ask);
    if configs != [] then (after, Served(configs))
    else if candidates == [] then (p, Exhausted(ExhaustionReason(p, ask)))
    else if queueDeadline.Some? && mono >= queueDeadline.value then (p, TimedOut(EarliestReturn(candidates, d.now)))
    else (p, Sleep(WakeTimeout(d.now, mono, queueDeadline, candidates)))
  }

  /** `retry_at`: nothing to wait for where some candidate can serve right now. */
  function RetryAt(p: PoolState, ask: Ask, now: real): Option<real> {
    var candidates := Candidates(p, ask);
    if exists s | s in candidates :: IsFree(s, now) then None else EarliestReturn(candidates, now)
  }

  // ---------------------------------------------------------------------
  // Facts about the ordering and the choice
  // ---------------------------------------------------------------------

  lemma SlotLeTotal(bounds: map<string, Bound>, d: Demand)
    ensures TotalPreorder(SlotLe(bounds, d))
  {
    var le := SlotLe(bounds, d);
    forall x, y ensures le(x, y) || le(y, x) {}
    forall x, y, z | le(x, y) && le(y, z) ensures le(x, z) {}
  }

  lemma {:induction false} InOrderMembers(p: PoolState, names: seq<string>)
    requires forall n :: n in names ==> n in p.slots && p.slots[n].config.name == n
    requires Distinct(names)
    ensures |InOrder(p, names)| == |names|
    ensures forall i :: 0 <= i < |names| ==> InOrder(p, names)[i] == p.slots[names[i]]
    ensures Distinct(InOrder(p, names))
  {
    if names != [] {
      InOrderMembers(p, names[1..]);
      var all := InOrder(p, names);
      forall i | 0 <= i < |names| ensures all[i] == p.slots[names[i]] {
        assert i > 0 ==> names[i] == names[1..][i - 1];
      }
    }
  }

  /** What makes a slot takable for this caller at this instant. */
  ghost predicate Takable(p: PoolState, ask: Ask, now: real, s: Slot) {
    s.config.name in p.slots && p.slots[s.config.name] == s && Admits(s, ask) && IsFree(s, now)
  }

  lemma InOrderAre(p: PoolState)
    requires WellFormed(p)
    ensures Distinct(InOrder(p, p.names))
    ensures forall s :: s in InOrder(p, p.names) <==> s.config.name in p.slots && p.slots[s.config.name] == s
  {
    InOrderMembers(p, p.names);
    var all := InOrder(p, p.names);
    hide InOrder;
    forall n | n in p.slots ensures p.slots[n] in all {
      var i :| 0 <= i < |p.names| && p.names[i] == n;
      assert all[i] == p.slots[n];
    }
    forall s | s in all ensures s.config.name in p.slots && p.slots[s.config.name] == s {
      var i :| 0 <= i < |all| && all[i] == s;
      assert p.names[i] in p.names;
    }
  }

  lemma CandidatesAre(p: PoolState, ask: Ask)
    requires WellFormed(p)
    ensures Distinct(Candidates(p, ask))
    ensures forall s :: s in Candidates(p, ask) <==>
              s.config.name in p.slots && p.slots[s.config.name] == s && Admits(s, ask)
  {
    hide InOrder, WellFormed, Admits, Filter;
    InOrderAre(p);
    var all := InOrder(p, p.names);
    FilterDistinct(all, AdmittedBy(ask));
    FilterMembers(all, AdmittedBy(ask));
  }

  lemma RankedAre(p: PoolState, ask: Ask, d: Demand)
    requires WellFormed(p)
    ensures var ranked := Ranked(p.bounds, Candidates(p, ask), d);
      Distinct(ranked) && Sorted(ranked, SlotLe(p.bounds, d))
    ensures forall s :: s in Ranked(p.bounds, Candidates(p, ask), d) <==> Takable(p, ask, d.now, s)
  {
    CandidatesAre(p, ask);
    var free := Filter(Candidates(p, ask), FreeAt(d.now));
    FilterDistinct(Candidates(p, ask), FreeAt(d.now));
    FilterMembers(Candidates(p, ask), FreeAt(d.now));
    SlotLeTotal(p.bounds, d);
    SortSorts(free, SlotLe(p.bounds, d));
    SortMembers(free, SlotLe(p.bounds, d));
    SortDistinct(free, SlotLe(p.bounds, d));
  }

  lemma {:induction false} SplitCounts(rest: seq<Slot>)
    ensures |Filter(rest, Recheck(false))| + |Filter(rest, Recheck(true))| == |rest|
  {
    if rest != [] {
      SplitCounts(rest[1..]);
    }
  }

  lemma CoverAre(rest: seq<Slot>, count: int)
    requires Distinct(rest)
    ensures Distinct(Cover(rest, count))
    ensures forall s :: s in Cover(rest, count) ==> s in rest
    ensures |Cover(rest, count)| == if count <= 0 then 0 else if count < |rest| then count else |rest|
  {
    var ordinary := Filter(rest, Recheck(false));
    var due := Filter(rest, Recheck(true));
    FilterDistinct(rest, Recheck(false));
    FilterDistinct(rest, Recheck(true));
    FilterMembers(rest, Recheck(false));
    FilterMembers(rest, Recheck(true));
    forall i, j | 0 <= i < |ordinary| && 0 <= j < |due| ensures ordinary[i] != due[j] {
      assert ordinary[i] in ordinary && due[j] in due;
    }
    SplitCounts(rest);
  }

  lemma ChosenAre(ranked: seq<Slot>, width: nat, recoveryWidth: nat)
    requires Distinct(ranked) && width >= 1
    ensures var best := Chosen(ranked, width, recoveryWidth);
      && Distinct(best)
      && (forall s :: s in best ==> s in ranked)
      && |best| <= MaxInt(width, recoveryWidth)
      && (best == [] <==> ranked == [])
  {
    var head := Take(ranked, width);
    var rest := Skip(ranked, width);
    var cover := Cover(rest, recoveryWidth - width);
    CoverAre(rest, recoveryWidth - width);
    assert ranked == head + rest;
    forall i, j | 0 <= i < |head| && 0 <= j < |cover| ensures head[i] != cover[j] {
      assert cover[j] in cover;
      var k :| 0 <= k < |rest| && rest[k] == cover[j];
      assert ranked[i] != ranked[|head| + k];
    }
    assert forall i :: 0 <= i < |head| ==> head[i] == ranked[i];
    DistinctConcat(head, cover);
  }

  /** Everything a reservation promises the caller that made it: distinct models, each one
      admissible and free, never more than asked for or than its recovery allows, and one
      at least whenever one is free. */
  lemma ReservationGrants(p: PoolState, ask: Ask, width: nat, recoveryWidth: nat, d: Demand)
    requires WellFormed(p) && width >= 1
    ensures var best := Choice(p, ask, width, recoveryWidth, d);
      && (forall s :: s in best ==> Takable(p, ask, d.now, s))
      && |best| <= MaxInt(width, recoveryWidth)
      && (forall i, j :: 0 <= i < j < |best| ==> best[i].config.name != best[j].config.name)
      && (best == [] <==> forall n :: n in p.slots ==> !Takable(p, ask, d.now, p.slots[n]))
  {
    RankedAre(p, ask, d);
    var ranked := Ranked(p.bounds, Candidates(p, ask), d);
    ChosenAre(ranked, width, recoveryWidth);
    var best := Choice(p, ask, width, recoveryWidth, d);
    assert forall i :: 0 <= i < |best| ==> best[i] in best;
    if ranked != [] {
      assert ranked[0] in ranked;
    }
  }

  /** No free candidate that was left behind ranks strictly before one that was taken for
      its rank, so being raced changes how many models are picked and never which. */
  lemma BestAreTaken(p: PoolState, ask: Ask, width: nat, d: Demand, chosen: Slot, left: Slot)
    requires WellFormed(p) && width >= 1
    requires chosen in Choice(p, ask, width, 0, d)
    requires Takable(p, ask, d.now, left) && left !in Choice(p, ask, width, 0, d)
    ensures RankLe(RankOf(p.bounds, chosen, d), RankOf(p.bounds, left, d))
  {
    RankedAre(p, ask, d);
    var ranked := Ranked(p.bounds, Candidates(p, ask), d);
    var best := Choice(p, ask, width, 0, d);
    assert forall k :: 0 <= k < |best| ==> best[k] in best && best[k] == ranked[k];
    var i :| 0 <= i < |best| && best[i] == chosen;
    var j :| 0 <= j < |ranked| && ranked[j] == left;
    assert SlotLe(p.bounds, d)(ranked[i], ranked[j]);
  }

  /** An unmissed budget before a missed one; between equals there, no demotion before a
      demotion; between equals again, the higher priority, then the earlier standing. */
  predicate NoWorse(bounds: map<string, Bound>, a: Slot, b: Slot, d: Demand) {
    var (lateA, lateB) := (OverBudget(bounds, a, d.remaining, d.now), OverBudget(bounds, b, d.remaining, d.now));
    var (demotedA, demotedB) := (a.config.name in d.judge.demoted, b.config.name in d.judge.demoted);
    var (priorityA, priorityB) := (d.judge.PriorityOf(a.config), d.judge.PriorityOf(b.config));
    && (lateA ==> lateB)
    && (lateA == lateB && demotedA ==> demotedB)
    && (lateA == lateB && demotedA == demotedB ==> priorityA >= priorityB)
    && (lateA == lateB && demotedA == demotedB && priorityA == priorityB ==> a.order <= b.order)
  }

  /** What "best" means, said of the first model a reservation takes against any other free
      candidate. */
  lemma FirstChoiceIsBest(p: PoolState, ask: Ask, width: nat, recoveryWidth: nat, d: Demand, other: Slot)
    requires WellFormed(p) && width >= 1 && Takable(p, ask, d.now, other)
    ensures var best := Choice(p, ask, width, recoveryWidth, d);
      best != [] && NoWorse(p.bounds, best[0], other, d)
  {
    RankedAre(p, ask, d);
    var ranked := Ranked(p.bounds, Candidates(p, ask), d);
    var best := Choice(p, ask, width, recoveryWidth, d);
    assert best[0] == ranked[0];
    var k :| 0 <= k < |ranked| && ranked[k] == other;
    assert k == 0 || SlotLe(p.bounds, d)(ranked[0], ranked[k]);
  }

  lemma {:induction false} FirstKeptIsLeast(s: seq<Slot>, le: (Slot, Slot) -> bool, keep: Slot -> bool, x: Slot)
    requires TotalPreorder(le) && Sorted(s, le) && x in s && keep(x)
    ensures Filter(s, keep) != [] && le(Filter(s, keep)[0], x)
  {
    if keep(s[0]) {
      var i :| 0 <= i < |s| && s[i] == x;
      assert i == 0 || le(s[0], s[i]);
      assert le(s[0], s[0]);
    } else {
      FirstKeptIsLeast(s[1..], le, keep, x);
    }
  }

  /** With width one and recovery width two, a recheck in first place runs beside an
      ordinary model whenever one is free, and beside the best ranked such model. */
  lemma RecheckIsPaired(p: PoolState, ask: Ask, d: Demand, other: Slot)
    requires WellFormed(p)
    requires Choice(p, ask, 1, 2, d) != [] && Choice(p, ask, 1, 2, d)[0].recoveryDue
    requires Takable(p, ask, d.now, other) && !other.recoveryDue
    ensures var best := Choice(p, ask, 1, 2, d);
      && |best| == 2 && !best[1].recoveryDue
      && RankLe(RankOf(p.bounds, best[1], d), RankOf(p.bounds, other, d))
  {
    RankedAre(p, ask, d);
    SlotLeTotal(p.bounds, d);
    PairedInRanking(Ranked(p.bounds, Candidates(p, ask), d), SlotLe(p.bounds, d), other);
  }

  lemma PairedInRanking(ranked: seq<Slot>, le: (Slot, Slot) -> bool, other: Slot)
    requires TotalPreorder(le) && Sorted(ranked, le)
    requires other in ranked && !other.recoveryDue && ranked[0].recoveryDue
    ensures var best := Chosen(ranked, 1, 2);
      |best| == 2 && best[0] == ranked[0] && !best[1].recoveryDue && le(best[1], other)
  {
    var rest := ranked[1..];
    var ordinary := Filter(rest, Recheck(false));
    assert other in rest;
    FilterMembers(rest, Recheck(false));
    FirstKeptIsLeast(rest, le, Recheck(false), other);
    assert Skip(ranked, 1) == rest && Take(ranked, 1) == [ranked[0]];
    assert ordinary[0] in ordinary;
    assert Cover(rest, 1) == [ordinary[0]];
  }

  // ---------------------------------------------------------------------
  // A wide reservation is a run of narrow ones
  // ---------------------------------------------------------------------

  function Excluding(ask: Ask, names: set<string>): Ask { ask.(exclude := ask.exclude + names) }

  /** `width` reservations of one model each, every one excluding those picked before it. */
  function OneByOne(p: PoolState, ask: Ask, width: nat, d: Demand): (PoolState, seq<LLMConfig>)
    decreases width
  {
    if width == 0 then (p, [])
    else
      var (p1, first) := Reserve(p, ask, 1, 1, d);
      if first == [] then (p, [])
      else
        var (p2, more) := OneByOne(p1, Excluding(ask, {first[0].name}), width - 1, d);
        (p2, first + more)
  }

  lemma {:induction false} FilterPointwise(s: seq<Slot>, t: seq<Slot>, keep: Slot -> bool)
    requires |s| == |t|
    requires forall i :: 0 <= i < |s| ==> s[i] == t[i] || (!keep(s[i]) && !keep(t[i]))
    ensures Filter(s, keep) == Filter(t, keep)
  {
    if s != [] {
      FilterPointwise(s[1..], t[1..], keep);
    }
  }

  lemma {:induction false} FilterSwap(s: seq<Slot>, p: Slot -> bool, q: Slot -> bool)
    ensures Filter(Filter(s, p), q) == Filter(Filter(s, q), p)
  {
    FilterTwice(s, p, q);
    FilterTwice(s, q, p);
    FilterCongruent(s, Both(p, q), Both(q, p));
  }

  lemma MarkingIsInvisible(p: PoolState, ask: Ask, taken: set<string>)
    requires WellFormed(p)
    ensures Filter(InOrder(Marked(p, taken), p.names), AdmittedBy(Excluding(ask, taken)))
         == Filter(InOrder(p, p.names), AdmittedBy(Excluding(ask, taken)))
  {
    var q := Marked(p, taken);
    InOrderMembers(p, p.names);
    InOrderMembers(q, p.names);
    FilterPointwise(InOrder(q, p.names), InOrder(p, p.names), AdmittedBy(Excluding(ask, taken)));
  }

  lemma ExcludingFilters(all: seq<Slot>, ask: Ask, taken: set<string>)
    ensures Filter(all, AdmittedBy(Excluding(ask, taken))) == Filter(Filter(all, AdmittedBy(ask)), NotNamed(taken))
  {
    FilterTwice(all, AdmittedBy(ask), NotNamed(taken));
    FilterCongruent(all, AdmittedBy(Excluding(ask, taken)), Both(AdmittedBy(ask), NotNamed(taken)));
  }

  /** What a caller that excludes the marked names can see did not change. */
  lemma CandidatesAfterMarking(p: PoolState, ask: Ask, taken: set<string>)
    requires WellFormed(p)
    ensures Candidates(Marked(p, taken), Excluding(ask, taken)) == Filter(Candidates(p, ask), NotNamed(taken))
  {
    MarkingIsInvisible(p, ask, taken);
    ExcludingFilters(InOrder(p, p.names), ask, taken);
  }

  lemma DropFirst(ranked: seq<Slot>)
    requires forall i :: 1 <= i < |ranked| ==> ranked[i].config.name != ranked[0].config.name
    requires ranked != []
    ensures Filter(ranked, NotNamed({ranked[0].config.name})) == ranked[1..]
  {
    FilterAll(ranked[1..], NotNamed({ranked[0].config.name}));
  }

  lemma RankedAfterFirst(p: PoolState, ask: Ask, d: Demand)
    requires WellFormed(p)
    requires Ranked(p.bounds, Candidates(p, ask), d) != []
    ensures var ranked := Ranked(p.bounds, Candidates(p, ask), d);
      var taken := {ranked[0].config.name};
      Ranked(p.bounds, Candidates(Marked(p, taken), Excluding(ask, taken)), d) == ranked[1..]
  {
    var c := Candidates(p, ask);
    var ranked := Ranked(p.bounds, c, d);
    var taken := {ranked[0].config.name};
    CandidatesAfterMarking(p, ask, taken);
    FilterSwap(c, NotNamed(taken), FreeAt(d.now));
    SlotLeTotal(p.bounds, d);
    FilterSort(Filter(c, FreeAt(d.now)), SlotLe(p.bounds, d), NotNamed(taken));
    assert Filter(ranked, NotNamed(taken)) == ranked[1..] by {
      RankedAre(p, ask, d);
      assert forall i :: 0 <= i < |ranked| ==> ranked[i] in ranked;
      DropFirst(ranked);
    }
  }

  lemma NoCover(p: PoolState, ask: Ask, width: nat, recoveryWidth: nat, d: Demand)
    requires recoveryWidth <= width
    ensures Choice(p, ask, width, recoveryWidth, d) == Take(Ranked(p.bounds, Candidates(p, ask), d), width)
  {}

  /** A reservation without cover, spelled out over the ranking. */
  lemma Narrow(p: PoolState, ask: Ask, width: nat, recoveryWidth: nat, d: Demand, ranked: seq<Slot>)
    requires recoveryWidth <= width && ranked == Ranked(p.bounds, Candidates(p, ask), d)
    ensures Reserve(p, ask, width, recoveryWidth, d).0 == Marked(p, NamesOf(Take(ranked, width)))
    ensures Reserve(p, ask, width, recoveryWidth, d).1 == ConfigsOf(Take(ranked, width))
  {
    NoCover(p, ask, width, recoveryWidth, d);
  }

  lemma MarkTwice(p: PoolState, first: Slot, more: seq<Slot>)
    requires first.config.name !in NamesOf(more)
    ensures Marked(Marked(p, {first.config.name}), NamesOf(more)) == Marked(p, NamesOf([first] + more))
  {
    var names := NamesOf([first] + more);
    assert names == {first.config.name} + NamesOf(more) by {
      assert first in [first] + more;
      forall x | x in more ensures x in [first] + more {}
    }
    assert Marked(Marked(p, {first.config.name}), NamesOf(more)).slots == Marked(p, names).slots;
  }

  lemma OtherNames(p: PoolState, ask: Ask, d: Demand, count: nat)
    requires WellFormed(p) && Ranked(p.bounds, Candidates(p, ask), d) != []
    ensures var ranked := Ranked(p.bounds, Candidates(p, ask), d);
      ranked[0].config.name !in NamesOf(Take(ranked[1..], count))
  {
    var ranked := Ranked(p.bounds, Candidates(p, ask), d);
    RankedAre(p, ask, d);
    assert forall i :: 0 <= i < |ranked| ==> ranked[i] in ranked;
    var more := Take(ranked[1..], count);
    assert forall i :: 0 <= i < |more| ==> more[i] == ranked[i + 1];
  }

  lemma TakeFirst(ranked: seq<Slot>, width: nat)
    requires ranked != [] && width >= 1
    ensures Take(ranked, width) == [ranked[0]] + Take(ranked[1..], width - 1)
    ensures NamesOf(Take(ranked, 1)) == {ranked[0].config.name}
    ensures ConfigsOf(Take(ranked, 1)) == [ranked[0].config]
    ensures ConfigsOf(Take(ranked, width)) == [ranked[0].config] + ConfigsOf(Take(ranked[1..], width - 1))
  {
    assert Take(ranked, 1) == [ranked[0]];
    var more := Take(ranked[1..], width - 1);
    assert Take(ranked, width) == [ranked[0]] + more;
    assert ([ranked[0]] + more)[1..] == more;
  }

  /** A width-k reservation with no recovery cover takes the same models in the same order
      as k single ones, and leaves the very same pool behind. */
  lemma {:induction false} WideIsOneByOne(p: PoolState, ask: Ask, width: nat, recoveryWidth: nat, d: Demand)
    requires WellFormed(p) && recoveryWidth <= width
    ensures Reserve(p, ask, width, recoveryWidth, d) == OneByOne(p, ask, width, d)
    decreases width
  {
    var ranked := Ranked(p.bounds, Candidates(p, ask), d);
    Narrow(p, ask, width, recoveryWidth, d, ranked);
    if width == 0 || ranked == [] {
      Narrow(p, ask, 1, 1, d, ranked);
      assert NamesOf([]) == {} && Marked(p, {}).slots == p.slots;
    } else {
      var taken := {ranked[0].config.name};
      var (p1, ask1) := (Marked(p, taken), Excluding(ask, taken));
      Narrow(p, ask, 1, 1, d, ranked);
      TakeFirst(ranked, width);
      RankedAfterFirst(p, ask, d);
      Narrow(p1, ask1, width - 1, 0, d, ranked[1..]);
      OtherNames(p, ask, d, width - 1);
      MarkTwice(p, ranked[0], Take(ranked[1..], width - 1));
      WideIsOneByOne(p1, ask1, width - 1, 0, d);
    }
  }

  // ---------------------------------------------------------------------
  // No lost wake-up
  // ---------------------------------------------------------------------

  lemma {:induction false} EarliestReturnIs(candidates: seq<Slot>, now: real)
    ensures EarliestReturn(candidates, now).None? <==> forall s :: s in candidates ==> CoolOver(s, now)
    ensures EarliestReturn(candidates, now).Some? ==>
              var at := EarliestReturn(candidates, now).value;
              && (exists s :: s in candidates && s.cooldownUntil == Some(at) && at > now)
              && (forall s :: s in candidates && !CoolOver(s, now) ==> at <= s.cooldownUntil.value)
  {
    if candidates != [] {
      EarliestReturnIs(candidates[1..], now);
      var (first, rest) := (candidates[0], EarliestReturn(candidates[1..], now));
      assert forall s :: s in candidates <==> s == first || s in candidates[1..];
      if !CoolOver(first, now) {
        assert first in candidates && first.cooldownUntil.value > now;
      }
    }
  }

  /** What a busy pool tells its caller: nothing to wait for while some candidate can serve
      now, and otherwise the nearest instant a cooldown among them ends. */
  lemma RetryAtIsTheNearestReturn(p: PoolState, ask: Ask, now: real)
    ensures var (candidates, at) := (Candidates(p, ask), RetryAt(p, ask, now));
      && (at.None? <==> (exists s :: s in candidates && IsFree(s, now)) || forall s :: s in candidates ==> CoolOver(s, now))
      && (at.Some? ==>
            && (exists s :: s in candidates && s.cooldownUntil == at && at.value > now)
            && (forall s :: s in candidates && !CoolOver(s, now) ==> at.value <= s.cooldownUntil.value))
  {
    EarliestReturnIs(Candidates(p, ask), now);
  }

  lemma {:induction false} EarliestWakeupBounds(candidates: seq<Slot>, now: real, s: Slot)
    requires s in candidates && Wakeup(s, now).Some?
    ensures EarliestWakeup(candidates, now).Some?
         && EarliestWakeup(candidates, now).value <= Wakeup(s, now).value
  {
    if s != candidates[0] {
      EarliestWakeupBounds(candidates[1..], now, s);
    }
  }

  /** A caller put to sleep cannot be overtaken by the clock: until its timer fires, no
      candidate becomes free by time passing alone. */
  lemma NothingFreesBeforeTheTimer(p: PoolState, ask: Ask, width: nat, recoveryWidth: nat, d: Demand,
                                   queueDeadline: Option<real>, mono: real, s: Slot, later: real)
    requires WellFormed(p) && width >= 1
    requires AcquireTurn(p, ask, width, recoveryWidth, d, queueDeadline, mono).1.Sleep?
    requires s in Candidates(p, ask) && d.now <= later
    requires var t := AcquireTurn(p, ask, width, recoveryWidth, d, queueDeadline, mono).1.timeout;
      t.Some? ==> later < d.now + t.value
    ensures !IsFree(s, later)
  {
    CandidatesAre(p, ask);
    ReservationGrants(p, ask, width, recoveryWidth, d);
    assert !IsFree(s, d.now);
    if IsFree(s, later) {
      EarliestWakeupBounds(Candidates(p, ask), d.now, s);
      assert false;
    }
  }

  /** With no timer at all, every candidate with a usable cap has an attempt in flight,
      whose hand-back notifies. */
  lemma UntimedSleepersAreOwedAHandBack(p: PoolState, ask: Ask, width: nat, recoveryWidth: nat, d: Demand,
                                        queueDeadline: Option<real>, mono: real, s: Slot)
    requires WellFormed(p) && width >= 1 && SoundSlots(p, d.now)
    requires AcquireTurn(p, ask, width, recoveryWidth, d, queueDeadline, mono).1 == Sleep(None)
    requires s in Candidates(p, ask)
    requires s.config.parallel.Some? ==> s.config.parallel.value > 0
    ensures s.inFlight >= 1
  {
    CandidatesAre(p, ask);
    ReservationGrants(p, ask, width, recoveryWidth, d);
    assert SoundSlot(p.slots[s.config.name], d.now);
    if !s.recoveryClaimed && UnderCap(s) {
      EarliestWakeupBounds(Candidates(p, ask), d.now, s);
      assert false;
    }
  }

  /** The reason a caller is given is true of the pool it asked. The last one speaks for the
      whole pool only where no enabled, payable model lies outside the names asked among. */
  lemma ReasonIsTrue(p: PoolState, ask: Ask)
    requires WellFormed(p) && Candidates(p, ask) == []
    ensures match ExhaustionReason(p, ask)
      case Excluded => exists n :: n in ask.exclude && n in p.slots
      case EmptyPool => p.slots == map[]
      case NoKeys => forall n :: n in p.slots ==> p.slots[n].config.apiKeyRef !in ask.payable
      case AllDisabled =>
        (forall n :: n in p.slots && p.slots[n].config.apiKeyRef in ask.payable ==> p.slots[n].disabled)
        <==> (forall n :: n in p.slots && p.slots[n].config.apiKeyRef in ask.payable && !p.slots[n].disabled
                ==> ask.eligible.None? || n in ask.eligible.value)
  {
    CandidatesAre(p, ask);
    if ExhaustionReason(p, ask).Excluded? {
      var n :| n in ask.exclude * p.slots.Keys;
    }
    if ExhaustionReason(p, ask).AllDisabled? {
      forall n | n in p.slots && p.slots[n].config.apiKeyRef in ask.payable && !p.slots[n].disabled
        ensures ask.eligible.Some? && n !in ask.eligible.value
      {
        assert !Admits(p.slots[n], ask);
        assert n in ask.exclude ==> n in ask.exclude * p.slots.Keys;
      }
    }
  }

  // ---------------------------------------------------------------------
  // What every operation keeps
  // ---------------------------------------------------------------------

  /** A claim means a recheck is due, its cooldown is over and somebody is making it; and a
      recheck is due exactly while a cooldown instant is on record. */
  ghost predicate SoundSlot(s: Slot, now: real) {
    && (s.recoveryClaimed ==> s.recoveryDue && CoolOver(s, now) && s.inFlight >= 1)
    && (s.recoveryDue <==> s.cooldownUntil.Some?)
  }

  ghost predicate SoundSlots(p: PoolState, now: real) {
    forall n :: n in p.slots ==> SoundSlot(p.slots[n], now)
  }

  ghost predicate Sound(p: PoolState, now: real) { WellFormed(p) && SoundSlots(p, now) }

  lemma SoundEmpty(now: real)
    ensures Sound(EMPTY, now)
  {}

  lemma AddSound(p: PoolState, now: real, cfg: LLMConfig, order: Option<int>)
    requires Sound(p, now)
    ensures Sound(Add(p, cfg, order), now)
  {
    var q := Add(p, cfg, order);
    if cfg.name !in p.slots {
      assert q.names == p.names + [cfg.name];
      assert WellFormed(q);
    }
  }

  lemma DropSound(p: PoolState, now: real, name: string)
    requires Sound(p, now)
    ensures Sound(Drop(p, name), now)
  {
    FilterDistinct(p.names, n => n != name);
    FilterMembers(p.names, n => n != name);
  }

  lemma ReleaseSound(p: PoolState, now: real, name: string)
    requires Sound(p, now)
    ensures Sound(Release(p, name), now)
  {}

  lemma CoolDownSound(p: PoolState, now: real, name: string, until: real)
    requires Sound(p, now)
    ensures Sound(CoolDown(p, name, until), now)
  {}

  lemma ClearCoolingSound(p: PoolState, now: real, name: string)
    requires Sound(p, now)
    ensures Sound(ClearCooling(p, name), now)
  {}

  lemma SetDisabledSound(p: PoolState, now: real, name: string, flag: bool)
    requires Sound(p, now)
    ensures Sound(SetDisabled(p, name, flag), now)
  {}

  lemma ReserveSound(p: PoolState, ask: Ask, width: nat, recoveryWidth: nat, d: Demand)
    requires Sound(p, d.now) && width >= 1
    ensures Sound(Reserve(p, ask, width, recoveryWidth, d).0, d.now)
  {
    ReservationGrants(p, ask, width, recoveryWidth, d);
    var best := Choice(p, ask, width, recoveryWidth, d);
    var q := Marked(p, NamesOf(best));
    forall n | n in q.slots ensures SoundSlot(q.slots[n], d.now) {
      if n in NamesOf(best) {
        var s :| s in best && s.config.name == n;
        assert p.slots[n] == s && IsFree(s, d.now) && SoundSlot(s, d.now);
      }
    }
  }

  /** A claimed slot is never handed to anybody. */
  lemma ClaimedIsNeverReserved(p: PoolState, ask: Ask, width: nat, recoveryWidth: nat, d: Demand, name: string)
    requires WellFormed(p) && width >= 1 && name in p.slots && p.slots[name].recoveryClaimed
    ensures forall c :: c in Reserve(p, ask, width, recoveryWidth, d).1 ==> c.name != name
    ensures Reserve(p, ask, width, recoveryWidth, d).0.slots[name] == p.slots[name]
  {
    ReservationGrants(p, ask, width, recoveryWidth, d);
    var best := Choice(p, ask, width, recoveryWidth, d);
    var configs := ConfigsOf(best);
    forall c | c in configs ensures c.name != name {
      var i :| 0 <= i < |configs| && configs[i] == c;
      assert best[i] in best;
    }
    assert name !in NamesOf(best);
  }

  /** A cooldown withdraws the slot up to its instant and no longer, so a delay of nothing
      or less (a provider's `Retry-After: 0`, say) withdraws it for no time at all; one that
      leaves the calendar cools nothing and hands nothing back. */
  lemma CoolDownWithdraws(p: PoolState, name: string, now: real, delay: real, at: real)
    requires WellFormed(p) && name in p.slots && now <= at
    requires p.slots[name].config.parallel.Some? ==> p.slots[name].inFlight <= p.slots[name].config.parallel.value
    requires p.slots[name].inFlight >= 1
    ensures CoolFor(p, name, now, delay).None? <==> now + delay < CALENDAR_START || CALENDAR_END < now + delay
    ensures CoolFor(p, name, now, delay).Some? ==>
              var slot := CoolFor(p, name, now, delay).value.slots[name];
              && slot.inFlight == p.slots[name].inFlight - 1
              && (IsFree(slot, at) <==> now + delay <= at)
              && (IsFree(slot, now) <==> delay <= 0.0)
  {}

  lemma {:induction false} SlotsDecideTheOrder(p: PoolState, q: PoolState, names: seq<string>)
    requires p.slots == q.slots
    ensures InOrder(p, names) == InOrder(q, names)
  {
    if names != [] {
      SlotsDecideTheOrder(p, q, names[1..]);
    }
  }

  predicate Behind(bounds: map<string, Bound>, s: Slot, sibling: Slot, d: Demand) {
    SlotLe(bounds, d)(sibling, s) && !SlotLe(bounds, d)(s, sibling)
  }

  /** One observed miss puts the model last: behind every sibling that has missed no such
      budget, whatever their ratings and weights, for every budget up to the one it missed plus
      the slack, until its window lapses. A larger budget it is over only if it was before, and
      it stays a candidate, exactly as free as it was. */
  lemma MissReorders(p: PoolState, s: Slot, budget: real, at: real, d: Demand, sibling: Slot, ask: Ask)
    requires budget >= 0.0 && at <= d.now && sibling.config.name != s.config.name
    ensures var q := RaiseBudgetBound(p, s.config.name, budget, at);
      && (d.remaining.Some? && d.remaining.value < budget + BUDGET_SLACK_SEC && d.now < at + BUDGET_BOUND_WINDOW_SEC ==>
            OverBudget(q.bounds, s, d.remaining, d.now)
            && (!OverBudget(p.bounds, sibling, d.remaining, d.now) ==> Behind(q.bounds, s, sibling, d)))
      && (d.now >= at + BUDGET_BOUND_WINDOW_SEC ==> !OverBudget(q.bounds, s, d.remaining, d.now))
      && (d.remaining.Some? && d.remaining.value >= budget + BUDGET_SLACK_SEC ==>
            (OverBudget(q.bounds, s, d.remaining, d.now) ==> OverBudget(p.bounds, s, d.remaining, at)))
      && (d.remaining.None? ==> !OverBudget(q.bounds, s, d.remaining, d.now))
      && q.slots == p.slots && Candidates(q, ask) == Candidates(p, ask)
  {
    SlotsDecideTheOrder(p, RaiseBudgetBound(p, s.config.name, budget, at), p.names);
  }
}
