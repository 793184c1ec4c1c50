/** The three deadlines of a stream while its reader holds a delta: the budget its attempts
    share, the answer deadline of the call, and the queue deadline of its acquisitions.
    The time the reader takes is nobody's to charge. */
module Budget {
  import opened Common

  /** The budget's own two fields. */
  datatype Clocked = Clocked(deadline: Option<real>, pausedAt: Option<real>)

  function Paused(c: Clocked, now: real): Clocked {
    if c.deadline.Some? && c.pausedAt.None? then c.(pausedAt := Some(now)) else c
  }

  function Elapsed(c: Clocked, now: real): real {
    if c.pausedAt.Some? then now - c.pausedAt.value else 0.0
  }

  function Resumed(c: Clocked, now: real): Clocked {
    Clocked(Later(c.deadline, Elapsed(c, now)), None)
  }

  function Later(deadline: Option<real>, elapsed: real): Option<real> {
    if deadline.Some? then Some(deadline.value + elapsed) else None
  }

  class StreamBudget {
    var deadline: Option<real>
    var pausedAt: Option<real>

    function State(): Clocked reads this { Clocked(deadline, pausedAt) }

    /** Only a budget with a deadline is ever paused. */
    predicate Valid() reads this { pausedAt.Some? ==> deadline.Some? }

    constructor (limit: Option<real>)
      ensures Valid() && State() == Clocked(limit, None)
    {
      deadline, pausedAt := limit, None;
    }

    method Pause(now: real)
      requires Valid()
      modifies this
      ensures Valid() && State() == Paused(old(State()), now)
    {
      if deadline.Some? && pausedAt.None? {
        pausedAt := Some(now);
      }
    }

    method Resume(now: real) returns (elapsed: real)
      requires Valid()
      modifies this
      ensures Valid() && elapsed == Elapsed(old(State()), now) && State() == Resumed(old(State()), now)
    {
      if pausedAt.None? {
        return 0.0;
      }
      elapsed := now - pausedAt.value;
      pausedAt := None;
      deadline := Some(deadline.value + elapsed);
    }
  }

  // ---------------------------------------------------------------------
  // The stream's deadlines
  // ---------------------------------------------------------------------

  datatype Deadlines = Deadlines(budget: Clocked, answer: Option<real>, queue: Option<real>)

  /** A wait of zero is "do not queue": it bounds acquisition and leaves the answer unbounded. */
  function Opened(wait: Option<real>, now: real): Deadlines {
    var queue := if wait.Some? then Some(now + wait.value) else None;
    var answer := if wait.Some? && wait.value != 0.0 then queue else None;
    Deadlines(Clocked(answer, None), answer, queue)
  }

  function HandedOver(d: Deadlines, now: real): Deadlines { d.(budget := Paused(d.budget, now)) }

  function TakenBack(d: Deadlines, now: real): Deadlines {
    var elapsed := Elapsed(d.budget, now);
    Deadlines(Resumed(d.budget, now), Later(d.answer, elapsed), Later(d.queue, elapsed))
  }

  class RoutedDeadlines {
    const budget: StreamBudget
    var answerDeadline: Option<real>
    var queueDeadline: Option<real>

    ghost function State(): Deadlines reads this, budget { Deadlines(budget.State(), answerDeadline, queueDeadline) }

    constructor (wait: Option<real>, now: real)
      ensures fresh(budget) && budget.Valid() && State() == Opened(wait, now)
    {
      var queue := if wait.Some? then Some(now + wait.value) else None;
      var answer := if wait.Some? && wait.value != 0.0 then queue else None;
      budget := new StreamBudget(answer);
      answerDeadline, queueDeadline := answer, queue;
    }

    method ResumeBudget(now: real)
      requires budget.Valid()
      modifies this, budget
      ensures budget.Valid() && State() == TakenBack(old(State()), now)
    {
      var elapsed := budget.Resume(now);
      if answerDeadline.Some? {
        answerDeadline := Some(answerDeadline.value + elapsed);
      }
      if queueDeadline.Some? {
        queueDeadline := Some(queueDeadline.value + elapsed);
      }
    }
  }

  // ---------------------------------------------------------------------
  // Any number of pulls
  // ---------------------------------------------------------------------

  /** A delta handed over (or not) at some instant: `handing` pauses, the other way resumes. */
  datatype Pull = Pull(handing: bool, at: real)

  function Pulled(d: Deadlines, pulls: seq<Pull>): Deadlines {
    if pulls == [] then d
    else
      var (before, p) := (Pulled(d, pulls[..|pulls| - 1]), pulls[|pulls| - 1]);
      if p.handing then HandedOver(before, p.at) else TakenBack(before, p.at)
  }

  /** Since when the reader has been holding a delta: the first hand-over since it last
      came back for more. */
  function HeldSince(pulls: seq<Pull>): Option<real> {
    if pulls == [] || !pulls[|pulls| - 1].handing then None
    else
      var earlier := HeldSince(pulls[..|pulls| - 1]);
      if earlier.Some? then earlier else Some(pulls[|pulls| - 1].at)
  }

  /** How long the reader has held deltas, over every time it came back. */
  function ReaderTime(pulls: seq<Pull>): real {
    if pulls == [] then 0.0
    else
      var (before, p) := (pulls[..|pulls| - 1], pulls[|pulls| - 1]);
      ReaderTime(before) + if !p.handing && HeldSince(before).Some? then p.at - HeldSince(before).value else 0.0
  }

  /** However often the reader pauses the stream, its budget, its answer deadline and its
      queue deadline stay one deadline, moved by exactly the time the reader took. */
  lemma {:induction false} ReaderTimeIsNeverCharged(wait: real, start: real, pulls: seq<Pull>)
    requires wait != 0.0
    ensures var d := Pulled(Opened(Some(wait), start), pulls);
      && d.answer == Some(start + wait + ReaderTime(pulls))
      && d.budget.deadline == d.answer && d.queue == d.answer
      && d.budget.pausedAt == HeldSince(pulls)
    decreases |pulls|
  {
    if pulls != [] {
      ReaderTimeIsNeverCharged(wait, start, pulls[..|pulls| - 1]);
    }
  }

  /** A call that does not queue, and one that waits for ever, have no answer budget at all,
      and no pull moves the one deadline the former has. */
  lemma {:induction false} UnbudgetedPulls(wait: Option<real>, start: real, pulls: seq<Pull>)
    requires wait == None || wait == Some(0.0)
    ensures Pulled(Opened(wait, start), pulls) ==
            Deadlines(Clocked(None, None), None, if wait.Some? then Some(start) else None)
    decreases |pulls|
  {
    if pulls != [] {
      UnbudgetedPulls(wait, start, pulls[..|pulls| - 1]);
    }
  }

  /** What was left when the reader was handed a delta is what is left when it comes back. */
  lemma RemainingSurvivesThePause(wait: real, start: real, pulls: seq<Pull>, handed: real, back: real)
    requires wait != 0.0 && HeldSince(pulls) == None
    ensures var d := Pulled(Opened(Some(wait), start), pulls);
      var t := Pulled(Opened(Some(wait), start), pulls + [Pull(true, handed), Pull(false, back)]);
      && d.answer.Some? && t.answer.Some? && t.budget.deadline == t.answer && t.queue == t.answer
      && t.answer.value - back == d.answer.value - handed
  {
    var (one, two) := (pulls + [Pull(true, handed)], pulls + [Pull(true, handed), Pull(false, back)]);
    assert two[..|two| - 1] == one && one[..|one| - 1] == pulls;
    ReaderTimeIsNeverCharged(wait, start, pulls);
    ReaderTimeIsNeverCharged(wait, start, two);
    assert HeldSince(one) == Some(handed);
  }
}
