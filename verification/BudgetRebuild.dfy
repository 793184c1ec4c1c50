/** Missed budgets twice over: the bound a process raises as its attempts run out of time, and
    the bound a rebuild derives from the rows those attempts leave. They are not one instant's
    work. A miss raises its bound, hands its slot back under the pool's lock, and only then
    stamps its row; an answer clears the bound and stamps its row in one stretch. */
module BudgetRebuild {
  import opened Common
  import opened Learning
  import opened Optimizer
  import opened Verdicts
  import Pool

  /** What one attempt did to its model's bound, in the order it did it: when, when its row is
      stamped, and whether that row is among those a rebuild reads. */
  datatype Deed =
    | Miss(seconds: real, at: real, rowAt: real, read: bool)
    | Reply(at: real, read: bool)

  function StampOf(d: Deed): real { if d.Miss? then d.rowAt else d.at }

  /** The pool of a process that has watched from an answer, or from its first attempt, on. */
  function LivePool(p: Pool.PoolState, name: string, deeds: seq<Deed>): Pool.PoolState {
    if deeds == [] then Pool.ClearBudgetBound(p, name)
    else
      var (before, last) := (LivePool(p, name, deeds[..|deeds| - 1]), deeds[|deeds| - 1]);
      if last.Miss? then Pool.RaiseBudgetBound(before, name, last.seconds, last.at)
      else Pool.ClearBudgetBound(before, name)
  }

  /** Time never runs backwards, and a miss is journaled no earlier than it is felt. */
  ghost predicate History(deeds: seq<Deed>, now: real) {
    && (forall i, j :: 0 <= i < j < |deeds| ==> deeds[i].at <= deeds[j].at)
    && (forall i :: 0 <= i < |deeds| ==> deeds[i].at <= now && deeds[i].at <= StampOf(deeds[i]))
  }

  /** No answer's row shares its instant with a miss's: stores read such a pair in either order. */
  ghost predicate NoTies(deeds: seq<Deed>) {
    forall j, k :: 0 <= j < |deeds| && 0 <= k < |deeds| && deeds[j].Reply? && deeds[k].Miss? ==> deeds[j].at != deeds[k].rowAt
  }

  /** The journal keeps whole milliseconds. */
  function Millis(seconds: real): int { (seconds * 1000.0).Floor }

  function Whole(seconds: real): real { Millis(seconds) as real / 1000.0 }

  predicate RowIs(row: Row, name: string, d: Deed) {
    && row.bucket.llmName == name && row.ts == Some(StampOf(d))
    && (d.Miss? ==> row.status != OK && row.budgetMs == Some(Millis(d.seconds)))
    && (d.Reply? ==> row.status == OK)
  }

  /** A row the rebuild looks at for this model. */
  predicate Counts(row: Row, name: string) {
    row.bucket.llmName == name && (row.status == OK || (row.budgetMs.Some? && row.ts.Some?))
  }

  predicate FromADeed(row: Row, name: string, deeds: seq<Deed>) {
    exists k :: 0 <= k < |deeds| && deeds[k].read && RowIs(row, name, deeds[k])
  }

  /** The rows read, newest first, of every model. Every row of this model that counts is one of
      the deeds' or lies behind an answer, as whatever went before the watching began does. */
  ghost predicate Reads(rows: seq<Row>, name: string, deeds: seq<Deed>) {
    && (forall i :: 0 <= i < |rows| && Counts(rows[i], name) ==>
          FromADeed(rows[i], name, deeds) || exists j :: 0 <= j < i && Answered(rows[j], name))
    && (forall k :: 0 <= k < |deeds| && deeds[k].read ==> exists i :: 0 <= i < |rows| && RowIs(rows[i], name, deeds[k]))
    && (forall i, j :: 0 <= i < j < |rows| && rows[i].ts.Some? && rows[j].ts.Some? ==> rows[i].ts.value >= rows[j].ts.value)
  }

  /** The live bound still speaks of this miss: nothing answered since, and it has not lapsed. */
  ghost predicate Held(deeds: seq<Deed>, k: int, now: real) {
    && 0 <= k < |deeds| && deeds[k].Miss? && now < deeds[k].at + Pool.BUDGET_BOUND_WINDOW_SEC
    && forall j :: k < j < |deeds| ==> deeds[j].Miss?
  }

  /** The rebuild counts this miss: its row is read, recent, and newer than every answer read. */
  ghost predicate Counted(deeds: seq<Deed>, k: int, now: real) {
    && 0 <= k < |deeds| && deeds[k].Miss? && deeds[k].read && deeds[k].rowAt >= now - Pool.BUDGET_BOUND_WINDOW_SEC
    && forall j :: 0 <= j < |deeds| && deeds[j].Reply? && deeds[j].read ==> deeds[j].at < deeds[k].rowAt
  }

  /** A miss the rebuild counts and the process no longer does. */
  ghost predicate Stale(deeds: seq<Deed>, k: int, now: real) { Counted(deeds, k, now) && !Held(deeds, k, now) }

  // ---------------------------------------------------------------------
  // The live bound
  // ---------------------------------------------------------------------

  predicate InForce(bounds: map<string, Pool.Bound>, name: string, now: real) {
    name in bounds && bounds[name].until > now
  }

  lemma {:induction false} LiveCovers(p: Pool.PoolState, name: string, deeds: seq<Deed>, k: nat)
    requires forall i, j :: 0 <= i < j < |deeds| ==> deeds[i].at <= deeds[j].at
    requires k < |deeds| && forall j :: k <= j < |deeds| ==> deeds[j].Miss?
    requires deeds[|deeds| - 1].at < deeds[k].at + Pool.BUDGET_BOUND_WINDOW_SEC
    ensures var bounds := LivePool(p, name, deeds).bounds;
      && name in bounds && deeds[k].seconds <= bounds[name].seconds
      && bounds[name].until == deeds[|deeds| - 1].at + Pool.BUDGET_BOUND_WINDOW_SEC
    decreases |deeds|
  {
    var last := |deeds| - 1;
    if k < last {
      LiveCovers(p, name, deeds[..last], k);
    }
  }

  /** The live bound is in force exactly while some miss is held, is no less than any of those,
      and dates from the last. */
  ghost predicate LiveFrom(deeds: seq<Deed>, now: real, bounds: map<string, Pool.Bound>, name: string) {
    && (InForce(bounds, name, now) <==> exists k :: Held(deeds, k, now))
    && (forall k :: Held(deeds, k, now) ==>
          name in bounds && deeds[k].seconds <= bounds[name].seconds
          && bounds[name].until == deeds[|deeds| - 1].at + Pool.BUDGET_BOUND_WINDOW_SEC)
  }

  lemma LiveIs(p: Pool.PoolState, name: string, deeds: seq<Deed>, now: real)
    requires History(deeds, now)
    ensures LiveFrom(deeds, now, LivePool(p, name, deeds).bounds, name)
  {
    var bounds := LivePool(p, name, deeds).bounds;
    forall k | Held(deeds, k, now)
      ensures InForce(bounds, name, now) && deeds[k].seconds <= bounds[name].seconds
      ensures bounds[name].until == deeds[|deeds| - 1].at + Pool.BUDGET_BOUND_WINDOW_SEC
    {
      LiveCovers(p, name, deeds, k);
    }
    if InForce(bounds, name, now) {
      assert Held(deeds, |deeds| - 1, now);
    }
  }

  // ---------------------------------------------------------------------
  // The rebuilt bound
  // ---------------------------------------------------------------------

  /** The newest answer row is a deed's: a row behind none is. */
  lemma {:induction false} SomeAnswerIsADeed(rows: seq<Row>, name: string, deeds: seq<Deed>, j: nat) returns (i: nat)
    requires Reads(rows, name, deeds) && j < |rows| && Answered(rows[j], name)
    ensures i <= j && Answered(rows[i], name) && FromADeed(rows[i], name, deeds)
    decreases j
  {
    if FromADeed(rows[j], name, deeds) {
      return j;
    }
    var h :| 0 <= h < j && Answered(rows[h], name);
    i := SomeAnswerIsADeed(rows, name, deeds, h);
  }

  lemma AnswersAreBehind(rows: seq<Row>, name: string, deeds: seq<Deed>, k: int, now: real, i: nat, j: nat)
    requires Reads(rows, name, deeds) && Counted(deeds, k, now) && i < |rows| && RowIs(rows[i], name, deeds[k])
    requires j < |rows| && Answered(rows[j], name)
    ensures i < j
  {
    var h := SomeAnswerIsADeed(rows, name, deeds, j);
    hide Reads;
    var r :| 0 <= r < |deeds| && deeds[r].read && RowIs(rows[h], name, deeds[r]);
    assert deeds[r].Reply? && deeds[r].at < deeds[k].rowAt;
    NewestFirst(rows, name, deeds, h, i);
  }

  lemma CountedRow(rows: seq<Row>, name: string, deeds: seq<Deed>, k: int, now: real, i: nat)
    requires Reads(rows, name, deeds) && Counted(deeds, k, now) && i < |rows| && RowIs(rows[i], name, deeds[k])
    ensures Missed(rows, i, name, now - Pool.BUDGET_BOUND_WINDOW_SEC)
  {
    hide Reads, Answered;
    forall j | 0 <= j <= i ensures !Answered(rows[j], name) {
      if Answered(rows[j], name) {
        AnswersAreBehind(rows, name, deeds, k, now, i, j);
      }
    }
  }

  lemma RowCounted(rows: seq<Row>, name: string, deeds: seq<Deed>, i: nat, now: real) returns (k: nat)
    requires Reads(rows, name, deeds) && NoTies(deeds) && Missed(rows, i, name, now - Pool.BUDGET_BOUND_WINDOW_SEC)
    ensures Counted(deeds, k, now) && RowIs(rows[i], name, deeds[k])
  {
    assert !Answered(rows[i], name) && Counts(rows[i], name);
    k :| 0 <= k < |deeds| && deeds[k].read && RowIs(rows[i], name, deeds[k]);
    hide Reads, NoTies;
    forall j | 0 <= j < |deeds| && deeds[j].Reply? && deeds[j].read ensures deeds[j].at < deeds[k].rowAt {
      ReplyIsOlder(rows, name, deeds, i, now, k, j);
    }
  }

  lemma ReplyIsOlder(rows: seq<Row>, name: string, deeds: seq<Deed>, i: nat, now: real, k: nat, j: nat)
    requires Reads(rows, name, deeds) && NoTies(deeds) && Missed(rows, i, name, now - Pool.BUDGET_BOUND_WINDOW_SEC)
    requires k < |deeds| && deeds[k].Miss? && RowIs(rows[i], name, deeds[k])
    requires j < |deeds| && deeds[j].Reply? && deeds[j].read
    ensures deeds[j].at < deeds[k].rowAt
  {
    var h :| 0 <= h < |rows| && RowIs(rows[h], name, deeds[j]);
    assert Answered(rows[h], name);
    NewestFirst(rows, name, deeds, i, h);
  }

  /** What the rebuild gives, told of the deeds: nothing where it counts none, and otherwise the
      largest counted miss in whole milliseconds, dated from the newest row that has it. */
  ghost predicate RebuiltFrom(deeds: seq<Deed>, now: real, rebuilt: Option<(real, real)>) {
    match rebuilt
    case None => forall k :: !Counted(deeds, k, now)
    case Some(b) =>
      && (exists k :: Counted(deeds, k, now) && b == (Whole(deeds[k].seconds), deeds[k].rowAt))
      && (forall k :: Counted(deeds, k, now) ==>
            Whole(deeds[k].seconds) <= b.0 && (Whole(deeds[k].seconds) == b.0 ==> deeds[k].rowAt <= b.1))
  }

  lemma SecondsOf(row: Row, name: string, d: Deed)
    requires RowIs(row, name, d) && d.Miss?
    ensures Seconds(row) == Whole(d.seconds) && row.ts == Some(d.rowAt)
  {}

  lemma NoOther(rows: seq<Row>, name: string, deeds: seq<Deed>, k: int, now: real, i: nat)
    requires Reads(rows, name, deeds) && Counted(deeds, k, now)
    requires Largest(rows, now - Pool.BUDGET_BOUND_WINDOW_SEC, name, i)
    ensures Whole(deeds[k].seconds) <= Seconds(rows[i])
    ensures Whole(deeds[k].seconds) == Seconds(rows[i]) ==> deeds[k].rowAt <= rows[i].ts.value
  {
    hide Reads, Counts, Answered;
    var h := RowOfCounted(rows, name, deeds, k, now);
    CountedRow(rows, name, deeds, k, now, h);
    SecondsOf(rows[h], name, deeds[k]);
    NewestFirst(rows, name, deeds, i, h);
  }

  lemma NewestFirst(rows: seq<Row>, name: string, deeds: seq<Deed>, i: nat, h: nat)
    requires Reads(rows, name, deeds) && i < |rows| && h < |rows| && rows[i].ts.Some? && rows[h].ts.Some?
    ensures i < h ==> rows[i].ts.value >= rows[h].ts.value
  {}

  lemma RebuiltIs(rows: seq<Row>, name: string, deeds: seq<Deed>, now: real, rebuilt: Option<(real, real)>)
    requires Reads(rows, name, deeds) && NoTies(deeds)
    requires IsBound(rows, now - Pool.BUDGET_BOUND_WINDOW_SEC, name, rebuilt)
    ensures RebuiltFrom(deeds, now, rebuilt)
  {
    hide Reads, NoTies;
    var since := now - Pool.BUDGET_BOUND_WINDOW_SEC;
    match rebuilt
    case None =>
      forall k ensures !Counted(deeds, k, now) {
        if Counted(deeds, k, now) {
          var h := RowOfCounted(rows, name, deeds, k, now);
          CountedRow(rows, name, deeds, k, now, h);
        }
      }
    case Some(b) =>
      var i :| 0 <= i < |rows| && Largest(rows, since, name, i) && b == (Seconds(rows[i]), rows[i].ts.value);
      var k := RowCounted(rows, name, deeds, i, now);
      SecondsOf(rows[i], name, deeds[k]);
      forall m | Counted(deeds, m, now)
        ensures Whole(deeds[m].seconds) <= b.0 && (Whole(deeds[m].seconds) == b.0 ==> deeds[m].rowAt <= b.1)
      {
        NoOther(rows, name, deeds, m, now, i);
      }
  }

  lemma RowOfCounted(rows: seq<Row>, name: string, deeds: seq<Deed>, k: int, now: real) returns (h: nat)
    requires Reads(rows, name, deeds) && Counted(deeds, k, now)
    ensures h < |rows| && RowIs(rows[h], name, deeds[k])
  {
    h :| 0 <= h < |rows| && RowIs(rows[h], name, deeds[k]);
  }

  // ---------------------------------------------------------------------
  // The two side by side
  // ---------------------------------------------------------------------

  lemma WholeIsNoMore(seconds: real)
    ensures Whole(seconds) <= seconds
  {}

  /** The rebuild keeps its callers off the model where the process would not have: it holds a
      bound where the live pool has none in force, or a larger one. */
  predicate Warier(rebuilt: Option<(real, real)>, bounds: map<string, Pool.Bound>, name: string, now: real) {
    rebuilt.Some? && (InForce(bounds, name, now) ==> rebuilt.value.0 > bounds[name].seconds)
  }

  /** A stale miss larger than whatever the live bound still asks. */
  ghost predicate StaleBeyond(deeds: seq<Deed>, k: int, now: real, bounds: map<string, Pool.Bound>, name: string) {
    Stale(deeds, k, now) && (InForce(bounds, name, now) ==> Whole(deeds[k].seconds) > bounds[name].seconds)
  }

  lemma SideBySide(deeds: seq<Deed>, now: real, bounds: map<string, Pool.Bound>, name: string, rebuilt: Option<(real, real)>)
    requires LiveFrom(deeds, now, bounds, name) && RebuiltFrom(deeds, now, rebuilt)
    ensures Warier(rebuilt, bounds, name, now) <==> exists k :: StaleBeyond(deeds, k, now, bounds, name)
  {
    hide Whole;
    forall k | Counted(deeds, k, now) && Held(deeds, k, now)
      ensures InForce(bounds, name, now) && Whole(deeds[k].seconds) <= bounds[name].seconds
    {
      WholeIsNoMore(deeds[k].seconds);
    }
    if rebuilt.Some? {
      var k :| Counted(deeds, k, now) && rebuilt.value == (Whole(deeds[k].seconds), deeds[k].rowAt);
      if Warier(rebuilt, bounds, name, now) {
        assert StaleBeyond(deeds, k, now, bounds, name);
      }
    }
  }

  /** A rebuild is warier than the process that watched exactly when it counts a stale miss
      larger than whatever the live bound still asks; with none stale, its seconds are no
      more than the live ones. */
  lemma RebuildIsWarierExactly(p: Pool.PoolState, name: string, deeds: seq<Deed>, rows: seq<Row>, now: real,
                               rebuilt: Option<(real, real)>)
    requires History(deeds, now) && NoTies(deeds) && Reads(rows, name, deeds)
    requires IsBound(rows, now - Pool.BUDGET_BOUND_WINDOW_SEC, name, rebuilt)
    ensures var bounds := LivePool(p, name, deeds).bounds;
      && (rebuilt.Some? <==> exists k :: Counted(deeds, k, now))
      && (InForce(bounds, name, now) <==> exists k :: Held(deeds, k, now))
      && (Warier(rebuilt, bounds, name, now) <==> exists k :: StaleBeyond(deeds, k, now, bounds, name))
  {
    hide LivePool, History, NoTies, Reads, IsBound, Warier, StaleBeyond, Counted, Held, InForce;
    var bounds := LivePool(p, name, deeds).bounds;
    LiveIs(p, name, deeds, now);
    RebuiltIs(rows, name, deeds, now, rebuilt);
    SideBySide(deeds, now, bounds, name, rebuilt);
    BothExist(deeds, now, bounds, name, rebuilt);
  }

  lemma BothExist(deeds: seq<Deed>, now: real, bounds: map<string, Pool.Bound>, name: string, rebuilt: Option<(real, real)>)
    requires LiveFrom(deeds, now, bounds, name) && RebuiltFrom(deeds, now, rebuilt)
    ensures rebuilt.Some? <==> exists k :: Counted(deeds, k, now)
    ensures InForce(bounds, name, now) <==> exists k :: Held(deeds, k, now)
  {}

  /** How a recent miss goes stale, told of what came after it: an answer retired it live, or
      its own window did, while every later answer that is read was given before its row was
      stamped. */
  lemma StaleIs(deeds: seq<Deed>, k: nat, now: real)
    requires History(deeds, now) && NoTies(deeds) && k < |deeds|
    requires deeds[k].Miss? && deeds[k].read && deeds[k].rowAt >= now - Pool.BUDGET_BOUND_WINDOW_SEC
    ensures Stale(deeds, k, now) <==>
            && ((exists j :: k < j < |deeds| && deeds[j].Reply?) || deeds[k].at + Pool.BUDGET_BOUND_WINDOW_SEC <= now)
            && (forall j :: k < j < |deeds| && deeds[j].Reply? && deeds[j].read ==> deeds[j].at < deeds[k].rowAt)
  {
    forall j | 0 <= j < |deeds| && j <= k && deeds[j].Reply? ensures deeds[j].at < deeds[k].rowAt {
      assert deeds[j].at <= deeds[k].at;
    }
  }

  /** The rebuilt bound is this miss's, and lapses after the live one by no more than the
      miss's row came late. */
  ghost predicate LateByItsRow(deeds: seq<Deed>, k: int, now: real, rebuilt: (real, real), live: Pool.Bound) {
    && Counted(deeds, k, now) && rebuilt == (Whole(deeds[k].seconds), deeds[k].rowAt)
    && rebuilt.1 + Pool.BUDGET_BOUND_WINDOW_SEC <= live.until + (deeds[k].rowAt - deeds[k].at)
  }

  /** The newest row of the live bound's own seconds was stamped just as the last miss was felt. */
  ghost predicate StampedAtTheLast(deeds: seq<Deed>, k: int, now: real, live: Pool.Bound) {
    Newest(deeds, k, now, live.seconds) && deeds[k].rowAt == deeds[|deeds| - 1].at
  }

  function AsBound(rebuilt: (real, real)): Pool.Bound {
    Pool.Bound(rebuilt.0, rebuilt.1 + Pool.BUDGET_BOUND_WINDOW_SEC)
  }

  /** Where no miss is stale, the rebuilt bound asks no more seconds than the live one, lapses
      later by no more than its row came late, and is the very same exactly when the largest
      miss counted is the live bound in whole milliseconds, its newest row stamped at the
      instant of the last miss. */
  lemma RebuildAgrees(p: Pool.PoolState, name: string, deeds: seq<Deed>, rows: seq<Row>, now: real,
                      rebuilt: Option<(real, real)>)
    requires History(deeds, now) && NoTies(deeds) && Reads(rows, name, deeds)
    requires IsBound(rows, now - Pool.BUDGET_BOUND_WINDOW_SEC, name, rebuilt)
    requires rebuilt.Some? && forall k :: !Stale(deeds, k, now)
    ensures var bounds := LivePool(p, name, deeds).bounds;
      && InForce(bounds, name, now) && rebuilt.value.0 <= bounds[name].seconds
      && (exists k :: LateByItsRow(deeds, k, now, rebuilt.value, bounds[name]))
      && (AsBound(rebuilt.value) == bounds[name] <==> exists k :: StampedAtTheLast(deeds, k, now, bounds[name]))
  {
    hide LivePool, NoTies, Reads, IsBound, Counted, Held, LiveFrom, RebuiltFrom, LateByItsRow, StampedAtTheLast, Stale;
    LiveIs(p, name, deeds, now);
    RebuiltIs(rows, name, deeds, now, rebuilt);
    NoneStaleAgree(deeds, now, LivePool(p, name, deeds).bounds, name, rebuilt.value);
  }

  lemma NoneStaleAgree(deeds: seq<Deed>, now: real, bounds: map<string, Pool.Bound>, name: string, rebuilt: (real, real))
    requires History(deeds, now) && LiveFrom(deeds, now, bounds, name) && RebuiltFrom(deeds, now, Some(rebuilt))
    requires forall k :: !Stale(deeds, k, now)
    ensures InForce(bounds, name, now) && rebuilt.0 <= bounds[name].seconds
    ensures exists k :: LateByItsRow(deeds, k, now, rebuilt, bounds[name])
    ensures AsBound(rebuilt) == bounds[name] <==> exists k :: StampedAtTheLast(deeds, k, now, bounds[name])
  {
    hide Whole;
    var k :| Counted(deeds, k, now) && rebuilt == (Whole(deeds[k].seconds), deeds[k].rowAt);
    assert !Stale(deeds, k, now);
    WholeIsNoMore(deeds[k].seconds);
    assert LateByItsRow(deeds, k, now, rebuilt, bounds[name]);
    if m :| StampedAtTheLast(deeds, m, now, bounds[name]) {
      assert !Stale(deeds, m, now);
      assert Newest(deeds, k, now, bounds[name].seconds);
    }
    if AsBound(rebuilt) == bounds[name] {
      assert StampedAtTheLast(deeds, k, now, bounds[name]);
    }
  }

  /** The newest counted miss of just these seconds. */
  ghost predicate Newest(deeds: seq<Deed>, k: int, now: real, seconds: real) {
    && Counted(deeds, k, now) && Whole(deeds[k].seconds) == seconds
    && forall m :: Counted(deeds, m, now) && Whole(deeds[m].seconds) == seconds ==> deeds[m].rowAt <= deeds[k].rowAt
  }

  // A rebuild promised to outlive nothing the process had retired. It can: one attempt misses
  // five seconds and waits for the pool's lock, a second answers and is journaled meanwhile,
  // and the first is journaled after it.

  const OVERTAKEN := [Miss(5.0, 1.0, 4.0, true), Reply(3.0, true)]

  function RowOf(name: string, d: Deed): Row {
    Row("", Bucket(name, None), if d.Miss? then Error else OK, None,
        if d.Miss? then Some(Millis(d.seconds)) else None, Some(StampOf(d)))
  }

  lemma OvertakenIsRead(rows: seq<Row>)
    requires rows == [RowOf("m", OVERTAKEN[0]), RowOf("m", OVERTAKEN[1])]
    ensures History(OVERTAKEN, 5.0) && NoTies(OVERTAKEN) && Reads(rows, "m", OVERTAKEN)
  {
    assert RowIs(rows[0], "m", OVERTAKEN[0]) && RowIs(rows[1], "m", OVERTAKEN[1]);
    assert FromADeed(rows[0], "m", OVERTAKEN) && FromADeed(rows[1], "m", OVERTAKEN);
  }

  lemma OvertakenMissReturns(p: Pool.PoolState, rows: seq<Row>, rebuilt: Option<(real, real)>)
    requires rows == [RowOf("m", OVERTAKEN[0]), RowOf("m", OVERTAKEN[1])]
    requires IsBound(rows, 5.0 - Pool.BUDGET_BOUND_WINDOW_SEC, "m", rebuilt)
    ensures rebuilt == Some((5.0, 4.0)) && "m" !in LivePool(p, "m", OVERTAKEN).bounds
  {
    OvertakenIsRead(rows);
    RebuiltIs(rows, "m", OVERTAKEN, 5.0, rebuilt);
    assert Counted(OVERTAKEN, 0, 5.0);
    assert Millis(5.0) == 5000;
  }
}
