# llmbroker: the live pool and what borrows from it

This project models the parts of llmbroker where several calls, lanes and readers change
shared state at once, or where a fast form has to agree with a simple one, and proves what the
library promises of them. Time is `real` seconds since 1970 and never runs backwards; text between two
`await`s is one atomic step at one instant; ids are fresh. A protocol is a total step function
over events (an event that is not enabled changes nothing), so a run is any sequence of events
and every main result is about every run.

| file | what it models |
|---|---|
| `Common.dfy`, `Models.dfy` | order-preserving filters, Python's stable sort, model configs and JSON values |
| `Pool.dfy`, `PoolClass.dfy` | the slot pool: the specification functions and their lemmas, and the class that updates its fields in place, method by method against them |
| `Verdicts.dfy` | how a failed attempt is classified |
| `Attempts.dfy`, `AttemptRuns.dfy` | every lane borrowing from the pool, raced, streamed or driven alone, with cancellation at any await, of the lane or of the stop that settles it; leases, hand-backs and journal rows over all runs |
| `Joins.dfy` | what a lane of the attempt protocol has come to, as the routed call and the routed stream are told of it |
| `Queue.dfy` | the callers asleep before the pool beside those lanes, their timers, and what notifies them |
| `Route.dfy`, `RouteRuns.dfy` | one routed call: races, refills, exclusions and the error it raises |
| `Race.dfy`, `Stream.dfy`, `StreamOwner.dfy`, `StreamSafety.dfy`, `StreamRuns.dfy` | the routed stream: its owner as steps over its lanes and its reader, the same owner as a class whose methods are proved against those steps, the invariant, and the theorems |
| `Budget.dfy` | the deadlines a reader pauses |
| `Optimizer.dfy`, `Learning.dfy`, `BudgetRebuild.dfy` | quality windows and the Wilson bound over the reals; the live window and the missed-budget bound against their rebuild from the journal |
| `Journal.dfy`, `JournalReads.dfy` | the day-split tail read against sort, fold, filter and take |
| `KeyRing.dfy` | a caller's key ring over the shared one |
| `Merge.dfy`, `ModelListFile.dfy`, `RegistryRows.dfy` | the model-list merge and its two targets, a file and a database |
| `Refresher.dfy` | the refresh clock |

## Where the code and its documents part

- Invariant 19 of `specs/reference/invariants.md` says the slot is released on every exit path,
  and `specs/reference/rules/call-path.md` that the unused slot of a lane which had not reached
  its provider simply goes back. There are four ways to lose it, and `AttemptRuns.CutExactlyThere`
  says exactly when. A call that drives its one attempt itself is cancelled while it reads the
  key, or while it waits for the pool's lock to hand the slot back
  (`AttemptRuns.AloneCallCanLeak`). A race's caller is cancelled while it settles a lane that was
  cancelled before it held its key, and the stop that owed the hand-back is cancelled with it
  (`AttemptRuns.RacedLaneCanLeak`). An exception falls after the key and before the request is
  guarded, as the backoff's power does once a model has failed some thousand times in a row
  (`AttemptRuns.StumblingLeaks`). Or the disposal of a failure raises before its hand-back: a
  `Retry-After` can name a date off the calendar, a number no float holds, or a wait whose end
  leaves the calendar, as -100000000000 does under the stock ceiling of an hour
  (`AttemptRuns.HeadersCanLeak`); under a ceiling no failure of a request can but by such a header
  (`AttemptRuns.OnlyFarHeadersRaise`), and a stream out of time in mid-answer only by the backoff's
  power. A streamed lane loses its slot to exceptions only.
- The row of an attempt is lost, with its slot handed back, where the cooldown's end leaves the
  calendar between the two (`AttemptRuns.UnwrittenExactlyThere`, `AttemptRuns.RowCanBeLost`).
- A caller queued without a deadline behind such a lost unit sleeps for ever
  (`Queue.LostUnitLeavesASleeper`). Otherwise no wake-up is lost (`Queue.NoLostWakeup`,
  `Queue.SleeperIsOwed`).
- `specs/reference/rules/call-path.md` says the first complete answer settles a raced completion.
  Where one wait finds a lane that answered and a lane that crashed, in whatever order, the call
  raises the exception and drops the answer (`RouteRuns.AnsweredUnlessACrash`,
  `RouteRuns.AnswerCanBeLost`).
- `specs/reference/rules/selection.md` calls a recovery claim exclusive. Any other attempt on the
  model that settles lifts it (`AttemptRuns.AnyHandBackLiftsTheClaim`), and two rechecks of one
  model at once are reachable (`AttemptRuns.TwoRechecksAtOnce`). A recheck begun on an idle slot
  does run alone (`AttemptRuns.RecheckRunsAlone`).
- `specs/reference/rules/backends.md` says a caller with its own key does not touch its
  neighbours. Two calls that paid with the same dead own key reject it once each, and the second
  rejection falls through to the shared ring (`KeyRings.SecondRejectionHitsShared`).
- A model re-added under the name of one dropped in mid-flight counts fewer attempts than hold
  it; nothing else makes the two differ (`AttemptRuns.CountsExactlyUnless`). Only lowering
  `parallel` under running calls puts a slot above its cap (`AttemptRuns.CapsHoldUnless`).
- A rate limit whose `Retry-After` is zero or less, down to the start of the calendar, cools its
  model for no time at all (`Verdicts.OnlyAHeaderCoolsForNothing`, `Pool.CoolDownWithdraws`).
- Two calls journaled in one instant are read in opposite orders by the file store and the
  in-memory driver (`JournalReads.TiesPart`).
- `src/llmbroker/broker/pool.py:23-25` says neither a miss felt live nor the one a rebuild derives
  outlives the other. A miss raises its bound before it hands its slot back and is dated in the
  journal after it, so an answer in between retires the one and not the other: the rebuild then
  holds a bound where the process holds none (`BudgetRebuild.OvertakenMissReturns`).
  `BudgetRebuild.RebuildIsWarierExactly` says when, and `BudgetRebuild.RebuildAgrees` how far the
  two are apart where it does not.

## Model

| member | source | states |
|---|---|---|
| Pool.ReservationGrants | src/llmbroker/broker/pool.py:283-306 | a reservation hands out distinct models, each admissible and free, at most max(width, recovery width) of them, and none exactly when none is free |
| Pool.BestAreTaken | src/llmbroker/broker/pool.py:267-306 | no free candidate left behind ranks before one taken for its rank |
| Pool.FirstChoiceIsBest | src/llmbroker/broker/pool.py:267-281 | the first model taken has an unmissed budget if any free one has, then no demotion, then the highest priority, then the earliest standing |
| Pool.RecheckIsPaired | src/llmbroker/broker/pool.py:308-315 | with width 1 and recovery width 2, a recheck in first place is paired with the best ranked ordinary model whenever one is free |
| Pool.WideIsOneByOne | src/llmbroker/broker/pool.py:267-315 | a width-k reservation without recovery cover takes the same models, in the same order, and leaves the same pool, as k width-one reservations each excluding the earlier picks |
| Pool.NothingFreesBeforeTheTimer | src/llmbroker/broker/pool.py:177-194 | when a caller goes to sleep on a timer, no candidate can come free by the passing of time before it fires |
| Pool.UntimedSleepersAreOwedAHandBack | src/llmbroker/broker/pool.py:352-382 | a caller asleep with no timer, caps positive, has an attempt in flight on every candidate |
| Pool.RetryAtIsTheNearestReturn | src/llmbroker/broker/pool.py:243-265 | nothing to wait for while a candidate can serve now, otherwise the nearest instant a cooldown among the candidates ends |
| Pool.ReasonIsTrue | src/llmbroker/broker/pool.py:196-216 | each exhaustion reason says what is true of the pool, where eligible names do not hide an enabled payable model |
| Pool.AddSound | src/llmbroker/broker/pool.py:82-95 | adding or refreshing a model keeps a claim meaning a due recheck, a cooldown over and an attempt in flight |
| Pool.DropSound | src/llmbroker/broker/pool.py:97-102 | so does dropping one |
| Pool.ReleaseSound | src/llmbroker/broker/pool.py:411-420 | so does a plain hand-back |
| Pool.CoolDownSound | src/llmbroker/broker/pool.py:434-448 | so does a hand-back that cools |
| Pool.ClearCoolingSound | src/llmbroker/broker/pool.py:426-432 | so does clearing the cooldown |
| Pool.SetDisabledSound | src/llmbroker/broker/pool.py:108-120 | so does disabling or enabling |
| Pool.ReserveSound | src/llmbroker/broker/pool.py:283-306 | so does a reservation, which sets claims |
| Pool.ClaimedIsNeverReserved | src/llmbroker/broker/pool.py:233-241 | a claimed slot is in no reservation |
| Pool.CoolDownWithdraws | src/llmbroker/broker/pool.py:434-448 | a delay that leaves the calendar raises and hands nothing back; any other hands one unit back and the model is free again exactly when the delay has passed, so one of no time withdraws nothing |
| Pool.MissReorders | src/llmbroker/broker/pool.py:149-175 | for callers offering little more than the budget missed, and as long as the window lasts, the model ranks strictly behind every sibling that has missed no such budget; it stays a candidate, as free as it was |
| PoolClass.LLMPool.Add | src/llmbroker/broker/pool.py:82-95 | the fields after are the specified pool: live state survives a refresh, and the order moves |
| PoolClass.LLMPool.Drop | src/llmbroker/broker/pool.py:97-102 | the slot and its bound are gone |
| PoolClass.LLMPool.Release | src/llmbroker/broker/pool.py:411-420 | one attempt fewer, never below none, and the claim lifted |
| PoolClass.LLMPool.CoolDown | src/llmbroker/broker/pool.py:434-448 | raises untouched exactly where the instant is off the calendar; otherwise hand-back, cooldown, streak and a recheck owed in one step |
| PoolClass.LLMPool.Reserve | src/llmbroker/broker/pool.py:283-306 | the choice and the marks it leaves, against the specification |
| PoolClass.LLMPool.MarkAll | src/llmbroker/broker/pool.py:302-306 | the loop marks exactly the chosen slots |
| PoolClass.LLMPool.AcquireTurn | src/llmbroker/broker/pool.py:337-382 | one turn of the queue: served, refused with a reason, timed out, or asleep with which timer |
| PoolClass.LLMPool.TakeFree | src/llmbroker/broker/pool.py:384-409 | a take that never waits, and takes nothing once it is no longer needed |
| PoolClass.LLMPool.WakeTimeout | src/llmbroker/broker/pool.py:177-194 | the loop finds the nearest return and the caller's own deadline |
| PoolClass.LLMPool.RaiseBudgetBound | src/llmbroker/broker/pool.py:149-159 | the larger of the unlapsed bound and the new miss, dated from the new one |
| Verdicts.EveryFailureExcludesOrCools | src/llmbroker/broker/verdict.py:54-86 | every classified failure but a spent budget either excludes its model from the call or cools it, never both; the request's own faults and dead keys are exactly the excluded; a rate limit with a date off the calendar is exactly what is never classified |
| Verdicts.WaitIsPositive | src/llmbroker/broker/router.py:425-427 | the wait withdraws the model exactly when its base is positive, and never beyond the ceiling |
| Verdicts.OnlyAHeaderCoolsForNothing | src/llmbroker/broker/verdict.py:54-71 | a wait of nothing or less comes only from the provider's own header |
| Attempts.LaneStepSound | src/llmbroker/broker/router.py:559-641 | every step of every kind of lane, those that raise included, keeps it sound, hands the slot back exactly when it says so, and loses slot or row exactly where it says so |
| Attempts.RunKeeps | src/llmbroker/broker/router.py:360-411 | the joint invariant of pool and lanes holds over every run, whichever lanes and stops are cancelled |
| AttemptRuns.ExactlyOneHandBack | src/llmbroker/broker/router.py:360-411 | a lane hands its slot back at most once, and exactly once by its end unless it was cut; a streamed lane is cut only by an exception no handler covers, a raced one by that or with its stop |
| AttemptRuns.CutExactlyThere | src/llmbroker/broker/router.py:276-546 | a lane is cut exactly when its caller is cancelled driving it alone, awaiting neither provider nor journal row; when the stop of a raced lane cancelled before it held its key is itself cancelled; when an exception falls between the key and the request; or when a failure's header, base, wait or mid-answer backoff makes its disposal raise |
| AttemptRuns.OnlyFarHeadersRaise | src/llmbroker/chat.py:29-44 | under a ceiling the calendar has room for, a disposal raises exactly for a rate limit whose header is a date off the calendar, a number no float holds, or a wait scaled beyond the calendar's start |
| AttemptRuns.CutIsForGood | src/llmbroker/broker/router.py:276-283 | nothing later returns a cut lane's slot |
| AttemptRuns.AloneCallCanLeak | src/llmbroker/broker/router.py:439-463 | a concrete run from a fresh pool that loses the only unit of a capped model for ever |
| AttemptRuns.RacedLaneCanLeak | src/llmbroker/broker/router.py:385-405 | a concrete run of a race over two models: one answers, the other is superseded before it held its key, the caller is cancelled while that settles, and the unit is lost |
| AttemptRuns.StumblingLeaks | src/llmbroker/broker/router.py:454-469 | a concrete run in which an exception after the key and before the guarded request loses the unit |
| AttemptRuns.HeadersCanLeak | src/llmbroker/broker/pool.py:434-437 | a concrete run in which one rate limit's header, a far negative delay or a date off the calendar, loses the unit and leaves no row |
| AttemptRuns.NeverCountsMore | src/llmbroker/broker/pool.py:411-448 | over every run, a slot's count is never above its outstanding leases |
| AttemptRuns.CountsExactlyUnless | src/llmbroker/broker/pool.py:82-102 | a step breaks the equality of the two exactly when it re-adds a dropped name that is still held |
| AttemptRuns.CarefulRunsCountExactly | src/llmbroker/broker/pool.py:303-306 | over every run with no such step they are equal |
| AttemptRuns.IdleAtTheEnd | src/llmbroker/broker/router.py:385-411 | when every lane has ended and none was cut, nothing is in flight |
| AttemptRuns.CapsHoldUnless | src/llmbroker/broker/pool.py:233-241 | a step leaves a slot above its cap exactly when it refreshes the entry with a cap below what is running |
| AttemptRuns.NeverMoreRunningThanTheCap | src/llmbroker/broker/pool.py:233-241 | so `parallel` caps the attempts really holding a model, over careful runs |
| AttemptRuns.AtMostOneRow | src/llmbroker/broker/router.py:471-557 | at most one row an attempt, none before a key, exactly one on every ending of a raced or streamed lane that held one but the unexplained cancellation and the exceptions that take the slot or the row; a receipt settles only over its row |
| AttemptRuns.UnwrittenExactlyThere | src/llmbroker/broker/router.py:471-503 | a row alone is lost exactly when the cooldown's end, worked out again after the hand-back, is off the calendar |
| AttemptRuns.RowCanBeLost | src/llmbroker/broker/router.py:482-486 | a concrete run without a ceiling that hands its slot back and writes no row |
| AttemptRuns.ClaimsAreReal | src/llmbroker/broker/pool.py:303-306 | in every reachable state a claim means a due recheck, a cooldown over and an attempt in flight |
| AttemptRuns.RecheckRunsAlone | src/llmbroker/broker/pool.py:233-241 | over careful runs, a recheck begun on an idle slot is the only attempt on it until it settles |
| AttemptRuns.AnyHandBackLiftsTheClaim | src/llmbroker/broker/pool.py:411-420 | any hand-back lifts the claim, whoever took it |
| AttemptRuns.TwoRechecksAtOnce | src/llmbroker/broker/pool.py:303-306 | two rechecks of one model at once, reached from a fresh pool |
| AttemptRuns.DueUntilAnswered | src/llmbroker/broker/pool.py:411-448 | a model owes a recheck from the failure that cooled it until an attempt on it succeeds, and nothing else arms or clears the debt |
| Queue.NoLostWakeup | src/llmbroker/broker/pool.py:352-382 | over every run of callers, lanes, administration and time, a caller still asleep before its timer has no free candidate, and its timer never lies past its own deadline |
| Queue.QuietStep | src/llmbroker/broker/pool.py:82-120 | a step that notifies nobody (disabling, reserving, the budget bounds, passing time) frees nothing a sleeper waits for, so adding, dropping, enabling and handing back are all that must notify |
| Queue.RunnableIsServed | src/llmbroker/broker/pool.py:352-382 | whoever waits while a candidate of its is free may run, and its turn takes one |
| Queue.SleeperIsOwed | src/llmbroker/broker/pool.py:352-382 | over every run and with positive caps, a caller asleep with no timer has some model it asked for, and each one still enabled, held by a lane that has yet to hand it back or was cut, and the hand-back of any lane that owes it makes it runnable |
| Queue.LostUnitLeavesASleeper | src/llmbroker/broker/pool.py:337-382 | a reachable caller asleep with no timer beside a cut lane that will never notify |
| Joins.EndsAreTrue | src/llmbroker/broker/route_state.py:59-92 | over every run, an atomic lane that ended of itself answers exactly over an OK row, crashes over an error row or with slot or row lost, and fails with its slot back, rejecting only over an error row or a key gone |
| Joins.StreamedLaneFollows | src/llmbroker/broker/streaming.py:307-391 | every step of a streamed attempt is one lane event of the stream machine or none: its stage there follows the attempt, with the verdict the attempt reported |
| Route.RouteCall.Absorb | src/llmbroker/broker/route_state.py:84-92 | one verdict folded into the call's exclusions, error in hand and expiry |
| Route.RouteCall.SettleDone | src/llmbroker/broker/router.py:301-309 | the lanes one wait found done: first answer wins, later answers are superseded, the rest absorbed, up to the first that crashed, where the loop is left |
| RouteRuns.RejectedIsNeverReopened | src/llmbroker/broker/router.py:216-243 | over every run, a model whose attempt was rejected is never opened again by the call |
| RouteRuns.OneWinner | src/llmbroker/broker/router.py:285-317 | at most one lane answers first: it is the call's winner with nothing live beside it, or its answer went down with a sibling's exception; only such a lane supersedes another |
| RouteRuns.AnsweredUnlessACrash | src/llmbroker/broker/router.py:296-314 | one wait answers the call exactly when some lane in it answered and none crashed, by the first in order; a crash anywhere in it is what the call raises |
| RouteRuns.AnswerCanBeLost | src/llmbroker/broker/router.py:301-314 | a concrete race whose first lane answers and whose second crashes in one wait, and which raises |
| RouteRuns.NeverWiderThanTheRace | src/llmbroker/broker/router.py:285-358 | never more attempts live than the race is wide, and a refill brings it back to that width exactly |
| RouteRuns.EveryCandidateOnce | src/llmbroker/broker/router.py:191-211 | while every candidate rejects, no model is opened twice, so attempts number at most the pool's members |
| RouteRuns.NewestErrorIsInHand | src/llmbroker/broker/route_state.py:84-92 | the error in hand is the newest client error of everything absorbed |
| RouteRuns.ExhaustionRaises | src/llmbroker/broker/router.py:223-240 | when everything the caller could be given has rejected, the pool refuses at once as excluded and the call raises the newest client error, or that reason |
| RouteRuns.ReservationsAreGrantable | src/llmbroker/broker/router.py:216-243 | whatever the pool serves this call is something its machine may open |
| RouteRuns.RefillsAreRefillable | src/llmbroker/broker/router.py:319-358 | whatever `take_free` serves a race's refill is something its machine may open |
| Race.WinnerIsFirst | src/llmbroker/broker/streaming.py:107-118 | the winner completed first of all completed lanes, and a tie keeps the lane shown |
| Race.SelectIsFair | src/llmbroker/broker/streaming.py:120-133 | who is shown has spoken, and the preferred lane is passed over only if it did not speak inside the window |
| Race.BufferedIsFirst | src/llmbroker/broker/stream_owner.py:448-459 | the next answer is the earliest completed one undelivered, and there is none exactly when all are delivered |
| Race.StreamRace.FindWinner | src/llmbroker/broker/streaming.py:107-118 | the loop over lanes finds the winner |
| Race.StreamRace.FindShown | src/llmbroker/broker/streaming.py:120-133 | the choice of the provisional lane |
| Race.StreamRace.FindFirstDelta | src/llmbroker/broker/streaming.py:127-133 | the loop finds the earliest first delta |
| StreamSafety.ApplyKeeps | src/llmbroker/broker/stream_owner.py:320-503 | every stretch of the owner, the lanes and the reader keeps the stream's invariant |
| StreamSafety.CountsAgree | src/llmbroker/broker/stream_owner.py:418-430 | what is delivered and what is pending in a wave add up to its lanes that count |
| StreamRuns.OneLaneIsRead | src/llmbroker/broker/stream_owner.py:294-405 | the reader only has a prefix of one lane; a normal ending gave it all of that lane, a replacement names a different completed lane |
| StreamRuns.NothingIsTakenBack | src/llmbroker/broker/stream_owner.py:339-382 | the shown lane never changes, what was read stays read, and an ending and its text are final |
| StreamRuns.TheRaceGoesToTheFirst | src/llmbroker/broker/stream_owner.py:357-382 | a raced stream ends with the lane that completed first of all that ever complete |
| StreamRuns.TheFirstToSpeakIsRead | src/llmbroker/broker/stream_owner.py:312-344 | an ordinary stream reads the lane whose first delta came first, of all that ever speak |
| StreamRuns.NeverTooWide | src/llmbroker/broker/stream_owner.py:229-253 | no model is opened twice, lanes number at most the eligible names, live lanes at most max(width, recovery width), delivered plus pending at most the wave's width |
| StreamRuns.TopUpAsksForTheRest | src/llmbroker/broker/stream_owner.py:412-438 | a top-up asks for exactly what its wave lacks, exactly where the call has not expired, no answer waits and the wave is not full |
| StreamRuns.WavesDoNotOverlap | src/llmbroker/broker/stream_owner.py:383-393 | a new wave opens only over a stream with nothing live |
| StreamRuns.AnswersInOrder | src/llmbroker/broker/stream_owner.py:461-503 | further answers are distinct, never the initial one, completed in non-decreasing order, and stop for good only when nothing is live and all are delivered |
| StreamRuns.ReservationsAreGrantable | src/llmbroker/broker/router.py:225-243 | whatever the pool serves this stream is something its machine may open |
| StreamOwner.RoutedStream.AbsorbFinished | src/llmbroker/broker/stream_owner.py:276-281 | the loop folds every failed lane's verdict into the call |
| StreamOwner.RoutedStream.CountWave | src/llmbroker/broker/stream_owner.py:417-428 | delivered and pending lanes of the wave |
| StreamOwner.RoutedStream.Refill | src/llmbroker/broker/stream_owner.py:412-431 | what a top-up asks for, if anything |
| StreamOwner.RoutedStream.Open | src/llmbroker/broker/stream_owner.py:229-253 | one new lane a granted model, in order, and the names remembered |
| StreamOwner.RoutedStream.OpenWave | src/llmbroker/broker/stream_owner.py:386-392 | a grant opens the next wave and, raced, its window |
| StreamOwner.RoutedStream.RacedTurn | src/llmbroker/broker/stream_owner.py:357-405 | one turn of the raced loop, and the one delta it yields |
| StreamOwner.RoutedStream.FlushTurn | src/llmbroker/broker/stream_owner.py:369-375 | the rest of the winner's answer, one delta a pull |
| StreamOwner.RoutedStream.OrdinaryTurn | src/llmbroker/broker/stream_owner.py:320-325 | one turn of the ordinary loop up to its top-up |
| StreamOwner.RoutedStream.PickFirst | src/llmbroker/broker/stream_owner.py:333-344 | the first delta decides who is read |
| StreamOwner.RoutedStream.VisibleTurn | src/llmbroker/broker/stream_owner.py:294-310 | the delta taken for the reader, and what follows the lane's end |
| StreamOwner.RoutedStream.NextTurn | src/llmbroker/broker/stream_owner.py:461-476 | one turn of `another()` up to its first await |
| StreamOwner.RoutedStream.AfterTopUp | src/llmbroker/broker/stream_owner.py:476-495 | round again, give up, or ask for a wider wave |
| Budget.StreamBudget.Pause | src/llmbroker/broker/streaming.py:172-175 | only a budget with a deadline pauses, and only once |
| Budget.StreamBudget.Resume | src/llmbroker/broker/streaming.py:177-184 | the deadline moves by the time paused |
| Budget.RoutedDeadlines.constructor | src/llmbroker/broker/stream_owner.py:141-158 | a wait of zero bounds acquisition and leaves the answer unbounded |
| Budget.RoutedDeadlines.ResumeBudget | src/llmbroker/broker/stream_owner.py:286-292 | all the deadlines there are move together |
| Budget.ReaderTimeIsNeverCharged | src/llmbroker/broker/stream_owner.py:286-304 | through any pulls, budget, answer deadline and queue deadline stay one deadline, moved by exactly the reader's time |
| Budget.UnbudgetedPulls | src/llmbroker/broker/stream_owner.py:141-158 | with no wait, or a wait of zero, no pull moves anything |
| Budget.RemainingSurvivesThePause | src/llmbroker/broker/streaming.py:172-184 | what is left at resume is what was left at pause |
| Optimizer.DemotionIs | src/llmbroker/optimizer.py:95-102 | a window is demoted exactly when it is full enough, its mean p is below the floor f, and n(f-p)^2 > z^2 f(1-f) |
| Optimizer.BoundIsOptimistic | src/llmbroker/optimizer.py:17-29 | the bound lies between the mean and one |
| Optimizer.RaisingNeverDemotes | src/llmbroker/optimizer.py:95-102 | raising any scores never causes a demotion |
| Optimizer.WeightIsDisplaced | src/llmbroker/optimizer.py:77-93 | the weight alone with nothing rated, the mean alone with a full window, and between them the balance of both by their counts |
| Optimizer.RecordedStaysSimple | src/llmbroker/optimizer.py:111-132 | a rating keeps ids distinct and the window within its length, and is itself in it |
| Optimizer.QualityOptimizer.RecordQuality | src/llmbroker/optimizer.py:111-132 | the loop re-rates in place or evicts the oldest |
| Optimizer.QualityOptimizer.LoadScores | src/llmbroker/optimizer.py:134-145 | every window replaced by the newest of what is loaded |
| Learning.RebuildScores | src/llmbroker/broker/learning.py:122-132 | the pass over newest-first rows loads exactly each bucket's newest rated calls, oldest first |
| Learning.OneMoreRating | src/llmbroker/optimizer.py:111-132 | agreeing windows stay equal after one more rating exactly when its call is in the window or newer than every rated call of the bucket |
| Learning.AgreementStep | src/llmbroker/broker/learning.py:76-84 | live and rebuilt windows of all buckets stay equal over an event exactly when that event is in place |
| Learning.LiveIsRebuilt | src/llmbroker/broker/learning.py:122-132 | over every history whose ratings were in place, the live windows are the rebuilt ones |
| Learning.OutOfPlaceParts | src/llmbroker/optimizer.py:111-132 | the first rating out of place is where they part |
| Learning.WindowsStaySimple | src/llmbroker/optimizer.py:122-131 | over every history a window holds each call once and never outgrows its length |
| Learning.TailIsEnough | src/llmbroker/broker/learning.py:111-132 | a rebuild from the tail equals one from the whole journal exactly when every call the latter keeps lies in the tail |
| Learning.Observe | src/llmbroker/broker/learning.py:86-109 | what a journaled attempt does to its model's failure streak, and to no other's |
| Learning.StreakCountsCooldowns | src/llmbroker/broker/learning.py:94-109 | from provider to streak, a failure advances it exactly when it cools the model, so a request's own fault never does |
| Learning.BudgetBounds | src/llmbroker/broker/learning.py:32-55 | the loop finds, per model, the largest recent budget missed since it last answered, and the newest row that missed it |
| BudgetRebuild.RebuildIsWarierExactly | src/llmbroker/broker/router.py:505-546 | the rebuild holds a bound where the live pool has none in force, or a larger one, exactly when it counts a stale miss larger than what the live bound asks; each side holds a bound exactly when it still counts some miss |
| BudgetRebuild.StaleIs | src/llmbroker/broker/learning.py:32-55 | a recent miss is stale exactly when a later answer or its own window retired it live while every later answer that is read came before its row was stamped |
| BudgetRebuild.RebuildAgrees | src/llmbroker/broker/pool.py:149-159 | with no miss stale the rebuilt bound is no larger, lapses later by no more than its row came late, and is the live bound exactly when the largest miss counted is it in whole milliseconds, its newest row stamped at the instant of the last miss |
| BudgetRebuild.OvertakenMissReturns | src/llmbroker/broker/router.py:526-546 | a miss journaled after an answer that overtook it: the rebuild holds five seconds, the live pool nothing |
| Journal.InMemoryJournal.JournalView | src/llmbroker/backends/inmemory.py:38-55 | the loops compute the sort, fold, filter and take form |
| Journal.FileStore.AppendLine | src/llmbroker/standalone/store.py:98-108 | every row goes to the file of its own UTC day |
| Journal.FileStore.ReadFile | src/llmbroker/standalone/store.py:148-166 | one file read back to front, with early exit |
| Journal.FileStore.ReadTail | src/llmbroker/standalone/store.py:134-177 | the reverse pass over the day files, with whole-file skipping and early exit, is the specified tail of the journal |
| JournalReads.OrdersAgree | src/llmbroker/standalone/store.py:129-149 | the pass meets rows in the view's order exactly when every file's timestamps strictly increase line by line |
| JournalReads.ReadsAgree | src/llmbroker/backends/inmemory.py:38-55 | over such files, the two reads agree on every limit, filter and bound exactly when every rated call has a rating newer than itself |
| JournalReads.TailIsTheView | src/llmbroker/standalone/store.py:134-177 | so they agree on every journal appended in time order with unique ids and ratings after their calls |
| JournalReads.SkippedDaysComeLast | src/llmbroker/standalone/store.py:169-177 | skipping files wholly before the bound loses nothing |
| JournalReads.TiesPart | src/llmbroker/backends/inmemory.py:45 | two calls of one instant are read in opposite orders |
| KeyRings.RejectedUntilReplaced | src/llmbroker/broker/keyring.py:89-112 | once a value is rejected, no run of lookups, rejections and refreshes makes the ring hand anything out for the ref until a refresh reads something different |
| KeyRings.RejectionStep | src/llmbroker/broker/keyring.py:101-112 | a step lifts a rejection exactly when it is a refresh of that ring that reads anything but the rejected value |
| KeyRings.AnswersAreStable | src/llmbroker/broker/keyring.py:65-78 | between refreshes an answer stands, whatever else is looked up or rejected and whatever the backend does |
| KeyRings.OwnElseShared | src/llmbroker/broker/keyring.py:65-78 | a refreshed ring answers with the caller's own key if set and the shared one otherwise |
| KeyRings.RejectionReachesShared | src/llmbroker/broker/keyring.py:89-99 | a rejection touches the shared ring exactly when the own ring holds no value and the shared one does |
| KeyRings.SecondRejectionHitsShared | src/llmbroker/broker/keyring.py:89-99 | the second rejection of one dead own key takes the shared value from everybody |
| KeyRings.KeyRing.Resolve | src/llmbroker/broker/keyring.py:65-78 | the lookup through a ring and its fallbacks, with what each then remembers |
| KeyRings.KeyRing.Payable | src/llmbroker/broker/keyring.py:80-87 | exactly the refs that resolve for this caller |
| KeyRings.KeyRing.Forget | src/llmbroker/broker/keyring.py:89-99 | the first ring holding a value loses it and remembers which it was |
| KeyRings.KeyRing.Refresh | src/llmbroker/broker/keyring.py:101-112 | everything read is forgotten; a rejection stays exactly while its value does |
| Merge.CheckNameClash | src/llmbroker/broker/merge.py:66-76 | the loop finds the first name met twice |
| Merge.CheckModelIdentity | src/llmbroker/broker/merge.py:55-63 | the loop finds the first entry whose model would change under its name |
| Merge.MergeSucceedsWhen | src/llmbroker/broker/merge.py:115-177 | the merge succeeds exactly when no stored model would change, no name would be carried twice, and a working list would not be emptied |
| Merge.NothingOwnedIsTouched | src/llmbroker/broker/merge.py:127-159 | the installation's own entries and their key help pass through unchanged, and the report accounts for every name |
| Merge.OrphansAreUnused | src/llmbroker/broker/merge.py:83-92 | a key is reported for revoking exactly when a removed entry used it, it exists, and nothing left references it |
| Merge.HoldBack | src/llmbroker/broker/merge.py:95-112 | the loop groups the entries held back under each missing reference, both in first-mention order |
| Merge.PendingCoversTheWaiting | src/llmbroker/broker/merge.py:95-112 | every entry whose key is missing is held back under exactly one pending key |
| Merge.SecondMergeIsStill | src/llmbroker/broker/merge.py:115-159 | merging the same list into what the first merge left, in any order, adds, updates and removes nothing |
| ModelListFile.BuildEntry | src/llmbroker/broker/model_list_file.py:30-40 | the entry's table, step by step |
| ModelListFile.BuildKeysTable | src/llmbroker/broker/model_list_file.py:52-63 | one block of help a reference that an entry names |
| ModelListFile.ReadEntries | src/llmbroker/standalone/registry.py:97-107 | the reader's loop: the entries in file order, or the first it refuses |
| ModelListFile.EntryRoundTrip | src/llmbroker/standalone/registry.py:29-43 | an entry written and read is itself exactly when a file can say it |
| ModelListFile.FileRoundTrip | src/llmbroker/standalone/registry.py:93-109 | a file gives back its entries exactly when it can say each and no name is written twice |
| ModelListFile.KeyRoundTrip | src/llmbroker/standalone/registry.py:56-68 | key help survives exactly when its passthrough did not take the word |
| ModelListFile.ListFile.Write | src/llmbroker/broker/model_list_file.py:80-92 | the file afterwards is the rendered list, and it was written exactly when that moved it |
| ModelListFile.ListFile.Sync | src/llmbroker/broker/model_list_file.py:80-120 | an error leaves the file alone and unwritten, so does a list that would not move it, and any other is written exactly once |
| ModelListFile.SecondSyncIsStill | src/llmbroker/broker/model_list_file.py:103-120 | syncing the same list into the file again writes and reports nothing |
| RegistryRows.RowRoundTrip | src/llmbroker/models.py:118-177 | a config written to a row and read back is itself exactly when its weight is from zero to one |
| RegistryRows.BuildMetadata | src/llmbroker/models.py:118-147 | only what is not the default is stored |
| RegistryRows.CheckAliases | src/llmbroker/models.py:324-335 | the loop finds the first alias carried twice |
| RegistryRows.DriverRegistry.Load | src/llmbroker/backends/ports.py:26-41 | every row read back, or the alias that clashes |
| RegistryRows.DriverRegistry.Mirror | src/llmbroker/backends/ports.py:43-63 | the rows after are exactly the list, and untouched where an alias clashes |
| RegistryRows.MirrorRoundTrip | src/llmbroker/backends/ports.py:26-63 | mirror then load is the same entries, in the store's order |
| RegistryRows.DriverRegistry.Sync | src/llmbroker/broker/refresher.py:276-294 | merge, and write only if an entry would differ |
| RegistryRows.SecondSyncIsStill | src/llmbroker/broker/refresher.py:276-294 | syncing the same list into a registry again writes and reports nothing, in whatever order rows come back |
| Refresher.ModelListRefresher.BeforeProvision | src/llmbroker/broker/refresher.py:68-83 | the first stretch of provisioning's gate |
| Refresher.ModelListRefresher.AfterLoad | src/llmbroker/broker/refresher.py:83-91 | the stretch after the registry was read: fill it, or arm the clock |
| Refresher.ModelListRefresher.SetFirstDeadline | src/llmbroker/broker/refresher.py:115-128 | the first deadline is set once, from the check on record |
| Refresher.ModelListRefresher.ScheduleRefresh | src/llmbroker/broker/refresher.py:100-113 | a refresh starts exactly when one is due and none is running |
| Refresher.ModelListRefresher.OnTick | src/llmbroker/broker/refresher.py:93-98 | a tick arms the clock where an alias is followed, then checks it |
| Refresher.OneRefreshAtATime | src/llmbroker/broker/refresher.py:68-128 | over every interleaving at most one background refresh is live, two start at least one interval apart, and the clock is armed and the registry filled at most once |
| Refresher.StartsAfterEveryEnd | src/llmbroker/broker/refresher.py:143-168 | a refresh starts one interval or more after every fetch that ended, the blocking fill included |
| Refresher.RecordDefersTheFirst | src/llmbroker/broker/refresher.py:115-128 | a recent check on record defers the first refresh to one interval after it, and otherwise it may start at once |

## Left out

- HTTP, server-sent events, response parsing and the text of `Retry-After`: a provider's outcome is an event, with its parsed header as an input: seconds of any size, a date the parser raises over, or nothing readable.
- The SQL, Mongo, AWS and Vault drivers, the synchronous front, the command line, preset fetching, stamp files and atomic writes: plumbing or foreign engines.
- TOML and JSON text: a document is its parsed value, and the libraries are assumed to read back what they wrote; a file's text counts as equal when its document is. Python's `str` of a non-text value is a parameter that never gives an empty text.
- The square root and `NormalDist().inv_cdf`: a root is any non-negative real of the right square and `z` any non-negative real. Floating-point rounding is not modelled, only where an integer is too large for a float.
- A window of no ratings judged against a minimum of none, which divides by zero in `is_demoted`: excluded by a precondition.
- Two rebuilds overlapping, and key-ring methods interleaved at their own awaits: each call there is atomic.
- Attempts.LaneStepSound: an attempt's generator is a step function on a lane value and not a class, because a method cannot be suspended at an await; lanes are positions in a sequence, so aliasing of lane objects is not captured.
- Slot identity: slots are values in a map, so a lane holding a slot object of a dropped model is a lane holding its name, which is how hand-backs find it too.
- The gates that hold a stream's lanes back (`hold_first`, `consumer_driven`): lanes may speak at any time, which only adds runs.
- A cancellation of a stream's stops or of a lane's own task that nobody in the router asks for, as a closing event loop does: a stream's stops run in a shielded task.
- BudgetRebuild.RebuildIsWarierExactly: speaks of one process's own misses; rows of other processes, which a rebuild reads too, are not among the deeds, and neither is a miss row and an answer row of one instant, whose order the stores do not agree on.
- A wall clock that drifts from the monotonic one: in the queue both are one clock. What a caller may pay for is fixed when it queues, as in the code.
- What happens to a stream after it raises: the error ends the machine; the text of errors and reports, the order of keys in a rendered file, and logging are left out.
- A `wait` that is not a number, and a clock within ten minutes of the year 10000, where the budget bound's own instant raises.
- A store that fails to record a row: the code logs it and goes on, so a row here is one handed to the store.
- Purging old journal rows, and rows without a timestamp, which no store writes.
- Journal metrics, provider health counts and the snapshot read-models: they would add only easy members.
- Pool.ReasonIsTrue: states "all disabled" only where eligible names do not hide an enabled payable model, because the code does not look at those names there.
