/** Learned quality twice over: the window kept live as ratings arrive, and the window a
    rebuild derives from the journal's tail. When the two agree, and when they cannot. */
module Learning {
  import opened Common
  import opened Optimizer
  import opened Verdicts
  import Pool

  /** The columns of a journaled call that learning reads; a journal is newest first. */
  datatype Row = Row(
    id: string,
    bucket: Bucket,
    status: CallStatus,
    score: Option<real>,
    budgetMs: Option<int>,
    ts: Option<real>)

  // ---------------------------------------------------------------------
  // The rebuild
  // ---------------------------------------------------------------------

  /** A bucket's rated calls, oldest first. */
  function Rated(rows: seq<Row>, key: Bucket): seq<Rating> {
    if rows == [] then [] else Rated(rows[1..], key) + RatingOf(rows[0], key)
  }

  function RatingOf(row: Row, key: Bucket): seq<Rating> {
    if row.score.Some? && row.bucket == key then [Rating(row.id, row.score.value)] else []
  }

  /** What a rebuild loads for the bucket: its newest rated calls. */
  function Rebuilt(rows: seq<Row>, key: Bucket, window: nat): seq<Rating> { LastOf(Rated(rows, key), window) }

  /** Newest first, as the journal is read. */
  function Newest(rows: seq<Row>, key: Bucket, window: nat): seq<Rating> {
    Reversed(Rebuilt(rows, key, window))
  }

  lemma {:induction false} RatedConcat(a: seq<Row>, b: seq<Row>, key: Bucket)
    ensures Rated(a + b, key) == Rated(b, key) + Rated(a, key)
  {
    if a == [] {
      assert a + b == b;
    } else {
      assert (a + b)[1..] == a[1..] + b;
      RatedConcat(a[1..], b, key);
    }
  }

  lemma RoomLeft(rated: seq<Rating>, more: seq<Rating>)
    requires |more| <= 1
    ensures Reversed(more + rated) == Reversed(rated) + more
  {
    hide Reversed;
    ReversedConcat(more, rated);
    ReversedShort(more);
  }

  lemma NoRoom(rated: seq<Rating>, more: seq<Rating>, window: nat)
    requires |rated| >= window
    ensures LastOf(more + rated, window) == LastOf(rated, window)
  {}

  lemma OneOlder(rated: seq<Rating>, more: seq<Rating>, window: nat)
    requires |more| <= 1
    ensures var before := Reversed(LastOf(rated, window));
      Reversed(LastOf(more + rated, window)) == if |before| < window then before + more else before
  {
    if |rated| < window {
      RoomLeft(rated, more);
    } else {
      NoRoom(rated, more, window);
    }
  }

  /** One more, older, row only matters while the bucket has room. */
  lemma NewestStep(rows: seq<Row>, i: nat, key: Bucket, window: nat)
    requires i < |rows|
    ensures var (before, more) := (Newest(rows[..i], key, window), RatingOf(rows[i], key));
      Newest(rows[..i + 1], key, window) == if |before| < window then before + more else before
  {
    hide LastOf, Reversed;
    assert rows[..i + 1] == rows[..i] + [rows[i]];
    RatedConcat(rows[..i], [rows[i]], key);
    assert Rated([rows[i]], key) == RatingOf(rows[i], key);
    OneOlder(Rated(rows[..i], key), RatingOf(rows[i], key), window);
  }

  function Filled(buckets: map<Bucket, seq<Rating>>, row: Row, window: nat): map<Bucket, seq<Rating>> {
    if row.score.None? then buckets
    else
      var bucket := WindowAt(buckets, row.bucket);
      buckets[row.bucket := if |bucket| < window then bucket + [Rating(row.id, row.score.value)] else bucket]
  }

  lemma FilledStep(buckets: map<Bucket, seq<Rating>>, rows: seq<Row>, i: nat, window: nat, key: Bucket)
    requires i < |rows| && WindowAt(buckets, key) == Newest(rows[..i], key, window)
    ensures WindowAt(Filled(buckets, rows[i], window), key) == Newest(rows[..i + 1], key, window)
  {
    hide Newest;
    NewestStep(rows, i, key, window);
  }

  /** `_apply_scores_and_metrics`, up to its metrics: one pass over the newest rows, each
      bucket closed once it is full, and every bucket turned over at the end. */
  method RebuildScores(rows: seq<Row>, window: nat) returns (scores: map<Bucket, seq<Rating>>)
    ensures forall key :: key in scores <==> exists i :: 0 <= i < |rows| && rows[i].score.Some? && rows[i].bucket == key
    ensures forall key :: WindowAt(scores, key) == Rebuilt(rows, key, window)
  {
    hide Newest, Rebuilt;
    var buckets: map<Bucket, seq<Rating>> := map[];
    forall key ensures Newest(rows[..0], key, window) == [] { NothingYet(rows, key, window); }
    for i := 0 to |rows|
      invariant forall key :: key in buckets <==> exists j :: 0 <= j < i && rows[j].score.Some? && rows[j].bucket == key
      invariant forall key :: WindowAt(buckets, key) == Newest(rows[..i], key, window)
    {
      forall key { FilledStep(buckets, rows, i, window, key); }
      ghost var before := buckets;
      var row := rows[i];
      if row.score.Some? {
        var bucket := WindowAt(buckets, row.bucket);
        if |bucket| < window {
          bucket := bucket + [Rating(row.id, row.score.value)];
        }
        buckets := buckets[row.bucket := bucket];
      }
      assert buckets == Filled(before, row, window);
    }
    assert rows[..|rows|] == rows;
    scores := map key | key in buckets :: Reversed(buckets[key]);
    forall key ensures WindowAt(scores, key) == Rebuilt(rows, key, window) {
      TurnedOver(rows, key, window);
      assert WindowAt(buckets, key) == Newest(rows, key, window);
    }
  }

  lemma NothingYet(rows: seq<Row>, key: Bucket, window: nat)
    ensures Newest(rows[..0], key, window) == []
  {}

  lemma TurnedOver(rows: seq<Row>, key: Bucket, window: nat)
    ensures Reversed(Newest(rows, key, window)) == Rebuilt(rows, key, window)
  {
    ReversedTwice(Rebuilt(rows, key, window));
  }

  // ---------------------------------------------------------------------
  // One more rating, live and rebuilt
  // ---------------------------------------------------------------------

  ghost predicate OneRowACall(rows: seq<Row>) {
    forall i, j :: 0 <= i < j < |rows| ==> rows[i].id != rows[j].id
  }

  function Scoring(rows: seq<Row>, at: nat, score: real): seq<Row>
    requires at < |rows|
  {
    rows[at := rows[at].(score := Some(score))]
  }

  /** The call is in the window already, or is newer than every rated call of its bucket. */
  ghost predicate InPlace(rows: seq<Row>, at: nat, live: seq<Rating>)
    requires at < |rows|
  {
    Holds(live, rows[at].id) || Rated(rows[..at], rows[at].bucket) == []
  }

  lemma {:induction false} RatedIds(rows: seq<Row>, key: Bucket)
    ensures forall r :: r in Rated(rows, key) ==> exists i :: 0 <= i < |rows| && rows[i].id == r.id
    ensures OneRowACall(rows) ==>
              forall i, j :: 0 <= i < j < |Rated(rows, key)| ==> Rated(rows, key)[i].id != Rated(rows, key)[j].id
  {
    if rows != [] {
      RatedIds(rows[1..], key);
      var (rest, first) := (Rated(rows[1..], key), RatingOf(rows[0], key));
      forall r | r in Rated(rows, key) ensures exists i :: 0 <= i < |rows| && rows[i].id == r.id {
        if r in rest {
          var i :| 0 <= i < |rows[1..]| && rows[1..][i].id == r.id;
          assert rows[i + 1].id == r.id;
        } else {
          assert rows[0].id == r.id;
        }
      }
      if OneRowACall(rows) && first != [] {
        forall i | 0 <= i < |rest| ensures rest[i].id != first[0].id {
          assert rest[i] in rest;
        }
      }
    }
  }

  lemma RatedAround(rows: seq<Row>, at: nat, key: Bucket)
    requires at < |rows|
    ensures Rated(rows, key) == Rated(rows[at + 1..], key) + RatingOf(rows[at], key) + Rated(rows[..at], key)
  {
    assert rows == rows[..at] + rows[at..];
    RatedConcat(rows[..at], rows[at..], key);
    assert rows[at..][1..] == rows[at + 1..];
  }

  /** The rated calls around one call, before and after it is rated. */
  lemma SplitAt(rows: seq<Row>, at: nat, score: real, key: Bucket)
    requires at < |rows| && key == rows[at].bucket
    ensures Rated(rows, key) == Rated(rows[at + 1..], key) + RatingOf(rows[at], key) + Rated(rows[..at], key)
    ensures Rated(Scoring(rows, at, score), key)
         == Rated(rows[at + 1..], key) + [Rating(rows[at].id, score)] + Rated(rows[..at], key)
  {
    hide Rated;
    var scored := Scoring(rows, at, score);
    assert scored[..at] == rows[..at];
    assert scored[at + 1..] == rows[at + 1..];
    RatedAround(rows, at, key);
    RatedAround(scored, at, key);
  }

  ghost predicate Lacks(w: seq<Rating>, id: string) { forall i :: 0 <= i < |w| ==> w[i].id != id }

  ghost predicate Holds(w: seq<Rating>, id: string) { exists i :: 0 <= i < |w| && w[i].id == id }

  lemma LastOfThree(elder: seq<Rating>, x: Rating, younger: seq<Rating>, window: nat)
    requires |younger| < window
    ensures LastOf(elder + [x] + younger, window) == LastOf(elder, window - 1 - |younger|) + [x] + younger
  {}

  lemma RecordedAt(elder: seq<Rating>, was: Rating, younger: seq<Rating>, r: Rating, window: nat)
    requires was.id == r.id && Lacks(elder, r.id)
    ensures Recorded(elder + [was] + younger, window, r) == elder + [r] + younger
    ensures Holds(elder + [was] + younger, r.id)
  {
    var w := elder + [was] + younger;
    assert w[|elder|] == was;
    assert forall j :: 0 <= j < |elder| ==> w[j] == elder[j];
    assert IndexOf(w, r.id) == |elder|;
  }

  /** A call still in the window is rated again where it stands. */
  lemma RatedAgain(elder: seq<Rating>, was: Rating, younger: seq<Rating>, r: Rating, window: nat)
    requires was.id == r.id && Lacks(elder, r.id) && |younger| < window
    ensures Recorded(LastOf(elder + [was] + younger, window), window, r) == LastOf(elder + [r] + younger, window)
    ensures Holds(LastOf(elder + [was] + younger, window), r.id)
  {
    LastOfThree(elder, was, younger, window);
    LastOfThree(elder, r, younger, window);
    LastLacks(elder, r.id, window - 1 - |younger|);
    RecordedAt(LastOf(elder, window - 1 - |younger|), was, younger, r, window);
  }

  /** A call that left the window, or was never rated, counts as the newest live. */
  lemma RatedAnew(rated: seq<Rating>, scored: seq<Rating>, r: Rating, window: nat)
    requires window > 0 && Lacks(LastOf(rated, window), r.id) && scored != []
    requires scored[|scored| - 1] == r ==> scored == rated + [r]
    ensures Recorded(LastOf(rated, window), window, r) == LastOf(scored, window) <==> scored[|scored| - 1] == r
  {
    var live := LastOf(rated, window);
    assert IndexOf(live, r.id) == |live|;
    var (a, b) := (LastOf(live + [r], window), LastOf(scored, window));
    assert a[|a| - 1] == r && b[|b| - 1] == scored[|scored| - 1];
    if scored == rated + [r] {
      assert a == b;
    }
  }

  lemma Around(rows: seq<Row>, at: nat, key: Bucket)
    requires OneRowACall(rows) && at < |rows|
    ensures Lacks(Rated(rows[at + 1..], key), rows[at].id) && Lacks(Rated(rows[..at], key), rows[at].id)
  {
    var id := rows[at].id;
    RatedIds(rows[at + 1..], key);
    RatedIds(rows[..at], key);
    var (elder, younger) := (Rated(rows[at + 1..], key), Rated(rows[..at], key));
    forall i | 0 <= i < |elder| ensures elder[i].id != id {
      assert elder[i] in elder;
      var j :| 0 <= j < |rows[at + 1..]| && rows[at + 1..][j].id == elder[i].id;
      assert rows[at + 1 + j].id == elder[i].id;
    }
    forall i | 0 <= i < |younger| ensures younger[i].id != id {
      assert younger[i] in younger;
    }
  }

  lemma LastLacks(w: seq<Rating>, id: string, window: nat)
    requires Lacks(w, id)
    ensures Lacks(LastOf(w, window), id)
  {}

  /** The same on the bare ratings: those before, the call's own if it has one, those after. */
  lemma RatedOnceMore(elder: seq<Rating>, mid: seq<Rating>, younger: seq<Rating>, r: Rating, window: nat)
    requires window > 0 && Lacks(elder, r.id) && Lacks(younger, r.id)
    requires |mid| <= 1 && (mid != [] ==> mid[0].id == r.id)
    ensures var live := LastOf(elder + mid + younger, window);
      Recorded(live, window, r) == LastOf(elder + [r] + younger, window) <==> Holds(live, r.id) || younger == []
  {
    hide Recorded, LastOf;
    if mid != [] && |younger| < window {
      assert mid == [mid[0]];
      RatedAgain(elder, mid[0], younger, r, window);
    } else {
      var (rated, scored) := (elder + mid + younger, elder + [r] + younger);
      LeftTheWindow(elder, mid, younger, r.id, window);
      assert younger != [] ==> scored[|scored| - 1] == younger[|younger| - 1];
      assert younger == [] ==> mid == [] && scored == rated + [r];
      RatedAnew(rated, scored, r, window);
    }
  }

  /** Two windows that agree, given one more rating, go on agreeing exactly when that rating
      is in place: of a call in the window, or newer than every rated call of its bucket. */
  lemma OneMoreRating(rows: seq<Row>, at: nat, score: real, window: nat)
    requires OneRowACall(rows) && at < |rows| && window > 0
    ensures var live := Rebuilt(rows, rows[at].bucket, window);
      Recorded(live, window, Rating(rows[at].id, score)) == Rebuilt(Scoring(rows, at, score), rows[at].bucket, window)
      <==> InPlace(rows, at, live)
  {
    hide Recorded, LastOf, Scoring, Rated, Lacks, Holds;
    var key := rows[at].bucket;
    SplitAt(rows, at, score, key);
    Around(rows, at, key);
    RatedOnceMore(Rated(rows[at + 1..], key), RatingOf(rows[at], key), Rated(rows[..at], key),
                  Rating(rows[at].id, score), window);
  }

  lemma LeftTheWindow(elder: seq<Rating>, mid: seq<Rating>, younger: seq<Rating>, id: string, window: nat)
    requires Lacks(elder, id) && Lacks(younger, id) && |mid| <= 1 && (mid != [] ==> |younger| >= window)
    ensures Lacks(LastOf(elder + mid + younger, window), id)
  {
    var rated := elder + mid + younger;
    if mid == [] {
      assert rated == elder + younger;
    } else {
      assert LastOf(rated, window) == LastOf(younger, window);
    }
  }

  lemma {:induction false} OtherBuckets(rows: seq<Row>, at: nat, score: real, key: Bucket)
    requires at < |rows| && rows[at].bucket != key
    ensures Rated(Scoring(rows, at, score), key) == Rated(rows, key)
  {
    if at > 0 {
      assert Scoring(rows, at, score)[1..] == Scoring(rows[1..], at - 1, score);
      OtherBuckets(rows[1..], at - 1, score, key);
    }
  }

  // ---------------------------------------------------------------------
  // Whole histories
  // ---------------------------------------------------------------------

  /** A call journaled, or a rating appended for one journaled before. */
  datatype Event = Called(row: Row) | RatedCall(id: string, score: real)

  datatype History = History(rows: seq<Row>, live: map<Bucket, seq<Rating>>)

  function Find(rows: seq<Row>, id: string): (at: nat)
    ensures at <= |rows| && (at < |rows| ==> rows[at].id == id)
    ensures forall j :: 0 <= j < at ==> rows[j].id != id
  {
    if rows == [] || rows[0].id == id then 0 else 1 + Find(rows[1..], id)
  }

  /** Ids are unique, and a call is journaled unrated. */
  function Happened(h: History, window: nat, e: Event): History {
    match e
    case Called(row) =>
      if Find(h.rows, row.id) < |h.rows| then h else h.(rows := [row.(score := None)] + h.rows)
    case RatedCall(id, score) =>
      var at := Find(h.rows, id);
      if at == |h.rows| then h
      else
        var key := h.rows[at].bucket;
        History(Scoring(h.rows, at, score), h.live[key := Recorded(WindowAt(h.live, key), window, Rating(id, score))])
  }

  function After(events: seq<Event>, window: nat): History {
    if events == [] then History([], map[])
    else Happened(After(events[..|events| - 1], window), window, events[|events| - 1])
  }

  /** Every rating of the history was in place when it came. */
  ghost predicate AllInPlace(events: seq<Event>, window: nat) {
    forall n :: 0 <= n < |events| ==> EventInPlace(After(events[..n], window), events[n])
  }

  ghost predicate EventInPlace(h: History, e: Event) {
    match e
    case Called(_) => true
    case RatedCall(id, _) =>
      var at := Find(h.rows, id);
      at < |h.rows| ==> InPlace(h.rows, at, WindowAt(h.live, h.rows[at].bucket))
  }

  ghost predicate Agrees(h: History, window: nat) {
    forall key :: WindowAt(h.live, key) == Rebuilt(h.rows, key, window)
  }

  lemma {:induction false} IdsStayUnique(events: seq<Event>, window: nat)
    ensures OneRowACall(After(events, window).rows)
    decreases |events|
  {
    if events != [] {
      IdsStayUnique(events[..|events| - 1], window);
    }
  }

  /** Whatever the order of calls and ratings, a window holds each call once and never
      outgrows its length. */
  lemma {:induction false} WindowsStaySimple(events: seq<Event>, window: nat, key: Bucket)
    ensures Simple(WindowAt(After(events, window).live, key), window)
    decreases |events|
  {
    if events != [] {
      var (h, e) := (After(events[..|events| - 1], window), events[|events| - 1]);
      WindowsStaySimple(events[..|events| - 1], window, key);
      if e.RatedCall? {
        RecordedStaysSimple(WindowAt(h.live, key), window, Rating(e.id, e.score));
      }
    }
  }

  /** Agreement carries over one event exactly when that event is in place. */
  lemma AgreementStep(h: History, window: nat, e: Event)
    requires OneRowACall(h.rows) && window > 0 && Agrees(h, window)
    ensures Agrees(Happened(h, window, e), window) <==> EventInPlace(h, e)
  {
    var t := Happened(h, window, e);
    match e
    case Called(row) =>
      forall key ensures Rated(t.rows, key) == Rated(h.rows, key) {
        if t.rows != h.rows {
          assert t.rows[1..] == h.rows;
        }
      }
    case RatedCall(id, score) =>
      var at := Find(h.rows, id);
      if at < |h.rows| {
        var mine := h.rows[at].bucket;
        OneMoreRating(h.rows, at, score, window);
        forall key | key != mine ensures WindowAt(t.live, key) == Rebuilt(t.rows, key, window) {
          OtherBuckets(h.rows, at, score, key);
          assert WindowAt(t.live, key) == WindowAt(h.live, key) == Rebuilt(h.rows, key, window);
        }
        assert WindowAt(t.live, mine) == Recorded(Rebuilt(h.rows, mine, window), window, Rating(id, score));
      }
  }

  /** Over any history whose ratings were all in place, the live windows are the rebuilt
      ones: same calls, same scores, same order. */
  lemma {:induction false} LiveIsRebuilt(events: seq<Event>, window: nat)
    requires window > 0 && AllInPlace(events, window)
    ensures Agrees(After(events, window), window)
    decreases |events|
  {
    if events != [] {
      var rest := events[..|events| - 1];
      forall n | 0 <= n < |rest| ensures EventInPlace(After(rest[..n], window), rest[n]) {
        assert rest[..n] == events[..n];
      }
      LiveIsRebuilt(rest, window);
      IdsStayUnique(rest, window);
      AgreementStep(After(rest, window), window, events[|events| - 1]);
    }
  }

  /** The first rating out of place is where they part. */
  lemma OutOfPlaceParts(events: seq<Event>, window: nat, e: Event)
    requires window > 0 && AllInPlace(events, window) && !EventInPlace(After(events, window), e)
    ensures !Agrees(After(events + [e], window), window)
  {
    LiveIsRebuilt(events, window);
    IdsStayUnique(events, window);
    AgreementStep(After(events, window), window, e);
    assert (events + [e])[..|events|] == events;
  }

  // ---------------------------------------------------------------------
  // The tail
  // ---------------------------------------------------------------------

  /** A rebuild reads only the newest rows; it gets a bucket right exactly when every call
      the whole journal would give it lies among them. */
  lemma TailIsEnough(rows: seq<Row>, limit: nat, key: Bucket, window: nat)
    requires OneRowACall(rows) && limit <= |rows|
    ensures Rebuilt(rows[..limit], key, window) == Rebuilt(rows, key, window)
       <==> forall r :: r in Rebuilt(rows, key, window) ==> r in Rated(rows[..limit], key)
  {
    var (tail, rest) := (rows[..limit], rows[limit..]);
    assert rows == tail + rest;
    RatedConcat(tail, rest, key);
    RatedIds(rows, key);
    TailRatings(Rated(rest, key), Rated(tail, key), window);
  }

  lemma TailRatings(elder: seq<Rating>, tail: seq<Rating>, window: nat)
    requires forall i, j :: 0 <= i < j < |elder + tail| ==> (elder + tail)[i].id != (elder + tail)[j].id
    ensures LastOf(tail, window) == LastOf(elder + tail, window)
       <==> forall r :: r in LastOf(elder + tail, window) ==> r in tail
  {
    var all := elder + tail;
    if |tail| < window && elder != [] {
      var (full, last) := (LastOf(all, window), elder[|elder| - 1]);
      assert full[|full| - |tail| - 1] == last == all[|elder| - 1];
      assert forall i :: 0 <= i < |tail| ==> tail[i] == all[|elder| + i];
      assert last in full && last !in tail;
    } else if elder == [] {
      assert all == tail;
    } else {
      assert LastOf(all, window) == LastOf(tail, window);
    }
  }

  // ---------------------------------------------------------------------
  // The failure streak
  // ---------------------------------------------------------------------

  /** What one journaled attempt does to its model's streak. */
  function Streak(count: nat, status: CallStatus, httpStatus: Option<int>, cooled: bool): nat {
    match status
    case RateLimited => count + 1
    case Unavailable => count + 1
    case OK => 0
    case Error => if httpStatus.Some? && IsAuthFailure(httpStatus.value) then count else if cooled then count + 1 else count
    case SupersededRow => count
  }

  /** `observe`. */
  method Observe(optimizer: QualityOptimizer, llmName: string, status: CallStatus, httpStatus: Option<int>, cooled: bool)
    modifies optimizer`rlFailCount
    ensures optimizer.RlFailCount(llmName) == Streak(old(optimizer.RlFailCount(llmName)), status, httpStatus, cooled)
    ensures forall n :: n != llmName ==> optimizer.RlFailCount(n) == old(optimizer.RlFailCount(n))
  {
    match status
    case RateLimited => optimizer.OnRateLimited(llmName);
    case Unavailable => optimizer.OnRateLimited(llmName);
    case OK => optimizer.OnSuccess(llmName);
    case Error =>
      if httpStatus.Some? && IsAuthFailure(httpStatus.value) {
      } else if cooled {
        optimizer.OnRateLimited(llmName);
      }
    case SupersededRow =>
  }

  /** From provider to streak: a failed attempt advances its model's streak exactly when it
      cools the model, so a request's own fault, or a dead key, never does. */
  lemma StreakCountsCooldowns(count: nat, fault: Fault, budgetBound: bool)
    ensures Classify(fault, budgetBound).Some? ==>
              var v := Classify(fault, budgetBound).value;
              Streak(count, v.status, v.httpStatus, v.coolBase.Some?) == if v.coolBase.Some? then count + 1 else count
  {
    match fault
    case HttpFault(code, _) =>
    case _ =>
  }

  // ---------------------------------------------------------------------
  // Missed budgets, rebuilt
  // ---------------------------------------------------------------------

  function Seconds(row: Row): real
    requires row.budgetMs.Some?
  {
    row.budgetMs.value as real / 1000.0
  }

  predicate Answered(row: Row, name: string) { row.bucket.llmName == name && row.status == OK }

  /** A budget the model missed recently, and has not answered since. */
  predicate Missed(rows: seq<Row>, i: nat, name: string, since: real) {
    && i < |rows| && rows[i].bucket.llmName == name
    && rows[i].budgetMs.Some? && rows[i].ts.Some? && rows[i].ts.value >= since
    && forall j :: 0 <= j <= i ==> !Answered(rows[j], name)
  }

  /** The largest such budget, and the newest row that missed it. */
  ghost predicate IsBound(rows: seq<Row>, since: real, name: string, bound: Option<(real, real)>) {
    match bound
    case None => forall i :: 0 <= i < |rows| ==> !Missed(rows, i, name, since)
    case Some(b) => exists i :: 0 <= i < |rows| && Largest(rows, since, name, i) && b == (Seconds(rows[i]), rows[i].ts.value)
  }

  ghost predicate Largest(rows: seq<Row>, since: real, name: string, i: nat) {
    && Missed(rows, i, name, since)
    && forall j :: 0 <= j < |rows| && Missed(rows, j, name, since) ==>
         Seconds(rows[j]) <= Seconds(rows[i]) && (j < i ==> Seconds(rows[j]) < Seconds(rows[i]))
  }

  function BoundAt(bounds: map<string, (real, real)>, name: string): Option<(real, real)> {
    if name in bounds then Some(bounds[name]) else None
  }

  lemma MissedPrefix(rows: seq<Row>, i: nat, name: string, since: real)
    requires i < |rows|
    ensures forall j :: 0 <= j < i ==> (Missed(rows[..i + 1], j, name, since) <==> Missed(rows[..i], j, name, since))
    ensures forall j :: 0 <= j <= i ==> rows[..i + 1][j] == rows[j]
  {}

  /** A row that adds no miss of this model leaves its bound alone. */
  lemma BoundStays(rows: seq<Row>, i: nat, name: string, since: real, bound: Option<(real, real)>)
    requires i < |rows| && IsBound(rows[..i], since, name, bound) && !Missed(rows[..i + 1], i, name, since)
    ensures IsBound(rows[..i + 1], since, name, bound)
  {
    MissedPrefix(rows, i, name, since);
    if bound.Some? {
      var k :| 0 <= k < i && Largest(rows[..i], since, name, k)
            && bound.value == (Seconds(rows[..i][k]), rows[..i][k].ts.value);
      assert Largest(rows[..i + 1], since, name, k);
    } else {
      var t := rows[..i + 1];
      forall j | 0 <= j < |t| ensures !Missed(t, j, name, since) {
        assert j < i ==> !Missed(rows[..i], j, name, since);
      }
    }
  }

  /** One more miss replaces the bound only by exceeding it. */
  lemma BoundGrows(rows: seq<Row>, i: nat, name: string, since: real, bound: Option<(real, real)>)
    requires i < |rows| && IsBound(rows[..i], since, name, bound) && Missed(rows[..i + 1], i, name, since)
    ensures IsBound(rows[..i + 1], since, name,
              if bound.None? || Seconds(rows[i]) > bound.value.0 then Some((Seconds(rows[i]), rows[i].ts.value)) else bound)
  {
    MissedPrefix(rows, i, name, since);
    if bound.None? {
      var t := rows[..i + 1];
      forall j | 0 <= j < |t| && j < i ensures !Missed(t, j, name, since) {
        assert !Missed(rows[..i], j, name, since);
      }
      assert Largest(t, since, name, i);
    } else {
      var k :| 0 <= k < i && Largest(rows[..i], since, name, k)
            && bound.value == (Seconds(rows[..i][k]), rows[..i][k].ts.value);
      if Seconds(rows[i]) > bound.value.0 {
        assert Largest(rows[..i + 1], since, name, i);
      } else {
        assert Largest(rows[..i + 1], since, name, k);
      }
    }
  }

  function Bounded(bounds: map<string, (real, real)>, answered: set<string>, row: Row, since: real): map<string, (real, real)> {
    if row.bucket.llmName in answered || row.status == OK || row.budgetMs.None? || row.ts.None? || row.ts.value < since
    then bounds
    else
      var current := BoundAt(bounds, row.bucket.llmName);
      if current.None? || Seconds(row) > current.value.0
      then bounds[row.bucket.llmName := (Seconds(row), row.ts.value)]
      else bounds
  }

  lemma BoundedStep(rows: seq<Row>, i: nat, since: real, bounds: map<string, (real, real)>, answered: set<string>, name: string)
    requires i < |rows| && IsBound(rows[..i], since, name, BoundAt(bounds, name))
    requires name in answered <==> exists j :: 0 <= j < i && Answered(rows[j], name)
    ensures IsBound(rows[..i + 1], since, name, BoundAt(Bounded(bounds, answered, rows[i], since), name))
  {
    var t := rows[..i + 1];
    assert forall j :: 0 <= j <= i ==> t[j] == rows[j];
    if name in answered {
      var j :| 0 <= j < i && Answered(rows[j], name);
      assert Answered(t[j], name);
    }
    if Missed(t, i, name, since) {
      assert forall j :: 0 <= j < i ==> !Answered(t[j], name);
      BoundGrows(rows, i, name, since, BoundAt(bounds, name));
    } else {
      assert rows[i].bucket.llmName == name ==>
               name in answered || rows[i].status == OK || rows[i].budgetMs.None? || rows[i].ts.None? || rows[i].ts.value < since;
      BoundStays(rows, i, name, since, BoundAt(bounds, name));
    }
  }

  /** `budget_bounds_from_calls`. */
  method BudgetBounds(rows: seq<Row>, since: real) returns (bounds: map<string, (real, real)>)
    ensures forall name :: IsBound(rows, since, name, BoundAt(bounds, name))
  {
    hide IsBound;
    bounds := map[];
    var answered: set<string> := {};
    forall name ensures IsBound(rows[..0], since, name, None) { NoBoundYet(rows, since, name); }
    for i := 0 to |rows|
      invariant forall name :: name in answered <==> exists j :: 0 <= j < i && Answered(rows[j], name)
      invariant forall name :: IsBound(rows[..i], since, name, BoundAt(bounds, name))
    {
      forall name { BoundedStep(rows, i, since, bounds, answered, name); }
      ghost var next := Bounded(bounds, answered, rows[i], since);
      var row := rows[i];
      var llm := row.bucket.llmName;
      if llm in answered {
        assert bounds == next;
        continue;
      }
      if row.status == OK {
        answered := answered + {llm};
        assert bounds == next;
        continue;
      }
      if row.budgetMs.None? || row.ts.None? || row.ts.value < since {
        assert bounds == next;
        continue;
      }
      if llm !in bounds || Seconds(row) > bounds[llm].0 {
        bounds := bounds[llm := (Seconds(row), row.ts.value)];
      }
      assert bounds == next;
    }
    assert rows[..|rows|] == rows;
  }

  lemma NoBoundYet(rows: seq<Row>, since: real, name: string)
    ensures IsBound(rows[..0], since, name, None)
  {}
}
