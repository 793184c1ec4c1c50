/** Which journals the day files and the in-memory driver read alike: the order they agree
    on, and the ratings they agree on. */
module JournalReads {
  import opened Common
  import opened Journal

  /** Strictly later, line by line. */
  ghost predicate Ascending(s: seq<Line>) { forall i, j :: 0 <= i < j < |s| ==> At(s[i]) < At(s[j]) }

  ghost predicate Descending(s: seq<Line>) { forall i, j :: 0 <= i < j < |s| ==> At(s[i]) > At(s[j]) }

  /** No file holds two lines of one instant, or a line older than one before it. */
  ghost predicate FilesAscend(journal: seq<Line>) { forall d :: Ascending(DayFile(journal, d)) }

  // ---------------------------------------------------------------------
  // The order
  // ---------------------------------------------------------------------

  lemma {:induction false} FilterCounts(s: seq<Line>, keep: Line -> bool, x: Line)
    ensures multiset(Filter(s, keep))[x] == if keep(x) then multiset(s)[x] else 0
  {
    if s != [] {
      FilterCounts(s[1..], keep, x);
      assert s == [s[0]] + s[1..];
    }
  }

  lemma {:induction false} ReversedCounts(s: seq<Line>)
    ensures multiset(Reversed(s)) == multiset(s)
  {
    if s != [] {
      ReversedCounts(s[..|s| - 1]);
      assert s == s[..|s| - 1] + [s[|s| - 1]];
    }
  }

  lemma {:induction false} TailCounts(journal: seq<Line>, days: seq<Day>, x: Line)
    requires forall d :: d in days ==> d in DaysOf(journal)
    requires Distinct(days)
    ensures multiset(TailLines(FilesOf(journal), days, None))[x] == if DayOf(At(x)) in days then multiset(journal)[x] else 0
  {
    if days != [] {
      TailCounts(journal, days[1..], x);
      ReversedCounts(DayFile(journal, days[0]));
      FilterCounts(journal, OnDay(days[0]), x);
    }
  }

  lemma TailPermutes(journal: seq<Line>)
    ensures multiset(TailOrder(journal)) == multiset(journal)
  {
    var days := NewestFirst(DaysOf(journal));
    assert forall i :: 0 <= i < |journal| ==> DayOf(At(journal[i])) in DaysOf(journal);
    forall x ensures multiset(TailOrder(journal))[x] == multiset(journal)[x] {
      TailCounts(journal, days, x);
      assert x in journal <==> multiset(journal)[x] > 0;
    }
  }

  lemma LaterDay(a: real, b: real)
    requires DayOf(a).index > DayOf(b).index
    ensures a > b
  {}

  lemma {:induction false} TailDays(journal: seq<Line>, days: seq<Day>)
    requires forall d :: d in days ==> d in DaysOf(journal)
    ensures forall l :: l in TailLines(FilesOf(journal), days, None) ==> DayOf(At(l)) in days
  {
    if days != [] {
      TailDays(journal, days[1..]);
      FilterMembers(journal, OnDay(days[0]));
      var file := DayFile(journal, days[0]);
      assert forall i :: 0 <= i < |file| ==> file[i] in file;
    }
  }

  lemma JoinDescends(file: seq<Line>, later: seq<Line>, day: Day)
    requires Descending(file) && Descending(later)
    requires forall i :: 0 <= i < |file| ==> DayOf(At(file[i])) == day
    requires forall j :: 0 <= j < |later| ==> DayOf(At(later[j])).index < day.index
    ensures Descending(file + later)
  {
    forall i, j | 0 <= i < |file| && 0 <= j < |later| ensures At(file[i]) > At(later[j]) {
      LaterDay(At(file[i]), At(later[j]));
    }
  }

  lemma ReversedDescends(s: seq<Line>)
    requires Ascending(s)
    ensures Descending(Reversed(s))
  {}

  lemma {:induction false} TailDescends(journal: seq<Line>, days: seq<Day>)
    requires forall d :: d in days ==> d in DaysOf(journal)
    requires forall i, j :: 0 <= i < j < |days| ==> days[i].index > days[j].index
    requires FilesAscend(journal)
    ensures Descending(TailLines(FilesOf(journal), days, None))
  {
    if days != [] {
      var (file, later) := (DayFile(journal, days[0]), TailLines(FilesOf(journal), days[1..], None));
      TailDescends(journal, days[1..]);
      TailDays(journal, days[1..]);
      FilterMembers(journal, OnDay(days[0]));
      assert forall i :: 0 <= i < |file| ==> file[i] in file;
      forall j | 0 <= j < |later| ensures DayOf(At(later[j])).index < days[0].index {
        assert later[j] in later;
      }
      ReversedDescends(file);
      JoinDescends(Reversed(file), later, days[0]);
    }
  }

  lemma NewestTotal()
    ensures TotalPreorder(NewestLe())
  {
    forall a, b ensures NewestLe()(a, b) || NewestLe()(b, a) {}
    forall a, b, c | NewestLe()(a, b) && NewestLe()(b, c) ensures NewestLe()(a, c) {}
  }

  lemma HeadIsNewest(s: seq<Line>, x: Line)
    requires Sorted(s, NewestLe()) && x in s
    ensures At(s[0]) >= At(x)
  {
    assert forall k :: 0 < k < |s| ==> NewestLe()(s[0], s[k]);
  }

  lemma NothingAsNew(s: seq<Line>, x: Line)
    requires Descending(s) && x in s && At(x) >= At(s[0])
    ensures x == s[0]
  {}

  lemma {:induction false} OneLongOne(a: seq<Line>, b: seq<Line>)
    requires multiset(a) == multiset(b) && a != []
    ensures |b| == |a| && a[0] in b && b[0] in a
  {
    assert |multiset(a)| == |multiset(b)|;
    assert a[0] in multiset(b) && b[0] in multiset(a);
  }

  lemma SameFirst(a: seq<Line>, b: seq<Line>)
    requires Descending(a) && Sorted(b, NewestLe()) && multiset(a) == multiset(b) && a != []
    ensures b != [] && a[0] == b[0] && multiset(a[1..]) == multiset(b[1..])
  {
    OneLongOne(a, b);
    HeadIsNewest(b, a[0]);
    NothingAsNew(a, b[0]);
    assert a == [a[0]] + a[1..] && b == [b[0]] + b[1..];
    assert multiset(a[1..]) == multiset(a) - multiset{a[0]};
  }

  lemma {:induction false} OnlyOneOrder(a: seq<Line>, b: seq<Line>)
    requires Descending(a) && Sorted(b, NewestLe()) && multiset(a) == multiset(b)
    ensures a == b
  {
    if a == [] {
      assert |multiset(a)| == |multiset(b)|;
    } else {
      SameFirst(a, b);
      OnlyOneOrder(a[1..], b[1..]);
    }
  }

  lemma AscendingFilesReadInOrder(journal: seq<Line>)
    requires FilesAscend(journal)
    ensures TailOrder(journal) == ViewOrder(journal) && Descending(ViewOrder(journal))
  {
    TailDescends(journal, NewestFirst(DaysOf(journal)));
    TailPermutes(journal);
    NewestTotal();
    SortSorts(journal, NewestLe());
    SortKeeps(journal, NewestLe());
    OnlyOneOrder(TailOrder(journal), ViewOrder(journal));
  }

  lemma {:induction false} FilterNone(s: seq<Line>, keep: Line -> bool)
    requires forall x :: x in s ==> !keep(x)
    ensures Filter(s, keep) == []
  {
    if s != [] {
      FilterNone(s[1..], keep);
    }
  }

  lemma {:induction false} TailOfOneDay(journal: seq<Line>, days: seq<Day>, day: Day)
    requires forall d :: d in days ==> d in DaysOf(journal)
    requires Distinct(days)
    ensures Filter(TailLines(FilesOf(journal), days, None), OnDay(day)) ==
            if day in days then Reversed(DayFile(journal, day)) else []
  {
    if days != [] {
      var (file, later) := (Reversed(DayFile(journal, days[0])), TailLines(FilesOf(journal), days[1..], None));
      TailOfOneDay(journal, days[1..], day);
      FilterAppend(file, later, OnDay(day));
      FilterMembers(journal, OnDay(days[0]));
      assert forall x :: x in file ==> x in DayFile(journal, days[0]);
      if day == days[0] {
        FilterAll(file, OnDay(day));
      } else {
        FilterNone(file, OnDay(day));
      }
    }
  }

  lemma {:induction false} SortedFilter(s: seq<Line>, keep: Line -> bool)
    requires Sorted(s, NewestLe())
    ensures Sorted(Filter(s, keep), NewestLe())
  {
    if s != [] {
      SortedFilter(s[1..], keep);
      FilterMembers(s[1..], keep);
      var rest := Filter(s[1..], keep);
      forall j | 0 <= j < |rest| ensures NewestLe()(s[0], rest[j]) {
        assert rest[j] in rest;
        var k :| 0 <= k < |s[1..]| && s[1..][k] == rest[j];
        assert NewestLe()(s[0], s[k + 1]);
      }
    }
  }

  function AtInstant(at: real): Line -> bool { (l: Line) => At(l) == at }

  lemma {:induction false} SortOfEquals(s: seq<Line>, at: real)
    requires forall i :: 0 <= i < |s| ==> At(s[i]) == at
    ensures StableSort(s, NewestLe()) == s
  {
    if s != [] {
      SortOfEquals(s[1..], at);
    }
  }

  lemma SelfReversed(s: seq<Line>)
    requires Distinct(s) && Reversed(s) == s
    ensures |s| <= 1
  {
    if |s| > 0 {
      assert Reversed(s)[0] == s[|s| - 1];
    }
  }

  lemma OneAtATime(file: seq<Line>, at: real)
    requires Distinct(file) && Reversed(file) == StableSort(file, NewestLe())
    ensures |Filter(file, AtInstant(at))| <= 1
  {
    var tied := Filter(file, AtInstant(at));
    NewestTotal();
    FilterSort(file, NewestLe(), AtInstant(at));
    FilterReversed(file, AtInstant(at));
    FilterMembers(file, AtInstant(at));
    FilterDistinct(file, AtInstant(at));
    assert forall k :: 0 <= k < |tied| ==> tied[k] in tied;
    SortOfEquals(tied, at);
    SelfReversed(tied);
  }

  lemma OnlyOne(s: seq<Line>, x: Line, y: Line)
    requires |s| <= 1 && x in s && y in s
    ensures x == y
  {}

  /** A file that a sort turns back to front holds no instant twice. */
  lemma NoTwoAtOnce(file: seq<Line>, i: nat, j: nat)
    requires Distinct(file) && Reversed(file) == StableSort(file, NewestLe()) && i < j < |file|
    ensures At(file[i]) != At(file[j])
  {
    hide Reversed, StableSort;
    var (x, y) := (file[i], file[j]);
    OneAtATime(file, At(x));
    FilterMembers(file, AtInstant(At(x)));
    if y in Filter(file, AtInstant(At(x))) {
      OnlyOne(Filter(file, AtInstant(At(x))), x, y);
    }
  }

  lemma TurnedOverAscends(file: seq<Line>)
    requires Distinct(file) && Reversed(file) == StableSort(file, NewestLe())
    ensures Ascending(file)
  {
    NewestTotal();
    SortSorts(file, NewestLe());
    forall i, j | 0 <= i < j < |file| ensures At(file[i]) < At(file[j]) {
      NoTwoAtOnce(file, i, j);
      assert NewestLe()(Reversed(file)[|file| - 1 - j], Reversed(file)[|file| - 1 - i]);
    }
  }

  /** The two orders are one exactly when every file's timestamps strictly increase, line
      by line. */
  lemma OrdersAgree(journal: seq<Line>)
    requires Distinct(journal)
    ensures TailOrder(journal) == ViewOrder(journal) <==> FilesAscend(journal)
  {
    if FilesAscend(journal) {
      AscendingFilesReadInOrder(journal);
    }
    if TailOrder(journal) == ViewOrder(journal) {
      forall d ensures Ascending(DayFile(journal, d)) {
        SameOrderAscends(journal, d);
      }
    }
  }

  lemma SameOrderAscends(journal: seq<Line>, d: Day)
    requires Distinct(journal) && TailOrder(journal) == ViewOrder(journal)
    ensures Ascending(DayFile(journal, d))
  {
    var (file, days) := (DayFile(journal, d), NewestFirst(DaysOf(journal)));
    NewestTotal();
    TailOfOneDay(journal, days, d);
    FilterSort(journal, NewestLe(), OnDay(d));
    FilterDistinct(journal, OnDay(d));
    if d in days {
      TurnedOverAscends(file);
    } else {
      SortKeeps(file, NewestLe());
    }
  }

  // ---------------------------------------------------------------------
  // The ratings
  // ---------------------------------------------------------------------

  ghost predicate OneLineACall(lines: seq<Line>) {
    forall i, j :: 0 <= i < j < |lines| && lines[i].CallLine? && lines[j].CallLine? ==> lines[i].call.id != lines[j].call.id
  }

  /** By the time a reverse pass reaches this call it has met the rating that counts. */
  ghost predicate Foreseen(all: seq<Line>, k: nat)
    requires k < |all|
  {
    all[k].CallLine? ==> NewestRating(all[..k], all[k].call.id) == NewestRating(all, all[k].call.id)
  }

  /** The pass from line `n` on gives what the lookup gives exactly when every call that
      passes there is foreseen. */
  lemma {:induction false} ScanIsListing(all: seq<Line>, n: nat, pending: map<string, real>, q: Query)
    requires n <= |all| && OneLineACall(all)
    requires forall k :: n <= k < |all| && all[k].CallLine? ==>
               Lookup(pending, all[k].call.id) == NewestRating(all[..n], all[k].call.id)
    ensures Scanned(all[n..], pending, q) == Listed(all, all[n..], q)
       <==> forall k :: n <= k < |all| && Passes(all[k], q) ==> Foreseen(all, k)
    decreases |all| - n
  {
    if n < |all| {
      var (l, rest) := (all[n], all[n + 1..]);
      assert all[n..] == [l] + rest && all[n..][1..] == rest;
      var next := if Passes(l, q) then pending - {l.call.id} else Setdefault(pending, l);
      forall k | n + 1 <= k < |all| && all[k].CallLine?
        ensures Lookup(next, all[k].call.id) == NewestRating(all[..n + 1], all[k].call.id)
      {
        assert all[..n + 1] == all[..n] + [l];
        RatingConcat(all[..n], [l], all[k].call.id);
        assert [l][1..] == [];
      }
      ScanIsListing(all, n + 1, next, q);
      HeadForeseen(all, n, pending, next, q);
    }
  }

  lemma HeadForeseen(all: seq<Line>, n: nat, pending: map<string, real>, next: map<string, real>, q: Query)
    requires n < |all| && next == if Passes(all[n], q) then pending - {all[n].call.id} else Setdefault(pending, all[n])
    requires all[n].CallLine? ==> Lookup(pending, all[n].call.id) == NewestRating(all[..n], all[n].call.id)
    ensures Scanned(all[n..], pending, q) == Listed(all, all[n..], q)
       <==> (Passes(all[n], q) ==> Foreseen(all, n)) && Scanned(all[n + 1..], next, q) == Listed(all, all[n + 1..], q)
  {
    assert all[n..][1..] == all[n + 1..];
    var (a, b) := (Scanned(all[n + 1..], next, q), Listed(all, all[n + 1..], q));
    if Passes(all[n], q) {
      var call := all[n].call;
      var (x, y) := (Scored(call, Lookup(pending, call.id)), Scored(call, NewestRating(all, call.id)));
      assert ([x] + a)[0] == x && ([y] + b)[0] == y && ([x] + a)[1..] == a && ([y] + b)[1..] == b;
    } else {
      assert [] + b == b;
    }
  }

  // ---------------------------------------------------------------------
  // Skipping files
  // ---------------------------------------------------------------------

  lemma {:induction false} ScanPastTheEnd(a: seq<Line>, b: seq<Line>, pending: map<string, real>, q: Query)
    requires forall i :: 0 <= i < |b| ==> !Passes(b[i], q)
    ensures Scanned(a + b, pending, q) == Scanned(a, pending, q)
    decreases |a| + |b|
  {
    if a != [] {
      assert (a + b)[1..] == a[1..] + b;
      var next := if Passes(a[0], q) then pending - {a[0].call.id} else Setdefault(pending, a[0]);
      ScanPastTheEnd(a[1..], b, next, q);
    } else {
      assert a + b == b;
      if b != [] {
        assert [] + b[1..] == b[1..];
        ScanPastTheEnd([], b[1..], Setdefault(pending, b[0]), q);
      }
    }
  }

  /** Days before the bound come last in the pass, and hold no row inside it. */
  lemma {:induction false} SkippedDaysComeLast(journal: seq<Line>, days: seq<Day>, q: Query)
    requires forall d :: d in days ==> d in DaysOf(journal)
    requires forall i, j :: 0 <= i < j < |days| ==> days[i].index > days[j].index
    ensures Scanned(TailLines(FilesOf(journal), days, q.since), map[], q)
         == Scanned(TailLines(FilesOf(journal), days, None), map[], q)
  {
    var rest := Older(journal, days, q);
    ScanPastTheEnd(TailLines(FilesOf(journal), days, q.since), rest, map[], q);
  }

  lemma TailLonger(a: seq<Line>, b: seq<Line>, c: seq<Line>)
    ensures a + (b + c) == (a + b) + c
  {}

  lemma {:induction false} Older(journal: seq<Line>, days: seq<Day>, q: Query) returns (rest: seq<Line>)
    requires forall d :: d in days ==> d in DaysOf(journal)
    requires forall i, j :: 0 <= i < j < |days| ==> days[i].index > days[j].index
    ensures TailLines(FilesOf(journal), days, None) == TailLines(FilesOf(journal), days, q.since) + rest
    ensures forall i :: 0 <= i < |rest| ==> !Passes(rest[i], q)
  {
    if days == [] {
      rest := [];
    } else if Skipped(days[0], q.since) {
      AllSkipped(journal, days, q);
      rest := TailLines(FilesOf(journal), days, None);
    } else {
      rest := Older(journal, days[1..], q);
      TailLonger(Reversed(FilesOf(journal)[days[0]]), TailLines(FilesOf(journal), days[1..], q.since), rest);
    }
  }

  lemma {:induction false} AllSkipped(journal: seq<Line>, days: seq<Day>, q: Query)
    requires forall d :: d in days ==> d in DaysOf(journal) && Skipped(d, q.since)
    ensures TailLines(FilesOf(journal), days, q.since) == []
    ensures var rest := TailLines(FilesOf(journal), days, None); forall i :: 0 <= i < |rest| ==> !Passes(rest[i], q)
  {
    if days != [] {
      AllSkipped(journal, days[1..], q);
    }
    TailDays(journal, days);
    var rest := TailLines(FilesOf(journal), days, None);
    forall i | 0 <= i < |rest| ensures !Passes(rest[i], q) {
      assert rest[i] in rest;
      LaterDay(q.since.value, At(rest[i]));
    }
  }

  // ---------------------------------------------------------------------
  // Which journals are read alike
  // ---------------------------------------------------------------------

  predicate Rates(l: Line, id: string) { l.RatingLine? && l.callId == id }

  /** A call rated at all has a rating newer than itself. */
  ghost predicate RatingsKeepUp(lines: seq<Line>) {
    forall i, j :: 0 <= i < |lines| && 0 <= j < |lines| && lines[i].CallLine? && Rates(lines[j], lines[i].call.id) ==>
      NewerRating(lines, lines[i])
  }

  ghost predicate NewerRating(lines: seq<Line>, l: Line)
    requires l.CallLine?
  {
    exists k :: 0 <= k < |lines| && Rates(lines[k], l.call.id) && At(lines[k]) > At(l)
  }

  lemma {:induction false} RatedIs(lines: seq<Line>, id: string)
    ensures NewestRating(lines, id).Some? <==> exists k :: 0 <= k < |lines| && Rates(lines[k], id)
  {
    if lines != [] {
      RatedIs(lines[1..], id);
      if exists k :: 0 <= k < |lines| && Rates(lines[k], id) {
        var k :| 0 <= k < |lines| && Rates(lines[k], id);
        assert k > 0 ==> Rates(lines[1..][k - 1], id);
      }
      if exists k :: 0 <= k < |lines[1..]| && Rates(lines[1..][k], id) {
        var k :| 0 <= k < |lines[1..]| && Rates(lines[1..][k], id);
        assert Rates(lines[k + 1], id);
      }
    }
  }

  lemma ForeseenIs(all: seq<Line>, k: nat)
    requires Descending(all) && k < |all| && all[k].CallLine?
    ensures Foreseen(all, k) <==> ((exists j :: 0 <= j < |all| && Rates(all[j], all[k].call.id)) ==> NewerRating(all, all[k]))
  {
    var id := all[k].call.id;
    assert all == all[..k] + all[k..];
    RatingConcat(all[..k], all[k..], id);
    RatedIs(all, id);
    RatedIs(all[..k], id);
    if NewerRating(all, all[k]) {
      var j :| 0 <= j < |all| && Rates(all[j], id) && At(all[j]) > At(all[k]);
      assert j < k && Rates(all[..k][j], id);
    }
    if NewestRating(all[..k], id).Some? {
      var j :| 0 <= j < |all[..k]| && Rates(all[..k][j], id);
      assert Rates(all[j], id) && At(all[j]) > At(all[k]);
    }
  }

  lemma KeepUpIs(all: seq<Line>)
    requires Descending(all)
    ensures RatingsKeepUp(all) <==> forall k :: 0 <= k < |all| ==> Foreseen(all, k)
  {
    forall k | 0 <= k < |all| && all[k].CallLine?
      ensures Foreseen(all, k) <==>
              ((exists j :: 0 <= j < |all| && Rates(all[j], all[k].call.id)) ==> NewerRating(all, all[k]))
    {
      ForeseenIs(all, k);
    }
  }

  lemma KeepUpPermutes(a: seq<Line>, b: seq<Line>)
    requires multiset(a) == multiset(b)
    ensures RatingsKeepUp(a) ==> RatingsKeepUp(b)
  {
    forall i, j | RatingsKeepUp(a) && 0 <= i < |b| && 0 <= j < |b| && b[i].CallLine? && Rates(b[j], b[i].call.id)
      ensures NewerRating(b, b[i])
    {
      assert b[i] in multiset(a) && b[j] in multiset(a);
      var x :| 0 <= x < |a| && a[x] == b[i];
      var y :| 0 <= y < |a| && a[y] == b[j];
      assert NewerRating(a, a[x]);
      var k :| 0 <= k < |a| && Rates(a[k], a[x].call.id) && At(a[k]) > At(a[x]);
      assert a[k] in multiset(b);
      var m :| 0 <= m < |b| && b[m] == a[k];
    }
  }

  lemma OneLinePermutes(a: seq<Line>, b: seq<Line>)
    requires multiset(a) == multiset(b) && Distinct(b) && OneLineACall(a)
    ensures OneLineACall(b)
  {
    forall i, j | 0 <= i < j < |b| && b[i].CallLine? && b[j].CallLine? ensures b[i].call.id != b[j].call.id {
      assert b[i] in multiset(a) && b[j] in multiset(a) && b[i] != b[j];
      var x :| 0 <= x < |a| && a[x] == b[i];
      var y :| 0 <= y < |a| && a[y] == b[j];
      assert x < y || y < x;
    }
  }

  lemma {:induction false} ListedShorter(all: seq<Line>, lines: seq<Line>, q: Query)
    ensures |Listed(all, lines, q)| <= |lines|
  {
    if lines != [] {
      ListedShorter(all, lines[1..], q);
    }
  }

  lemma {:induction false} ScannedShorter(lines: seq<Line>, pending: map<string, real>, q: Query)
    ensures |Scanned(lines, pending, q)| <= |lines|
  {
    if lines != [] {
      ScannedShorter(lines[1..], if Passes(lines[0], q) then pending - {lines[0].call.id} else Setdefault(pending, lines[0]), q);
    }
  }

  lemma TailIsOneScan(journal: seq<Line>, limit: nat, q: Query)
    requires FilesAscend(journal)
    ensures Tail(journal, limit, q) == Upto(Scanned(ViewOrder(journal), map[], q), limit)
  {
    AscendingFilesReadInOrder(journal);
    SkippedDaysComeLast(journal, NewestFirst(DaysOf(journal)), q);
  }

  lemma OrderedFacts(journal: seq<Line>)
    requires OneLineACall(journal) && FilesAscend(journal)
    ensures var all := ViewOrder(journal);
      OneLineACall(all) && Descending(all) && |all| == |journal| && (RatingsKeepUp(all) <==> RatingsKeepUp(journal))
  {
    var all := ViewOrder(journal);
    AscendingFilesReadInOrder(journal);
    SortKeeps(journal, NewestLe());
    forall i, j | 0 <= i < j < |all| ensures all[i] != all[j] {
      assert At(all[i]) > At(all[j]);
    }
    OneLinePermutes(journal, all);
    KeepUpPermutes(journal, all);
    KeepUpPermutes(all, journal);
  }

  lemma QueryAlike(journal: seq<Line>, limit: nat, q: Query)
    requires OneLineACall(journal) && FilesAscend(journal) && RatingsKeepUp(journal)
    ensures Tail(journal, limit, q) == View(journal, limit, q)
  {
    var all := ViewOrder(journal);
    OrderedFacts(journal);
    KeepUpIs(all);
    TailIsOneScan(journal, limit, q);
    assert all[0..] == all;
    ScanIsListing(all, 0, map[], q);
  }

  /** Over files whose timestamps ascend, the fast read and the simple one agree on every
      limit, filter and bound exactly when every rated call has a rating newer than itself. */
  lemma ReadsAgree(journal: seq<Line>)
    requires OneLineACall(journal) && FilesAscend(journal)
    ensures (forall limit: nat, q: Query :: limit >= 1 ==> Tail(journal, limit, q) == View(journal, limit, q))
       <==> RatingsKeepUp(journal)
  {
    if RatingsKeepUp(journal) {
      forall limit: nat, q: Query | limit >= 1 ensures Tail(journal, limit, q) == View(journal, limit, q) {
        QueryAlike(journal, limit, q);
      }
    }
    if forall limit: nat, q: Query :: limit >= 1 ==> Tail(journal, limit, q) == View(journal, limit, q) {
      var (all, limit) := (ViewOrder(journal), |journal| + 1);
      assert Tail(journal, limit, EVERYTHING) == View(journal, limit, EVERYTHING);
      OrderedFacts(journal);
      TailIsOneScan(journal, limit, EVERYTHING);
      assert all[0..] == all;
      ScannedShorter(all, map[], EVERYTHING);
      ListedShorter(all, all, EVERYTHING);
      ScanIsListing(all, 0, map[], EVERYTHING);
      assert forall k :: 0 <= k < |all| && all[k].CallLine? ==> Passes(all[k], EVERYTHING);
      KeepUpIs(all);
    }
  }

  // ---------------------------------------------------------------------
  // Journals as the library writes them
  // ---------------------------------------------------------------------

  lemma {:induction false} AscendingFilter(s: seq<Line>, keep: Line -> bool)
    requires Ascending(s)
    ensures Ascending(Filter(s, keep))
  {
    if s != [] {
      AscendingFilter(s[1..], keep);
      FilterMembers(s[1..], keep);
      var rest := Filter(s[1..], keep);
      forall j | 0 <= j < |rest| ensures At(s[0]) < At(rest[j]) {
        assert rest[j] in rest;
        var k :| 0 <= k < |s[1..]| && s[1..][k] == rest[j];
        assert At(s[0]) < At(s[k + 1]);
      }
    }
  }

  /** A journal appended in time order, ids unique and every rating after the call it names,
      is read alike by both, for every limit, filter and bound. */
  lemma TailIsTheView(journal: seq<Line>, limit: nat, q: Query)
    requires Ascending(journal) && OneLineACall(journal)
    requires forall i, j :: 0 <= i < |journal| && 0 <= j < |journal| ==>
               journal[i].CallLine? && Rates(journal[j], journal[i].call.id) ==> i < j
    ensures Tail(journal, limit, q) == View(journal, limit, q)
  {
    forall d ensures Ascending(DayFile(journal, d)) { AscendingFilter(journal, OnDay(d)); }
    forall i, j | 0 <= i < |journal| && 0 <= j < |journal| && journal[i].CallLine? && Rates(journal[j], journal[i].call.id)
      ensures NewerRating(journal, journal[i])
    {
      assert Rates(journal[j], journal[i].call.id) && At(journal[j]) > At(journal[i]);
    }
    QueryAlike(journal, limit, q);
  }

  /** Two calls journaled in one instant are read in opposite orders. */
  lemma TiesPart(a: Call, b: Call)
    requires a.id != b.id && a.ts == b.ts
    ensures TailOrder([CallLine(a), CallLine(b)]) != ViewOrder([CallLine(a), CallLine(b)])
  {
    var journal := [CallLine(a), CallLine(b)];
    var day := DayOf(a.ts);
    OrdersAgree(journal);
    FilterAll(journal, OnDay(day));
    assert DayFile(journal, day) == journal;
    assert !Ascending(journal);
  }
}
