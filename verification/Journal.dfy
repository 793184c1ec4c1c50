/** The file journal's reverse, early-exit tail read against the in-memory driver's sort,
    fold, filter and take: which journals they read alike. Instants are seconds, and a file
    holds one day of them. */
module Journal {
  import opened Common

  const DAY := 86400.0

  datatype Call = Call(
    id: string,
    ts: real,
    scope: Option<string>,
    operation: Option<string>,
    traceId: Option<string>,
    rest: string)

  /** A journal row: a call attempt, or a rating naming one. */
  datatype Line = CallLine(call: Call) | RatingLine(callId: string, score: real, at: real)

  /** What a host reads: a call and the newest score it was rated with. */
  datatype Scored = Scored(call: Call, score: Option<real>)

  /** The columns a reader asked for, and from when. */
  datatype Query = Query(scope: Option<string>, operation: Option<string>, traceId: Option<string>,
                         id: Option<string>, since: Option<real>)

  const EVERYTHING := Query(None, None, None, None, None)

  function At(l: Line): real { if l.CallLine? then l.call.ts else l.at }

  predicate Wants(column: Option<string>, value: Option<string>) { column.Some? ==> value == column }

  predicate Passes(l: Line, q: Query) {
    && l.CallLine?
    && Wants(q.scope, l.call.scope) && Wants(q.operation, l.call.operation)
    && Wants(q.traceId, l.call.traceId) && Wants(q.id, Some(l.call.id))
    && (q.since.Some? ==> l.call.ts >= q.since.value)
  }

  // ---------------------------------------------------------------------
  // The simple form
  // ---------------------------------------------------------------------

  /** Newest first; equals keep the order they were appended in. */
  function NewestLe(): (Line, Line) -> bool { (a: Line, b: Line) => At(a) >= At(b) }

  function ViewOrder(journal: seq<Line>): seq<Line> { StableSort(journal, NewestLe()) }

  function NewestRating(lines: seq<Line>, id: string): Option<real> {
    if lines == [] then None
    else if lines[0].RatingLine? && lines[0].callId == id then Some(lines[0].score)
    else NewestRating(lines[1..], id)
  }

  /** The calls of `lines` that pass, each with its newest rating in `all`. */
  function Listed(all: seq<Line>, lines: seq<Line>, q: Query): seq<Scored> {
    if lines == [] then []
    else (if Passes(lines[0], q) then [Scored(lines[0].call, NewestRating(all, lines[0].call.id))] else [])
         + Listed(all, lines[1..], q)
  }

  function Upto<T>(s: seq<T>, limit: nat): seq<T> { if |s| <= limit then s else s[..limit] }

  /** `journal_view`. */
  function View(journal: seq<Line>, limit: nat, q: Query): seq<Scored> {
    Upto(Listed(ViewOrder(journal), ViewOrder(journal), q), limit)
  }

  lemma {:induction false} ListedConcat(all: seq<Line>, a: seq<Line>, b: seq<Line>, q: Query)
    ensures Listed(all, a + b, q) == Listed(all, a, q) + Listed(all, b, q)
  {
    if a == [] {
      assert a + b == b;
    } else {
      assert (a + b)[1..] == a[1..] + b;
      ListedConcat(all, a[1..], b, q);
    }
  }

  lemma {:induction false} RatingConcat(a: seq<Line>, b: seq<Line>, id: string)
    ensures NewestRating(a + b, id) == if NewestRating(a, id).Some? then NewestRating(a, id) else NewestRating(b, id)
  {
    if a == [] {
      assert a + b == b;
    } else {
      assert (a + b)[1..] == a[1..] + b;
      RatingConcat(a[1..], b, id);
    }
  }

  function Setdefault(ratings: map<string, real>, l: Line): map<string, real> {
    if l.RatingLine? && l.callId !in ratings then ratings[l.callId := l.score] else ratings
  }

  function Lookup(ratings: map<string, real>, id: string): Option<real> {
    if id in ratings then Some(ratings[id]) else None
  }

  lemma SetdefaultStep(ratings: map<string, real>, lines: seq<Line>, i: nat, id: string)
    requires i < |lines| && Lookup(ratings, id) == NewestRating(lines[..i], id)
    ensures Lookup(Setdefault(ratings, lines[i]), id) == NewestRating(lines[..i + 1], id)
  {
    assert lines[..i + 1] == lines[..i] + [lines[i]];
    RatingConcat(lines[..i], [lines[i]], id);
    assert [lines[i]][1..] == [];
  }

  class InMemoryJournal {
    var lines: seq<Line>

    constructor ()
      ensures lines == []
    {
      lines := [];
    }

    method Append(l: Line)
      modifies this
      ensures lines == old(lines) + [l]
    {
      lines := lines + [l];
    }

    method JournalView(limit: nat, q: Query) returns (result: seq<Scored>)
      ensures result == View(lines, limit, q)
    {
      var ordered := ViewOrder(lines);
      var newestRating: map<string, real> := map[];
      for i := 0 to |ordered|
        invariant forall id :: Lookup(newestRating, id) == NewestRating(ordered[..i], id)
      {
        forall id { SetdefaultStep(newestRating, ordered, i, id); }
        newestRating := Setdefault(newestRating, ordered[i]);
      }
      assert ordered[..|ordered|] == ordered;
      result := [];
      for i := 0 to |ordered|
        invariant result == Listed(ordered, ordered[..i], q)
      {
        ListedConcat(ordered, ordered[..i], [ordered[i]], q);
        assert ordered[..i + 1] == ordered[..i] + [ordered[i]];
        if Passes(ordered[i], q) {
          result := result + [Scored(ordered[i].call, Lookup(newestRating, ordered[i].call.id))];
        }
      }
      result := Upto(result, limit);
    }
  }

  // ---------------------------------------------------------------------
  // Day files
  // ---------------------------------------------------------------------

  /** A UTC date, which names a file. */
  datatype Day = Day(index: int)

  function DayOf(at: real): Day { Day((at / DAY).Floor) }

  function OnDay(day: Day): Line -> bool { (l: Line) => DayOf(At(l)) == day }

  /** What one day's file holds, in the order its lines were appended. */
  function DayFile(journal: seq<Line>, day: Day): seq<Line> { Filter(journal, OnDay(day)) }

  function DaysOf(journal: seq<Line>): set<Day> { set i | 0 <= i < |journal| :: DayOf(At(journal[i])) }

  lemma {:induction false} HasMax(s: set<Day>)
    requires s != {}
    ensures exists m :: m in s && forall x :: x in s ==> x.index <= m.index
  {
    var x :| x in s;
    var rest := s - {x};
    if rest != {} {
      HasMax(rest);
      var m :| m in rest && forall y :: y in rest ==> y.index <= m.index;
      var top := if x.index > m.index then x else m;
      forall y | y in s ensures y.index <= top.index {
        assert y == x || y in rest;
      }
    } else {
      forall y | y in s ensures y.index <= x.index {
        assert y == x || y in rest;
      }
    }
  }

  /** The files' names, newest first. */
  function NewestFirst(days: set<Day>): (r: seq<Day>)
    ensures forall d :: d in r <==> d in days
    ensures forall i, j :: 0 <= i < j < |r| ==> r[i].index > r[j].index
  {
    if days == {} then []
    else
      HasMax(days);
      var newest :| newest in days && forall d :: d in days ==> d.index <= newest.index;
      [newest] + NewestFirst(days - {newest})
  }

  /** A whole day before the bound cannot hold a row inside it. */
  predicate Skipped(day: Day, since: Option<real>) { since.Some? && day.index < DayOf(since.value).index }

  /** Everything a reverse pass meets over these files, in order. */
  function TailLines(files: map<Day, seq<Line>>, days: seq<Day>, since: Option<real>): seq<Line>
    requires forall d :: d in days ==> d in files
  {
    if days == [] then []
    else (if Skipped(days[0], since) then [] else Reversed(files[days[0]])) + TailLines(files, days[1..], since)
  }

  /** One reverse pass: ratings are held until the call they name turns up. */
  function Scanned(lines: seq<Line>, pending: map<string, real>, q: Query): seq<Scored> {
    if lines == [] then []
    else if !Passes(lines[0], q) then Scanned(lines[1..], Setdefault(pending, lines[0]), q)
    else [Scored(lines[0].call, Lookup(pending, lines[0].call.id))]
         + Scanned(lines[1..], pending - {lines[0].call.id}, q)
  }

  function FilesOf(journal: seq<Line>): map<Day, seq<Line>> { map d | d in DaysOf(journal) :: DayFile(journal, d) }

  /** The lines in the order a reverse pass over every file meets them. */
  function TailOrder(journal: seq<Line>): seq<Line> {
    TailLines(FilesOf(journal), NewestFirst(DaysOf(journal)), None)
  }

  /** The fast form: the newest `limit` calls a reverse pass takes. */
  function Tail(journal: seq<Line>, limit: nat, q: Query): seq<Scored> {
    Upto(Scanned(TailLines(FilesOf(journal), NewestFirst(DaysOf(journal)), q.since), map[], q), limit)
  }

  class FileStore {
    var files: map<Day, seq<Line>>
    ghost var journal: seq<Line>

    ghost predicate Valid() reads this { files == FilesOf(journal) }

    constructor ()
      ensures Valid() && journal == []
    {
      files, journal := map[], [];
    }

    /** The row goes to the file of its own UTC day. */
    method AppendLine(l: Line)
      requires Valid()
      modifies this
      ensures Valid() && journal == old(journal) + [l]
    {
      var day := DayOf(At(l));
      var lines := if day in files then files[day] else [];
      files := files[day := lines + [l]];
      journal := journal + [l];
      Appended(old(journal), l, old(files), files);
    }

    /** One file's lines, last first: ratings are held, calls that pass are taken. */
    method ReadFile(lines: seq<Line>, ghost later: seq<Line>, found: seq<Scored>, held: map<string, real>,
                    limit: nat, q: Query)
      returns (result: seq<Scored>, pending: map<string, real>, full: bool)
      requires |found| < limit
      ensures !full ==>
                |result| < limit
                && found + Scanned(Reversed(lines) + later, held, q) == result + Scanned(later, pending, q)
      ensures full ==> |result| == limit && result <= found + Scanned(Reversed(lines) + later, held, q)
    {
      hide Reversed, Scanned;
      result, pending, full := found, held, false;
      ghost var whole := found + Scanned(Reversed(lines) + later, held, q);
      assert lines[..|lines|] == lines;
      for j := |lines| downto 0
        invariant |result| < limit
        invariant whole == result + Scanned(Reversed(lines[..j]) + later, pending, q)
      {
        var l := lines[j];
        LineAhead(lines, j, later);
        ScanStep(l, Reversed(lines[..j]) + later, pending, q);
        if l.RatingLine? {
          pending := Setdefault(pending, l);
          continue;
        }
        if !Passes(l, q) {
          continue;
        }
        result := result + [Scored(l.call, Lookup(pending, l.call.id))];
        pending := pending - {l.call.id};
        if |result| >= limit {
          return result, pending, true;
        }
      }
      NothingAhead(lines, later);
    }

    method ReadTail(limit: nat, q: Query) returns (result: seq<Scored>)
      requires Valid() && limit >= 1
      ensures result == Tail(journal, limit, q)
    {
      assert files.Keys == DaysOf(journal);
      hide Reversed, TailLines, Scanned, FilesOf, NewestFirst, Upto, Skipped;
      result := [];
      var pending: map<string, real> := map[];
      var days := NewestFirst(files.Keys);
      ghost var whole := Scanned(TailLines(files, days, q.since), map[], q);
      assert days[0..] == days;
      for i := 0 to |days|
        invariant |result| < limit
        invariant whole == result + Scanned(TailLines(files, days[i..], q.since), pending, q)
      {
        FileAhead(files, days, i, q.since);
        if Skipped(days[i], q.since) {
          continue;
        }
        var full;
        result, pending, full :=
          ReadFile(files[days[i]], TailLines(files, days[i + 1..], q.since), result, pending, limit, q);
        if full {
          UptoIs(result, whole, limit);
          return;
        }
      }
      ScanEnd(files, days, q, pending);
      assert result == whole;
      UptoIs(result, whole, limit);
    }
  }

  lemma UptoIs(result: seq<Scored>, whole: seq<Scored>, limit: nat)
    requires result <= whole && (|result| == limit || (|result| < limit && result == whole))
    ensures Upto(whole, limit) == result
  {}

  lemma FileAhead(files: map<Day, seq<Line>>, days: seq<Day>, i: nat, since: Option<real>)
    requires i < |days| && forall d :: d in days ==> d in files
    ensures Skipped(days[i], since) ==> TailLines(files, days[i..], since) == TailLines(files, days[i + 1..], since)
    ensures !Skipped(days[i], since) ==>
              TailLines(files, days[i..], since) == Reversed(files[days[i]]) + TailLines(files, days[i + 1..], since)
  {
    assert days[i..][1..] == days[i + 1..];
  }

  lemma LineAhead(lines: seq<Line>, j: nat, later: seq<Line>)
    requires j < |lines|
    ensures Reversed(lines[..j + 1]) + later == [lines[j]] + (Reversed(lines[..j]) + later)
  {
    assert lines[..j + 1][..j] == lines[..j];
  }

  lemma NothingAhead(lines: seq<Line>, later: seq<Line>)
    ensures Reversed(lines[..0]) + later == later
  {}

  lemma ScanStep(l: Line, ahead: seq<Line>, pending: map<string, real>, q: Query)
    ensures Scanned([l] + ahead, pending, q) ==
            if !Passes(l, q) then Scanned(ahead, Setdefault(pending, l), q)
            else [Scored(l.call, Lookup(pending, l.call.id))] + Scanned(ahead, pending - {l.call.id}, q)
  {
    assert ([l] + ahead)[1..] == ahead;
  }

  lemma ScanEnd(files: map<Day, seq<Line>>, days: seq<Day>, q: Query, pending: map<string, real>)
    requires forall d :: d in days ==> d in files
    ensures Scanned(TailLines(files, days[|days|..], q.since), pending, q) == []
  {}

  lemma {:induction false} NoFile(journal: seq<Line>, day: Day)
    requires forall i :: 0 <= i < |journal| ==> DayOf(At(journal[i])) != day
    ensures DayFile(journal, day) == []
  {
    if journal != [] {
      NoFile(journal[1..], day);
    }
  }

  lemma Appended(journal: seq<Line>, l: Line, files: map<Day, seq<Line>>, after: map<Day, seq<Line>>)
    requires files == FilesOf(journal)
    requires var day := DayOf(At(l));
      after == files[day := (if day in files then files[day] else []) + [l]]
    ensures after == FilesOf(journal + [l])
  {
    var (day, longer) := (DayOf(At(l)), journal + [l]);
    DaysGrow(journal, l);
    forall d | d in after ensures after[d] == DayFile(longer, d) {
      FilterAppend(journal, [l], OnDay(d));
      if d !in files {
        assert forall i :: 0 <= i < |journal| ==> DayOf(At(journal[i])) in DaysOf(journal);
        NoFile(journal, d);
      }
    }
    assert after.Keys == DaysOf(longer);
  }

  lemma DaysGrow(journal: seq<Line>, l: Line)
    ensures DaysOf(journal + [l]) == DaysOf(journal) + {DayOf(At(l))}
  {
    var longer := journal + [l];
    assert longer[|journal|] == l && forall i :: 0 <= i < |journal| ==> longer[i] == journal[i];
    forall d | d in DaysOf(journal) + {DayOf(At(l))} ensures d in DaysOf(longer) {
      if d in DaysOf(journal) {
        var i :| 0 <= i < |journal| && DayOf(At(journal[i])) == d;
        assert DayOf(At(longer[i])) == d;
      } else {
        assert DayOf(At(longer[|journal|])) == d;
      }
    }
  }
}
