/** The lanes a stream retains, and the four choices made among them: who completed first,
    whose text is shown, whose first delta came first, and which finished answer is next. */
module Race {
  import opened Common
  import opened Verdicts

  /** How far a lane has got. `Completed` has its whole answer and still owes the journal a
      row; `Answered` and `Broken` have finished. */
  datatype Stage =
    | Running
    | Completed(at: real)
    | Answered(at: real)
    | Broken(verdict: Option<Fate>, raised: bool, crashed: bool)

  datatype StreamLane = StreamLane(
    name: string,
    wave: nat,
    deltas: seq<string>,
    sent: nat,
    firstAt: Option<real>,
    stage: Stage)

  predicate Finished(l: StreamLane) { l.stage.Answered? || l.stage.Broken? }

  predicate HasAnswer(l: StreamLane) { l.stage.Completed? || l.stage.Answered? }

  function CompletedAt(l: StreamLane): Option<real> { if HasAnswer(l) then Some(l.stage.at) else None }

  /** A sort key: an instant, then whether a tie goes against the lane. */
  type Key = Option<(real, bool)>

  predicate KeyLess(a: (real, bool), b: (real, bool)) {
    a.0 < b.0 || (a.0 == b.0 && !a.1 && b.1)
  }

  /** The first position whose key no other is strictly below; positions without one do not compete. */
  function Least(keys: seq<Key>): Option<nat> {
    if keys == [] then None
    else
      var (last, best) := (|keys| - 1, Least(keys[..|keys| - 1]));
      if keys[last].Some? && (best.None? || LessAt(keys, last, best.value)) then Some(last) else best
  }

  predicate LessAt(keys: seq<Key>, i: nat, j: nat) {
    i < |keys| && j < |keys| && keys[i].Some? && keys[j].Some? && KeyLess(keys[i].value, keys[j].value)
  }

  /** The choice exists exactly when some position competes, and is first among the least. */
  lemma {:induction false} LeastIsFirst(keys: seq<Key>)
    ensures Least(keys).None? <==> forall i :: 0 <= i < |keys| ==> keys[i].None?
    ensures Least(keys).Some? ==>
              && Least(keys).value < |keys| && keys[Least(keys).value].Some?
              && (forall i :: 0 <= i < |keys| && keys[i].Some? ==> !KeyLess(keys[i].value, keys[Least(keys).value].value))
              && (forall i :: 0 <= i < Least(keys).value && keys[i].Some? ==> KeyLess(keys[Least(keys).value].value, keys[i].value))
  {
    if keys != [] {
      LeastIsFirst(keys[..|keys| - 1]);
    }
  }

  function KeysBy(lanes: seq<StreamLane>, key: (StreamLane, nat) -> Key): (r: seq<Key>)
    ensures |r| == |lanes| && forall i :: 0 <= i < |lanes| ==> r[i] == key(lanes[i], i)
  {
    if lanes == [] then [] else KeysBy(lanes[..|lanes| - 1], key) + [key(lanes[|lanes| - 1], |lanes| - 1)]
  }

  function At(instant: Option<real>, against: bool): Key {
    if instant.None? then None else Some((instant.value, against))
  }

  function FinishKey(exposed: Option<nat>): (StreamLane, nat) -> Key {
    (l: StreamLane, i: nat) => At(CompletedAt(l), exposed != Some(i))
  }

  function DeltaKey(): (StreamLane, nat) -> Key {
    (l: StreamLane, i: nat) => At(l.firstAt, false)
  }

  function BufferKey(delivered: set<nat>): (StreamLane, nat) -> Key {
    (l: StreamLane, i: nat) => if i in delivered then None else At(CompletedAt(l), false)
  }

  /** The lane that completed first; a tie keeps the one already shown. */
  function Winner(lanes: seq<StreamLane>, exposed: Option<nat>): Option<nat> {
    Least(KeysBy(lanes, FinishKey(exposed)))
  }

  /** The lane whose first delta came first. */
  function FirstDelta(lanes: seq<StreamLane>): Option<nat> { Least(KeysBy(lanes, DeltaKey())) }

  /** The earliest completed answer nobody has been given. */
  function Buffered(lanes: seq<StreamLane>, delivered: set<nat>): Option<nat> {
    Least(KeysBy(lanes, BufferKey(delivered)))
  }

  /** Whose deltas become provisional: the best ranked lane if it spoke inside the window,
      nobody while it still may, and otherwise whoever spoke first. */
  function Select(lanes: seq<StreamLane>, deadline: real, now: real): Option<nat>
    requires lanes != []
  {
    var preferred := lanes[0];
    if preferred.firstAt.Some? && preferred.firstAt.value < deadline then Some(0)
    else if !Finished(preferred) && now < deadline then None
    else FirstDelta(lanes)
  }

  lemma WinnerIsFirst(lanes: seq<StreamLane>, exposed: Option<nat>)
    ensures Winner(lanes, exposed).None? ==> forall i :: 0 <= i < |lanes| ==> !HasAnswer(lanes[i])
    ensures Winner(lanes, exposed).Some? ==>
              && Winner(lanes, exposed).value < |lanes| && HasAnswer(lanes[Winner(lanes, exposed).value])
              && forall i :: 0 <= i < |lanes| && HasAnswer(lanes[i]) ==> NotAfter(lanes, exposed, Winner(lanes, exposed).value, i)
  {
    var keys := KeysBy(lanes, FinishKey(exposed));
    LeastIsFirst(keys);
    forall i | 0 <= i < |lanes| ensures keys[i].Some? <==> HasAnswer(lanes[i]) {
      assert keys[i] == At(CompletedAt(lanes[i]), exposed != Some(i));
    }
    if Winner(lanes, exposed).Some? {
      var w := Winner(lanes, exposed).value;
      assert keys[w] == At(CompletedAt(lanes[w]), exposed != Some(w));
      forall i | 0 <= i < |lanes| && HasAnswer(lanes[i]) ensures NotAfter(lanes, exposed, w, i) {
        assert keys[i] == At(CompletedAt(lanes[i]), exposed != Some(i));
        assert !KeyLess(keys[i].value, keys[w].value);
      }
    }
  }

  /** `w` completed no later than `i`, and only the shown lane wins a tie against the shown one. */
  predicate NotAfter(lanes: seq<StreamLane>, exposed: Option<nat>, w: nat, i: nat)
    requires w < |lanes| && i < |lanes| && HasAnswer(lanes[w]) && HasAnswer(lanes[i])
  {
    && lanes[w].stage.at <= lanes[i].stage.at
    && (lanes[w].stage.at == lanes[i].stage.at && exposed == Some(i) ==> w == i)
  }

  lemma FirstDeltaIsFirst(lanes: seq<StreamLane>)
    ensures FirstDelta(lanes).None? <==> forall i :: 0 <= i < |lanes| ==> lanes[i].firstAt.None?
    ensures FirstDelta(lanes).Some? ==>
              var f := FirstDelta(lanes).value;
              && f < |lanes| && lanes[f].firstAt.Some?
              && (forall i :: 0 <= i < |lanes| && lanes[i].firstAt.Some? ==> lanes[f].firstAt.value <= lanes[i].firstAt.value)
  {
    var keys := KeysBy(lanes, DeltaKey());
    LeastIsFirst(keys);
    assert forall i :: 0 <= i < |lanes| ==> (keys[i].Some? <==> lanes[i].firstAt.Some?);
  }

  lemma BufferedIsFirst(lanes: seq<StreamLane>, delivered: set<nat>)
    ensures Buffered(lanes, delivered).None? <==> forall i :: 0 <= i < |lanes| && HasAnswer(lanes[i]) ==> i in delivered
    ensures Buffered(lanes, delivered).Some? ==>
              var b := Buffered(lanes, delivered).value;
              && b < |lanes| && HasAnswer(lanes[b]) && b !in delivered
              && (forall i :: 0 <= i < |lanes| && HasAnswer(lanes[i]) && i !in delivered ==>
                    lanes[b].stage.at <= lanes[i].stage.at)
  {
    var keys := KeysBy(lanes, BufferKey(delivered));
    LeastIsFirst(keys);
    forall i | 0 <= i < |lanes| && i !in delivered ensures keys[i] == At(CompletedAt(lanes[i]), false) {}
    assert forall i :: 0 <= i < |lanes| ==> (keys[i].Some? <==> HasAnswer(lanes[i]) && i !in delivered);
  }

  /** Once somebody may be shown, the choice is a lane that has spoken; the preferred lane is
      passed over only when it did not speak inside the window. */
  lemma SelectIsFair(lanes: seq<StreamLane>, deadline: real, now: real)
    requires lanes != []
    ensures Select(lanes, deadline, now).Some? ==>
              && Select(lanes, deadline, now).value < |lanes|
              && lanes[Select(lanes, deadline, now).value].firstAt.Some?
    ensures Select(lanes, deadline, now) != Some(0) ==>
              lanes[0].firstAt.None? || lanes[0].firstAt.value >= deadline
    ensures Select(lanes, deadline, now).None? ==>
              (!Finished(lanes[0]) && now < deadline) || forall i :: 0 <= i < |lanes| ==> lanes[i].firstAt.None?
  {
    FirstDeltaIsFirst(lanes);
  }

  // ---------------------------------------------------------------------
  // The loops that make the choices
  // ---------------------------------------------------------------------

  /** One more lane replaces the best so far only by being strictly before it. */
  lemma LeastStep(lanes: seq<StreamLane>, key: (StreamLane, nat) -> Key, i: nat)
    requires i < |lanes|
    ensures var best := Least(KeysBy(lanes[..i], key));
      && (best.Some? ==> best.value < i && key(lanes[best.value], best.value).Some?)
      && Least(KeysBy(lanes[..i + 1], key)) ==
           var k := key(lanes[i], i);
           if k.Some? && (best.None? || KeyLess(k.value, key(lanes[best.value], best.value).value)) then Some(i) else best
  {
    var best := Least(KeysBy(lanes[..i], key));
    var (keys, before) := (KeysBy(lanes[..i + 1], key), KeysBy(lanes[..i], key));
    assert lanes[..i + 1][..i] == lanes[..i];
    assert keys[..i] == before;
    LeastIsFirst(before);
    assert best.Some? ==> before[best.value] == key(lanes[best.value], best.value) == keys[best.value];
  }

  lemma NoLanes(lanes: seq<StreamLane>, key: (StreamLane, nat) -> Key)
    ensures Least(KeysBy(lanes[..0], key)) == None
  {}

  class StreamRace {
    var lanes: seq<StreamLane>
    var deadline: real
    var exposed: Option<nat>

    constructor ()
      ensures lanes == [] && deadline == 0.0 && exposed == None
    {
      lanes, deadline, exposed := [], 0.0, None;
    }

    method FindWinner() returns (best: Option<nat>)
      ensures best == Winner(lanes, exposed)
    {
      hide Least, KeysBy;
      best := None;
      var bestKey := (0.0, false);
      NoLanes(lanes, FinishKey(exposed));
      for i := 0 to |lanes|
        invariant best == Least(KeysBy(lanes[..i], FinishKey(exposed)))
        invariant best.Some? ==> best.value < i && FinishKey(exposed)(lanes[best.value], best.value) == Some(bestKey)
      {
        LeastStep(lanes, FinishKey(exposed), i);
        var at := CompletedAt(lanes[i]);
        if at.Some? {
          var key := (at.value, exposed != Some(i));
          if best.None? || KeyLess(key, bestKey) {
            best, bestKey := Some(i), key;
          }
        }
      }
      assert lanes[..|lanes|] == lanes;
    }

    method FindShown(now: real) returns (shown: Option<nat>)
      requires lanes != []
      ensures shown == Select(lanes, deadline, now)
    {
      var preferred := lanes[0];
      if preferred.firstAt.Some? && preferred.firstAt.value < deadline {
        return Some(0);
      }
      if !Finished(preferred) && now < deadline {
        return None;
      }
      shown := FindFirstDelta();
    }

    method FindFirstDelta() returns (first: Option<nat>)
      ensures first == FirstDelta(lanes)
    {
      hide Least, KeysBy;
      first := None;
      var bestAt := 0.0;
      NoLanes(lanes, DeltaKey());
      for i := 0 to |lanes|
        invariant first == Least(KeysBy(lanes[..i], DeltaKey()))
        invariant first.Some? ==> first.value < i && DeltaKey()(lanes[first.value], first.value) == Some((bestAt, false))
      {
        LeastStep(lanes, DeltaKey(), i);
        var at := lanes[i].firstAt;
        if at.Some? && (first.None? || at.value < bestAt) {
          first, bestAt := Some(i), at.value;
        }
      }
      assert lanes[..|lanes|] == lanes;
    }
  }
}
