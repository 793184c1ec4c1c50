/** The keys a caller may pay with: its own ring over the installation's shared one, each a
    cache of what the secrets backend answered and a memory of what a provider rejected.
    A ring over its fallbacks is a sequence of rings, the caller's own first. */
module KeyRings {
  import opened Common

  /** What the backend does with one exact lookup. */
  datatype Stored = Holds(value: string) | Blank | Unset | Unreadable

  type Secrets = map<string, Stored>

  datatype Ring = Ring(
    scope: Option<string>,
    values: map<string, string>,
    missing: set<string>,
    rejected: map<string, string>,
    known: Option<set<string>>)

  function OwnRef(scope: Option<string>, ref: string): string {
    if scope.Some? then scope.value + "/" + ref else ref
  }

  /** One lookup: blank, unset and unreadable are all "no key", and a ref the listing did not
      name is not asked for. */
  function Read(r: Ring, secrets: Secrets, ref: string): Option<string> {
    var own := OwnRef(r.scope, ref);
    if own == "" || (r.known.Some? && own !in r.known.value) then None
    else if own in secrets && secrets[own].Holds? then Some(secrets[own].value)
    else None
  }

  /** A value held is never one the provider rejected. */
  ghost predicate Consistent(r: Ring) { r.values.Keys !! r.rejected.Keys }

  // ---------------------------------------------------------------------
  // A ring over its fallbacks
  // ---------------------------------------------------------------------

  /** The key behind a ref, and the rings after looking. */
  function Resolved(rings: seq<Ring>, secrets: Secrets, ref: string): (seq<Ring>, Option<string>) {
    if rings == [] then ([], None)
    else
      var r := rings[0];
      if ref in r.rejected then (rings, None)
      else if ref in r.values then (rings, Some(r.values[ref]))
      else
        var asked := ref != "" && ref !in r.missing;
        var own := if asked then Read(r, secrets, ref) else None;
        if own.Some? then ([r.(values := r.values[ref := own.value])] + rings[1..], own)
        else
          var (after, value) := Resolved(rings[1..], secrets, ref);
          ([if asked then r.(missing := r.missing + {ref}) else r] + after, value)
  }

  /** A rejection goes to the first ring that holds a value for the ref. */
  function Forgotten(rings: seq<Ring>, ref: string): seq<Ring> {
    if rings == [] then []
    else
      var r := rings[0];
      if ref in r.values then
        [r.(values := r.values - {ref}, missing := r.missing - {ref}, rejected := r.rejected[ref := r.values[ref]])]
        + rings[1..]
      else [r] + Forgotten(rings[1..], ref)
  }

  /** Everything read is forgotten, and a rejection survives only while its value does. */
  function Refreshed(r: Ring, known: Option<set<string>>, secrets: Secrets): Ring {
    var blank := r.(values := map[], missing := {}, known := known);
    blank.(rejected := map ref | ref in r.rejected && Read(blank, secrets, ref) == Some(r.rejected[ref]) :: r.rejected[ref])
  }

  /** Something done to the ring at a position: ring 0 is the caller's own. */
  datatype Event = Event(at: nat, action: Action)

  datatype Action =
    | Resolve(ref: string, secrets: Secrets)
    | Forget(ref: string)
    | Refresh(known: Option<set<string>>, secrets: Secrets)

  function Apply(rings: seq<Ring>, e: Event): seq<Ring>
    decreases |rings|
  {
    if rings == [] then []
    else if e.at > 0 then [rings[0]] + Apply(rings[1..], e.(at := e.at - 1))
    else match e.action
      case Resolve(ref, secrets) => Resolved(rings, secrets, ref).0
      case Forget(ref) => Forgotten(rings, ref)
      case Refresh(known, secrets) => [Refreshed(rings[0], known, secrets)] + rings[1..]
  }

  function Run(rings: seq<Ring>, events: seq<Event>): seq<Ring> {
    if events == [] then rings else Apply(Run(rings, events[..|events| - 1]), events[|events| - 1])
  }

  ghost predicate AllConsistent(rings: seq<Ring>) { forall i :: 0 <= i < |rings| ==> Consistent(rings[i]) }

  // ---------------------------------------------------------------------
  // What one step does to each ring
  // ---------------------------------------------------------------------

  lemma {:induction false} ResolvedKeeps(rings: seq<Ring>, secrets: Secrets, ref: string)
    ensures var after := Resolved(rings, secrets, ref).0;
      && |after| == |rings|
      && (AllConsistent(rings) ==> AllConsistent(after))
      && forall i :: 0 <= i < |rings| ==> after[i].scope == rings[i].scope && after[i].rejected == rings[i].rejected
  {
    if rings != [] {
      ResolvedKeeps(rings[1..], secrets, ref);
      assert AllConsistent(rings) ==> AllConsistent(rings[1..]);
    }
  }

  /** Exactly one ring can lose its value: the first that holds one. */
  lemma {:induction false} ForgottenAt(rings: seq<Ring>, ref: string, k: nat)
    requires k < |rings|
    ensures |Forgotten(rings, ref)| == |rings|
    ensures var spent := ref in rings[k].values && forall j :: 0 <= j < k ==> ref !in rings[j].values;
      Forgotten(rings, ref)[k] ==
        if spent then
          rings[k].(values := rings[k].values - {ref}, missing := rings[k].missing - {ref},
                    rejected := rings[k].rejected[ref := rings[k].values[ref]])
        else rings[k]
  {
    if ref !in rings[0].values {
      if k > 0 {
        ForgottenAt(rings[1..], ref, k - 1);
        assert forall j :: 0 <= j < k - 1 ==> rings[1..][j] == rings[j + 1];
      } else if |rings| > 1 {
        ForgottenAt(rings[1..], ref, 0);
      }
    }
  }

  lemma {:induction false} ForgottenKeeps(rings: seq<Ring>, ref: string)
    requires AllConsistent(rings)
    ensures |Forgotten(rings, ref)| == |rings| && AllConsistent(Forgotten(rings, ref))
  {
    if rings != [] {
      ForgottenKeeps(rings[1..], ref);
    }
  }

  /** Only a refresh of a ring lifts its rejections, and none of the three moves a scope. */
  lemma {:induction false} ApplyAt(rings: seq<Ring>, e: Event, k: nat)
    requires AllConsistent(rings) && k < |rings|
    ensures |Apply(rings, e)| == |rings| && AllConsistent(Apply(rings, e)) && Apply(rings, e)[k].scope == rings[k].scope
    ensures forall ref :: ref in rings[k].rejected && !(e.action.Refresh? && e.at == k) ==>
              ref in Apply(rings, e)[k].rejected && Apply(rings, e)[k].rejected[ref] == rings[k].rejected[ref]
    ensures e.action.Refresh? && e.at == k ==> Apply(rings, e)[k] == Refreshed(rings[k], e.action.known, e.action.secrets)
    decreases |rings|
  {
    if e.at > 0 {
      if |rings| > 1 {
        assert AllConsistent(rings[1..]);
        ApplyAt(rings[1..], e.(at := e.at - 1), if k > 0 then k - 1 else 0);
      }
    } else {
      match e.action
      case Resolve(ref, secrets) => ResolvedKeeps(rings, secrets, ref);
      case Forget(ref) =>
        ForgottenKeeps(rings, ref);
        ForgottenAt(rings, ref, k);
      case Refresh(known, secrets) =>
    }
  }

  // ---------------------------------------------------------------------
  // A rejected value
  // ---------------------------------------------------------------------

  /** A refresh of that ring that reads anything but the rejected value. */
  predicate Replaces(e: Event, k: nat, scope: Option<string>, ref: string, value: string) {
    e.action.Refresh? && e.at == k && Read(Ring(scope, map[], {}, map[], e.action.known), e.action.secrets, ref) != Some(value)
  }

  lemma RejectionStep(rings: seq<Ring>, e: Event, k: nat, ref: string)
    requires AllConsistent(rings) && k < |rings| && ref in rings[k].rejected
    ensures |Apply(rings, e)| == |rings| && AllConsistent(Apply(rings, e)) && Apply(rings, e)[k].scope == rings[k].scope
    ensures ref in Apply(rings, e)[k].rejected <==> !Replaces(e, k, rings[k].scope, ref, rings[k].rejected[ref])
    ensures ref in Apply(rings, e)[k].rejected ==> Apply(rings, e)[k].rejected[ref] == rings[k].rejected[ref]
  {
    ApplyAt(rings, e, k);
  }

  /** Once a ring's value for a ref is rejected, no run of lookups, rejections and refreshes
      makes that ring hand out anything for the ref, unless some refresh of the ring read
      something else: another key, or none. */
  lemma {:induction false} RejectedUntilReplaced(rings: seq<Ring>, events: seq<Event>, k: nat, ref: string, secrets: Secrets)
    requires AllConsistent(rings) && k < |rings| && ref in rings[k].rejected
    requires forall i :: 0 <= i < |events| ==> !Replaces(events[i], k, rings[k].scope, ref, rings[k].rejected[ref])
    ensures var t := Run(rings, events);
      && AllConsistent(t) && |t| == |rings| && t[k].scope == rings[k].scope
      && ref in t[k].rejected && t[k].rejected[ref] == rings[k].rejected[ref]
      && Resolved(t[k..], secrets, ref).1 == None
    decreases |events|
  {
    if events != [] {
      var rest := events[..|events| - 1];
      RejectedUntilReplaced(rings, rest, k, ref, secrets);
      RejectionStep(Run(rings, rest), events[|events| - 1], k, ref);
    }
  }

  /** One rejection reaches past the caller's own ring exactly when that ring holds no value
      for the ref; so it is the ring that handed the value over, as long as it still holds it. */
  lemma RejectionReachesShared(own: Ring, shared: Ring, ref: string)
    ensures Forgotten([own, shared], ref)[1..] != [shared] <==> ref !in own.values && ref in shared.values
  {
    ForgottenAt([own, shared], ref, 1);
    ForgottenAt([own, shared], ref, 0);
    if ref !in own.values && ref in shared.values {
      assert Forgotten([own, shared], ref)[1].values != shared.values;
    }
  }

  /** Two calls that paid with the same dead own key reject it once each, and the second
      rejection takes the shared value from every other caller. */
  lemma SecondRejectionHitsShared(own: Ring, shared: Ring, ref: string)
    requires ref in own.values && ref in shared.values
    ensures var once := Forgotten([own, shared], ref);
      var twice := Forgotten(once, ref);
      && |once| == 2 && once[1] == shared
      && |twice| == 2 && ref in twice[1].rejected && ref !in twice[1].values
  {
    ForgottenAt([own, shared], ref, 0);
    ForgottenAt([own, shared], ref, 1);
    ForgottenAt(Forgotten([own, shared], ref), ref, 1);
  }

  // ---------------------------------------------------------------------
  // Between refreshes
  // ---------------------------------------------------------------------

  /** The answer already held, where looking would read nothing. */
  function Held(rings: seq<Ring>, ref: string): Option<Option<string>> {
    if rings == [] then Some(None)
    else if ref in rings[0].rejected then Some(None)
    else if ref in rings[0].values then Some(Some(rings[0].values[ref]))
    else if ref == "" || ref in rings[0].missing then Held(rings[1..], ref)
    else None
  }

  lemma {:induction false} LookingSettles(rings: seq<Ring>, secrets: Secrets, ref: string)
    ensures Held(Resolved(rings, secrets, ref).0, ref) == Some(Resolved(rings, secrets, ref).1)
  {
    if rings != [] {
      LookingSettles(rings[1..], secrets, ref);
      var (after, value) := Resolved(rings[1..], secrets, ref);
      assert forall r: Ring :: ([r] + after)[1..] == after;
    }
  }

  lemma {:induction false} SettledAnswers(rings: seq<Ring>, secrets: Secrets, ref: string)
    requires Held(rings, ref).Some?
    ensures Resolved(rings, secrets, ref) == (rings, Held(rings, ref).value)
  {
    if rings != [] && ref !in rings[0].rejected && ref !in rings[0].values {
      SettledAnswers(rings[1..], secrets, ref);
      assert rings == [rings[0]] + rings[1..];
    }
  }

  lemma {:induction false} HeldThroughLooking(rings: seq<Ring>, secrets: Secrets, ref: string, other: string)
    requires AllConsistent(rings) && Held(rings, ref).Some?
    ensures Held(Resolved(rings, secrets, other).0, ref) == Held(rings, ref)
  {
    if other == ref {
      SettledAnswers(rings, secrets, ref);
    } else if rings != [] {
      var (after, value) := Resolved(rings[1..], secrets, other);
      assert forall r: Ring :: ([r] + after)[1..] == after;
      assert forall r: Ring :: ([r] + rings[1..])[1..] == rings[1..];
      if Held(rings[1..], ref).Some? {
        HeldThroughLooking(rings[1..], secrets, ref, other);
      }
    }
  }

  lemma {:induction false} HeldThroughRejecting(rings: seq<Ring>, ref: string, other: string)
    requires Held(rings, ref).Some? && other != ref
    ensures Held(Forgotten(rings, other), ref) == Held(rings, ref)
  {
    if rings != [] {
      assert forall r: Ring :: ([r] + rings[1..])[1..] == rings[1..];
      assert forall r: Ring :: ([r] + Forgotten(rings[1..], other))[1..] == Forgotten(rings[1..], other);
      if Held(rings[1..], ref).Some? {
        HeldThroughRejecting(rings[1..], ref, other);
      }
    }
  }

  predicate Disturbs(e: Event, ref: string) { e.action.Refresh? || (e.action.Forget? && e.action.ref == ref) }

  lemma {:induction false} HeldThroughEvent(rings: seq<Ring>, e: Event, ref: string)
    requires AllConsistent(rings) && Held(rings, ref).Some? && !Disturbs(e, ref)
    ensures Held(Apply(rings, e), ref) == Held(rings, ref)
    decreases |rings|
  {
    if rings != [] && e.at > 0 {
      var below := Apply(rings[1..], e.(at := e.at - 1));
      assert ([rings[0]] + below)[1..] == below;
      if Held(rings[1..], ref).Some? {
        HeldThroughEvent(rings[1..], e.(at := e.at - 1), ref);
      }
    } else if rings != [] {
      match e.action
      case Resolve(other, secrets) => HeldThroughLooking(rings, secrets, ref, other);
      case Forget(other) => HeldThroughRejecting(rings, ref, other);
    }
  }

  lemma {:induction false} HeldThroughRun(rings: seq<Ring>, events: seq<Event>, ref: string)
    requires AllConsistent(rings) && Held(rings, ref).Some?
    requires forall i :: 0 <= i < |events| ==> !Disturbs(events[i], ref)
    ensures AllConsistent(Run(rings, events)) && Held(Run(rings, events), ref) == Held(rings, ref)
    decreases |events|
  {
    if events != [] {
      var (rest, last) := (events[..|events| - 1], events[|events| - 1]);
      HeldThroughRun(rings, rest, ref);
      var s := Run(rings, rest);
      HeldThroughEvent(s, last, ref);
      if s != [] {
        ApplyAt(s, last, 0);
      }
    }
  }

  /** Between refreshes an answer stands: whatever else is looked up or rejected, and whatever
      becomes of the backend meanwhile, the ref resolves to what it resolved to first. */
  lemma AnswersAreStable(rings: seq<Ring>, first: Secrets, events: seq<Event>, second: Secrets, ref: string)
    requires AllConsistent(rings)
    requires forall i :: 0 <= i < |events| ==> !Disturbs(events[i], ref)
    ensures Resolved(Run(Resolved(rings, first, ref).0, events), second, ref).1 == Resolved(rings, first, ref).1
  {
    var looked := Resolved(rings, first, ref).0;
    ResolvedKeeps(rings, first, ref);
    LookingSettles(rings, first, ref);
    HeldThroughRun(looked, events, ref);
    SettledAnswers(Run(looked, events), second, ref);
  }

  /** The first ring with a key of its own, reading each in turn. */
  function FirstSet(rings: seq<Ring>, secrets: Secrets, ref: string): Option<string> {
    if rings == [] then None
    else if Read(rings[0], secrets, ref).Some? then Read(rings[0], secrets, ref)
    else FirstSet(rings[1..], secrets, ref)
  }

  /** Rings just refreshed, none of which holds a rejection for the ref, answer with the
      caller's own key if one is set and the shared one otherwise. */
  lemma {:induction false} OwnElseShared(rings: seq<Ring>, secrets: Secrets, ref: string)
    requires forall i :: 0 <= i < |rings| ==> rings[i].values == map[] && rings[i].missing == {} && ref !in rings[i].rejected
    requires ref != ""
    ensures Resolved(rings, secrets, ref).1 == FirstSet(rings, secrets, ref)
  {
    if rings != [] {
      OwnElseShared(rings[1..], secrets, ref);
    }
  }

  // ---------------------------------------------------------------------
  // What a caller can pay for
  // ---------------------------------------------------------------------

  /** Looking up one ref after another. */
  function LookedUp(rings: seq<Ring>, secrets: Secrets, refs: seq<string>): seq<Ring> {
    if refs == [] then rings else Resolved(LookedUp(rings, secrets, refs[..|refs| - 1]), secrets, refs[|refs| - 1]).0
  }

  lemma {:induction false} LookedUpKeeps(rings: seq<Ring>, secrets: Secrets, refs: seq<string>)
    requires AllConsistent(rings)
    ensures AllConsistent(LookedUp(rings, secrets, refs)) && |LookedUp(rings, secrets, refs)| == |rings|
  {
    if refs != [] {
      LookedUpKeeps(rings, secrets, refs[..|refs| - 1]);
      ResolvedKeeps(LookedUp(rings, secrets, refs[..|refs| - 1]), secrets, refs[|refs| - 1]);
    }
  }

  lemma NoLookups(rings: seq<Ring>, secrets: Secrets, refs: seq<string>)
    ensures LookedUp(rings, secrets, refs[..0]) == rings
  {}

  lemma OneMoreLookup(rings: seq<Ring>, secrets: Secrets, refs: seq<string>, i: nat)
    requires i < |refs|
    ensures LookedUp(rings, secrets, refs[..i + 1]) == Resolved(LookedUp(rings, secrets, refs[..i]), secrets, refs[i]).0
  {
    assert refs[..i + 1][..i] == refs[..i];
  }

  /** A ring that differs only in what it knows of another ref. */
  ghost predicate SameFor(r: Ring, s: Ring, ref: string) {
    && s.scope == r.scope && s.known == r.known && s.rejected == r.rejected
    && (ref in s.missing <==> ref in r.missing)
    && (ref in s.values <==> ref in r.values)
    && (ref in r.values ==> s.values[ref] == r.values[ref])
  }

  lemma HeadAfterLooking(rings: seq<Ring>, secrets: Secrets, ref: string, other: string)
    requires rings != [] && other != ref
    ensures var after := Resolved(rings, secrets, other).0;
      && |after| > 0 && SameFor(rings[0], after[0], ref)
      && (after[1..] == rings[1..] || after[1..] == Resolved(rings[1..], secrets, other).0)
  {}

  /** Looking up one ref does not change what another resolves to. */
  lemma {:induction false} LookupsAreIndependent(rings: seq<Ring>, secrets: Secrets, ref: string, other: string)
    requires AllConsistent(rings)
    ensures Resolved(Resolved(rings, secrets, other).0, secrets, ref).1 == Resolved(rings, secrets, ref).1
  {
    if other == ref {
      LookingSettles(rings, secrets, ref);
      SettledAnswers(Resolved(rings, secrets, ref).0, secrets, ref);
    } else if rings != [] {
      LookupsAreIndependent(rings[1..], secrets, ref, other);
      HeadAfterLooking(rings, secrets, ref, other);
      SameHeads(rings, Resolved(rings, secrets, other).0, secrets, ref);
    }
  }

  lemma SameHeads(a: seq<Ring>, b: seq<Ring>, secrets: Secrets, ref: string)
    requires a != [] && b != [] && SameFor(a[0], b[0], ref)
    requires Resolved(a[1..], secrets, ref).1 == Resolved(b[1..], secrets, ref).1
    ensures Resolved(a, secrets, ref).1 == Resolved(b, secrets, ref).1
  {}

  lemma {:induction false} PaysFor(rings: seq<Ring>, secrets: Secrets, refs: seq<string>, ref: string)
    requires AllConsistent(rings)
    ensures Resolved(LookedUp(rings, secrets, refs), secrets, ref).1 == Resolved(rings, secrets, ref).1
  {
    if refs != [] {
      PaysFor(rings, secrets, refs[..|refs| - 1], ref);
      LookedUpKeeps(rings, secrets, refs[..|refs| - 1]);
      LookupsAreIndependent(LookedUp(rings, secrets, refs[..|refs| - 1]), secrets, ref, refs[|refs| - 1]);
    }
  }

  // ---------------------------------------------------------------------
  // The class
  // ---------------------------------------------------------------------

  class KeyRing {
    const scope: Option<string>
    const shared: KeyRing?
    ghost const repr: set<KeyRing>
    var values: map<string, string>
    var missing: set<string>
    var rejected: map<string, string>
    var known: Option<set<string>>

    /** The fallbacks end: a ring is not among its own. */
    ghost predicate Linked()
      decreases repr
    {
      && this in repr
      && if shared == null then repr == {this}
         else this !in shared.repr && repr == {this} + shared.repr && shared.repr < repr && shared.Linked()
    }

    ghost function Own(): Ring reads this { Ring(scope, values, missing, rejected, known) }

    ghost function Rings(): (r: seq<Ring>)
      requires Linked()
      reads repr
      decreases repr
    {
      [Own()] + if shared == null then [] else shared.Rings()
    }

    constructor (scope: Option<string>, shared: KeyRing?, known: Option<set<string>>)
      requires shared != null ==> shared.Linked()
      ensures Linked() && Own() == Ring(scope, map[], {}, map[], known) && this.shared == shared
    {
      this.scope, this.shared, this.known := scope, shared, known;
      this.repr := {this} + if shared == null then {} else shared.repr;
      values, missing, rejected := map[], {}, map[];
    }

    /** One backend lookup through the listing. */
    method ReadOwn(secrets: Secrets, ref: string) returns (value: Option<string>)
      ensures value == Read(Own(), secrets, ref)
    {
      var own := OwnRef(scope, ref);
      if own == "" || (known.Some? && own !in known.value) {
        return None;
      }
      if own !in secrets || !secrets[own].Holds? {
        return None;
      }
      value := Some(secrets[own].value);
    }

    method Resolve(secrets: Secrets, ref: string) returns (value: Option<string>)
      requires Linked()
      modifies repr
      ensures (Rings(), value) == Resolved(old(Rings()), secrets, ref)
      decreases repr
    {
      if ref in rejected {
        return None;
      }
      if ref in values {
        return Some(values[ref]);
      }
      assert shared != null ==> Rings()[1..] == shared.Rings();
      assert shared == null ==> Rings()[1..] == [];
      if ref != "" && ref !in missing {
        var own := ReadOwn(secrets, ref);
        if own.Some? {
          values := values[ref := own.value];
          return own;
        }
        missing := missing + {ref};
      }
      if shared == null {
        return None;
      }
      value := shared.Resolve(secrets, ref);
    }

    method Payable(secrets: Secrets, refs: seq<string>) returns (payable: set<string>)
      requires Linked() && AllConsistent(Rings())
      modifies repr
      ensures Rings() == LookedUp(old(Rings()), secrets, refs)
      ensures forall ref :: ref in payable <==> ref in refs && Resolved(old(Rings()), secrets, ref).1.Some?
    {
      hide Resolved, LookedUp, Rings, Linked;
      payable := {};
      ghost var before := Rings();
      NoLookups(before, secrets, refs);
      for i := 0 to |refs|
        invariant Rings() == LookedUp(before, secrets, refs[..i])
        invariant forall ref :: ref in payable <==> ref in refs[..i] && Resolved(before, secrets, ref).1.Some?
      {
        assert refs[..i + 1] == refs[..i] + [refs[i]];
        OneMoreLookup(before, secrets, refs, i);
        PaysFor(before, secrets, refs[..i], refs[i]);
        var value := Resolve(secrets, refs[i]);
        if value.Some? {
          payable := payable + {refs[i]};
        }
      }
      assert refs[..|refs|] == refs;
    }

    method Forget(ref: string)
      requires Linked()
      modifies repr
      ensures Rings() == Forgotten(old(Rings()), ref)
      decreases repr
    {
      assert shared != null ==> Rings()[1..] == shared.Rings();
      assert shared == null ==> Rings()[1..] == [];
      if ref !in values {
        if shared != null {
          shared.Forget(ref);
        }
        return;
      }
      rejected := rejected[ref := values[ref]];
      missing := missing - {ref};
      values := values - {ref};
    }

    /** The rejections whose value the backend still gives. */
    method StillRejected(secrets: Secrets) returns (kept: map<string, string>)
      ensures kept == map ref | ref in rejected && Read(Own(), secrets, ref) == Some(rejected[ref]) :: rejected[ref]
    {
      kept := map[];
      var left := rejected.Keys;
      while left != {}
        invariant left <= rejected.Keys
        invariant forall ref :: ref in kept <==>
                    ref in rejected && ref !in left && Read(Own(), secrets, ref) == Some(rejected[ref])
        invariant forall ref :: ref in kept ==> kept[ref] == rejected[ref]
        decreases |left|
      {
        var ref :| ref in left;
        var value := ReadOwn(secrets, ref);
        if value == Some(rejected[ref]) {
          kept := kept[ref := rejected[ref]];
        }
        left := left - {ref};
      }
    }

    method Refresh(known: Option<set<string>>, secrets: Secrets)
      modifies this
      ensures Own() == Refreshed(old(Own()), known, secrets)
    {
      values, missing := map[], {};
      this.known := known;
      rejected := StillRejected(secrets);
    }
  }
}
