/** The merge: an arriving model list becomes the one this installation follows. */
module Merge {
  import opened Common
  import opened Models

  /** Onboarding help for one key reference. */
  datatype KeyInfo = KeyInfo(apiKeyRef: string, help: string, extra: map<string, string>)

  datatype ModelList = ModelList(configs: seq<LLMConfig>, keys: map<string, KeyInfo>)

  datatype PendingKey = PendingKey(apiKeyRef: string, help: string, entryNames: seq<string>)

  datatype Report = Report(
    added: seq<string>,
    updated: seq<string>,
    removed: seq<string>,
    orphanRefs: seq<string>,
    pendingKeys: seq<PendingKey>,
    activeBefore: nat,
    activeAfter: nat)

  datatype SyncError =
    | ModelChanged(name: string)
    | NameClash(name: string)
    | Emptying(entries: nat)
    | DuplicateAlias(alias: string)
    | Malformed(problem: Problem)

  /** What a reader refuses a model list for. */
  datatype Problem =
    | DeclaredEntries
    | NotATable(position: nat)
    | BadWeight(position: nat)
    | DuplicateName(name: string)
    | BadKeys

  // ---------------------------------------------------------------------
  // Entries by name
  // ---------------------------------------------------------------------

  function NamesOf(configs: seq<LLMConfig>): (r: seq<string>)
    ensures |r| == |configs| && forall i :: 0 <= i < |configs| ==> r[i] == configs[i].name
  {
    if configs == [] then [] else [configs[0].name] + NamesOf(configs[1..])
  }

  /** A dictionary by name: a later entry replaces an earlier one. */
  function ByName(configs: seq<LLMConfig>): map<string, LLMConfig> {
    if configs == [] then map[]
    else ByName(configs[..|configs| - 1])[configs[|configs| - 1].name := configs[|configs| - 1]]
  }

  ghost predicate DistinctNames(configs: seq<LLMConfig>) {
    forall i, j :: 0 <= i < j < |configs| ==> configs[i].name != configs[j].name
  }

  function NameSet(configs: seq<LLMConfig>): set<string> { set c | c in configs :: c.name }

  lemma NameSetConcat(a: seq<LLMConfig>, b: seq<LLMConfig>)
    ensures NameSet(a + b) == NameSet(a) + NameSet(b)
  {}

  lemma {:induction false} ByNameHas(configs: seq<LLMConfig>)
    ensures ByName(configs).Keys == NameSet(configs)
    ensures forall n :: n in ByName(configs) ==> ByName(configs)[n] in configs && ByName(configs)[n].name == n
  {
    if configs != [] {
      var (rest, last) := (configs[..|configs| - 1], configs[|configs| - 1]);
      ByNameHas(rest);
      assert configs == rest + [last];
      NameSetConcat(rest, [last]);
      assert NameSet([last]) == {last.name};
    }
  }

  lemma ByNameFinds(configs: seq<LLMConfig>, c: LLMConfig)
    requires DistinctNames(configs) && c in configs
    ensures c.name in ByName(configs) && ByName(configs)[c.name] == c
  {
    ByNameHas(configs);
    assert c.name in NameSet(configs);
    var found := ByName(configs)[c.name];
    var i :| 0 <= i < |configs| && configs[i] == found;
    var j :| 0 <= j < |configs| && configs[j] == c;
    assert i < j || j < i || i == j;
  }

  function FromPreset(flag: bool): LLMConfig -> bool { (c: LLMConfig) => c.fromPreset == flag }

  /** The entries a preset supplied, which are what a sync may replace. */
  function Curated(l: ModelList): seq<LLMConfig> { Filter(l.configs, FromPreset(true)) }

  function Owned(l: ModelList): seq<LLMConfig> { Filter(l.configs, FromPreset(false)) }

  // ---------------------------------------------------------------------
  // The checks
  // ---------------------------------------------------------------------

  predicate ChangesModel(c: LLMConfig, stored: map<string, LLMConfig>) {
    c.name in stored && stored[c.name].model != c.model
  }

  function FirstChanged(arriving: seq<LLMConfig>, stored: map<string, LLMConfig>): Option<string> {
    if arriving == [] then None
    else if ChangesModel(arriving[0], stored) then Some(arriving[0].name)
    else FirstChanged(arriving[1..], stored)
  }

  /** The first name met that was met before. */
  function FirstRepeated(configs: seq<LLMConfig>, seen: set<string>): Option<string> {
    if configs == [] then None
    else if configs[0].name in seen then Some(configs[0].name)
    else FirstRepeated(configs[1..], seen + {configs[0].name})
  }

  /** `_check_model_identity`. */
  method CheckModelIdentity(arriving: seq<LLMConfig>, stored: map<string, LLMConfig>) returns (changed: Option<string>)
    ensures changed == FirstChanged(arriving, stored)
  {
    for i := 0 to |arriving|
      invariant FirstChanged(arriving, stored) == FirstChanged(arriving[i..], stored)
    {
      assert arriving[i..][1..] == arriving[i + 1..];
      if arriving[i].name in stored && stored[arriving[i].name].model != arriving[i].model {
        return Some(arriving[i].name);
      }
    }
    changed := None;
  }

  /** `_check_name_clash`, and the reader's check for unique names. */
  method CheckNameClash(configs: seq<LLMConfig>) returns (clash: Option<string>)
    ensures clash == FirstRepeated(configs, {})
  {
    var seen: set<string> := {};
    for i := 0 to |configs|
      invariant FirstRepeated(configs, {}) == FirstRepeated(configs[i..], seen)
    {
      assert configs[i..][1..] == configs[i + 1..];
      if configs[i].name in seen {
        return Some(configs[i].name);
      }
      seen := seen + {configs[i].name};
    }
    clash := None;
  }

  lemma {:induction false} RepeatedIs(configs: seq<LLMConfig>, seen: set<string>)
    ensures FirstRepeated(configs, seen).None? <==>
              DistinctNames(configs) && forall i :: 0 <= i < |configs| ==> configs[i].name !in seen
  {
    if configs != [] {
      RepeatedIs(configs[1..], seen + {configs[0].name});
      if DistinctNames(configs[1..]) && forall i :: 0 <= i < |configs[1..]| ==> configs[1..][i].name !in seen + {configs[0].name} {
        forall j | 0 < j < |configs| ensures configs[j].name != configs[0].name && configs[j].name !in seen {
          assert configs[1..][j - 1] == configs[j];
        }
      }
      if DistinctNames(configs) && forall i :: 0 <= i < |configs| ==> configs[i].name !in seen {
        assert forall i :: 0 <= i < |configs[1..]| ==> configs[1..][i] == configs[i + 1];
      }
    }
  }

  lemma {:induction false} ChangedIs(arriving: seq<LLMConfig>, stored: map<string, LLMConfig>)
    ensures FirstChanged(arriving, stored).None? <==> forall i :: 0 <= i < |arriving| ==> !ChangesModel(arriving[i], stored)
  {
    if arriving != [] {
      ChangedIs(arriving[1..], stored);
      assert forall i :: 0 < i < |arriving| ==> arriving[i] == arriving[1..][i - 1];
    }
  }

  // ---------------------------------------------------------------------
  // Key references
  // ---------------------------------------------------------------------

  /** Distinct references in first-mention order, blank ones left out. */
  function DistinctRefs(entries: seq<LLMConfig>): seq<string> {
    if entries == [] then []
    else
      var (before, ref) := (DistinctRefs(entries[..|entries| - 1]), entries[|entries| - 1].apiKeyRef);
      if ref == "" || ref in before then before else before + [ref]
  }

  function RefsOf(entries: seq<LLMConfig>): set<string> { set c | c in entries && c.apiKeyRef != "" :: c.apiKeyRef }

  function OrphanRefs(removed: seq<LLMConfig>, merged: seq<LLMConfig>, present: set<string>): seq<string> {
    Filter(DistinctRefs(removed), ref => ref !in RefsOf(merged) && ref in present)
  }

  predicate LacksKey(c: LLMConfig, present: set<string>) { c.apiKeyRef != "" && c.apiKeyRef !in present }

  function Waiting(present: set<string>): LLMConfig -> bool { (c: LLMConfig) => LacksKey(c, present) }

  function WithRef(ref: string): LLMConfig -> bool { (c: LLMConfig) => c.apiKeyRef == ref }

  function PendingFor(refs: seq<string>, waiting: seq<LLMConfig>, keys: map<string, KeyInfo>): seq<PendingKey> {
    if refs == [] then []
    else
      [PendingKey(refs[0], if refs[0] in keys then keys[refs[0]].help else "", NamesOf(Filter(waiting, WithRef(refs[0]))))]
      + PendingFor(refs[1..], waiting, keys)
  }

  function PendingKeys(merged: seq<LLMConfig>, keys: map<string, KeyInfo>, present: set<string>): seq<PendingKey> {
    PendingFor(DistinctRefs(Filter(merged, Waiting(present))), Filter(merged, Waiting(present)), keys)
  }

  lemma {:induction false} DistinctRefsAre(entries: seq<LLMConfig>)
    ensures Distinct(DistinctRefs(entries))
    ensures forall ref :: ref in DistinctRefs(entries) <==> ref in RefsOf(entries)
  {
    if entries != [] {
      var (rest, last) := (entries[..|entries| - 1], entries[|entries| - 1]);
      DistinctRefsAre(rest);
      assert entries == rest + [last];
      assert RefsOf(entries) == RefsOf(rest) + if last.apiKeyRef == "" then {} else {last.apiKeyRef};
    }
  }

  /** A key is reported for revoking exactly when a removed entry used it, it exists here, and
      nothing that stays references it; and it is reported once. */
  lemma OrphansAreUnused(removed: seq<LLMConfig>, merged: seq<LLMConfig>, present: set<string>)
    ensures Distinct(OrphanRefs(removed, merged, present))
    ensures forall ref :: ref in OrphanRefs(removed, merged, present) <==>
              ref in RefsOf(removed) && ref in present && ref !in RefsOf(merged)
  {
    DistinctRefsAre(removed);
    var keep := (ref: string) => ref !in RefsOf(merged) && ref in present;
    FilterDistinct(DistinctRefs(removed), keep);
    FilterMembers(DistinctRefs(removed), keep);
    FilterCongruent(DistinctRefs(removed), keep, ref => ref !in RefsOf(merged) && ref in present);
  }

  lemma {:induction false} PendingAre(refs: seq<string>, waiting: seq<LLMConfig>, keys: map<string, KeyInfo>)
    ensures |PendingFor(refs, waiting, keys)| == |refs|
    ensures forall i :: 0 <= i < |refs| ==>
              var p := PendingFor(refs, waiting, keys)[i];
              p.apiKeyRef == refs[i] && p.entryNames == NamesOf(Filter(waiting, WithRef(refs[i])))
  {
    if refs != [] {
      PendingAre(refs[1..], waiting, keys);
    }
  }

  lemma NameAmong(configs: seq<LLMConfig>, c: LLMConfig)
    requires c in configs
    ensures c.name in NamesOf(configs)
  {
    var k :| 0 <= k < |configs| && configs[k] == c;
    assert NamesOf(configs)[k] == c.name;
  }

  lemma HeldStep(merged: seq<LLMConfig>, present: set<string>, i: nat, ref: string)
    requires i < |merged|
    ensures var (before, c) := (Filter(merged[..i], Waiting(present)), merged[i]);
      var after := Filter(merged[..i + 1], Waiting(present));
      && after == (if LacksKey(c, present) then before + [c] else before)
      && DistinctRefs(after) == (if LacksKey(c, present) && c.apiKeyRef !in DistinctRefs(before)
                                 then DistinctRefs(before) + [c.apiKeyRef] else DistinctRefs(before))
      && NamesOf(Filter(after, WithRef(ref))) ==
           (if LacksKey(c, present) && c.apiKeyRef == ref then NamesOf(Filter(before, WithRef(ref))) + [c.name]
            else NamesOf(Filter(before, WithRef(ref))))
  {
    var (before, c) := (Filter(merged[..i], Waiting(present)), merged[i]);
    assert merged[..i + 1] == merged[..i] + [c];
    FilterAppend(merged[..i], [c], Waiting(present));
    assert [c][1..] == [];
    if LacksKey(c, present) {
      assert (before + [c])[..|before|] == before;
      FilterAppend(before, [c], WithRef(ref));
      NamesOfConcat(Filter(before, WithRef(ref)), Filter([c], WithRef(ref)));
    }
  }

  lemma NamesOfConcat(a: seq<LLMConfig>, b: seq<LLMConfig>)
    ensures NamesOf(a + b) == NamesOf(a) + NamesOf(b)
  {}

  /** The loop of `_pending_keys`: each missing reference in first-mention order, with the
      names of the entries it holds back. */
  method HoldBack(merged: seq<LLMConfig>, present: set<string>) returns (refs: seq<string>, names: map<string, seq<string>>)
    ensures refs == DistinctRefs(Filter(merged, Waiting(present)))
    ensures forall ref :: ref in refs <==> ref in names
    ensures forall ref :: ref in names ==> names[ref] == NamesOf(Filter(Filter(merged, Waiting(present)), WithRef(ref)))
  {
    hide Filter, DistinctRefs, NamesOf;
    refs, names := [], map[];
    NothingHeld(merged, present);
    for i := 0 to |merged|
      invariant refs == DistinctRefs(Filter(merged[..i], Waiting(present)))
      invariant forall ref :: ref in refs <==> ref in names
      invariant forall ref :: (if ref in names then names[ref] else []) ==
                  NamesOf(Filter(Filter(merged[..i], Waiting(present)), WithRef(ref)))
    {
      forall ref { HeldStep(merged, present, i, ref); }
      HeldStep(merged, present, i, "");
      var c := merged[i];
      if c.apiKeyRef == "" || c.apiKeyRef in present {
        continue;
      }
      if c.apiKeyRef in names {
        names := names[c.apiKeyRef := names[c.apiKeyRef] + [c.name]];
      } else {
        refs := refs + [c.apiKeyRef];
        names := names[c.apiKeyRef := [] + [c.name]];
      }
    }
    assert merged[..|merged|] == merged;
  }

  lemma NothingHeld(merged: seq<LLMConfig>, present: set<string>)
    ensures DistinctRefs(Filter(merged[..0], Waiting(present))) == []
    ensures forall ref :: NamesOf(Filter(Filter(merged[..0], Waiting(present)), WithRef(ref))) == []
  {}

  /** Every entry whose key is not here is held back under exactly one pending key, its own. */
  lemma PendingCoversTheWaiting(merged: seq<LLMConfig>, keys: map<string, KeyInfo>, present: set<string>, c: LLMConfig)
    requires c in merged && LacksKey(c, present)
    ensures var pending := PendingKeys(merged, keys, present);
      exists i :: 0 <= i < |pending| && pending[i].apiKeyRef == c.apiKeyRef && c.name in pending[i].entryNames
                  && forall j :: 0 <= j < |pending| && pending[j].apiKeyRef == c.apiKeyRef ==> j == i
  {
    var waiting := Filter(merged, Waiting(present));
    var (refs, pending) := (DistinctRefs(waiting), PendingKeys(merged, keys, present));
    FilterMembers(merged, Waiting(present));
    DistinctRefsAre(waiting);
    PendingAre(refs, waiting, keys);
    assert c.apiKeyRef in RefsOf(waiting);
    var i :| 0 <= i < |refs| && refs[i] == c.apiKeyRef;
    FilterMembers(waiting, WithRef(c.apiKeyRef));
    NameAmong(Filter(waiting, WithRef(c.apiKeyRef)), c);
    assert pending[i].apiKeyRef == c.apiKeyRef && c.name in pending[i].entryNames;
    assert forall j :: 0 <= j < |pending| ==> pending[j].apiKeyRef == refs[j];
    assert forall j :: 0 <= j < |pending| && pending[j].apiKeyRef == c.apiKeyRef ==> j == i;
  }

  // ---------------------------------------------------------------------
  // The merge
  // ---------------------------------------------------------------------

  /** What the installation's own entries keep of the help it had. */
  function KeptKeys(arriving: map<string, KeyInfo>, owned: seq<LLMConfig>, current: map<string, KeyInfo>): map<string, KeyInfo> {
    map ref | ref in arriving.Keys + (RefsOf(owned) * current.Keys) :: if ref in arriving then arriving[ref] else current[ref]
  }

  function ActiveCount(configs: seq<LLMConfig>, present: set<string>): nat {
    if configs == [] then 0 else ActiveCount(configs[1..], present) + if configs[0].apiKeyRef in present then 1 else 0
  }

  function Missing(from: map<string, LLMConfig>): LLMConfig -> bool { (c: LLMConfig) => c.name !in from }

  function Differs(from: map<string, LLMConfig>): LLMConfig -> bool {
    (c: LLMConfig) => c.name in from && from[c.name] != c
  }

  function ReportOf(upstream: ModelList, current: ModelList, keys: map<string, KeyInfo>, present: set<string>): Report {
    var (arriving, curated) := (Curated(upstream), Curated(current));
    var merged := arriving + Owned(current);
    var removed := Filter(curated, Missing(ByName(arriving)));
    Report(NamesOf(Filter(arriving, Missing(ByName(curated)))),
           NamesOf(Filter(arriving, Differs(ByName(curated)))),
           NamesOf(removed),
           OrphanRefs(removed, merged, present),
           PendingKeys(merged, keys, present),
           ActiveCount(current.configs, present),
           ActiveCount(merged, present))
  }

  /** `merge_model_list`: the merge and its one structural guard. */
  function Merged(upstream: ModelList, current: ModelList, present: set<string>): Result<(ModelList, Report), SyncError> {
    var (arriving, curated, owned) := (Curated(upstream), Curated(current), Owned(current));
    var (changed, clash) := (FirstChanged(arriving, ByName(curated)), FirstRepeated(arriving + owned, {}));
    if changed.Some? then Err(ModelChanged(changed.value))
    else if clash.Some? then Err(NameClash(clash.value))
    else if arriving + owned == [] && current.configs != [] then Err(Emptying(|current.configs|))
    else
      var keys := KeptKeys(upstream.keys, owned, current.keys);
      Ok((ModelList(arriving + owned, keys), ReportOf(upstream, current, keys, present)))
  }

  /** The merge succeeds exactly when no stored model would change under its name, no name
      would be carried twice, and a working list would not be emptied. */
  lemma MergeSucceedsWhen(upstream: ModelList, current: ModelList, present: set<string>)
    requires DistinctNames(current.configs)
    ensures Merged(upstream, current, present).Ok? <==>
              && (forall a, s :: a in upstream.configs && s in current.configs ==> !Bumps(a, s))
              && DistinctNames(Curated(upstream) + Owned(current))
              && (current.configs != [] ==> Curated(upstream) + Owned(current) != [])
  {
    ChangedIs(Curated(upstream), ByName(Curated(current)));
    RepeatedIs(Curated(upstream) + Owned(current), {});
    IdentityIs(upstream, current);
  }

  /** The preset gives an entry a model other than the one stored under its name. */
  predicate Bumps(a: LLMConfig, s: LLMConfig) { a.fromPreset && s.fromPreset && a.name == s.name && a.model != s.model }

  lemma IdentityIs(upstream: ModelList, current: ModelList)
    requires DistinctNames(current.configs)
    ensures (forall i :: 0 <= i < |Curated(upstream)| ==> !ChangesModel(Curated(upstream)[i], ByName(Curated(current)))) <==>
            (forall a, s :: a in upstream.configs && s in current.configs ==> !Bumps(a, s))
  {
    var (arriving, curated) := (Curated(upstream), Curated(current));
    FilterMembers(upstream.configs, FromPreset(true));
    FilterMembers(current.configs, FromPreset(true));
    FilterKeepsNames(current.configs, FromPreset(true));
    if forall i :: 0 <= i < |arriving| ==> !ChangesModel(arriving[i], ByName(curated)) {
      forall a, s | a in upstream.configs && s in current.configs ensures !Bumps(a, s) {
        if a.fromPreset && s.fromPreset && a.name == s.name {
          var i :| 0 <= i < |arriving| && arriving[i] == a;
          ByNameFinds(curated, s);
          assert !ChangesModel(arriving[i], ByName(curated));
        }
      }
    } else {
      var i :| 0 <= i < |arriving| && ChangesModel(arriving[i], ByName(curated));
      ByNameHas(curated);
      assert arriving[i] in arriving;
      assert Bumps(arriving[i], ByName(curated)[arriving[i].name]);
    }
  }

  lemma {:induction false} FilterKeepsNames(configs: seq<LLMConfig>, keep: LLMConfig -> bool)
    requires DistinctNames(configs)
    ensures DistinctNames(Filter(configs, keep))
  {
    if configs != [] {
      FilterKeepsNames(configs[1..], keep);
      FilterMembers(configs[1..], keep);
      var rest := Filter(configs[1..], keep);
      forall j | 0 <= j < |rest| ensures rest[j].name != configs[0].name {
        assert rest[j] in rest;
        var k :| 0 <= k < |configs[1..]| && configs[1..][k] == rest[j];
        assert configs[k + 1] == rest[j];
      }
    }
  }

  lemma NamesAre(configs: seq<LLMConfig>)
    ensures forall n :: n in NamesOf(configs) <==> n in NameSet(configs)
  {
    forall n | n in NameSet(configs) ensures n in NamesOf(configs) {
      var c :| c in configs && c.name == n;
      var i :| 0 <= i < |configs| && configs[i] == c;
      assert NamesOf(configs)[i] == n;
    }
  }

  /** The installation's own entries come through as they were, in order and after the curated
      ones, and so does the help for their keys; and the report accounts for every name: what
      there was, less what was removed, plus what was added, is what there is. */
  lemma NothingOwnedIsTouched(upstream: ModelList, current: ModelList, present: set<string>)
    requires DistinctNames(current.configs) && Merged(upstream, current, present).Ok?
    ensures var (l, r) := Merged(upstream, current, present).value;
      && Owned(l) == Owned(current)
      && Curated(l) == Curated(upstream)
      && (forall ref :: ref in RefsOf(Owned(current)) && ref in current.keys ==>
            ref in l.keys && (ref !in upstream.keys ==> l.keys[ref] == current.keys[ref]))
      && NameSet(l.configs) == NameSet(current.configs) - (set n | n in r.removed) + (set n | n in r.added)
  {
    var (arriving, curated, owned) := (Curated(upstream), Curated(current), Owned(current));
    var (l, r) := Merged(upstream, current, present).value;
    FilterMembers(current.configs, FromPreset(true));
    FilterMembers(current.configs, FromPreset(false));
    FirstPartition(upstream, current, l);
    OwnNames(current);
    NamesBalance(arriving, curated, owned, current.configs);
    NamesAre(Filter(curated, Missing(ByName(arriving))));
    NamesAre(Filter(arriving, Missing(ByName(curated))));
  }

  lemma OwnNames(l: ModelList)
    requires DistinctNames(l.configs)
    ensures NameSet(Curated(l)) !! NameSet(Owned(l))
  {
    FilterMembers(l.configs, FromPreset(true));
    FilterMembers(l.configs, FromPreset(false));
    forall a, b | a in Curated(l) && b in Owned(l) ensures a.name != b.name {
      ByNameFinds(l.configs, a);
      ByNameFinds(l.configs, b);
    }
  }

  lemma {:induction false} FilterOut(configs: seq<LLMConfig>, keep: LLMConfig -> bool)
    requires forall c :: c in configs ==> !keep(c)
    ensures Filter(configs, keep) == []
  {
    if configs != [] {
      FilterOut(configs[1..], keep);
    }
  }

  lemma NamesOfKept(configs: seq<LLMConfig>, others: seq<LLMConfig>)
    ensures NameSet(Filter(configs, Missing(ByName(others)))) == NameSet(configs) - NameSet(others)
  {
    var kept := Filter(configs, Missing(ByName(others)));
    FilterMembers(configs, Missing(ByName(others)));
    ByNameHas(others);
    forall n | n in NameSet(configs) - NameSet(others) ensures n in NameSet(kept) {
      var c :| c in configs && c.name == n;
      assert c in kept;
    }
  }

  lemma NamesBalance(arriving: seq<LLMConfig>, curated: seq<LLMConfig>, owned: seq<LLMConfig>, all: seq<LLMConfig>)
    requires forall c :: c in all <==> c in curated || c in owned
    requires NameSet(curated) !! NameSet(owned)
    ensures NameSet(arriving + owned) ==
            NameSet(all) - NameSet(Filter(curated, Missing(ByName(arriving)))) + NameSet(Filter(arriving, Missing(ByName(curated))))
  {
    NamesOfKept(curated, arriving);
    NamesOfKept(arriving, curated);
    NameSetConcat(arriving, owned);
    assert NameSet(all) == NameSet(curated) + NameSet(owned);
  }

  // ---------------------------------------------------------------------
  // Merging again
  // ---------------------------------------------------------------------

  /** The same entries in any order: what a database hands back. */
  ghost predicate SameEntries(a: seq<LLMConfig>, b: seq<LLMConfig>) {
    DistinctNames(a) && DistinctNames(b) && forall c :: c in a <==> c in b
  }

  /** Entries owned and curated of two lists of the same entries. */
  lemma SamePartition(a: ModelList, b: ModelList)
    requires SameEntries(a.configs, b.configs)
    ensures SameEntries(Curated(a), Curated(b)) && SameEntries(Owned(a), Owned(b))
  {
    FilterMembers(a.configs, FromPreset(true));
    FilterMembers(b.configs, FromPreset(true));
    FilterMembers(a.configs, FromPreset(false));
    FilterMembers(b.configs, FromPreset(false));
    FilterKeepsNames(a.configs, FromPreset(true));
    FilterKeepsNames(b.configs, FromPreset(true));
    FilterKeepsNames(a.configs, FromPreset(false));
    FilterKeepsNames(b.configs, FromPreset(false));
  }

  lemma NothingNew(arriving: seq<LLMConfig>, stored: seq<LLMConfig>)
    requires SameEntries(arriving, stored)
    ensures FirstChanged(arriving, ByName(stored)) == None
    ensures Filter(arriving, Missing(ByName(stored))) == [] && Filter(stored, Missing(ByName(arriving))) == []
    ensures Filter(arriving, Differs(ByName(stored))) == []
  {
    ChangedIs(arriving, ByName(stored));
    forall c | c in arriving ensures c.name in ByName(stored) && ByName(stored)[c.name] == c { ByNameFinds(stored, c); }
    forall c | c in stored ensures c.name in ByName(arriving) { ByNameFinds(arriving, c); }
    FilterOut(arriving, Missing(ByName(stored)));
    FilterOut(stored, Missing(ByName(arriving)));
    FilterOut(arriving, Differs(ByName(stored)));
  }

  lemma JoinedNames(arriving: seq<LLMConfig>, l: ModelList)
    requires DistinctNames(l.configs) && SameEntries(arriving, Curated(l))
    ensures SameEntries(arriving + Owned(l), l.configs)
  {
    var all := arriving + Owned(l);
    FilterMembers(l.configs, FromPreset(true));
    FilterMembers(l.configs, FromPreset(false));
    FilterKeepsNames(l.configs, FromPreset(false));
    OwnNames(l);
    forall i, j | 0 <= i < j < |all| ensures all[i].name != all[j].name {
      if i < |arriving| <= j {
        assert all[i] in Curated(l) && all[j] in Owned(l);
        assert all[i].name in NameSet(Curated(l)) && all[j].name in NameSet(Owned(l));
      }
    }
  }

  lemma DictOfSame(a: seq<LLMConfig>, b: seq<LLMConfig>)
    requires SameEntries(a, b)
    ensures ByName(a) == ByName(b)
  {
    ByNameHas(a);
    ByNameHas(b);
    forall n | n in ByName(a) ensures n in ByName(b) && ByName(b)[n] == ByName(a)[n] { ByNameFinds(b, ByName(a)[n]); }
    forall n | n in ByName(b) ensures n in ByName(a) { ByNameFinds(a, ByName(b)[n]); }
  }

  /** Merging the same list into what the first merge left, in whatever order a store gives it
      back, decides nothing: no entry is added, updated or removed. */
  lemma SecondMergeIsStill(upstream: ModelList, current: ModelList, present: set<string>,
                           stored: ModelList, presentNow: set<string>)
    requires Merged(upstream, current, present).Ok?
    requires SameEntries(Merged(upstream, current, present).value.0.configs, stored.configs)
    ensures Merged(upstream, stored, presentNow).Ok?
    ensures var (l, r) := Merged(upstream, stored, presentNow).value;
      && r.added == [] && r.updated == [] && r.removed == []
      && SameEntries(l.configs, stored.configs) && ByName(l.configs) == ByName(stored.configs)
      && l.configs == Curated(upstream) + Owned(stored)
  {
    var first := Merged(upstream, current, present).value.0;
    var (arriving, again) := (Curated(upstream), Curated(upstream) + Owned(stored));
    FirstPartition(upstream, current, first);
    SamePartition(first, stored);
    NothingNew(arriving, Curated(stored));
    JoinedNames(arriving, stored);
    RepeatedIs(again, {});
    DictOfSame(again, stored.configs);
  }

  lemma FirstPartition(upstream: ModelList, current: ModelList, first: ModelList)
    requires first.configs == Curated(upstream) + Owned(current)
    ensures Curated(first) == Curated(upstream) && Owned(first) == Owned(current)
  {
    var (arriving, owned) := (Curated(upstream), Owned(current));
    FilterMembers(upstream.configs, FromPreset(true));
    FilterMembers(current.configs, FromPreset(false));
    FilterAppend(arriving, owned, FromPreset(true));
    FilterAppend(arriving, owned, FromPreset(false));
    FilterAll(arriving, FromPreset(true));
    FilterAll(owned, FromPreset(false));
    FilterOut(arriving, FromPreset(false));
    FilterOut(owned, FromPreset(true));
  }
}
