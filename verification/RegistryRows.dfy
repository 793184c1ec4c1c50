/** A database registry: rows of core columns and a metadata column, mirrored in full by a
    sync and read back in whatever order the store hands them over. */
module RegistryRows {
  import opened Common
  import opened Models
  import opened Merge

  const RESERVED_BODY_KEYS := {"model", "messages", "stream", "stream_options", "tools"}

  /** What the constructor refuses to build: a request parameter llmbroker sets itself. */
  predicate Buildable(c: LLMConfig) { c.toolParams.Keys !! RESERVED_BODY_KEYS }

  // ---------------------------------------------------------------------
  // The metadata column
  // ---------------------------------------------------------------------

  type Metadata = map<string, Json>

  function Put(m: Metadata, when: bool, key: string, value: Json): Metadata { if when then m[key := value] else m }

  /** Only what is not the default is stored. */
  function ToMetadata(c: LLMConfig): Metadata {
    var paced := Put(map[], c.parallel.Some?, "parallel", JInt(if c.parallel.Some? then c.parallel.value else 0));
    var sourced := Put(paced, c.fromPreset, "from_preset", JBool(true));
    var named := Put(sourced, c.alias.Some?, "alias", JText(if c.alias.Some? then c.alias.value else ""));
    var weighed := Put(named, c.weight != 0.0, "weight", JReal(c.weight));
    Put(weighed, c.toolParams != map[], "tool_params", JTable(c.toolParams))
  }

  /** `to_metadata`, step by step. */
  method BuildMetadata(c: LLMConfig) returns (metadata: Metadata)
    ensures metadata == ToMetadata(c)
  {
    metadata := map[];
    if c.parallel.Some? {
      metadata := metadata["parallel" := JInt(c.parallel.value)];
    }
    if c.fromPreset {
      metadata := metadata["from_preset" := JBool(true)];
    }
    if c.alias.Some? {
      metadata := metadata["alias" := JText(c.alias.value)];
    }
    if c.weight != 0.0 {
      metadata := metadata["weight" := JReal(c.weight)];
    }
    if c.toolParams != map[] {
      metadata := metadata["tool_params" := JTable(c.toolParams)];
    }
  }

  function Clamped(x: real): real { Min(1.0, Max(0.0, x)) }

  /** A stored weight is clamped where a hand-written one would be refused. */
  function WeightFrom(raw: Option<Json>): real {
    match raw
    case Some(JInt(n)) => Clamped(n as real)
    case Some(JReal(r)) => Clamped(r)
    case _ => 0.0
  }

  function ToolParamsFrom(raw: Option<Json>): map<string, Json> {
    match raw
    case Some(JTable(entries)) => entries - RESERVED_BODY_KEYS
    case _ => map[]
  }

  datatype Row = Row(baseUrl: string, model: string, apiKeyRef: string, metadata: Option<Metadata>)

  /** `from_metadata`: what is not of its type is read as the default, and nothing raises. */
  function FromRow(name: string, row: Row): (c: LLMConfig)
    ensures Buildable(c) && 0.0 <= c.weight <= 1.0
  {
    var m := if row.metadata.Some? then row.metadata.value else map[];
    var (preset, alias) := (Get(m, "from_preset"), Get(m, "alias"));
    LLMConfig(name, row.baseUrl, row.model, row.apiKeyRef,
              IntOrNone(Get(m, "parallel")),
              preset.Some? && preset.value.JBool? && preset.value.flag,
              if alias.Some? && alias.value.JText? then Some(alias.value.text) else None,
              WeightFrom(Get(m, "weight")),
              ToolParamsFrom(Get(m, "tool_params")))
  }

  function ToRow(c: LLMConfig): Row { Row(c.baseUrl, c.model, c.apiKeyRef, Some(ToMetadata(c))) }

  lemma MetadataHolds(c: LLMConfig)
    ensures var m := ToMetadata(c);
      && Get(m, "parallel") == (if c.parallel.Some? then Some(JInt(c.parallel.value)) else None)
      && Get(m, "from_preset") == (if c.fromPreset then Some(JBool(true)) else None)
      && Get(m, "alias") == (if c.alias.Some? then Some(JText(c.alias.value)) else None)
      && Get(m, "weight") == (if c.weight != 0.0 then Some(JReal(c.weight)) else None)
      && Get(m, "tool_params") == (if c.toolParams != map[] then Some(JTable(c.toolParams)) else None)
  {}

  /** A config written to a row and read back is itself exactly when its weight is one a
      curator may write. */
  lemma RowRoundTrip(c: LLMConfig)
    requires Buildable(c)
    ensures FromRow(c.name, ToRow(c)) == c <==> 0.0 <= c.weight <= 1.0
  {
    MetadataHolds(c);
    assert c.toolParams - RESERVED_BODY_KEYS == c.toolParams;
  }

  // ---------------------------------------------------------------------
  // Aliases
  // ---------------------------------------------------------------------

  function RepeatedAlias(configs: seq<LLMConfig>, seen: set<string>): Option<string> {
    if configs == [] then None
    else if configs[0].alias.None? then RepeatedAlias(configs[1..], seen)
    else if configs[0].alias.value in seen then Some(configs[0].alias.value)
    else RepeatedAlias(configs[1..], seen + {configs[0].alias.value})
  }

  /** `check_aliases`. */
  method CheckAliases(configs: seq<LLMConfig>) returns (clash: Option<string>)
    ensures clash == RepeatedAlias(configs, {})
  {
    var seen: set<string> := {};
    for i := 0 to |configs|
      invariant RepeatedAlias(configs, {}) == RepeatedAlias(configs[i..], seen)
    {
      assert configs[i..][1..] == configs[i + 1..];
      var alias := configs[i].alias;
      if alias.None? {
        continue;
      }
      if alias.value in seen {
        return alias;
      }
      seen := seen + {alias.value};
    }
    clash := None;
  }

  /** An alias names one entry. */
  ghost predicate AliasesDiffer(configs: seq<LLMConfig>) {
    forall i, j :: 0 <= i < j < |configs| && configs[i].alias.Some? ==> configs[i].alias != configs[j].alias
  }

  lemma {:induction false} RepeatedAliasIs(configs: seq<LLMConfig>, seen: set<string>)
    ensures RepeatedAlias(configs, seen).None? <==>
              AliasesDiffer(configs) && forall i :: 0 <= i < |configs| && configs[i].alias.Some? ==> configs[i].alias.value !in seen
  {
    if configs != [] {
      var next := if configs[0].alias.Some? then seen + {configs[0].alias.value} else seen;
      RepeatedAliasIs(configs[1..], next);
      assert forall i :: 0 < i < |configs| ==> configs[i] == configs[1..][i - 1];
      assert forall i :: 0 <= i < |configs[1..]| ==> configs[1..][i] == configs[i + 1];
    }
  }

  // ---------------------------------------------------------------------
  // The table
  // ---------------------------------------------------------------------

  type Rows = map<string, Row>

  /** An order a store may return its rows in. */
  ghost predicate Enumerates(order: seq<string>, rows: Rows) {
    Distinct(order) && forall n :: n in order <==> n in rows
  }

  function ReadInOrder(rows: Rows, order: seq<string>): seq<LLMConfig>
    requires forall n :: n in order ==> n in rows
  {
    if order == [] then [] else [FromRow(order[0], rows[order[0]])] + ReadInOrder(rows, order[1..])
  }

  /** `load`. */
  function Loaded(rows: Rows, order: seq<string>): Result<seq<LLMConfig>, SyncError>
    requires forall n :: n in order ==> n in rows
  {
    var configs := ReadInOrder(rows, order);
    var clash := RepeatedAlias(configs, {});
    if clash.Some? then Err(DuplicateAlias(clash.value)) else Ok(configs)
  }

  /** `mirror`: every entry written, every other row gone. */
  function Mirrored(configs: seq<LLMConfig>): Rows { map n | n in ByName(configs) :: ToRow(ByName(configs)[n]) }

  class DriverRegistry {
    var rows: Rows

    constructor (rows: Rows)
      ensures this.rows == rows
    {
      this.rows := rows;
    }

    method Load(order: seq<string>) returns (loaded: Result<seq<LLMConfig>, SyncError>)
      requires Enumerates(order, rows)
      ensures loaded == Loaded(rows, order)
    {
      var configs := ReadInOrder(rows, order);
      var clash := CheckAliases(configs);
      loaded := if clash.Some? then Err(DuplicateAlias(clash.value)) else Ok(configs);
    }

    /** One sync of this registry; any error leaves it as it was. */
    method Sync(order: seq<string>, keys: map<string, KeyInfo>, upstream: ModelList, present: set<string>)
      returns (outcome: Result<RegistrySync, SyncError>)
      requires Enumerates(order, rows)
      modifies this
      ensures outcome == Synced(old(rows), order, keys, upstream, present)
      ensures rows == if outcome.Ok? then outcome.value.rows else old(rows)
    {
      hide Merged, Enumerates;
      var stored := Load(order);
      if stored.Err? {
        return Err(stored.error);
      }
      var merged := Merged(upstream, ModelList(stored.value, keys), present);
      if merged.Err? {
        return Err(merged.error);
      }
      var configs := merged.value.0.configs;
      var changed := ByName(configs) != ByName(stored.value);
      if changed {
        var clash := Mirror(configs);
        if clash.Some? {
          return Err(DuplicateAlias(clash.value));
        }
      }
      outcome := Ok(RegistrySync(rows, changed, merged.value.1, configs));
    }

    /** Nothing is written where an alias would be carried twice. */
    method Mirror(configs: seq<LLMConfig>) returns (clash: Option<string>)
      modifies this
      ensures clash == RepeatedAlias(configs, {})
      ensures rows == if clash.Some? then old(rows) else Mirrored(configs)
    {
      hide ToRow, RepeatedAlias;
      clash := CheckAliases(configs);
      if clash.Some? {
        return;
      }
      ByNameHas(configs);
      var sourceNames := set c | c in configs :: c.name;
      rows := rows - (rows.Keys - sourceNames);
      for i := 0 to |configs|
        invariant rows.Keys <= sourceNames
        invariant forall n :: n in ByName(configs[..i]) ==> n in rows && rows[n] == ToRow(ByName(configs[..i])[n])
      {
        assert configs[..i + 1][..i] == configs[..i];
        assert configs[i].name in sourceNames;
        rows := rows[configs[i].name := ToRow(configs[i])];
      }
      assert configs[..|configs|] == configs;
    }
  }

  lemma {:induction false} ReadsEach(rows: Rows, order: seq<string>)
    requires forall n :: n in order ==> n in rows
    ensures |ReadInOrder(rows, order)| == |order|
    ensures forall i :: 0 <= i < |order| ==> ReadInOrder(rows, order)[i] == FromRow(order[i], rows[order[i]])
  {
    if order != [] {
      ReadsEach(rows, order[1..]);
    }
  }

  /** A row as the table can be trusted to give it back. */
  ghost predicate Kept(configs: seq<LLMConfig>) {
    forall i :: 0 <= i < |configs| ==> Buildable(configs[i]) && 0.0 <= configs[i].weight <= 1.0
  }

  /** Mirroring a list and loading it gives back its entries, in the store's order and no other
      way changed. */
  lemma MirrorRoundTrip(configs: seq<LLMConfig>, order: seq<string>)
    requires DistinctNames(configs) && Kept(configs) && Enumerates(order, Mirrored(configs))
    ensures SameEntries(configs, ReadInOrder(Mirrored(configs), order))
  {
    var (rows, read) := (Mirrored(configs), ReadInOrder(Mirrored(configs), order));
    ByNameHas(configs);
    ReadsEach(rows, order);
    forall c | c in configs ensures c in read {
      ByNameFinds(configs, c);
      RowRoundTrip(c);
      assert c.name in rows;
      var i :| 0 <= i < |order| && order[i] == c.name;
      assert read[i] == c;
    }
    forall i | 0 <= i < |read| ensures read[i] in configs && read[i].name == order[i] {
      assert order[i] in order;
      var c := ByName(configs)[order[i]];
      RowRoundTrip(c);
    }
  }

  lemma AliasesAnyOrder(a: seq<LLMConfig>, b: seq<LLMConfig>)
    requires SameEntries(a, b) && AliasesDiffer(a)
    ensures AliasesDiffer(b)
  {
    forall i, j | 0 <= i < j < |b| && b[i].alias.Some? ensures b[i].alias != b[j].alias {
      assert b[i] in a && b[j] in a;
      var x :| 0 <= x < |a| && a[x] == b[i];
      var y :| 0 <= y < |a| && a[y] == b[j];
      assert b[i].name != b[j].name;
      assert x < y || y < x;
    }
  }

  // ---------------------------------------------------------------------
  // Syncing a registry
  // ---------------------------------------------------------------------

  datatype RegistrySync = RegistrySync(rows: Rows, changed: bool, report: Report, configs: seq<LLMConfig>)

  /** `_registry_target`: what is stored, merged, and written only if an entry would differ. */
  function Synced(rows: Rows, order: seq<string>, keys: map<string, KeyInfo>, upstream: ModelList, present: set<string>)
    : Result<RegistrySync, SyncError>
    requires forall n :: n in order ==> n in rows
  {
    var stored := Loaded(rows, order);
    if stored.Err? then Err(stored.error)
    else
      var merged := Merged(upstream, ModelList(stored.value, keys), present);
      if merged.Err? then Err(merged.error)
      else
        var configs := merged.value.0.configs;
        var (changed, clash) := (ByName(configs) != ByName(stored.value), RepeatedAlias(configs, {}));
        if changed && clash.Some? then Err(DuplicateAlias(clash.value))
        else Ok(RegistrySync(if changed then Mirrored(configs) else rows, changed, merged.value.1, configs))
  }

  lemma LoadedAreKept(rows: Rows, order: seq<string>)
    requires Enumerates(order, rows)
    ensures Kept(ReadInOrder(rows, order)) && DistinctNames(ReadInOrder(rows, order))
  {
    ReadsEach(rows, order);
  }

  /** After a sync, what the registry gives back, in any order, is the merged list. */
  lemma SyncedReadsBack(rows: Rows, order: seq<string>, keys: map<string, KeyInfo>, upstream: ModelList, present: set<string>,
                        orderNow: seq<string>)
    requires Enumerates(order, rows) && Kept(upstream.configs)
    requires Synced(rows, order, keys, upstream, present).Ok?
    requires Enumerates(orderNow, Synced(rows, order, keys, upstream, present).value.rows)
    ensures var s := Synced(rows, order, keys, upstream, present).value;
      SameEntries(s.configs, ReadInOrder(s.rows, orderNow))
  {
    var s := Synced(rows, order, keys, upstream, present).value;
    var stored := ReadInOrder(rows, order);
    LoadedAreKept(rows, order);
    RepeatedIs(s.configs, {});
    FilterMembers(upstream.configs, FromPreset(true));
    FilterMembers(stored, FromPreset(false));
    assert Kept(s.configs) by {
      forall i | 0 <= i < |s.configs| ensures Buildable(s.configs[i]) && 0.0 <= s.configs[i].weight <= 1.0 {
        assert s.configs[i] in Curated(upstream) || s.configs[i] in Owned(ModelList(stored, keys));
      }
    }
    if s.changed {
      MirrorRoundTrip(s.configs, orderNow);
    } else {
      LoadedAreKept(rows, orderNow);
      SameDict(s.configs, stored);
      SameRows(rows, order, orderNow);
    }
  }

  lemma SameDict(a: seq<LLMConfig>, b: seq<LLMConfig>)
    requires DistinctNames(a) && DistinctNames(b) && ByName(a) == ByName(b)
    ensures SameEntries(a, b)
  {
    ByNameHas(a);
    ByNameHas(b);
    forall c | c in a ensures c in b { ByNameFinds(a, c); }
    forall c | c in b ensures c in a { ByNameFinds(b, c); }
  }

  lemma SameRows(rows: Rows, a: seq<string>, b: seq<string>)
    requires Enumerates(a, rows) && Enumerates(b, rows)
    ensures SameEntries(ReadInOrder(rows, a), ReadInOrder(rows, b))
  {
    ReadsEach(rows, a);
    ReadsEach(rows, b);
    LoadedAreKept(rows, a);
    LoadedAreKept(rows, b);
    forall i | 0 <= i < |a| ensures ReadInOrder(rows, a)[i] in ReadInOrder(rows, b) {
      assert a[i] in b;
      var j :| 0 <= j < |b| && b[j] == a[i];
      assert ReadInOrder(rows, b)[j] == ReadInOrder(rows, a)[i];
    }
    forall j | 0 <= j < |b| ensures ReadInOrder(rows, b)[j] in ReadInOrder(rows, a) {
      assert b[j] in a;
      var i :| 0 <= i < |a| && a[i] == b[j];
      assert ReadInOrder(rows, a)[i] == ReadInOrder(rows, b)[j];
    }
  }

  lemma SyncedAliases(rows: Rows, order: seq<string>, keys: map<string, KeyInfo>, upstream: ModelList, present: set<string>)
    requires Enumerates(order, rows) && Synced(rows, order, keys, upstream, present).Ok?
    ensures AliasesDiffer(Synced(rows, order, keys, upstream, present).value.configs)
  {
    hide Merged;
    var s := Synced(rows, order, keys, upstream, present).value;
    var stored := ReadInOrder(rows, order);
    RepeatedAliasIs(s.configs, {});
    RepeatedAliasIs(stored, {});
    if !s.changed {
      LoadedAreKept(rows, order);
      MergedDistinct(upstream, ModelList(stored, keys), present);
      SameDict(stored, s.configs);
      AliasesAnyOrder(stored, s.configs);
    }
  }

  lemma MergedDistinct(upstream: ModelList, current: ModelList, present: set<string>)
    requires Merged(upstream, current, present).Ok?
    ensures DistinctNames(Merged(upstream, current, present).value.0.configs)
  {
    RepeatedIs(Curated(upstream) + Owned(current), {});
  }

  /** A sync of rows that already read as what the merge gives: nothing to write. */
  lemma StillSync(rows: Rows, order: seq<string>, keys: map<string, KeyInfo>, upstream: ModelList, present: set<string>)
    requires forall n :: n in order ==> n in rows
    requires AliasesDiffer(ReadInOrder(rows, order))
    requires var merged := Merged(upstream, ModelList(ReadInOrder(rows, order), keys), present);
      && merged.Ok? && ByName(merged.value.0.configs) == ByName(ReadInOrder(rows, order))
      && merged.value.1.added == [] && merged.value.1.updated == [] && merged.value.1.removed == []
    ensures var again := Synced(rows, order, keys, upstream, present);
      && again.Ok? && !again.value.changed && again.value.rows == rows
      && again.value.report.added == [] && again.value.report.updated == [] && again.value.report.removed == []
  {
    hide Merged;
    RepeatedAliasIs(ReadInOrder(rows, order), {});
  }

  /** Syncing the same list again writes nothing and reports nothing, whatever order the store
      returns its rows in and whichever keys have turned up in between. */
  lemma SecondSyncIsStill(rows: Rows, order: seq<string>, keys: map<string, KeyInfo>, upstream: ModelList, present: set<string>,
                          orderNow: seq<string>, keysNow: map<string, KeyInfo>, presentNow: set<string>)
    requires Enumerates(order, rows) && Kept(upstream.configs)
    requires Synced(rows, order, keys, upstream, present).Ok?
    requires Enumerates(orderNow, Synced(rows, order, keys, upstream, present).value.rows)
    ensures var first := Synced(rows, order, keys, upstream, present).value;
      var again := Synced(first.rows, orderNow, keysNow, upstream, presentNow);
      && again.Ok? && !again.value.changed && again.value.rows == first.rows
      && again.value.report.added == [] && again.value.report.updated == [] && again.value.report.removed == []
  {
    hide Merged, AliasesDiffer, SameEntries;
    var first := Synced(rows, order, keys, upstream, present).value;
    var stored := ReadInOrder(first.rows, orderNow);
    SyncedReadsBack(rows, order, keys, upstream, present, orderNow);
    SyncedAliases(rows, order, keys, upstream, present);
    AliasesAnyOrder(first.configs, stored);
    SecondMergeIsStill(upstream, ModelList(ReadInOrder(rows, order), keys), present, ModelList(stored, keysNow), presentNow);
    StillSync(first.rows, orderNow, keysNow, upstream, presentNow);
  }
}
