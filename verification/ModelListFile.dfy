/** The model list file: rendered wholesale from a model list, read back by the one reader,
    and rewritten by a sync. A file's text is its parsed document; the TOML library is assumed
    to read back what it wrote, and `show` stands for Python's `str` on a non-text value. */
module ModelListFile {
  import opened Common
  import opened Models
  import opened Merge

  type Show = Json -> string

  /** `llms` in file order, `keys` as found, and whether the file still has `[[custom]]`. */
  datatype Document = Document(custom: bool, llms: seq<Json>, keys: Option<Json>)

  const EMPTY := Document(false, [], None)

  // ---------------------------------------------------------------------
  // Reading
  // ---------------------------------------------------------------------

  predicate Falsy(value: Option<Json>) {
    match value
    case None => true
    case Some(JNull) => true
    case Some(JBool(flag)) => !flag
    case Some(JInt(n)) => n == 0
    case Some(JReal(r)) => r == 0.0
    case Some(JText(text)) => text == ""
    case Some(JList(items)) => items == []
    case Some(JTable(entries)) => entries == map[]
  }

  function Text(value: Option<Json>, show: Show): string {
    match value
    case None => ""
    case Some(JText(text)) => text
    case Some(other) => show(other)
  }

  /** Python shows nothing but an empty text as an empty text. */
  ghost predicate Shows(show: Show) { forall j: Json :: show(j) != "" }

  /** A hand-written weight is refused where it is no number from zero to one. */
  function WeightOf(value: Option<Json>): Option<real> {
    match value
    case None => Some(0.0)
    case Some(JNull) => Some(0.0)
    case Some(JInt(n)) => if 0 <= n <= 1 then Some(n as real) else None
    case Some(JReal(r)) => if 0.0 <= r <= 1.0 then Some(r) else None
    case Some(_) => None
  }

  /** One `[[llms]]` table: skipped without a name and a URL, refused for its weight. */
  function ConfigFromEntry(entry: map<string, Json>, show: Show): Result<Option<LLMConfig>, ()> {
    if Falsy(Get(entry, "name")) || Falsy(Get(entry, "base_url")) then Ok(None)
    else
      var weight := WeightOf(Get(entry, "weight"));
      if weight.None? then Err(())
      else
        Ok(Some(LLMConfig(Text(Get(entry, "name"), show), Text(Get(entry, "base_url"), show),
                          Text(Get(entry, "model"), show), Text(Get(entry, "api_key_ref"), show),
                          IntOrNone(Get(entry, "parallel")), true, None, weight.value, map[])))
  }

  function ParseEntries(llms: seq<Json>, position: nat, show: Show): Result<seq<LLMConfig>, Problem> {
    if llms == [] then Ok([])
    else if !llms[0].JTable? then Err(NotATable(position))
    else
      var first := ConfigFromEntry(llms[0].entries, show);
      if first.Err? then Err(BadWeight(position))
      else
        var rest := ParseEntries(llms[1..], position + 1, show);
        if rest.Err? then rest
        else if first.value.None? then rest
        else Ok([first.value.value] + rest.value)
  }

  function Onto(configs: seq<LLMConfig>, rest: Result<seq<LLMConfig>, Problem>): Result<seq<LLMConfig>, Problem> {
    if rest.Err? then rest else Ok(configs + rest.value)
  }

  lemma OntoNothing(rest: Result<seq<LLMConfig>, Problem>)
    ensures Onto([], rest) == rest
  {
    if rest.Ok? {
      assert [] + rest.value == rest.value;
    }
  }

  /** The reader's loop over the entries, up to the first it refuses. */
  method ReadEntries(llms: seq<Json>, show: Show) returns (read: Result<seq<LLMConfig>, Problem>)
    ensures read == ParseEntries(llms, 1, show)
  {
    var configs: seq<LLMConfig> := [];
    assert llms[0..] == llms;
    OntoNothing(ParseEntries(llms, 1, show));
    for i := 0 to |llms|
      invariant ParseEntries(llms, 1, show) == Onto(configs, ParseEntries(llms[i..], i + 1, show))
    {
      assert llms[i..][1..] == llms[i + 1..];
      ghost var rest := ParseEntries(llms[i + 1..], i + 2, show);
      if !llms[i].JTable? {
        return Err(NotATable(i + 1));
      }
      var config := ConfigFromEntry(llms[i].entries, show);
      if config.Err? {
        return Err(BadWeight(i + 1));
      }
      if config.value.Some? {
        assert rest.Ok? ==> configs + ([config.value.value] + rest.value) == configs + [config.value.value] + rest.value;
        configs := configs + [config.value.value];
      }
    }
    assert configs + [] == configs;
    read := Ok(configs);
  }

  function KeyInfoFrom(ref: string, raw: Json, show: Show): KeyInfo {
    match raw
    case JText(text) => KeyInfo(ref, text, map[])
    case JTable(entries) =>
      var help := Get(entries, "help");
      KeyInfo(ref, if help.Some? && help.value.JText? then help.value.text else "",
              map k | k in entries && k != "help" :: Text(Some(entries[k]), show))
    case _ => KeyInfo(ref, "", map[])
  }

  function KeyInfos(keys: Option<Json>, show: Show): Option<map<string, KeyInfo>> {
    match keys
    case None => Some(map[])
    case Some(JTable(entries)) => Some(map ref | ref in entries :: KeyInfoFrom(ref, entries[ref], show))
    case Some(_) => None
  }

  /** `parse_model_list`: the one reader, and the one place a list is found valid. */
  function Parse(doc: Document, show: Show): Result<ModelList, Problem> {
    if doc.custom then Err(DeclaredEntries)
    else
      var configs := ParseEntries(doc.llms, 1, show);
      if configs.Err? then Err(configs.error)
      else
        var (clash, keys) := (FirstRepeated(configs.value, {}), KeyInfos(doc.keys, show));
        if clash.Some? then Err(DuplicateName(clash.value))
        else if keys.None? then Err(BadKeys)
        else Ok(ModelList(configs.value, keys.value))
  }

  // ---------------------------------------------------------------------
  // Writing
  // ---------------------------------------------------------------------

  function EntryOf(c: LLMConfig): map<string, Json> {
    var core := map["name" := JText(c.name), "model" := JText(c.model), "base_url" := JText(c.baseUrl),
                    "api_key_ref" := JText(c.apiKeyRef)];
    var paced := if c.parallel.Some? then core["parallel" := JInt(c.parallel.value)] else core;
    if c.weight != 0.0 then paced["weight" := JReal(c.weight)] else paced
  }

  function KeyBlock(info: KeyInfo): map<string, Json> {
    var table := map k | k in info.extra :: JText(info.extra[k]);
    if info.help != "" then table["help" := JText(info.help)] else table
  }

  /** The help the rendered entries still need: a reference nothing uses carries none. */
  function KeysTable(configs: seq<LLMConfig>, keys: map<string, KeyInfo>): map<string, Json> {
    map ref | ref in RefsOf(configs) && ref in keys && KeyBlock(keys[ref]) != map[] :: JTable(KeyBlock(keys[ref]))
  }

  function EntriesOf(configs: seq<LLMConfig>): seq<Json> {
    if configs == [] then [] else [JTable(EntryOf(configs[0]))] + EntriesOf(configs[1..])
  }

  function Render(l: ModelList): Document {
    var table := KeysTable(l.configs, l.keys);
    Document(false, EntriesOf(l.configs), if table == map[] then None else Some(JTable(table)))
  }

  /** `_entry_dict`, step by step. */
  method BuildEntry(c: LLMConfig) returns (entry: map<string, Json>)
    ensures entry == EntryOf(c)
  {
    entry := map[];
    entry := entry["name" := JText(c.name)];
    entry := entry["model" := JText(c.model)];
    entry := entry["base_url" := JText(c.baseUrl)];
    entry := entry["api_key_ref" := JText(c.apiKeyRef)];
    if c.parallel.Some? {
      entry := entry["parallel" := JInt(c.parallel.value)];
    }
    if c.weight != 0.0 {
      entry := entry["weight" := JReal(c.weight)];
    }
  }

  lemma KeysTableStep(configs: seq<LLMConfig>, keys: map<string, KeyInfo>, i: nat)
    requires i < |configs|
    ensures var (before, ref) := (KeysTable(configs[..i], keys), configs[i].apiKeyRef);
      KeysTable(configs[..i + 1], keys) ==
        if ref == "" || ref in before || ref !in keys || KeyBlock(keys[ref]) == map[] then before
        else before[ref := JTable(KeyBlock(keys[ref]))]
  {
    var ref := configs[i].apiKeyRef;
    assert configs[..i + 1] == configs[..i] + [configs[i]];
    assert RefsOf(configs[..i + 1]) == RefsOf(configs[..i]) + if ref == "" then {} else {ref};
  }

  /** `_keys_table`: one block a reference, the first time an entry names it. */
  method BuildKeysTable(configs: seq<LLMConfig>, keys: map<string, KeyInfo>) returns (table: map<string, Json>)
    ensures table == KeysTable(configs, keys)
  {
    table := map[];
    assert KeysTable(configs[..0], keys) == map[];
    hide KeysTable;
    for i := 0 to |configs|
      invariant table == KeysTable(configs[..i], keys)
    {
      KeysTableStep(configs, keys, i);
      var ref := configs[i].apiKeyRef;
      if ref == "" || ref in table || ref !in keys {
        continue;
      }
      var block := KeyBlock(keys[ref]);
      if block != map[] {
        table := table[ref := JTable(block)];
      }
    }
    assert configs[..|configs|] == configs;
  }

  // ---------------------------------------------------------------------
  // Round trips
  // ---------------------------------------------------------------------

  /** What a file entry can say: everything in the file came from a preset. */
  predicate Storable(c: LLMConfig) {
    && c.name != "" && c.baseUrl != "" && c.fromPreset && c.alias.None? && c.toolParams == map[]
    && 0.0 <= c.weight <= 1.0
  }

  /** Writing an entry and reading it gives it back exactly when the file can say it. */
  lemma EntryRoundTrip(c: LLMConfig, show: Show)
    ensures ConfigFromEntry(EntryOf(c), show) == Ok(Some(c)) <==> Storable(c)
    ensures ConfigFromEntry(EntryOf(c), show) == Ok(None) <==> c.name == "" || c.baseUrl == ""
  {
    var e := EntryOf(c);
    assert Get(e, "name") == Some(JText(c.name)) && Get(e, "base_url") == Some(JText(c.baseUrl));
    assert Get(e, "model") == Some(JText(c.model)) && Get(e, "api_key_ref") == Some(JText(c.apiKeyRef));
    assert Get(e, "parallel") == if c.parallel.Some? then Some(JInt(c.parallel.value)) else None;
    assert Get(e, "weight") == if c.weight != 0.0 then Some(JReal(c.weight)) else None;
  }

  lemma {:induction false} EntriesRoundTrip(configs: seq<LLMConfig>, position: nat, show: Show)
    ensures var read := ParseEntries(EntriesOf(configs), position, show);
      && (read.Ok? ==> |read.value| <= |configs|)
      && (read == Ok(configs) <==> forall i :: 0 <= i < |configs| ==> Storable(configs[i]))
  {
    if configs != [] {
      EntriesRoundTrip(configs[1..], position + 1, show);
      EntryRoundTrip(configs[0], show);
      assert EntriesOf(configs)[1..] == EntriesOf(configs[1..]);
      var rest := ParseEntries(EntriesOf(configs[1..]), position + 1, show);
      assert configs == [configs[0]] + configs[1..];
      if forall i :: 0 <= i < |configs| ==> Storable(configs[i]) {
        assert forall i :: 0 <= i < |configs[1..]| ==> configs[1..][i] == configs[i + 1];
        assert Storable(configs[0]);
      }
    }
  }

  /** A file gives back the entries written to it exactly when it can say each of them and no
      name is written twice. */
  lemma FileRoundTrip(l: ModelList, show: Show)
    ensures (Parse(Render(l), show).Ok? && Parse(Render(l), show).value.configs == l.configs) <==>
            DistinctNames(l.configs) && forall i :: 0 <= i < |l.configs| ==> Storable(l.configs[i])
  {
    EntriesRoundTrip(l.configs, 1, show);
    RepeatedIs(l.configs, {});
  }

  /** The help for a key survives the file, unless its own passthrough took the word. */
  lemma KeyRoundTrip(info: KeyInfo, show: Show)
    ensures KeyInfoFrom(info.apiKeyRef, JTable(KeyBlock(info)), show) == info <==> "help" !in info.extra
  {
    var (block, read) := (KeyBlock(info), KeyInfoFrom(info.apiKeyRef, JTable(KeyBlock(info)), show));
    if "help" !in info.extra {
      assert read.extra == info.extra;
    } else {
      assert "help" !in read.extra;
    }
  }

  lemma {:induction false} ParsedAreStorable(llms: seq<Json>, position: nat, show: Show)
    requires Shows(show)
    ensures var read := ParseEntries(llms, position, show);
      read.Ok? ==> forall i :: 0 <= i < |read.value| ==> Storable(read.value[i])
  {
    if llms != [] {
      ParsedAreStorable(llms[1..], position + 1, show);
    }
  }

  // ---------------------------------------------------------------------
  // Syncing a file
  // ---------------------------------------------------------------------

  datatype FileSync = FileSync(doc: Document, changed: bool, report: Report, configs: seq<LLMConfig>)

  /** `sync_model_list_file`; a missing file reads as an empty document. */
  function Synced(file: Option<Document>, upstream: ModelList, present: set<string>, show: Show): Result<FileSync, SyncError> {
    var current := Parse(if file.Some? then file.value else EMPTY, show);
    if current.Err? then Err(Malformed(current.error))
    else
      var merged := Merged(upstream, current.value, present);
      if merged.Err? then Err(merged.error)
      else
        var rendered := Render(merged.value.0);
        Ok(FileSync(rendered, file != Some(rendered), merged.value.1, merged.value.0.configs))
  }

  class ListFile {
    var text: Option<Document>
    ghost var writes: nat

    constructor (text: Option<Document>)
      ensures this.text == text && writes == 0
    {
      this.text := text;
      writes := 0;
    }

    /** `write_model_list`: compared on what would be written, and written only if it differs. */
    method Write(list: ModelList) returns (changed: bool)
      modifies this
      ensures text == Some(Render(list))
      ensures changed <==> old(text) != Some(Render(list))
      ensures writes == old(writes) + if changed then 1 else 0
    {
      var rendered := Render(list);
      if text == Some(rendered) {
        return false;
      }
      text, writes := Some(rendered), writes + 1;
      return true;
    }

    /** Any error leaves the file as it was and unwritten, and so does a list that would not
        move it; any other is written once. */
    method Sync(upstream: ModelList, present: set<string>, show: Show) returns (outcome: Result<FileSync, SyncError>)
      modifies this
      ensures outcome == Synced(old(text), upstream, present, show)
      ensures text == if outcome.Ok? then Some(outcome.value.doc) else old(text)
      ensures writes == old(writes) + if text != old(text) then 1 else 0
      ensures text != old(text) <==> outcome.Ok? && outcome.value.changed
    {
      var current := Parse(if text.Some? then text.value else EMPTY, show);
      if current.Err? {
        return Err(Malformed(current.error));
      }
      var merged := Merged(upstream, current.value, present);
      if merged.Err? {
        return Err(merged.error);
      }
      var (list, report) := merged.value;
      var changed := Write(list);
      return Ok(FileSync(Render(list), changed, report, list.configs));
    }
  }

  /** A list the reader accepts, whose text rendering names nothing with an empty word. */
  ghost predicate Readable(upstream: ModelList) {
    DistinctNames(upstream.configs) && forall i :: 0 <= i < |upstream.configs| ==> Storable(upstream.configs[i])
  }

  lemma WhatIsReadIsReadable(doc: Document, show: Show)
    requires Shows(show)
    requires Parse(doc, show).Ok?
    ensures Readable(Parse(doc, show).value)
  {
    ParsedAreStorable(doc.llms, 1, show);
    RepeatedIs(Parse(doc, show).value.configs, {});
  }

  lemma {:induction false} AllCurated(configs: seq<LLMConfig>)
    requires forall i :: 0 <= i < |configs| ==> configs[i].fromPreset
    ensures Filter(configs, FromPreset(true)) == configs && Filter(configs, FromPreset(false)) == []
  {
    if configs != [] {
      AllCurated(configs[1..]);
    }
  }

  lemma CuratedMerge(upstream: ModelList, current: ModelList, present: set<string>)
    requires forall i :: 0 <= i < |upstream.configs| ==> upstream.configs[i].fromPreset
    requires forall i :: 0 <= i < |current.configs| ==> current.configs[i].fromPreset
    requires Merged(upstream, current, present).Ok?
    ensures Merged(upstream, current, present).value.0 == upstream
  {
    hide Filter, FirstChanged, FirstRepeated, ReportOf, KeptKeys;
    AllCurated(upstream.configs);
    AllCurated(current.configs);
    NoOwnKeys(upstream.keys, current.keys);
    assert upstream.configs + [] == upstream.configs;
  }

  lemma NoOwnKeys(arriving: map<string, KeyInfo>, current: map<string, KeyInfo>)
    ensures KeptKeys(arriving, [], current) == arriving
  {
    assert RefsOf([]) == {};
  }

  /** Everything a parsed file holds is curated, so a sync leaves exactly the arriving list. */
  lemma SyncedIsUpstream(file: Option<Document>, upstream: ModelList, present: set<string>, show: Show)
    requires Shows(show)
    requires Readable(upstream) && Synced(file, upstream, present, show).Ok?
    ensures Synced(file, upstream, present, show).value.configs == upstream.configs
    ensures Synced(file, upstream, present, show).value.doc == Render(upstream)
  {
    hide Parse, Render, Merged;
    var doc := if file.Some? then file.value else EMPTY;
    WhatIsReadIsReadable(doc, show);
    CuratedMerge(upstream, Parse(doc, show).value, present);
  }

  /** Syncing the same list again changes nothing: the file is not rewritten, nothing is added,
      updated or removed, whichever keys have turned up in between. */
  lemma SecondSyncIsStill(file: Option<Document>, upstream: ModelList, present: set<string>, presentNow: set<string>, show: Show)
    requires Shows(show)
    requires Readable(upstream) && Synced(file, upstream, present, show).Ok?
    ensures var first := Synced(file, upstream, present, show).value;
      var again := Synced(Some(first.doc), upstream, presentNow, show);
      && again.Ok? && !again.value.changed && again.value.doc == first.doc && again.value.configs == first.configs
      && again.value.report.added == [] && again.value.report.updated == [] && again.value.report.removed == []
  {
    var first := Synced(file, upstream, present, show).value;
    SyncedIsUpstream(file, upstream, present, show);
    FileRoundTrip(upstream, show);
    KeysReadBack(upstream, show);
    var stored := Parse(first.doc, show).value;
    var current := Parse(if file.Some? then file.value else EMPTY, show).value;
    assert SameEntries(Merged(upstream, current, present).value.0.configs, stored.configs);
    SecondMergeIsStill(upstream, current, present, stored, presentNow);
    SyncedIsUpstream(Some(first.doc), upstream, presentNow, show);
  }

  lemma KeysReadBack(l: ModelList, show: Show)
    requires Readable(l)
    ensures Parse(Render(l), show).Ok?
  {
    EntriesRoundTrip(l.configs, 1, show);
    RepeatedIs(l.configs, {});
  }
}
