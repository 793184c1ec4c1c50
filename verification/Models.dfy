/** The static description of one model, as the registry holds it. */
module Models {
  import opened Common

  /** What a JSON column or a parsed table may hold. */
  datatype Json =
    | JNull
    | JBool(flag: bool)
    | JInt(n: int)
    | JReal(r: real)
    | JText(text: string)
    | JList(items: seq<Json>)
    | JTable(entries: map<string, Json>)

  datatype LLMConfig = LLMConfig(
    name: string,
    baseUrl: string,
    model: string,
    apiKeyRef: string,
    parallel: Option<int>,
    fromPreset: bool,
    alias: Option<string>,
    weight: real,
    toolParams: map<string, Json>)

  function Get(entries: map<string, Json>, key: string): Option<Json> {
    if key in entries then Some(entries[key]) else None
  }

  /** A flag counts as a number here, as it does for Python. */
  function IntOrNone(value: Option<Json>): Option<int> {
    match value
    case Some(JInt(n)) => Some(n)
    case Some(JBool(flag)) => Some(if flag then 1 else 0)
    case _ => None
  }
}
