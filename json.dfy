// A decoded JSON document, as json.loads (Python) or json_tokener_parse
// (json-c) hands it back. Parsing itself is left to the caller: the model
// receives the decoded value, or None when the text did not decode. In a
// decoded object every key occurs once (both decoders keep one value per key).
module Json {
  import opened Wrappers
  import PyDict

  datatype Json =
    | JNull
    | JBool(b: bool)
    | JNum(n: real)
    | JStr(s: string)
    | JArr(items: seq<Json>)
    | JObj(fields: seq<(string, Json)>)

  /**
   * `obj.get(key)` / `json_object_object_get_ex`: a member of an object;
   * None for a missing key and for anything that is not an object.
   */
  function Get(j: Json, key: string): Option<Json>
  {
    if j.JObj? then PyDict.Lookup(j.fields, key) else None
  }

  /** Python's `len`: defined for strings, lists and dicts; a TypeError otherwise. */
  function Len(j: Json): (r: Option<nat>)
    ensures r.Some? <==> j.JStr? || j.JArr? || j.JObj?
  {
    match j
    case JStr(s) => Some(|s|)
    case JArr(items) => Some(|items|)
    case JObj(fields) => Some(|fields|)
    case _ => None
  }

  /** Python truthiness: null, false, zero and empty containers are false. */
  predicate Truthy(j: Json)
  {
    match j
    case JNull => false
    case JBool(b) => b
    case JNum(n) => n != 0.0
    case JStr(s) => s != ""
    case JArr(items) => items != []
    case JObj(fields) => fields != []
  }
}
