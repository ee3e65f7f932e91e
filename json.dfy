/**
 * An already-parsed JSON value, as Python's `json.loads` hands it to the
 * action-item validator: `None`, `bool`, a number, `str`, `list` or `dict`.
 * Parsing itself is not part of this model.
 */
module Json {

  datatype JsonValue =
    | JNull
    | JBool(b: bool)
    | JNumber(n: int)   // the validator only asks whether a value is a string
    | JString(s: string)
    | JArray(elems: seq<JsonValue>)
    | JObject(members: map<string, JsonValue>)

  /** Python's `d.get(key, default)` on a JSON object. */
  function GetOr(m: map<string, JsonValue>, key: string, default: JsonValue): (v: JsonValue)
    ensures key in m ==> v == m[key]
    ensures key !in m ==> v == default
  {
    if key in m then m[key] else default
  }

  /** Python's `d.get(key)`: a missing key and an explicit `null` both read
      as `None`. */
  function Get(m: map<string, JsonValue>, key: string): (v: JsonValue)
    ensures key in m ==> v == m[key]
    ensures key !in m ==> v == JNull
    ensures v.JNull? <==> key !in m || m[key].JNull?
  {
    GetOr(m, key, JNull)
  }

  /** What `json.loads` makes of a text: a value, or a `JSONDecodeError`. */
  datatype ParseResult = Malformed | Parsed(value: JsonValue)
}
