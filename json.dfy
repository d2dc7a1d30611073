/**
 * The shape of a parsed JSON document, as far as the configuration loader
 * looks at it: objects, arrays, strings, and everything else (numbers,
 * booleans, null) lumped together.
 */
module Json {

  datatype Json =
    | JObject(members: map<string, Json>)
    | JArray(elems: seq<Json>)
    | JString(str: string)
    | JOther

  /** Python's `d.get(key, default)` on an object. */
  function Get(members: map<string, Json>, key: string, default: Json): Json {
    if key in members then members[key] else default
  }
}
