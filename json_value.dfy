/**
 * The Python values a decoded JSON request body holds, and `dict.get`
 * on the body.
 */
module JsonValue {

  /** A decoded JSON value. Numbers are integers only (see README). */
  datatype Json =
    | Null
    | Bool(b: bool)
    | Num(n: int)
    | Str(s: string)
    | Arr(items: seq<Json>)
    | Obj(members: map<string, Json>)

  /** A request body: a JSON object. */
  type Payload = map<string, Json>

  /** `data.get(key)`: the member, or `None` when the key is absent. */
  function Get(data: Payload, key: string): Json
  {
    if key in data then data[key] else Null
  }
}
