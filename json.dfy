/** The values `json.loads` produces, as the examples read them (numbers are integers here). */
module Json {

  datatype Json =
    | JNull
    | JBool(b: bool)
    | JNumber(n: int)
    | JString(s: string)
    | JArray(items: seq<Json>)
    | JObject(members: map<string, Json>)

  /** `d.get(key)`: the member, or `None` when the key is absent. */
  function Get(d: map<string, Json>, key: string): (r: Json)
    ensures key in d ==> r == d[key]
    ensures key !in d ==> r == JNull
  {
    if key in d then d[key] else JNull
  }

  /** Python truthiness of a decoded value: `None`, `False`, `0`, `""`, `[]` and `{}` are false. */
  predicate Truthy(j: Json)
  {
    match j
    case JNull => false
    case JBool(b) => b
    case JNumber(n) => n != 0
    case JString(s) => s != ""
    case JArray(items) => items != []
    case JObject(members) => members != map[]
  }
}
