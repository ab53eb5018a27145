/** JSON values as the settings file and the request bodies hold them. */
module Json {

  /** A JSON value. A number is kept as mantissa * 10^exponent, so that
      literals such as 0.1 or 8000 are represented exactly. */
  datatype Json =
    | JNull
    | JBool(b: bool)
    | JNumber(mantissa: int, exponent: int)
    | JString(s: string)
    | JArray(items: seq<Json>)
    | JObject(members: map<string, Json>)

  /** Python's truth value of the decoded value (`bool(v)`). */
  predicate Truthy(v: Json)
  {
    match v
    case JNull => false
    case JBool(b) => b
    case JNumber(m, _) => m != 0
    case JString(s) => s != []
    case JArray(items) => items != []
    case JObject(members) => members != map[]
  }
}
