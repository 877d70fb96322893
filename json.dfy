/**
 * JSON documents as the two Flask servers see them after parsing, with Python's
 * truth-value test, which the EC2 sensor server uses as its "is there data" check.
 */
module Json {

  datatype Json =
    | JNull                              // JSON null, i.e. Python None
    | JBool(b: bool)
    | JNum(n: real)                      // int and float alike
    | JStr(s: string)
    | JArr(items: seq<Json>)
    | JObj(fields: map<string, Json>)

  /** Python's `bool(value)` for a value produced by the JSON decoder. */
  predicate Truthy(j: Json)
  {
    match j
    case JNull => false
    case JBool(b) => b
    case JNum(n) => n != 0.0
    case JStr(s) => s != ""
    case JArr(items) => items != []
    case JObj(fields) => fields != map[]
  }

  /** The body of a POST request: either a JSON document or something that does not parse as one. */
  datatype RequestBody = Unparsable | Parsed(value: Json)
}
