/**
 * JSON values as the JSON columns and HTTP bodies of the system carry them,
 * with the truthiness rules of the two languages that inspect them.
 * Numbers are modelled as integers; no modelled decision depends on a
 * fractional part.
 */
module JsonValues {

  datatype Json =
    | JNull
    | JBool(b: bool)
    | JNum(n: int)
    | JStr(s: string)
    | JObject(fields: map<string, Json>)

  /** A JSON object: the `results` column and the `result` of a status body. */
  type JsonObject = map<string, Json>

  /** Python truthiness: `None`, `False`, `0`, `''` and `{}` are false. */
  predicate PyTruthy(v: Json) {
    match v
    case JNull => false
    case JBool(b) => b
    case JNum(n) => n != 0
    case JStr(s) => s != ""
    case JObject(m) => |m| > 0
  }

  /** `type(v).__name__` of the value Python's `json` module decodes `v` into. */
  function PyTypeName(v: Json): string {
    match v
    case JNull => "NoneType"
    case JBool(_) => "bool"
    case JNum(_) => "int"
    case JStr(_) => "str"
    case JObject(_) => "dict"
  }

  /** JavaScript truthiness: `null`, `false`, `0` and `''` are falsy; every object is truthy. */
  predicate JsTruthy(v: Json) {
    match v
    case JNull => false
    case JBool(b) => b
    case JNum(n) => n != 0
    case JStr(s) => s != ""
    case JObject(_) => true
  }
}
