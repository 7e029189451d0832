/**
 * The untyped payloads the service receives: a request body parsed from JSON,
 * the path parameters and the query string. Every validator of the service
 * starts from one of these values.
 */
module Json {
  import opened Wrappers

  datatype Json =
    | JNull
    | JBool(b: bool)
    | JNum(n: real)
    | JStr(s: string)
    | JArr(elems: seq<Json>)
    | JObj(fields: map<string, Json>)

  /** Reads a property of an object; a key that is not there reads as `undefined`. */
  function Get(fields: map<string, Json>, key: string): Option<Json>
  {
    if key in fields then Some(fields[key]) else None
  }
}
