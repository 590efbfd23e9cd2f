/**
 * JSON values, the model's stand-in for the untyped (`any` / `unknown`) payloads that
 * travel through the proxy and the client: request bodies, upstream response bodies and
 * the response stored in the client state.
 */
module Json {

  datatype Json =
    | Null
    | Bool(b: bool)
    | Number(n: int)
    | String(s: string)
    | Array(elements: seq<Json>)
    | Object(members: seq<(string, Json)>)

  /** JavaScript truthiness of a JSON value: `null`, `false`, `0` and `""` are falsy, everything else is truthy. */
  predicate Truthy(j: Json) {
    match j
    case Null => false
    case Bool(b) => b
    case Number(n) => n != 0
    case String(s) => s != ""
    case Array(_) => true
    case Object(_) => true
  }
}
