/**
 * What `fetch` and `response.json()` hand the application, taken as input: the
 * network itself is not modelled.
 */
module Fetch {
  import opened Wrappers

  /** A value produced by `JSON.parse`; an object keeps the last of duplicate keys. */
  datatype Json =
    | JNull
    | JBool(b: bool)
    | JNumber(x: real)
    | JString(s: string)
    | JArray(items: seq<Json>)
    | JObject(fields: map<string, Json>)

  /** What `await response.json()` gives: the decoded value, or the message of the error it throws. */
  datatype Body = Decoded(json: Json) | Undecodable(message: string)

  datatype Response = Response(status: nat, statusText: string, body: Body)

  /** What `await fetch(url)` gives: a response, or the message of the error it rejects with. */
  datatype Outcome = NetworkError(message: string) | Received(response: Response)

  /** `response.ok`: an ok status is one in the range 200 to 299 (Fetch standard). */
  predicate Ok(r: Response)
    ensures Ok(r) <==> r.status / 100 == 2
  {
    200 <= r.status <= 299
  }

  /** `!!v`: null, false, 0 (or -0) and "" are falsy, every other JSON value is truthy. */
  predicate Truthy(v: Json)
    ensures !Truthy(v) <==> v in {JNull, JBool(false), JNumber(0.0), JString("")}
  {
    match v
    case JNull => false
    case JBool(b) => b
    case JNumber(x) => x != 0.0
    case JString(s) => s != ""
    case _ => true
  }

  /** `typeof v === 'object'`: null, arrays and objects. */
  predicate TypeofObject(v: Json)
    ensures TypeofObject(v) <==> !(v.JBool? || v.JNumber? || v.JString?)
  {
    v.JNull? || v.JArray? || v.JObject?
  }

  /** `v.key`: a property of a decoded object; undefined (None) on anything else or a missing key. */
  function Property(v: Json, key: string): (r: Option<Json>)
    ensures r.Some? <==> v.JObject? && key in v.fields
    ensures r.Some? ==> r.value == v.fields[key]
  {
    match v
    case JObject(fields) => if key in fields then Some(fields[key]) else None
    case _ => None
  }
}
