/** JSON values as the handler sees them: what the JSON parser returns for an
    uploaded `.json` file, the payload sent to the inference API, whatever
    that API answers, and the response envelopes. */
module JsonValue {

  /** The inference API's answer is relayed as an opaque value: nothing
      below depends on what a number or a string holds. */
  datatype Json =
    | JNull
    | JBool(b: bool)
    | JNumber(n: real)
    | JString(s: string)
    | JArray(items: seq<Json>)
    | JObject(fields: map<string, Json>)

  /** Python's truthiness for the values `json.loads` returns: `None`,
      `False`, zero, and the empty string, list and dict are false. */
  predicate Falsy(v: Json)
  {
    match v
    case JNull => true
    case JBool(b) => !b
    case JNumber(n) => n == 0.0
    case JString(s) => s == []
    case JArray(items) => items == []
    case JObject(fields) => fields == map[]
  }

  /** The one-field object `{key: value}`. */
  function Single(key: string, value: Json): Json
  {
    JObject(map[key := value])
  }

  /** `{"error": detail}`, the body of every failure response. */
  function ErrorBody(detail: string): Json
  {
    Single("error", JString(detail))
  }

  /** `{"result": value}`, the body of the success response. */
  function ResultBody(value: Json): Json
  {
    Single("result", value)
  }

  /** A body is never both a success and a failure body, and each one
      gives back what was put in it. */
  lemma BodiesAreDistinguishable(detail: string, value: Json)
    ensures ErrorBody(detail) != ResultBody(value)
    ensures "error" in ErrorBody(detail).fields && ErrorBody(detail).fields["error"] == JString(detail)
    ensures "result" in ResultBody(value).fields && ResultBody(value).fields["result"] == value
  {
  }
}
