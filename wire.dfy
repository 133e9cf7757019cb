/** Values that cross the boundaries of the pipeline: JSON documents, JavaScript
    numbers as the form holds them, and HTTP status classes. */
module Wire {

  datatype Option<+T> = None | Some(value: T)

  /** A parsed JSON document. Objects are keyed maps, so the order in which a
      writer emits the keys of an object is not part of the value. */
  datatype Json =
    | JNull
    | JBool(b: bool)
    | JNum(n: real)
    | JStr(s: string)
    | JArr(items: seq<Json>)
    | JObj(fields: map<string, Json>)

  /** A JavaScript number as produced by `Number(...)` on a form input: a finite
      value, one of the two infinities, or NaN. */
  datatype Num = Finite(r: real) | PosInf | NegInf | NaN

  /** JavaScript's `x >= 0`: false for NaN and for negative infinity. */
  predicate NonNegative(x: Num) {
    match x
    case Finite(r) => r >= 0.0
    case PosInf => true
    case NegInf => false
    case NaN => false
  }

  /** What `JSON.stringify` writes for a number: non-finite values become `null`. */
  function NumToJson(x: Num): Json {
    if x.Finite? then JNum(x.r) else JNull
  }

  /** The written JSON tells finite values apart and nothing else: two form values
      are written alike exactly when they are equal or both non-finite, so the
      receiver cannot distinguish NaN from either infinity. */
  lemma NumToJsonMergesOnlyNonFinite(x: Num, y: Num)
    ensures NumToJson(x) == NumToJson(y) <==> x == y || (!x.Finite? && !y.Finite?)
    ensures NumToJson(x).JNum? <==> x.Finite?
  {
  }

  /** `Response.ok` of the Fetch standard: the status is in the range 200 to 299. */
  predicate IsOk(status: int) {
    200 <= status <= 299
  }

  /** An HTTP reply as the receiving side reads it: its status, and its body if
      the body parses as JSON (`None` when `response.json()` would reject). */
  datatype Reply = Reply(status: int, body: Option<Json>)

  /** The outcome of one `fetch`: the peer could not be reached, or it replied. */
  datatype Fetch = Unreachable | Got(reply: Reply)

  /** A single-field JSON object, the shape of every error body in the pipeline. */
  function ErrorBody(message: string): (j: Json)
    ensures j.JObj? && j.fields.Keys == {"error"} && j.fields["error"] == JStr(message)
  {
    JObj(map["error" := JStr(message)])
  }
}
