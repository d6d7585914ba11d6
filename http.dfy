/**
 * Values that cross the HTTP boundary: parsed JSON bodies, JavaScript errors, and the
 * outcome of one Express handler (a response sent, control passed on with `next()`,
 * or an exception thrown).
 */
module Http {
  import opened Wrappers

  /** A JSON value as produced by `express.json()` or sent by `res.json(...)`. */
  datatype Json =
    | JNull
    | JBool(b: bool)
    | JNum(n: real)
    | JStr(s: string)
    | JArr(items: seq<Json>)
    | JObj(fields: seq<(string, Json)>)

  /** JavaScript truthiness of a field read from a parsed JSON body (`None` is `undefined`). */
  predicate Truthy(v: Option<Json>)
    ensures Truthy(v) ==> v.Some? && !v.value.JNull?
    ensures v.Some? && (v.value.JArr? || v.value.JObj?) ==> Truthy(v)
    ensures v == Some(JStr("")) || v == Some(JNum(0.0)) || v == Some(JBool(false)) ==> !Truthy(v)
  {
    match v
    case None => false
    case Some(JNull) => false
    case Some(JBool(b)) => b
    case Some(JNum(n)) => n != 0.0
    case Some(JStr(s)) => s != ""
    case Some(JArr(_)) => true
    case Some(JObj(_)) => true
  }

  /**
   * A thrown JavaScript error: its `name`, its `message`, and its enumerable own
   * properties, which are all that `JSON.stringify` writes out for it.
   */
  datatype JsError = JsError(name: string, message: string, enumerable: seq<(string, Json)>)

  /** What a handler or middleware does with one request. */
  datatype Outcome =
    | Reply(status: nat, body: Json)   // res.status(status).json(body)
    | Proceed                          // next()
    | Raise(error: JsError)            // a synchronous throw, which Express hands to the error handler

  /** The `{error: "<message>"}` body every rejection in this API uses. */
  function ErrorBody(message: string): Json {
    JObj([("error", JStr(message))])
  }
}
