/** Requests and responses of the two edge functions, with the request body
    already run through `req.json()` (an opaque parser). */
module Http {
  import opened Wrappers
  import opened Types

  /** The outcome of `await req.json()`: a parse error (with the message
      `String(e)` would give) or the parsed value. */
  datatype Body = Malformed(reason: string) | Parsed(value: Json)

  /** `verb` is `req.method`. */
  datatype Request = Request(verb: string, body: Body)

  /** `new Response(body, { status, headers })`; `body` is None for a `null` body
      and otherwise the value passed to `JSON.stringify`. */
  datatype Response = Response(status: int, headers: map<string, string>, body: Option<Json>)

  /** Status a `Response` gets when none is given. */
  const DefaultStatus: int := 200
}
