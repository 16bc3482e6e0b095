/**
 * The webhook relay (supabase/functions/relay-webhook/index.ts): validates the
 * target `url`, then either schedules one POST and acknowledges at once
 * (background mode, 202 "Accepted" in the sense of section 15.3.3 of RFC 9110)
 * or issues one POST and wraps the downstream outcome in a single envelope
 * (synchronous mode). The network is a collaborator that records every POST.
 */
module RelayWebhook {
  import opened Wrappers
  import opened Types
  import opened Http

  /** The permissive cross-origin headers; unlike the gateway, no Content-Type. */
  const CorsHeaders: map<string, string> := map[
    "Access-Control-Allow-Origin" := "*",
    "Access-Control-Allow-Headers" := "authorization, x-client-info, apikey, content-type"
  ]

  /** `{ "Content-Type": "application/json", ...corsHeaders }`. */
  const JsonHeaders: map<string, string> := map["Content-Type" := "application/json"] + CorsHeaders

  /** An outbound `fetch(url, { method, headers, body })`; `body` is the value
      handed to `JSON.stringify`. */
  datatype Post = Post(url: Json, verb: string, headers: map<string, string>, body: Json)

  /** How the downstream answered: a response (its `status`, `statusText` and
      the text of its body), or a failure of the transfer itself (DNS, refused
      connection, TLS, or reading the body). */
  datatype Downstream =
    | Reply(status: int, statusText: string, body: string)
    | TransportError(message: string)
  {
    /** `response.ok`: the status is in the range 200 to 299. */
    predicate Ok()
      requires Reply?
    {
      200 <= status <= 299
    }
  }

  /** The outbound HTTP capability, recording every POST it is asked to send. */
  class Network {
    var posts: seq<Post>

    method Fetch(p: Post, outcome: Downstream) returns (d: Downstream)
      modifies this
      ensures posts == old(posts) + [p]
      ensures d == outcome
    {
      posts := posts + [p];
      d := outcome;
    }
  }

  /** The POST sent for a relay request: to `url`, JSON content type, and the
      serialisation of `payload ?? {}`. */
  function PostFor(url: Json, payload: Option<Json>): (p: Post)
    ensures p.url == url && p.verb == "POST"
    ensures p.headers == map["Content-Type" := "application/json"]
    ensures payload.Some? && payload.value != JNull ==> p.body == payload.value
    ensures Nullish(payload) ==> p.body == EmptyObject
  {
    Post(url, "POST", map["Content-Type" := "application/json"], OrElse(payload, EmptyObject))
  }

  /** The empty preflight reply. */
  const Preflight: Response := Response(DefaultStatus, CorsHeaders, None)

  const MissingUrl: Response := Response(400, JsonHeaders, Some(JObject(map["error" := JString("Missing url")])))

  /** The background acknowledgement `{ ok: true, accepted: true }`. */
  const Accepted: Response :=
    Response(202, JsonHeaders, Some(JObject(map["ok" := JBool(true), "accepted" := JBool(true)])))

  /** What the `catch` returns: `{ ok: false, error: String(e) }` at 500. */
  function Caught(message: string): (r: Response)
    ensures r.status == 500 && r.headers == JsonHeaders && r.body.Some?
    ensures Field(r.body.value, "ok") == Some(JBool(false))
    ensures Field(r.body.value, "error") == Some(JString(message))
    ensures Field(r.body.value, "status").None? && Field(r.body.value, "accepted").None?
  {
    Response(500, JsonHeaders, Some(JObject(map["ok" := JBool(false), "error" := JString(message)])))
  }

  /** The synchronous envelope: a downstream reply, whatever its status, is
      relayed at 200 with its success flag, status, status text and raw body
      text; a transport failure is caught. */
  function Relayed(d: Downstream): (r: Response)
    ensures r.headers == JsonHeaders && r.body.Some?
    ensures d.Reply? ==> r.status == 200
    ensures d.Reply? ==> r.body.value.JObject? && r.body.value.fields.Keys == {"ok", "status", "statusText", "body"}
    ensures d.Reply? ==> Field(r.body.value, "ok") == Some(JBool(d.Ok()))
    ensures d.Reply? ==> Field(r.body.value, "status") == Some(JNumber(d.status as real))
    ensures d.Reply? ==> Field(r.body.value, "statusText") == Some(JString(d.statusText))
    ensures d.Reply? ==> Field(r.body.value, "body") == Some(JString(d.body))
    ensures d.TransportError? ==> r == Caught(d.message)
  {
    match d
    case Reply(status, statusText, body) =>
      Response(DefaultStatus, JsonHeaders, Some(JObject(map[
        "ok" := JBool(d.Ok()),
        "status" := JNumber(status as real),
        "statusText" := JString(statusText),
        "body" := JString(body)])))
    case TransportError(message) => Caught(message)
  }

  /** The request passes validation: not a preflight, a parsed body, and a
      truthy `body?.url`. */
  predicate Relays(req: Request) {
    req.verb != "OPTIONS" && req.body.Parsed? && Truthy(Field(req.body.value, "url"))
  }

  /** `body.background` is truthy: a missing, `null` or `false` flag selects
      the synchronous mode, while the string "false" selects the background. */
  predicate Background(body: Json): (r: bool)
    ensures Nullish(Field(body, "background")) ==> !r
    ensures Field(body, "background") == Some(JBool(false)) ==> !r
    ensures Field(body, "background") == Some(JBool(true)) ==> r
    ensures Field(body, "background") == Some(JString("false")) ==> r
  {
    Truthy(Field(body, "background"))
  }

  /** The POST a valid request asks for. */
  function PostOf(body: Json): Post
    requires Field(body, "url").Some?
  {
    PostFor(Field(body, "url").value, Field(body, "payload"))
  }

  /** The handler. `edgeRuntime` says whether `globalThis.EdgeRuntime` exists
      (when it does not, `EdgeRuntime?.waitUntil(...)` evaluates nothing);
      `downstream` is how the target would answer the POST. */
  method Serve(net: Network, req: Request, edgeRuntime: bool, downstream: Downstream) returns (resp: Response)
    modifies net
    // No retry: at most one POST per invocation, appended to what was sent before.
    ensures old(net.posts) <= net.posts && |net.posts| <= |old(net.posts)| + 1
    ensures req.verb == "OPTIONS" ==> resp == Preflight && net.posts == old(net.posts)
    ensures req.verb != "OPTIONS" && req.body.Malformed? ==>
      resp == Caught(req.body.reason) && net.posts == old(net.posts)
    ensures req.verb != "OPTIONS" && req.body.Parsed? && !Truthy(Field(req.body.value, "url")) ==>
      resp == MissingUrl && net.posts == old(net.posts)
    // Background: the acknowledgement does not depend on the downstream; the
    // POST is only scheduled when `EdgeRuntime` exists.
    ensures Relays(req) && Background(req.body.value) ==>
      resp == Accepted &&
      net.posts == old(net.posts) + (if edgeRuntime then [PostOf(req.body.value)] else [])
    // Synchronous: exactly one POST, and its outcome enveloped.
    ensures Relays(req) && !Background(req.body.value) ==>
      resp == Relayed(downstream) && net.posts == old(net.posts) + [PostOf(req.body.value)]
  {
    if req.verb == "OPTIONS" {
      return Preflight;
    }
    if req.body.Malformed? {
      return Caught(req.body.reason);
    }
    var body := req.body.value;
    if !Truthy(Field(body, "url")) {
      return MissingUrl;
    }
    if Background(body) {
      if edgeRuntime {
        // the outcome is only logged
        var _ := net.Fetch(PostOf(body), downstream);
      }
      return Accepted;
    }
    var outcome := net.Fetch(PostOf(body), downstream);
    return Relayed(outcome);
  }
}
