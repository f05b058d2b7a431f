/** The `POST /sendPrivateNote` handler of the REST bridge, as a pure
    decision over a summarised request. Reading the request body, the
    outbound `fetch`, reading the upstream body and `JSON.parse` are inputs:
    the handler is split into `Plan`, which runs before any outbound call and
    either answers at once or names the one call to make, and `Complete`,
    which maps the upstream result to the answer. */
module PrivateNote {
  import opened Wrappers
  import opened JsString
  import ApiBase

  /** The resource appended to the normalised root. */
  const NotesPath: string := "/messages/private-notes"

  /** A JSON value, as far as the handler passes one through. Numbers are
      integers here: the handler builds only integer status codes and never
      inspects the numbers of the upstream JSON it passes on. */
  datatype Json =
    | JNull
    | JBool(b: bool)
    | JNumber(n: int)
    | JString(s: string)
    | JArray(items: seq<Json>)
    | JObject(fields: seq<(string, Json)>)

  /** The deployment's environment: `API_KEY`, `CXG_API_BASE` and
      `CXG_BEARER_TOKEN`, each possibly unset. */
  datatype Env = Env(apiKey: Option<string>, apiBase: Option<string>, bearerToken: Option<string>)

  /** The three body fields, each as `String(field || "")` makes it, before
      trimming. */
  datatype NoteFields = NoteFields(botId: string, sessionId: string, content: string)

  /** The inbound request: the `x-api-key` header, and the body fields or the
      message of the error raised while reading them: `request.json()`
      rejecting, or reading a field of a body that parsed to `null`. */
  datatype Request = Request(apiKeyHeader: Option<string>, body: Result<NoteFields, string>)

  /** The single outbound POST: where it goes, its `Authorization` header and
      its JSON body. */
  datatype Outbound = Outbound(endpoint: string, authorization: string, payload: NoteFields)

  /** The upstream response: its HTTP status, its body text, and what
      `JSON.parse` made of that text (`None` when it threw). The failure
      alternative wherever an `Upstream` is expected carries the message of
      `fetch` or `resp.text()` rejecting. */
  datatype Upstream = Upstream(status: int, text: string, parsed: Option<Json>)

  /** The handler's answers. */
  datatype Reply =
    | Unauthorized
    | MissingFields
    | UpstreamFailed(upstreamStatus: int, detail: Json, endpointUsed: string)
    | Delivered(result: Json)
    | Crashed(message: string)
  {
    /** The HTTP status `jsonOut_` is given. */
    function HttpStatus(): (status: int)
      ensures status == 200 <==> Delivered?
      ensures status == 401 <==> Unauthorized?
      ensures status == 400 <==> MissingFields?
      ensures status == 502 <==> UpstreamFailed?
      ensures status == 500 <==> Crashed?
      ensures !Delivered? ==> 400 <= status <= 599
    {
      match this
      case Unauthorized => 401
      case MissingFields => 400
      case UpstreamFailed(_, _, _) => 502
      case Delivered(_) => 200
      case Crashed(_) => 500
    }

    /** The JSON envelope `jsonOut_` serialises. */
    function Envelope(): (j: Json)
      ensures j.JObject? && |j.fields| >= 2 && j.fields[0] == ("ok", JBool(Delivered?))
      ensures Delivered? ==> j.fields == [("ok", JBool(true)), ("result", result)]
      ensures !Delivered? ==> j.fields[1].0 == "error"
      ensures UpstreamFailed? ==>
                j.fields[1..] == [("error", JString("CXG API failed")), ("status", JNumber(upstreamStatus)),
                                  ("detail", detail), ("endpoint_used", JString(endpointUsed))]
      ensures Unauthorized? ==> j.fields == [("ok", JBool(false)), ("error", JString("Unauthorized (x-api-key)"))]
      ensures MissingFields? ==>
                j.fields == [("ok", JBool(false)), ("error", JString("Missing required: bot_id, session_id, content"))]
      ensures Crashed? ==> j.fields == [("ok", JBool(false)), ("error", JString(message))]
    {
      match this
      case Unauthorized =>
        JObject([("ok", JBool(false)), ("error", JString("Unauthorized (x-api-key)"))])
      case MissingFields =>
        JObject([("ok", JBool(false)), ("error", JString("Missing required: bot_id, session_id, content"))])
      case UpstreamFailed(status, detail, endpoint) =>
        JObject([("ok", JBool(false)), ("error", JString("CXG API failed")),
                 ("status", JNumber(status)), ("detail", detail), ("endpoint_used", JString(endpoint))])
      case Delivered(result) =>
        JObject([("ok", JBool(true)), ("result", result)])
      case Crashed(message) =>
        JObject([("ok", JBool(false)), ("error", JString(message))])
    }
  }

  /** What the handler does before any outbound call. */
  datatype Step = Respond(reply: Reply) | Call(outbound: Outbound)

  /** JavaScript's `s || fallback` on a possibly unset string: an unset or
      empty string gives way to the fallback. */
  function OrElse(s: Option<string>, fallback: string): (r: string)
    ensures s.Some? && s.value != "" ==> r == s.value
    ensures s == None || s == Some("") ==> r == fallback
  {
    if s.Some? && s.value != "" then s.value else fallback
  }

  /** The key check: a configured, non-empty `API_KEY` must equal the
      `x-api-key` header, a missing header counting as empty. */
  predicate KeyAccepted(env: Env, header: Option<string>): (accepted: bool)
    ensures OrElse(env.apiKey, "") == "" ==> accepted
    ensures OrElse(env.apiKey, "") != "" ==> (accepted <==> header == env.apiKey)
  {
    var key := OrElse(env.apiKey, "");
    key == "" || OrElse(header, "") == key
  }

  function TrimFields(f: NoteFields): NoteFields {
    NoteFields(Trim(f.botId), Trim(f.sessionId), Trim(f.content))
  }

  predicate AllPresent(f: NoteFields) {
    f.botId != "" && f.sessionId != "" && f.content != ""
  }

  /** The endpoint the handler posts to: the normalised root followed by the
      private-notes resource. */
  function Endpoint(env: Env): (e: string)
    ensures |e| > |NotesPath| && e[|e| - |NotesPath|..] == NotesPath
  {
    ApiBase.Normalize(OrElse(env.apiBase, ApiBase.DefaultBase)) + NotesPath
  }

  /** The handler up to the outbound call: the key is checked before the
      body is read, the fields are checked before anything is sent, and the
      call carries the trimmed fields to the normalised endpoint. */
  function Plan(env: Env, req: Request): (s: Step)
    ensures s == Respond(Unauthorized) <==> !KeyAccepted(env, req.apiKeyHeader)
    ensures s == Respond(MissingFields) <==>
      KeyAccepted(env, req.apiKeyHeader) && req.body.Success? && !AllPresent(TrimFields(req.body.value))
    ensures KeyAccepted(env, req.apiKeyHeader) && req.body.Failure? ==> s == Respond(Crashed(req.body.error))
    ensures s.Call? <==>
      KeyAccepted(env, req.apiKeyHeader) && req.body.Success? && AllPresent(TrimFields(req.body.value))
    ensures s.Call? ==> s.outbound.payload == TrimFields(req.body.value)
    ensures s.Call? ==> s.outbound.endpoint == Endpoint(env)
    ensures s.Call? ==> s.outbound.authorization == "Bearer " + OrElse(env.bearerToken, "")
  {
    if !KeyAccepted(env, req.apiKeyHeader) then
      Respond(Unauthorized)
    else if req.body.Failure? then
      Respond(Crashed(req.body.error))
    else
      var fields := TrimFields(req.body.value);
      if !AllPresent(fields) then
        Respond(MissingFields)
      else
        Call(Outbound(Endpoint(env), "Bearer " + OrElse(env.bearerToken, ""), fields))
  }

  /** The upstream body as the handler reports it: the parsed JSON, or the
      raw text under `raw` when it does not parse. */
  function BodyOf(u: Upstream): (j: Json)
    ensures u.parsed.Some? ==> j == u.parsed.value
    ensures u.parsed.None? ==> j == JObject([("raw", JString(u.text))])
  {
    match u.parsed
    case Some(v) => v
    case None => JObject([("raw", JString(u.text))])
  }

  /** `Response.ok` of the Fetch standard: a status in 200 to 299. */
  predicate IsOkStatus(status: int) {
    200 <= status <= 299
  }

  /** The handler after the outbound call: a rejected fetch is reported as a
      500 with its message, a non-2xx status as a 502 carrying that status,
      the body and the endpoint, and a 2xx status as a 200 carrying the body. */
  function Complete(out: Outbound, upstream: Result<Upstream, string>): (r: Reply)
    ensures upstream.Failure? ==> r == Crashed(upstream.error)
    ensures upstream.Success? ==> (r.Delivered? <==> IsOkStatus(upstream.value.status))
    ensures upstream.Success? && !IsOkStatus(upstream.value.status) ==>
      r == UpstreamFailed(upstream.value.status, BodyOf(upstream.value), out.endpoint)
    ensures upstream.Success? && IsOkStatus(upstream.value.status) ==>
      r == Delivered(BodyOf(upstream.value))
  {
    match upstream
    case Failure(message) => Crashed(message)
    case Success(u) =>
      if !IsOkStatus(u.status) then UpstreamFailed(u.status, BodyOf(u), out.endpoint)
      else Delivered(BodyOf(u))
  }

  /** The whole handler for `POST /sendPrivateNote`; `upstream` is what the
      outbound call would yield, and is consulted only when the call is made. */
  function Handle(env: Env, req: Request, upstream: Result<Upstream, string>): (r: Reply)
    ensures !KeyAccepted(env, req.apiKeyHeader) ==> r == Unauthorized
    ensures r.Delivered? <==>
      && KeyAccepted(env, req.apiKeyHeader)
      && req.body.Success? && AllPresent(TrimFields(req.body.value))
      && upstream.Success? && IsOkStatus(upstream.value.status)
    ensures r.Delivered? ==> upstream.Success? && r.result == BodyOf(upstream.value)
    ensures r.UpstreamFailed? ==>
      && r.endpointUsed == Endpoint(env)
      && upstream.Success? && r.upstreamStatus == upstream.value.status
      && !IsOkStatus(r.upstreamStatus)
      && r.detail == BodyOf(upstream.value)
  {
    match Plan(env, req)
    case Respond(reply) => reply
    case Call(out) => Complete(out, upstream)
  }

  /** A request with a wrong key is answered 401 whatever its body and
      whatever the upstream would say: the body is not read and no call is
      made. */
  lemma UnauthorizedReadsNothing(env: Env, req1: Request, req2: Request,
                                 up1: Result<Upstream, string>, up2: Result<Upstream, string>)
    requires req1.apiKeyHeader == req2.apiKeyHeader
    requires !KeyAccepted(env, req1.apiKeyHeader)
    ensures Handle(env, req1, up1) == Handle(env, req2, up2) == Unauthorized
  {
  }

  /** A request with a missing field is answered 400 whatever the upstream
      would say: no call is made. */
  lemma MissingFieldsCallsNothing(env: Env, req: Request, up1: Result<Upstream, string>, up2: Result<Upstream, string>)
    requires KeyAccepted(env, req.apiKeyHeader) && req.body.Success?
    requires !AllPresent(TrimFields(req.body.value))
    ensures Handle(env, req, up1) == Handle(env, req, up2) == MissingFields
  {
  }

  /** The endpoint joins a versioned, slash-free root to the resource path
      with exactly one `/`. */
  lemma EndpointShape(env: Env)
    ensures var root := ApiBase.Normalize(OrElse(env.apiBase, ApiBase.DefaultBase));
      && ApiBase.IsVersioned(root)
      && Endpoint(env)[..|root|] == root
      && Endpoint(env) == root + NotesPath
      && Endpoint(env)[|root| - 1] != '/' && Endpoint(env)[|root|] == '/'
      && Endpoint(env)[|root| + 1] != '/'
  {
    var root := ApiBase.Normalize(OrElse(env.apiBase, ApiBase.DefaultBase));
    assert Endpoint(env) == root + NotesPath;
  }

  /** Without a configured base the handler posts to the default platform's
      private-notes resource. */
  lemma DefaultEndpoint(env: Env)
    requires env.apiBase == None || env.apiBase == Some("")
    ensures Endpoint(env) == ApiBase.DefaultBase + NotesPath
  {
    ApiBase.NormalizeDefaultFixed();
  }

  /** The envelope's `ok` flag is true exactly for the 200 answer. */
  lemma EnvelopeOkMatchesStatus(r: Reply)
    ensures r.Envelope().fields[0].1 == JBool(r.HttpStatus() == 200)
  {
  }
}
