/** The generation endpoint (`POST /api/chat`): an optional rate-limit check,
    a provider-credential preflight, one `streamObject` call and the
    classification of an error thrown by that call.

    The rate limiter, the upstream call, the clock and the random source are
    parameters: the limiter and the upstream call are functions from what the
    endpoint passes them to what they answer, and `Post` reports which calls it
    made. */
module ChatRoute {
  import opened Wrappers
  import opened Js
  import opened Schema

  // ---------------------------------------------------------------------------
  // Configuration read from the environment

  const DefaultMaxRequests := 60
  const DefaultWindow := "10m"

  /** `RATE_LIMIT_MAX_REQUESTS` parsed with `parseInt`, 60 when unset. */
  function RateLimitMaxRequests(env: Env): (r: Number)
    ensures !EnvSet(env, "RATE_LIMIT_MAX_REQUESTS") ==> r == Num(DefaultMaxRequests)
  {
    if EnvSet(env, "RATE_LIMIT_MAX_REQUESTS") then ParseInt(env["RATE_LIMIT_MAX_REQUESTS"])
    else Num(DefaultMaxRequests)
  }

  /** A decimal limit in the environment is the limit used. */
  lemma MaxRequestsFromEnv(env: Env, n: nat)
    requires "RATE_LIMIT_MAX_REQUESTS" in env && env["RATE_LIMIT_MAX_REQUESTS"] == NatToString(n)
    ensures RateLimitMaxRequests(env) == Num(n)
  {
    ParseIntNatToString(n);
  }

  /** `RATE_LIMIT_WINDOW`, `'10m'` when unset. */
  function RateLimitWindow(env: Env): (r: string)
    ensures EnvSet(env, "RATE_LIMIT_WINDOW") ==> r == env["RATE_LIMIT_WINDOW"]
    ensures !EnvSet(env, "RATE_LIMIT_WINDOW") ==> r == DefaultWindow
  {
    if EnvSet(env, "RATE_LIMIT_WINDOW") then env["RATE_LIMIT_WINDOW"] else DefaultWindow
  }

  /** The fixed table of providers that need a credential, and the
      environment variable holding the server's credential for each. */
  const ProviderEnvMap: map<string, string> := map[
    "anthropic" := "ANTHROPIC_API_KEY",
    "openai" := "OPENAI_API_KEY",
    "google" := "GOOGLE_AI_API_KEY",
    "mistral" := "MISTRAL_API_KEY",
    "groq" := "GROQ_API_KEY",
    "togetherai" := "TOGETHER_API_KEY",
    "fireworks" := "FIREWORKS_API_KEY",
    "xai" := "XAI_API_KEY",
    "deepseek" := "DEEPSEEK_API_KEY"
  ]

  /** The nine providers of the table; a local provider such as `ollama` is
      not among them. */
  lemma ProviderTableKeys()
    ensures ProviderEnvMap.Keys == {"anthropic", "openai", "google", "mistral", "groq",
                                    "togetherai", "fireworks", "xai", "deepseek"}
    ensures "ollama" !in ProviderEnvMap
  {
  }

  // ---------------------------------------------------------------------------
  // The request and the collaborators

  datatype ChatRequest = ChatRequest(
    messages: seq<CoreMessage>,
    userId: Option<string>,
    teamId: Option<string>,
    template: Templates,
    model: Option<LLMModel>,
    config: ModelConfig,
    /** the `x-forwarded-for` header, the rate-limit identity */
    forwardedFor: Option<string>)

  /** The request brings its own credential (`config.apiKey` is truthy). */
  predicate HasOwnApiKey(config: ModelConfig) {
    "apiKey" in config && JsonTruthy(config["apiKey"])
  }

  /** What the endpoint asks the rate limiter. */
  datatype LimitQuery = LimitQuery(identity: Option<string>, maxRequests: Number, window: string)

  /** The limiter's answer: not limited, or limited with the window's figures. */
  datatype LimitDecision = NotLimited | Limited(amount: int, remaining: int, reset: int)

  function QueryFor(req: ChatRequest, env: Env): LimitQuery {
    LimitQuery(req.forwardedFor, RateLimitMaxRequests(env), RateLimitWindow(env))
  }

  /** One argument of the `streamObject` options object. */
  datatype StreamArg =
    | ModelClient(model: Option<LLMModel>, config: ModelConfig)
    | FragmentSchema
    | SystemPrompt(template: Templates)
    | Messages(messages: seq<CoreMessage>)
    | Param(value: JsonValue)

  /** The options object passed to `streamObject`. */
  type StreamCall = map<string, StreamArg>

  /** An error thrown by the upstream call: a falsy value, or an object with
      an optional numeric `statusCode` and an optional string `message`. */
  datatype ThrownError = FalsyError | ErrorObject(statusCode: Option<int>, message: Option<string>)

  datatype UpstreamResult = Streamed | Threw(error: ThrownError)

  // ---------------------------------------------------------------------------
  // Responses

  datatype ErrorBody = ErrorBody(error: string, message: string, incidentId: Option<string>)

  datatype Response =
    | JsonResponse(status: int, body: ErrorBody, headers: map<string, string>)
    /** the text stream over the one upstream call */
    | TextStream(call: StreamCall)

  /** `createErrorResponse`: the body carries `incident_id` only when the id
      argument is truthy. */
  function CreateErrorResponse(error: string, message: string, status: int, incidentId: Option<string>): (r: Response)
    ensures r.JsonResponse? && r.status == status
    ensures r.body.error == error && r.body.message == message
    ensures r.body.incidentId.Some? <==> Truthy(incidentId)
    ensures r.body.incidentId.Some? ==> r.body.incidentId == incidentId
    ensures r.headers == map["Content-Type" := "application/json"]
  {
    JsonResponse(status, ErrorBody(error, message, if Truthy(incidentId) then incidentId else None),
                 map["Content-Type" := "application/json"])
  }

  /** The 429 answer to a limited request, with the three rate-limit headers. */
  function RateLimitedResponse(amount: int, remaining: int, reset: int): Response {
    var r := CreateErrorResponse("rate_limited", "You have reached your request limit.", 429, None);
    r.(headers := r.headers["X-RateLimit-Limit" := IntToString(amount)]
                            ["X-RateLimit-Remaining" := IntToString(remaining)]
                            ["X-RateLimit-Reset" := IntToString(reset)])
  }

  // ---------------------------------------------------------------------------
  // Credential preflight

  /** The provider named by the selected model (`model?.providerId`), when truthy. */
  function ProviderId(req: ChatRequest): Option<string> {
    if req.model.Some? && Truthy(req.model.value.providerId) then req.model.value.providerId else None
  }

  /** The request is refused before any upstream call for lack of a
      credential: its provider is in the table, the request brings no key and
      the server's variable for that provider is not set. */
  predicate KeyMissing(req: ChatRequest, env: Env) {
    var p := ProviderId(req);
    && p.Some? && p.value in ProviderEnvMap
    && !HasOwnApiKey(req.config)
    && !EnvSet(env, ProviderEnvMap[p.value])
  }

  function KeyMissingResponse(req: ChatRequest): Response
    requires ProviderId(req).Some? && ProviderId(req).value in ProviderEnvMap
  {
    var p := ProviderId(req).value;
    var providerName := OrElse(req.model.value.provider, p);
    CreateErrorResponse(
      "api_key_missing",
      "Missing API key for " + providerName + ". Enter an API key in LLM settings or set "
        + ProviderEnvMap[p] + " on the server.",
      400, None)
  }

  /** A provider outside the table (a local one, or none at all) is never
      refused by the preflight. */
  lemma UnlistedProviderPasses(req: ChatRequest, env: Env)
    requires ProviderId(req).None? || ProviderId(req).value !in ProviderEnvMap
    ensures !KeyMissing(req, env)
  {
  }

  // ---------------------------------------------------------------------------
  // The upstream call

  /** The `streamObject` options: the fixed options, `maxRetries: 0`, then
      every configuration entry except `model` and `apiKey` spread over them. */
  function StreamOptions(req: ChatRequest): (call: StreamCall)
    ensures "apiKey" !in call
    ensures "model" in call && call["model"] == ModelClient(req.model, req.config)
    ensures "maxRetries" in call
    ensures "maxRetries" in req.config ==> call["maxRetries"] == Param(req.config["maxRetries"])
    ensures "maxRetries" !in req.config ==> call["maxRetries"] == Param(JNum(0))
    ensures forall k :: k in req.config && k != "model" && k != "apiKey" ==>
      k in call && call[k] == Param(req.config[k])
    ensures forall k :: k in call ==>
      k in {"model", "schema", "system", "messages", "maxRetries"} || k in req.config
  {
    var modelParams := req.config - {"model", "apiKey"};
    var fixed := map[
      "model" := ModelClient(req.model, req.config),
      "schema" := FragmentSchema,
      "system" := SystemPrompt(req.template),
      "messages" := Messages(req.messages),
      "maxRetries" := Param(JNum(0))
    ];
    fixed + map k | k in modelParams :: Param(modelParams[k])
  }

  /** With a configuration of only the model name, a key and sampling
      settings, the SDK receives the template prompt, the history, retries
      off, and the settings. */
  lemma StreamOptionsForPlainConfig(req: ChatRequest)
    requires forall k :: k in req.config ==> k !in {"schema", "system", "messages", "maxRetries"}
    ensures StreamOptions(req)["system"] == SystemPrompt(req.template)
    ensures StreamOptions(req)["messages"] == Messages(req.messages)
    ensures StreamOptions(req)["maxRetries"] == Param(JNum(0))
  {
  }

  /** The taxonomy of classified upstream failures. */
  datatype ErrorKind = ProviderRateLimited | ProviderOverloaded | AccessDenied | Unexpected

  predicate LooksRateLimited(e: ThrownError) {
    e.ErrorObject? && (e.statusCode == Some(429) || (e.message.Some? && Includes(e.message.value, "limit")))
  }

  predicate LooksOverloaded(e: ThrownError) {
    e.ErrorObject? && (e.statusCode == Some(529) || e.statusCode == Some(503))
  }

  predicate LooksAccessDenied(e: ThrownError) {
    e.ErrorObject? && (e.statusCode == Some(403) || e.statusCode == Some(401))
  }

  /** The first matching kind in priority order: rate limit, overload,
      access denied, and anything else. */
  function Classify(e: ThrownError): (k: ErrorKind)
    ensures k == ProviderRateLimited <==> LooksRateLimited(e)
    ensures k == ProviderOverloaded <==> !LooksRateLimited(e) && LooksOverloaded(e)
    ensures k == AccessDenied <==> !LooksRateLimited(e) && !LooksOverloaded(e) && LooksAccessDenied(e)
    ensures k == Unexpected <==> !LooksRateLimited(e) && !LooksOverloaded(e) && !LooksAccessDenied(e)
  {
    if LooksRateLimited(e) then ProviderRateLimited
    else if LooksOverloaded(e) then ProviderOverloaded
    else if LooksAccessDenied(e) then AccessDenied
    else Unexpected
  }

  function KindCode(k: ErrorKind): string {
    match k
    case ProviderRateLimited => "provider_rate_limited"
    case ProviderOverloaded => "provider_overloaded"
    case AccessDenied => "access_denied"
    case Unexpected => "unexpected_error"
  }

  function KindStatus(k: ErrorKind): int {
    match k
    case ProviderRateLimited => 429
    case ProviderOverloaded => 529
    case AccessDenied => 403
    case Unexpected => 500
  }

  function KindMessage(k: ErrorKind): string {
    match k
    case ProviderRateLimited => "The provider is currently unavailable due to request limit. Try using your own API key."
    case ProviderOverloaded => "The provider is currently unavailable. Please try again later."
    case AccessDenied => "Access denied. Please make sure your API key is valid."
    case Unexpected => "An unexpected error has occurred. Please try again later."
  }

  /** `inc_<timestamp>_<suffix>`: the clock in milliseconds and up to nine
      characters of a base-36 rendering of a random number, after its `0.`. */
  function IncidentId(now: nat, random36: string): (id: string)
    ensures StartsWith(id, "inc_" + NatToString(now) + "_")
    ensures |id| <= |"inc_" + NatToString(now) + "_"| + 9
    ensures id != ""
  {
    "inc_" + NatToString(now) + "_" + Substr(random36, 2, 9)
  }

  /** The response for an error caught around the upstream call. */
  function CatchResponse(e: ThrownError, incidentId: string): (r: Response)
    requires incidentId != ""
    ensures r.JsonResponse? && r.body.incidentId == Some(incidentId)
    ensures r.status == KindStatus(Classify(e)) && r.body.error == KindCode(Classify(e))
    ensures r.status in {429, 529, 403, 500}
  {
    var k := Classify(e);
    CreateErrorResponse(KindCode(k), KindMessage(k), KindStatus(k), Some(incidentId))
  }

  /** A 503 whose message mentions a limit is reported as a provider rate
      limit, since that check comes first. */
  lemma OverloadedWithLimitMessageIsRateLimit()
    ensures Classify(ErrorObject(Some(503), Some("rate limit exceeded"))) == ProviderRateLimited
  {
    IncludesWitness("rate limit exceeded", "limit", 5);
  }

  // ---------------------------------------------------------------------------
  // The endpoint

  /** What one request produced, and which collaborators it called. */
  datatype Outcome = Outcome(response: Response, limiterQueries: seq<LimitQuery>, upstreamCalls: seq<StreamCall>)

  predicate IsRateLimited(req: ChatRequest, env: Env, limiter: LimitQuery -> LimitDecision) {
    !HasOwnApiKey(req.config) && limiter(QueryFor(req, env)).Limited?
  }

  /** `POST /api/chat`. */
  function Post(req: ChatRequest, env: Env, limiter: LimitQuery -> LimitDecision,
                upstream: StreamCall -> UpstreamResult, now: nat, random36: string): (o: Outcome)
    // the limiter is consulted exactly when the request brings no key of its own
    ensures HasOwnApiKey(req.config) ==> o.limiterQueries == []
    ensures !HasOwnApiKey(req.config) ==> o.limiterQueries == [QueryFor(req, env)]
    // a limited request is refused first, with the limiter's figures
    ensures IsRateLimited(req, env, limiter) ==>
      var d := limiter(QueryFor(req, env));
      && o.upstreamCalls == []
      && o.response.JsonResponse? && o.response.status == 429
      && o.response.body.error == "rate_limited" && o.response.body.incidentId.None?
      && o.response.headers == map["Content-Type" := "application/json",
                                   "X-RateLimit-Limit" := IntToString(d.amount),
                                   "X-RateLimit-Remaining" := IntToString(d.remaining),
                                   "X-RateLimit-Reset" := IntToString(d.reset)]
    // then the credential preflight
    ensures !IsRateLimited(req, env, limiter) && KeyMissing(req, env) ==>
      && o.upstreamCalls == []
      && o.response.JsonResponse? && o.response.status == 400
      && o.response.body.error == "api_key_missing" && o.response.body.incidentId.None?
    // then exactly one upstream call, whose failure is classified
    ensures !IsRateLimited(req, env, limiter) && !KeyMissing(req, env) ==>
      && o.upstreamCalls == [StreamOptions(req)]
      && (upstream(StreamOptions(req)).Streamed? ==> o.response == TextStream(StreamOptions(req)))
      && (upstream(StreamOptions(req)).Threw? ==>
            o.response == CatchResponse(upstream(StreamOptions(req)).error, IncidentId(now, random36)))
    ensures |o.upstreamCalls| <= 1
  {
    var queries := if HasOwnApiKey(req.config) then [] else [QueryFor(req, env)];
    var limit := if HasOwnApiKey(req.config) then NotLimited else limiter(QueryFor(req, env));
    if limit.Limited? then
      Outcome(RateLimitedResponse(limit.amount, limit.remaining, limit.reset), queries, [])
    else if KeyMissing(req, env) then
      Outcome(KeyMissingResponse(req), queries, [])
    else
      var call := StreamOptions(req);
      match upstream(call)
      case Streamed => Outcome(TextStream(call), queries, [call])
      case Threw(e) => Outcome(CatchResponse(e, IncidentId(now, random36)), queries, [call])
  }

  /** A request with its own key is never answered `rate_limited`, whatever
      the limiter would have said. */
  lemma OwnKeyBypassesLimiter(req: ChatRequest, env: Env, limiter: LimitQuery -> LimitDecision,
                              upstream: StreamCall -> UpstreamResult, now: nat, random36: string)
    requires HasOwnApiKey(req.config)
    ensures var o := Post(req, env, limiter, upstream, now, random36);
      o.limiterQueries == [] && !(o.response.JsonResponse? && o.response.body.error == "rate_limited")
  {
    var o := Post(req, env, limiter, upstream, now, random36);
    if !KeyMissing(req, env) && upstream(StreamOptions(req)).Threw? {
      var k := Classify(upstream(StreamOptions(req)).error);
      assert o.response.body.error == KindCode(k);
    }
  }

  /** The preflight refusal happens exactly when the request passes the
      limiter and its listed provider has neither a request key nor a server
      key. */
  lemma KeyMissingIff(req: ChatRequest, env: Env, limiter: LimitQuery -> LimitDecision,
                      upstream: StreamCall -> UpstreamResult, now: nat, random36: string)
    ensures var o := Post(req, env, limiter, upstream, now, random36);
      (o.response.JsonResponse? && o.response.body.error == "api_key_missing")
        <==> !IsRateLimited(req, env, limiter) && KeyMissing(req, env)
  {
    var o := Post(req, env, limiter, upstream, now, random36);
    if !IsRateLimited(req, env, limiter) && !KeyMissing(req, env) && upstream(StreamOptions(req)).Threw? {
      var k := Classify(upstream(StreamOptions(req)).error);
      assert o.response.body.error == KindCode(k);
    }
  }

  /** Every answer to a failed upstream call carries an incident id of the
      form `inc_<timestamp>_<suffix>`. */
  lemma UpstreamFailureHasIncident(req: ChatRequest, env: Env, limiter: LimitQuery -> LimitDecision,
                                   upstream: StreamCall -> UpstreamResult, now: nat, random36: string)
    requires !IsRateLimited(req, env, limiter) && !KeyMissing(req, env)
    requires upstream(StreamOptions(req)).Threw?
    ensures var o := Post(req, env, limiter, upstream, now, random36);
      o.response.JsonResponse? && o.response.body.incidentId.Some?
      && StartsWith(o.response.body.incidentId.value, "inc_" + NatToString(now) + "_")
  {
  }
}
