/**
 * `forwardRequest`: the forwarding step of the proxy. It runs the egress filter, and only
 * for an allowed URL builds one outbound axios request with fixed limits; the upstream
 * result is then classified into a response handed back or an error thrown.
 *
 * The network call itself is not modelled: `upstream` maps the outbound request to what
 * axios resolves or rejects with. The model's `Trace` records which outbound request, if
 * any, was issued, so that "a blocked URL is never contacted" can be stated.
 */
module Proxy {
  import opened Wrappers
  import opened Json
  import Egress

  /** `REQUEST_TIMEOUT_MS`: 30 seconds. */
  const RequestTimeoutMs: int := 30000

  /** `MAX_CONTENT_LENGTH`: 10 MiB, used for both the response and the request body. */
  const MaxContentLength: int := 10 * 1024 * 1024

  /** `MAX_REDIRECTS`: redirects are never followed. */
  const MaxRedirects: int := 0

  const BlockedMessage: string := "Request blocked: URL points to a restricted or internal address"

  const NetworkErrorMessage: string := "Network Error"

  /** `ProxyRequest`: the caller's payload; `headers` and `data` are optional. */
  datatype ProxyRequest = ProxyRequest(
    url: string,
    httpMethod: string,
    headers: Option<map<string, string>>,
    data: Option<Json>)

  /** `ProxyResponse`; `headers` is absent when the response came from an axios error. */
  datatype ProxyResponse = ProxyResponse(
    status: int,
    data: Json,
    headers: Option<map<string, string>>)

  /** The configuration object passed to `axios(...)`. */
  datatype AxiosConfig = AxiosConfig(
    url: string,
    httpMethod: string,
    headers: map<string, string>,
    data: Option<Json>,
    acceptsEveryStatus: bool,   // validateStatus: () => true
    timeout: int,
    maxContentLength: int,
    maxBodyLength: int,
    maxRedirects: int)

  /** How the axios call ends. */
  datatype Upstream =
    | Completed(status: int, body: Json, responseHeaders: map<string, string>)
      // resolved with a response (every status resolves, see `acceptsEveryStatus`)
    | FailedWithResponse(errorStatus: int, errorBody: Json)
      // rejected with an AxiosError that carries `error.response`
    | FailedWithoutResponse(message: string)
      // rejected with an AxiosError and no response: timeout, refused connection, size cap, ...
    | OtherError(error: string)
      // rejected with something that is not an AxiosError

  /** What the caller of `forwardRequest` sees: a resolved response or a thrown error's message. */
  datatype Outcome = Returned(response: ProxyResponse) | Threw(message: string)

  /** The outbound request issued, if any, and the outcome. */
  datatype Trace = Trace(issued: Option<AxiosConfig>, outcome: Outcome)

  /** The axios configuration `forwardRequest` builds from the payload. */
  function OutboundConfig(payload: ProxyRequest): (c: AxiosConfig)
    ensures c.url == payload.url && c.httpMethod == payload.httpMethod
    ensures c.headers == payload.headers.GetOr(map[])
    ensures c.data.Some? <==> payload.data.Some? && Truthy(payload.data.value)
    ensures c.data.Some? ==> c.data == payload.data
    ensures c.acceptsEveryStatus
    ensures c.timeout == 30000 && c.maxRedirects == 0
    ensures c.maxContentLength == c.maxBodyLength == 10485760
  {
    AxiosConfig(
      payload.url,
      payload.httpMethod,
      payload.headers.GetOr(map[]),                                     // headers || {}
      if payload.data.Some? && Truthy(payload.data.value) then payload.data else None,  // data || undefined
      true,
      RequestTimeoutMs,
      MaxContentLength,
      MaxContentLength,
      MaxRedirects)
  }

  /** The `try` around the axios call: how each way the call ends becomes the outcome. */
  function Classify(u: Upstream): (o: Outcome)
    ensures o.Returned? <==> u.Completed? || u.FailedWithResponse?
    ensures u.Completed? ==>
      o.response.status == u.status && o.response.data == u.body && o.response.headers == Some(u.responseHeaders)
    ensures u.FailedWithResponse? ==>
      o.response.status == u.errorStatus && o.response.data == u.errorBody && o.response.headers.None?
    ensures u.FailedWithoutResponse? ==>
      o.Threw? && o.message != "" && (u.message != "" ==> o.message == u.message)
    ensures u.FailedWithoutResponse? && u.message == "" ==> o == Threw(NetworkErrorMessage)
    ensures u.OtherError? ==> o == Threw(u.error)
  {
    match u
    case Completed(status, body, headers) => Returned(ProxyResponse(status, body, Some(headers)))
    case FailedWithResponse(status, body) => Returned(ProxyResponse(status, body, None))
    case FailedWithoutResponse(message) =>
      Threw(if message != "" then message else NetworkErrorMessage)
    case OtherError(error) => Threw(error)
  }

  /**
   * `forwardRequest(payload)`, where `parse` is the WHATWG URL parser's view of a URL and
   * `upstream` is what the network returns for an outbound request.
   */
  function ForwardRequest(
    payload: ProxyRequest,
    parse: string -> Option<Egress.ParsedUrl>,
    upstream: AxiosConfig -> Upstream): (t: Trace)
    ensures t.issued.Some? <==> Egress.IsAllowedUrl(parse(payload.url))
    ensures t.issued.None? ==> t.outcome == Threw(BlockedMessage)
    ensures t.issued.Some? ==>
      t.issued.value == OutboundConfig(payload) && t.outcome == Classify(upstream(t.issued.value))
  {
    if !Egress.IsAllowedUrl(parse(payload.url)) then
      Trace(None, Threw(BlockedMessage))
    else
      var config := OutboundConfig(payload);
      Trace(Some(config), Classify(upstream(config)))
  }

  /** A response reaches the caller only for a URL the filter allowed, and always through one outbound request. */
  lemma ReturnedOnlyWhenAllowed(
    payload: ProxyRequest,
    parse: string -> Option<Egress.ParsedUrl>,
    upstream: AxiosConfig -> Upstream)
    requires ForwardRequest(payload, parse, upstream).outcome.Returned?
    ensures Egress.IsAllowedUrl(parse(payload.url))
    ensures ForwardRequest(payload, parse, upstream).issued == Some(OutboundConfig(payload))
  {
  }

  /** For a blocked URL the outcome does not depend on the network at all. */
  lemma BlockedIgnoresUpstream(
    payload: ProxyRequest,
    parse: string -> Option<Egress.ParsedUrl>,
    upstream1: AxiosConfig -> Upstream,
    upstream2: AxiosConfig -> Upstream)
    requires !Egress.IsAllowedUrl(parse(payload.url))
    ensures ForwardRequest(payload, parse, upstream1) == ForwardRequest(payload, parse, upstream2)
  {
  }

  /**
   * Every upstream status, 3xx redirects and 5xx errors included, comes back as a
   * response with status, body and headers unchanged; headers are not filtered.
   */
  lemma StatusPassedThrough(
    payload: ProxyRequest,
    parse: string -> Option<Egress.ParsedUrl>,
    upstream: AxiosConfig -> Upstream,
    status: int, body: Json, headers: map<string, string>)
    requires Egress.IsAllowedUrl(parse(payload.url))
    requires upstream(OutboundConfig(payload)) == Completed(status, body, headers)
    ensures ForwardRequest(payload, parse, upstream).outcome == Returned(ProxyResponse(status, body, Some(headers)))
  {
  }

  /** The message of a thrown error is never empty. */
  lemma ThrownMessageNonEmpty(
    payload: ProxyRequest,
    parse: string -> Option<Egress.ParsedUrl>,
    upstream: AxiosConfig -> Upstream)
    requires ForwardRequest(payload, parse, upstream).outcome.Threw?
    requires Egress.IsAllowedUrl(parse(payload.url)) ==> !upstream(OutboundConfig(payload)).OtherError?
    ensures ForwardRequest(payload, parse, upstream).outcome.message != ""
  {
  }

  /** A 200 JSON response with `transfer-encoding: chunked` keeps that header. */
  lemma HopByHopHeaderKept(
    payload: ProxyRequest,
    parse: string -> Option<Egress.ParsedUrl>,
    upstream: AxiosConfig -> Upstream)
    requires Egress.IsAllowedUrl(parse(payload.url))
    requires upstream(OutboundConfig(payload)) ==
      Completed(200, Object([("ok", Bool(true))]), map["transfer-encoding" := "chunked"])
    ensures ForwardRequest(payload, parse, upstream).outcome.response.headers ==
      Some(map["transfer-encoding" := "chunked"])
  {
  }
}
