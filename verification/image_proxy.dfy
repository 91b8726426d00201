/**
 * The decision skeleton of the `GET /proxy/image` handler (src/index.js:19-43):
 * which status and headers the response gets, and whether the upstream fetch
 * happens at all. The image-URL validator and the upstream fetch are parameters;
 * the response body (the piped upstream stream) is not modelled.
 */
module ImageProxy {
  import opened Wrappers
  import opened Js

  /** What `axios.get(url, …)` settled to: the upstream headers, or a rejection of any kind. */
  datatype FetchOutcome =
    | Fetched(contentType: Option<JsString>, contentLength: Option<JsString>)
    | FetchFailed

  /**
   * The object literal handed to `res.set`, from header name to value; `None` is
   * the `undefined` of an upstream header that was absent.
   */
  type Headers = map<JsString, Option<JsString>>

  datatype Response =
    | JsonError(status: nat, error: JsString)   // `res.status(n).json({ error })`
    | Streamed(headers: Headers)                // `res.set(headers)` then the upstream body is piped

  /** The response, and the value handed to the upstream fetch if one was made. */
  datatype Exchange = Exchange(response: Response, fetched: Option<JsValue>)

  const InvalidUrlMessage: JsString := Literal("Invalid or missing URL")
  const FetchFailedMessage: JsString := Literal("Failed to fetch image")

  /** The status line sent: a streamed response keeps Express's default of 200. */
  function Status(response: Response): nat
  {
    match response
    case JsonError(status, _) => status
    case Streamed(_) => 200
  }

  /**
   * The handler for a request whose `req.query.url` is `url` (`Undefined` when
   * the parameter is missing).
   */
  function ProxyImage(url: JsValue, isValidImageUrl: JsValue -> bool, fetch: JsValue -> FetchOutcome): (r: Exchange)
    ensures r.fetched.None? <==> !Truthy(url) || !isValidImageUrl(url)
    ensures r.fetched.Some? ==> r.fetched == Some(url)
    ensures Status(r.response) == 400 <==> r.fetched.None?
    ensures r.fetched.None? ==> r.response == JsonError(400, Literal("Invalid or missing URL"))
    ensures Status(r.response) == 502 <==> r.fetched.Some? && fetch(url).FetchFailed?
    ensures Status(r.response) == 502 ==> r.response == JsonError(502, Literal("Failed to fetch image"))
    ensures Status(r.response) in {200, 400, 502}
    ensures r.response.Streamed? <==> r.fetched.Some? && fetch(url).Fetched?
  {
    if !Truthy(url) || !isValidImageUrl(url) then
      Exchange(JsonError(400, InvalidUrlMessage), None)
    else
      match fetch(url)
      case FetchFailed => Exchange(JsonError(502, FetchFailedMessage), Some(url))
      case Fetched(contentType, contentLength) =>
        var headers := map[
          Literal("Content-Type") := contentType,
          Literal("Content-Length") := contentLength,
          Literal("Cache-Control") := Some(Literal("public, max-age=3600")),
          Literal("Access-Control-Allow-Origin") := Some(Literal("*")),
          Literal("X-Content-Type-Options") := Some(Literal("nosniff"))
        ];
        Exchange(Streamed(headers), Some(url))
  }

  /**
   * A missing URL, or one the image-URL validator rejects, gets 400 and the
   * same response whatever the upstream would have done: no fetch is made.
   */
  lemma RejectedUrlNeverFetched(url: JsValue, isValidImageUrl: JsValue -> bool,
                                fetch: JsValue -> FetchOutcome, other: JsValue -> FetchOutcome)
    requires !Truthy(url) || !isValidImageUrl(url)
    ensures ProxyImage(url, isValidImageUrl, fetch).fetched == None
    ensures ProxyImage(url, isValidImageUrl, fetch) == ProxyImage(url, isValidImageUrl, other)
    ensures Status(ProxyImage(url, isValidImageUrl, fetch).response) == 400
  {
  }

  /** Every kind of fetch failure is reported as 502 with the fixed error body. */
  lemma FetchFailureIsBadGateway(url: JsValue, isValidImageUrl: JsValue -> bool, fetch: JsValue -> FetchOutcome)
    requires Truthy(url) && isValidImageUrl(url)
    requires fetch(url) == FetchFailed
    ensures ProxyImage(url, isValidImageUrl, fetch).response == JsonError(502, FetchFailedMessage)
  {
  }

  /**
   * On a successful fetch the response is 200 and sets exactly five distinct
   * headers: the fixed caching, cross-origin and no-sniff headers, and the
   * upstream Content-Type and Content-Length handed over unchanged.
   */
  lemma FetchSuccessHeaders(url: JsValue, isValidImageUrl: JsValue -> bool, fetch: JsValue -> FetchOutcome)
    requires Truthy(url) && isValidImageUrl(url)
    requires fetch(url).Fetched?
    ensures var response := ProxyImage(url, isValidImageUrl, fetch).response;
      && Status(response) == 200
      && response.Streamed?
      && response.headers.Keys == {Literal("Content-Type"), Literal("Content-Length"), Literal("Cache-Control"),
                                   Literal("Access-Control-Allow-Origin"), Literal("X-Content-Type-Options")}
      && |response.headers| == 5
      && response.headers[Literal("Content-Type")] == fetch(url).contentType
      && response.headers[Literal("Content-Length")] == fetch(url).contentLength
      && response.headers[Literal("Cache-Control")] == Some(Literal("public, max-age=3600"))
      && response.headers[Literal("Access-Control-Allow-Origin")] == Some(Literal("*"))
      && response.headers[Literal("X-Content-Type-Options")] == Some(Literal("nosniff"))
  {
  }
}
