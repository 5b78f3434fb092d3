/** The generic HTTP client: URL building, the shaping of a non-2xx response
    into an error record, and the retry policy around `fetch`. The network is a
    parameter: `net(request, i)` is what the i-th attempt of a call yields. */
module ApiClient {
  import opened Common
  import opened Decimal
  import opened FormEncoding

  // ---------------------------------------------------------------- configuration

  /** `API_CONFIG.baseUrl` when no environment override is set. */
  const DefaultBaseUrl: string := "/api"
  const TimeoutMs: nat := 30000
  const RetryAttempts: nat := 3
  const RetryDelayMs: nat := 1000

  // ---------------------------------------------------------------- URLs

  predicate IsAsciiAlpha(c: char) {
    ('a' <= c <= 'z') || ('A' <= c <= 'Z')
  }

  predicate IsSchemeChar(c: char) {
    IsAsciiAlpha(c) || ('0' <= c <= '9') || c == '+' || c == '-' || c == '.'
  }

  /** The rest of a scheme: scheme characters up to the first `:`. */
  predicate SchemeRest(t: string) {
    |t| > 0 && (t[0] == ':' || (IsSchemeChar(t[0]) && SchemeRest(t[1..])))
  }

  /** s begins with a URL scheme (`https:`, `http:`, ...): the WHATWG URL parser
      without a base URL accepts only such input. */
  predicate HasScheme(s: string) {
    |s| > 0 && IsAsciiAlpha(s[0]) && SchemeRest(s[1..])
  }

  /** The target plus, when there are parameters, `?` and the form-encoded
      pairs in iteration order (`Object.entries`). */
  function WithQuery(target: string, params: seq<(string, string)>): (u: string)
    ensures |params| == 0 ==> u == target
    ensures |params| > 0 ==> u == target + "?" + SerializeQuery(params)
  {
    if |params| == 0 then target else target + "?" + SerializeQuery(params)
  }

  /** `buildURL` as written: `new URL(base + endpoint)` with no base URL, which
      throws (None) unless the concatenation starts with a scheme. */
  function BuildURLAsWritten(base: string, endpoint: string, params: seq<(string, string)>): (r: Option<string>)
    ensures r.Some? <==> HasScheme(base + endpoint)
    ensures r.Some? ==> |r.value| >= |base + endpoint| && r.value[..|base + endpoint|] == base + endpoint
  {
    var target := base + endpoint;
    if HasScheme(target) then
      assert (target + "?" + SerializeQuery(params))[..|target|] == target;
      Some(WithQuery(target, params))
    else None
  }

  /** With the configured default base `/api`, every URL build throws: the
      client can issue no request at all. */
  lemma BuildURLDefaultBaseFails(endpoint: string, params: seq<(string, string)>)
    ensures BuildURLAsWritten(DefaultBaseUrl, endpoint, params) == None
  {
    assert (DefaultBaseUrl + endpoint)[0] == '/';
  }

  /** `buildURL` resolving the concatenation against the page origin,
      `new URL(base + endpoint, origin)`: an absolute target is kept, a
      path-absolute one is appended to the origin, any other relative one is
      placed under the origin's root. None when neither has a scheme. */
  function BuildURL(origin: string, base: string, endpoint: string, params: seq<(string, string)>): (r: Option<string>)
    ensures r.None? <==> !HasScheme(base + endpoint) && !HasScheme(origin)
    ensures HasScheme(origin) && !HasScheme(base + endpoint) && |base + endpoint| > 0 && (base + endpoint)[0] == '/'
            ==> r == Some(WithQuery(origin + base + endpoint, params))
  {
    var target := base + endpoint;
    if HasScheme(target) then Some(WithQuery(target, params))
    else if !HasScheme(origin) then None
    else if |target| > 0 && target[0] == '/' then
      assert origin + target == origin + base + endpoint;
      Some(WithQuery(origin + target, params))
    else Some(WithQuery(origin + "/" + target, params))
  }

  /** Resolving against an origin changes nothing where the code as written
      already succeeds. */
  lemma BuildURLAgreesWhereAsWrittenSucceeds(origin: string, base: string, endpoint: string, params: seq<(string, string)>)
    requires BuildURLAsWritten(base, endpoint, params).Some?
    ensures BuildURL(origin, base, endpoint, params) == BuildURLAsWritten(base, endpoint, params)
  {
  }

  /** Without a usable origin (say the empty one of a non-browser run) the
      corrected builder is the code as written, throw for throw. */
  lemma BuildURLNoOrigin(origin: string, base: string, endpoint: string, params: seq<(string, string)>)
    requires !HasScheme(origin)
    ensures BuildURL(origin, base, endpoint, params) == BuildURLAsWritten(base, endpoint, params)
  {
  }

  /** With the default base and an origin, the URL is the origin, `/api`, the
      endpoint and the query. */
  lemma BuildURLDefaultBase(origin: string, endpoint: string, params: seq<(string, string)>)
    requires HasScheme(origin)
    ensures BuildURL(origin, DefaultBaseUrl, endpoint, params)
            == Some(WithQuery(origin + DefaultBaseUrl + endpoint, params))
  {
    assert (DefaultBaseUrl + endpoint)[0] == '/';
    assert origin + (DefaultBaseUrl + endpoint) == origin + DefaultBaseUrl + endpoint;
  }

  /** The query can be read back: cutting the URL at the `?` after the target
      and parsing what follows yields every parameter, in order, as the UTF-8
      bytes of its name and value. */
  lemma WithQueryRoundTrip(target: string, params: seq<(string, string)>)
    requires |params| > 0
    ensures var u := WithQuery(target, params);
            && u[..|target|] == target && u[|target|] == '?'
            && ParseQuery(u[|target| + 1..]) == Some(Utf8Pairs(params))
  {
    var u := WithQuery(target, params);
    assert u[|target| + 1..] == SerializeQuery(params);
    ParseSerializeQuery(params);
  }

  // ---------------------------------------------------------------- requests

  datatype Verb = Get | Post | Put | Delete

  /** The signal handed to `fetch`: the caller's, or a fresh 30-second timeout. */
  datatype Signal = CallerSignal | Timeout(ms: nat)

  /** `options.signal || AbortSignal.timeout(API_CONFIG.timeout)`. */
  function SignalFor(hasCallerSignal: bool): (s: Signal)
    ensures s.Timeout? <==> !hasCallerSignal
    ensures s.Timeout? ==> s.ms == 30000
  {
    if hasCallerSignal then CallerSignal else Timeout(TimeoutMs)
  }

  datatype Request = Request(url: string, verb: Verb, headers: map<string, string>, body: Option<string>, signal: Signal)

  /** The default headers overlaid with the caller's: `Content-Type:
      application/json` unless the caller sets that key. */
  function MergeHeaders(custom: map<string, string>): (h: map<string, string>)
    ensures h.Keys == custom.Keys + {"Content-Type"}
    ensures forall k :: k in custom ==> h[k] == custom[k]
    ensures "Content-Type" !in custom ==> h["Content-Type"] == "application/json"
  {
    map["Content-Type" := "application/json"] + custom
  }

  // ---------------------------------------------------------------- responses

  /** A body that parses as JSON: `null`, or a value whose `message` and
      `details` properties are read when it is an error body (None: absent or
      not a string). */
  datatype Json<T> = Null | Value(value: T, message: Option<string>, details: Option<string>)

  /** A response: status, status text, and the body, None when it is not JSON. */
  datatype Response<T> = Response(status: nat, statusText: string, body: Option<Json<T>>)

  datatype ApiError = ApiError(code: string, message: string, details: Option<string>)

  /** How a call settles: resolved with the parsed body; rejected with the
      error record, with the body's parse error, with `fetch`'s own rejection,
      or with the URL constructor's TypeError. */
  datatype Outcome<T> =
    | Resolved(json: Json<T>)
    | HttpError(error: ApiError)
    | BodyRejected
    | FetchRejected(reason: Rejection)
    | InvalidUrl

  datatype Rejection = NetworkFailure | AbortedBySignal

  predicate IsOk(status: nat) {
    200 <= status <= 299
  }

  /** The error record of a non-2xx response: the code is the status in
      decimal; the message is the body's truthy `message`, else the status
      text; the details are the body's. A body that is not JSON, or is `null`
      (reading a property of it throws, and the throw is swallowed), leaves
      the status text and no details. */
  function ErrorOf<T>(resp: Response<T>): (e: ApiError)
    ensures ParseInt(e.code) == Some(resp.status as int)
    ensures e.message != resp.statusText ==> resp.body.Some? && resp.body.value.Value? && Truthy(resp.body.value.message)
    ensures resp.body.Some? && resp.body.value.Value? && Truthy(resp.body.value.message)
            ==> e.message == resp.body.value.message.value
    ensures resp.body.Some? && resp.body.value.Value? ==> e.details == resp.body.value.details
    ensures !(resp.body.Some? && resp.body.value.Value?) ==> e.details.None? && e.message == resp.statusText
  {
    var code := ShowInt(resp.status);
    match resp.body
    case Some(Value(_, message, details)) =>
      ApiError(code, if Truthy(message) then message.value else resp.statusText, details)
    case _ => ApiError(code, resp.statusText, None)
  }

  /** `handleResponse`: a 2xx response resolves with its parsed body (or
      rejects when the body is not JSON); anything else rejects with the error
      record. */
  function HandleResponse<T>(resp: Response<T>): (r: Outcome<T>)
    ensures r.Resolved? || r.HttpError? || r.BodyRejected?
    ensures r.HttpError? <==> !IsOk(resp.status)
    ensures r.HttpError? ==> r.error == ErrorOf(resp)
    ensures r.BodyRejected? <==> IsOk(resp.status) && resp.body.None?
    ensures r.Resolved? ==> resp.body == Some(r.json)
  {
    if !IsOk(resp.status) then HttpError(ErrorOf(resp))
    else match resp.body
      case None => BodyRejected
      case Some(json) => Resolved(json)
  }

  /** A 404 whose JSON body says `{"message": "Not here"}` rejects with code
      "404" and that message; a 500 with an empty message keeps the status text. */
  lemma HandleResponseExamples()
    ensures HandleResponse(Response.Response(404, "Not Found", Some(Value(0, Some("Not here"), None))))
            == HttpError(ApiError("404", "Not here", None))
    ensures HandleResponse(Response.Response(500, "Internal Server Error", Some(Value(0, Some(""), Some("db")))))
            == HttpError(ApiError("500", "Internal Server Error", Some("db")))
  {
    var notFound := Response.Response(404, "Not Found", Some(Value(0, Some("Not here"), None)));
    assert ShowNat(404) == "404";
    assert ErrorOf(notFound) == ApiError("404", "Not here", None);
    var failed := Response.Response(500, "Internal Server Error", Some(Value(0, Some(""), Some("db"))));
    assert ShowNat(500) == "500";
    assert ErrorOf(failed) == ApiError("500", "Internal Server Error", Some("db"));
  }

  // ---------------------------------------------------------------- retries

  /** What one attempt yields: `fetch` rejects, or a response arrives. */
  datatype Attempt<T> = Rejects(reason: Rejection) | Responds(response: Response<T>)

  /** How a call settles on its last attempt: a response goes through
      `handleResponse`, a rejection is rethrown. */
  function Settle<T>(a: Attempt<T>): (r: Outcome<T>)
    ensures a.Rejects? ==> r == FetchRejected(a.reason)
    ensures a.Responds? ==> r == HandleResponse(a.response)
  {
    match a
    case Rejects(reason) => FetchRejected(reason)
    case Responds(resp) => HandleResponse(resp)
  }

  /** The recursion of `fetchWithRetry` from attempt i with `retries` left,
      counted in attempts: a response is never retried; a rejection is retried
      after the delay while retries remain and the caller's signal is not
      aborted. */
  function AttemptsFrom<T>(req: Request, net: (Request, nat) -> Attempt<T>, hasCallerSignal: bool,
                           abortedAt: nat -> bool, i: nat, retries: nat): (n: nat)
    ensures i < n <= i + retries + 1
    decreases retries
  {
    if net(req, i).Rejects? && retries > 0 && !(hasCallerSignal && abortedAt(i)) then
      AttemptsFrom(req, net, hasCallerSignal, abortedAt, i + 1, retries - 1)
    else i + 1
  }

  /** Every attempt before the n-th was a rejection the policy retried. */
  ghost predicate RetriedBefore<T>(req: Request, net: (Request, nat) -> Attempt<T>, hasCallerSignal: bool,
                                   abortedAt: nat -> bool, n: nat) {
    forall j :: 0 <= j < n ==> net(req, j).Rejects? && !(hasCallerSignal && abortedAt(j))
  }

  /** The recursion stops only at a response, at an exhausted budget, or at a
      rejection seen while the caller's signal is aborted; every earlier
      attempt was a retried rejection. */
  lemma {:induction false} AttemptsFromStops<T>(req: Request, net: (Request, nat) -> Attempt<T>, hasCallerSignal: bool,
                                                abortedAt: nat -> bool, i: nat, retries: nat)
    requires RetriedBefore(req, net, hasCallerSignal, abortedAt, i)
    ensures var n := AttemptsFrom(req, net, hasCallerSignal, abortedAt, i, retries);
            && RetriedBefore(req, net, hasCallerSignal, abortedAt, n - 1)
            && (net(req, n - 1).Rejects? ==> n == i + retries + 1 || (hasCallerSignal && abortedAt(n - 1)))
    decreases retries
  {
    if net(req, i).Rejects? && retries > 0 && !(hasCallerSignal && abortedAt(i)) {
      AttemptsFromStops(req, net, hasCallerSignal, abortedAt, i + 1, retries - 1);
    }
  }

  /** `fetchWithRetry(url, options)` with the default three retries: at most
      four attempts, 1000 ms apart, each sent with the caller's signal or the
      timeout; only `fetch` rejections are retried, and none after the
      caller's signal has aborted; the call settles on its last attempt. */
  method FetchWithRetry<T>(url: string, verb: Verb, headers: map<string, string>, body: Option<string>,
                           hasCallerSignal: bool, abortedAt: nat -> bool, net: (Request, nat) -> Attempt<T>)
    returns (outcome: Outcome<T>, attempts: nat, waitedMs: nat)
    ensures var req := Request(url, verb, headers, body, SignalFor(hasCallerSignal));
            && attempts == AttemptsFrom(req, net, hasCallerSignal, abortedAt, 0, RetryAttempts)
            && outcome == Settle(net(req, attempts - 1))
    ensures 1 <= attempts <= RetryAttempts + 1
    ensures waitedMs == (attempts - 1) * RetryDelayMs
    ensures var req := Request(url, verb, headers, body, SignalFor(hasCallerSignal));
            && RetriedBefore(req, net, hasCallerSignal, abortedAt, attempts - 1)
            && (net(req, attempts - 1).Rejects? ==>
                  attempts == RetryAttempts + 1 || (hasCallerSignal && abortedAt(attempts - 1)))
  {
    var req := Request(url, verb, headers, body, SignalFor(hasCallerSignal));
    var i: nat := 0;
    var retries: nat := RetryAttempts;
    waitedMs := 0;
    var done := false;
    while !done
      invariant i + retries == RetryAttempts
      invariant waitedMs == i * RetryDelayMs
      invariant !done ==> AttemptsFrom(req, net, hasCallerSignal, abortedAt, i, retries)
                          == AttemptsFrom(req, net, hasCallerSignal, abortedAt, 0, RetryAttempts)
      invariant done ==> i + 1 == AttemptsFrom(req, net, hasCallerSignal, abortedAt, 0, RetryAttempts)
      decreases retries, !done
    {
      if net(req, i).Rejects? && retries > 0 && !(hasCallerSignal && abortedAt(i)) {
        waitedMs := waitedMs + RetryDelayMs;
        i, retries := i + 1, retries - 1;
      } else {
        done := true;
      }
    }
    attempts := i + 1;
    outcome := Settle(net(req, i));
    AttemptsFromStops(req, net, hasCallerSignal, abortedAt, 0, RetryAttempts);
  }

  /** With no caller signal every rejection, timeouts included, is retried:
      four rejections in a row make four attempts. */
  lemma NoSignalRetriesEveryRejection<T>(req: Request, net: (Request, nat) -> Attempt<T>, abortedAt: nat -> bool)
    requires forall j :: 0 <= j <= RetryAttempts ==> net(req, j).Rejects?
    ensures AttemptsFrom(req, net, false, abortedAt, 0, RetryAttempts) == RetryAttempts + 1
  {
    assert AttemptsFrom(req, net, false, abortedAt, 3, 0) == 4;
  }

  /** A response of any status ends the retries, a 503 as much as a 200. */
  lemma ResponsesAreNotRetried<T>(req: Request, net: (Request, nat) -> Attempt<T>, hasCallerSignal: bool,
                                  abortedAt: nat -> bool, i: nat, retries: nat)
    requires net(req, i).Responds?
    ensures AttemptsFrom(req, net, hasCallerSignal, abortedAt, i, retries) == i + 1
  {
  }

  /** A rejection seen while the caller's signal is aborted is final. */
  lemma AbortedCallerStopsRetries<T>(req: Request, net: (Request, nat) -> Attempt<T>, abortedAt: nat -> bool,
                                     i: nat, retries: nat)
    requires net(req, i).Rejects? && abortedAt(i)
    ensures AttemptsFrom(req, net, true, abortedAt, i, retries) == i + 1
  {
  }

  /** `get`, `post`, `put` and `delete` with the corrected URL builder
      `BuildURL`: build the URL (a throw there rejects the call before any
      attempt), merge the headers, then fetch with retries. The body is the
      already serialised request data. Given an origin without a scheme, the
      builder is the code as written (`BuildURLNoOrigin`), so that origin gives
      the client exactly as the source has it. */
  method Send<T>(origin: string, base: string, endpoint: string, params: seq<(string, string)>,
                 verb: Verb, custom: map<string, string>, body: Option<string>,
                 hasCallerSignal: bool, abortedAt: nat -> bool, net: (Request, nat) -> Attempt<T>)
    returns (outcome: Outcome<T>, attempts: nat)
    ensures BuildURL(origin, base, endpoint, params).None? ==> outcome == InvalidUrl && attempts == 0
    ensures BuildURL(origin, base, endpoint, params).Some? ==>
              var req := Request(BuildURL(origin, base, endpoint, params).value, verb, MergeHeaders(custom),
                                 body, SignalFor(hasCallerSignal));
              1 <= attempts <= RetryAttempts + 1
              && attempts == AttemptsFrom(req, net, hasCallerSignal, abortedAt, 0, RetryAttempts)
              && outcome == Settle(net(req, attempts - 1))
  {
    match BuildURL(origin, base, endpoint, params)
    case None =>
      outcome, attempts := InvalidUrl, 0;
    case Some(url) =>
      var waited;
      outcome, attempts, waited := FetchWithRetry(url, verb, MergeHeaders(custom), body, hasCallerSignal, abortedAt, net);
  }
}
