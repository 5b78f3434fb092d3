/** The client-side data hooks: the weather query and the location-search
    mutation, their request URLs, their error paths, and the query library
    settings they pass (enablement, retry budgets, exponential back-off).
    `fetch` answers are parameters; numbers are turned into text by a given
    `show` function. */
module WeatherQueries {
  import opened Common
  import opened Text
  import opened WeatherTypes
  import opened FormEncoding
  import WeatherApi
  import WeatherRoutes

  // ---------------------------------------------------------------- back-off

  function Pow2(i: nat): (p: nat)
    ensures p >= 1
  {
    if i == 0 then 1 else 2 * Pow2(i - 1)
  }

  const MaxRetryDelayMs: nat := 30000

  /** `retryDelay(attemptIndex) = min(1000 * 2^attemptIndex, 30000)`. */
  function RetryDelay(attemptIndex: nat): (ms: nat)
    ensures ms <= MaxRetryDelayMs
    ensures ms == 1000 * Pow2(attemptIndex) || ms == MaxRetryDelayMs
    ensures ms <= 1000 * Pow2(attemptIndex)
  {
    if 1000 * Pow2(attemptIndex) < MaxRetryDelayMs then 1000 * Pow2(attemptIndex) else MaxRetryDelayMs
  }

  lemma {:induction false} Pow2Monotone(i: nat, j: nat)
    requires i <= j
    ensures Pow2(i) <= Pow2(j)
    decreases j
  {
    if i < j {
      Pow2Monotone(i, j - 1);
    }
  }

  /** The delays double from one second and are capped at thirty from the
      sixth retry on. */
  lemma RetryDelayValues(i: nat)
    ensures RetryDelay(0) == 1000 && RetryDelay(1) == 2000 && RetryDelay(2) == 4000
    ensures RetryDelay(3) == 8000 && RetryDelay(4) == 16000
    ensures i >= 5 ==> RetryDelay(i) == 30000
  {
    assert Pow2(5) == 32;
    if i >= 5 {
      Pow2Monotone(5, i);
    }
  }

  /** Later retries never wait less. */
  lemma RetryDelayMonotone(i: nat, j: nat)
    requires i <= j
    ensures RetryDelay(i) <= RetryDelay(j)
  {
    Pow2Monotone(i, j);
  }

  /** The total wait before the (n+1)-th attempt. */
  function Backoff(n: nat): (ms: nat)
    ensures ms <= n * MaxRetryDelayMs
  {
    if n == 0 then 0 else Backoff(n - 1) + RetryDelay(n - 1)
  }

  // ---------------------------------------------------------------- query settings

  const WeatherRetries: nat := 2
  const SearchRetries: nat := 1
  /** Five minutes, the weather cache lifetime and refresh interval. */
  const WeatherStaleMs: nat := 300000
  const WeatherRefetchMs: nat := 300000

  datatype QueryConfig = QueryConfig(enabled: bool, retry: nat, staleTimeMs: nat, refetchIntervalMs: nat)

  /** The weather query's settings: enabled exactly when there are coordinates. */
  function WeatherQueryConfig(coordinates: Option<Coordinates>): (c: QueryConfig)
    ensures c.enabled <==> coordinates.Some?
    ensures c.retry == 2 && c.staleTimeMs == 300000 && c.refetchIntervalMs == 300000
  {
    QueryConfig(coordinates.Some?, WeatherRetries, WeatherStaleMs, WeatherRefetchMs)
  }

  /** A failing weather query is tried three times in all, waiting one then
      two seconds between tries. */
  lemma WeatherQueryBackoff()
    ensures Backoff(WeatherQueryConfig(None).retry) == 3000
  {
    assert RetryDelay(0) == 1000 && RetryDelay(1) == 2000;
  }

  /** A mutation's settings: how often a failed call is tried again. */
  datatype MutationConfig = MutationConfig(retry: nat)

  /** The location search mutation: a failed search is tried once more, one
      retry fewer than the weather query gets. */
  function SearchMutationConfig(): (c: MutationConfig)
    ensures c.retry == 1
    ensures c.retry < WeatherQueryConfig(None).retry
  {
    MutationConfig(SearchRetries)
  }

  /** The refresh mutation sets no retry option, so the library's default for
      mutations applies: a failed refresh is not tried again. */
  function RefreshMutationConfig(): (c: MutationConfig)
    ensures c.retry == 0
    ensures c.retry < SearchMutationConfig().retry
  {
    MutationConfig(0)
  }

  // ---------------------------------------------------------------- fetching

  /** How a hook's promise settles: with data, with a named error, or with
      the error `fetch` or `response.json()` raised. */
  datatype Settled<T> = Fulfilled(value: T) | Failed(message: string) | Propagated

  const CoordinatesRequired: string := "Coordinates are required"
  const WeatherFailed: string := "Failed to fetch weather data"
  const SearchFailed: string := "Failed to search locations"

  /** The relative URL the weather query fetches. */
  function WeatherUrl(c: Coordinates, show: real -> string): (u: string)
    ensures |u| > 13 && u[..13] == "/api/weather?"
    ensures ParseQuery(u[13..]) == Some(Utf8Pairs([("lat", show(c.lat)), ("lon", show(c.lon))]))
  {
    var params := [("lat", show(c.lat)), ("lon", show(c.lon))];
    ParseSerializeQuery(params);
    var u := "/api/weather?" + SerializeQuery(params);
    assert u[..13] == "/api/weather?" && u[13..] == SerializeQuery(params);
    u
  }

  /** The settling of one fetch whose non-OK answer raises `message`. */
  function SettleFetch<T>(answer: Fetched<T>, message: string): (r: Settled<T>)
    ensures r.Failed? <==> answer.Response? && !answer.ok
    ensures r.Failed? ==> r.message == message
    ensures r.Fulfilled? <==> answer.Response? && answer.ok && answer.body.Some?
    ensures r.Fulfilled? ==> r.value == answer.body.value
  {
    match answer
    case Rejected => Propagated
    case Response(ok, body) =>
      if !ok then Failed(message)
      else match body
        case Some(v) => Fulfilled(v)
        case None => Propagated
  }

  /** The weather query function: it rejects without coordinates, and
      otherwise settles with the fetch of the weather URL. */
  function WeatherQuery(coordinates: Option<Coordinates>, answer: Fetched<WeatherData>): (r: Settled<WeatherData>)
    ensures coordinates.None? ==> r == Failed(CoordinatesRequired)
    ensures coordinates.Some? ==> r == SettleFetch(answer, WeatherFailed)
  {
    if coordinates.None? then Failed(CoordinatesRequired) else SettleFetch(answer, WeatherFailed)
  }

  /** The location search: a query shorter than two characters (untrimmed)
      resolves to no places without any request (None); otherwise the search
      URL is requested and its answer settled. */
  function SearchLocations(query: string, answer: Fetched<seq<WeatherApi.Place>>)
    : (r: (Option<string>, Settled<seq<WeatherApi.Place>>))
    ensures r.0.None? <==> |query| < 2
    ensures r.0.None? ==> r.1 == Fulfilled([])
    ensures r.0.Some? ==> r.0.value == "/api/weather/search?" + SerializeQuery([("q", query)])
                          && r.1 == SettleFetch(answer, SearchFailed)
  {
    if |query| < 2 then (None, Fulfilled([]))
    else (Some("/api/weather/search?" + SerializeQuery([("q", query)])), SettleFetch(answer, SearchFailed))
  }

  /** What the hook's `fetch` makes of a route's reply: `ok` exactly for a
      2xx status, and a body of the expected type only from a successful
      reply (an error object is never read, the status check throws first). */
  function AnswerOf<T>(reply: WeatherRoutes.Reply<T>): (a: Fetched<T>)
    ensures a.Response?
    ensures a.ok <==> 200 <= WeatherRoutes.Status(reply) < 300
    ensures a.body.Some? <==> reply.Ok?
    ensures reply.Ok? ==> a.body == Some(reply.body)
  {
    match reply
    case Ok(b) => Response(true, Some(b))
    case _ => Response(false, None)
  }

  /** The client guard counts untrimmed characters, the server trimmed ones:
      " a" passes the client, draws a 400 from the server, and the search,
      handed that reply, fails with its error message. The query the route
      reads is the one the client sent, written here already decoded. */
  lemma GuardsDisagreeOnPaddedQuery(service: string -> Option<seq<WeatherApi.Place>>)
    ensures var reply := WeatherRoutes.SearchRoute([("q", " a")], service);
            && reply == WeatherRoutes.BadRequest(WeatherRoutes.QueryTooShort)
            && SearchLocations(" a", AnswerOf(reply)).0.Some?
            && SearchLocations(" a", AnswerOf(reply)).1 == Failed(SearchFailed)
  {
    assert WeatherRoutes.GetParam([("q", " a")], "q") == Some(" a");
    assert IsJsSpace(' ') && !IsJsSpace('a');
    assert |Trim(" a")| < 2;
  }
}
