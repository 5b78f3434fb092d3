/** The two server routes in front of the weather service: request
    validation and the mapping of outcomes to HTTP statuses. The request's
    query is the list of decoded name/value pairs; the service is a
    parameter returning None when it rejects. */
module WeatherRoutes {
  import opened Common
  import opened Text
  import opened WeatherTypes
  import WeatherApi

  /** A JSON reply: 200 with a body, or an error object with 400 or 500. */
  datatype Reply<T> = Ok(body: T) | BadRequest(error: string) | ServerError(error: string)

  function Status<T>(r: Reply<T>): (code: nat)
    ensures code in {200, 400, 500}
  {
    match r
    case Ok(_) => 200
    case BadRequest(_) => 400
    case ServerError(_) => 500
  }

  /** `searchParams.get(name)`: the value of the first pair with that name. */
  function GetParam(query: seq<(string, string)>, name: string): (v: Option<string>)
    ensures v.None? <==> forall i :: 0 <= i < |query| ==> query[i].0 != name
    ensures v.Some? ==> exists i :: 0 <= i < |query| && query[i] == (name, v.value)
                                    && forall j :: 0 <= j < i ==> query[j].0 != name
    decreases |query|
  {
    if |query| == 0 then None
    else if query[0].0 == name then Some(query[0].1)
    else
      var rest := GetParam(query[1..], name);
      assert forall i :: 1 <= i < |query| ==> query[i] == query[1..][i - 1];
      if rest.Some? then
        var i :| 0 <= i < |query[1..]| && query[1..][i] == (name, rest.value)
                 && forall j :: 0 <= j < i ==> query[1..][j].0 != name;
        assert query[i + 1] == (name, rest.value);
        rest
      else rest
  }

  // ---------------------------------------------------------------- /api/weather

  const CoordinatesRequired: string := "Latitude and longitude are required"
  const WeatherFailed: string := "Failed to fetch weather data"

  /** `GET /api/weather?lat=..&lon=..`: 400 unless both are present and
      non-empty; otherwise both go through `parseFloat`, unchecked, to the
      service, whose result is the 200 body; a rejection is a 500. */
  function WeatherRoute(query: seq<(string, string)>, parseFloat: string -> real,
                        service: Coordinates -> Option<WeatherData>): (r: Reply<WeatherData>)
    ensures r.BadRequest? <==> !Truthy(GetParam(query, "lat")) || !Truthy(GetParam(query, "lon"))
    ensures r.BadRequest? ==> r.error == CoordinatesRequired
    ensures r.ServerError? ==> r.error == WeatherFailed
    ensures !r.BadRequest? ==>
              var c := Coordinates(parseFloat(GetParam(query, "lat").value), parseFloat(GetParam(query, "lon").value));
              (r.ServerError? <==> service(c).None?) && (r.Ok? ==> r.body == service(c).value)
  {
    var lat := GetParam(query, "lat");
    var lon := GetParam(query, "lon");
    if !Truthy(lat) || !Truthy(lon) then BadRequest(CoordinatesRequired)
    else
      match service(Coordinates(parseFloat(lat.value), parseFloat(lon.value)))
      case Some(data) => Ok(data)
      case None => ServerError(WeatherFailed)
  }

  /** `lat=&lon=2` is rejected like a missing latitude. */
  lemma WeatherRouteEmptyLatitude(parseFloat: string -> real, service: Coordinates -> Option<WeatherData>)
    ensures WeatherRoute([("lat", ""), ("lon", "2")], parseFloat, service) == BadRequest(CoordinatesRequired)
  {
    assert GetParam([("lat", ""), ("lon", "2")], "lat") == Some("");
  }

  /** The service as the route uses it: `getCurrentWeather` never rejects,
      whatever the coordinates lead the upstream calls to answer. */
  function ServiceOf(apiKey: Option<string>, upstream: Coordinates -> (Fetched<WeatherApi.CurrentResponse>, Fetched<WeatherApi.ForecastResponse>),
                     cal: WeatherApi.Calendar, now: string, mock: WeatherData): Coordinates -> Option<WeatherData>
  {
    c => Some(WeatherApi.GetCurrentWeather(apiKey, upstream(c).0, upstream(c).1, cal, now, mock))
  }

  /** With the real service the route never answers 500: valid parameters
      give 200, and an upstream failure gives 200 with the mock data. */
  lemma WeatherRouteNeverFails(query: seq<(string, string)>, parseFloat: string -> real, apiKey: Option<string>,
                               upstream: Coordinates -> (Fetched<WeatherApi.CurrentResponse>, Fetched<WeatherApi.ForecastResponse>),
                               cal: WeatherApi.Calendar, now: string, mock: WeatherData)
    ensures var r := WeatherRoute(query, parseFloat, ServiceOf(apiKey, upstream, cal, now, mock));
            && !r.ServerError?
            && (Truthy(GetParam(query, "lat")) && Truthy(GetParam(query, "lon")) ==> r.Ok?)
            && (r.Ok? ==>
                  var c := Coordinates(parseFloat(GetParam(query, "lat").value), parseFloat(GetParam(query, "lon").value));
                  !WeatherApi.BothFetched(upstream(c).0, upstream(c).1) ==> r.body == mock)
  {
  }

  // ---------------------------------------------------------------- /api/weather/search

  const QueryTooShort: string := "Query must be at least 2 characters long"
  const SearchFailed: string := "Failed to search locations"

  /** `GET /api/weather/search?q=..`: 400 unless q is present and at least
      two characters long once trimmed; otherwise the trimmed q goes to the
      service, whose result is the 200 body; a rejection is a 500. */
  function SearchRoute(query: seq<(string, string)>, service: string -> Option<seq<WeatherApi.Place>>)
    : (r: Reply<seq<WeatherApi.Place>>)
    ensures r.BadRequest? <==> !Truthy(GetParam(query, "q")) || |Trim(GetParam(query, "q").value)| < 2
    ensures r.BadRequest? ==> r.error == QueryTooShort
    ensures r.ServerError? ==> r.error == SearchFailed
    ensures !r.BadRequest? ==>
              var q := Trim(GetParam(query, "q").value);
              (r.ServerError? <==> service(q).None?) && (r.Ok? ==> r.body == service(q).value)
  {
    var q := GetParam(query, "q");
    if !Truthy(q) || |Trim(q.value)| < 2 then BadRequest(QueryTooShort)
    else
      match service(Trim(q.value))
      case Some(places) => Ok(places)
      case None => ServerError(SearchFailed)
  }

  /** A query of spaces, however long, is rejected. */
  lemma SearchRouteRejectsBlank(q: string, service: string -> Option<seq<WeatherApi.Place>>)
    requires AllSpace(q)
    ensures SearchRoute([("q", q)], service) == BadRequest(QueryTooShort)
  {
    assert GetParam([("q", q)], "q") == Some(q);
  }

  /** With the real search the route never answers 500. */
  lemma SearchRouteNeverFails(query: seq<(string, string)>, apiKey: Option<string>,
                              upstream: string -> Fetched<seq<WeatherApi.Place>>)
    ensures !SearchRoute(query, q => Some(WeatherApi.SearchLocations(apiKey, q, upstream(q)))).ServerError?
  {
  }
}
