/** The geolocation hook as a transition system: a request (in a browser with
    or without geolocation support), then the browser's success or error
    callback. Each callback replaces the whole state. */
module Geolocation {
  import opened Common
  import opened WeatherTypes

  datatype State = State(coordinates: Option<Coordinates>, error: Option<string>, loading: bool)

  const Initial: State := State(None, None, false)

  /** The codes of `GeolocationPositionError`. */
  const PermissionDenied: int := 1
  const PositionUnavailable: int := 2
  const TimeoutCode: int := 3

  const UnsupportedMessage: string := "Geolocation is not supported by this browser"
  const UnknownErrorMessage: string := "Unknown error occurred"

  /** The message for an error code: three known codes, one fallback. */
  function ErrorMessage(code: int): (m: string)
    ensures code == PermissionDenied ==> m == "Geolocation permission denied"
    ensures code == PositionUnavailable ==> m == "Location information unavailable"
    ensures code == TimeoutCode ==> m == "Location request timed out"
    ensures m == UnknownErrorMessage <==> code !in {PermissionDenied, PositionUnavailable, TimeoutCode}
  {
    if code == PermissionDenied then "Geolocation permission denied"
    else if code == PositionUnavailable then "Location information unavailable"
    else if code == TimeoutCode then "Location request timed out"
    else UnknownErrorMessage
  }

  /** The three known codes have three different messages, none of them the
      unsupported-browser message. */
  lemma ErrorMessagesDistinct(c1: int, c2: int)
    requires c1 in {PermissionDenied, PositionUnavailable, TimeoutCode}
    requires c2 in {PermissionDenied, PositionUnavailable, TimeoutCode}
    ensures ErrorMessage(c1) == ErrorMessage(c2) <==> c1 == c2
    ensures ErrorMessage(c1) != UnsupportedMessage
  {
  }

  datatype Event =
    | Request(supported: bool)
    | Succeed(latitude: real, longitude: real)
    | Fail(code: int)

  /** One transition. An unsupported request records the error and stops
      loading, keeping the coordinates; a supported one starts loading and
      clears the error, keeping the coordinates; a callback replaces all. */
  function Step(s: State, e: Event): (s': State)
    ensures e.Request? ==> s'.coordinates == s.coordinates
    ensures e.Request? ==> (s'.loading <==> e.supported)
    ensures e.Request? ==> s'.error == (if e.supported then None else Some(UnsupportedMessage))
    ensures e.Succeed? ==> s' == State(Some(Coordinates(e.latitude, e.longitude)), None, false)
    ensures e.Fail? ==> s' == State(None, Some(ErrorMessage(e.code)), false)
  {
    match e
    case Request(supported) =>
      if supported then s.(loading := true, error := None)
      else s.(error := Some(UnsupportedMessage), loading := false)
    case Succeed(lat, lon) => State(Some(Coordinates(lat, lon)), None, false)
    case Fail(code) => State(None, Some(ErrorMessage(code)), false)
  }

  function Run(s: State, events: seq<Event>): State
    decreases |events|
  {
    if |events| == 0 then s else Run(Step(s, events[0]), events[1..])
  }

  /** Never both a position and an error. */
  predicate Exclusive(s: State) {
    !(s.coordinates.Some? && s.error.Some?)
  }

  /** In a browser with geolocation every reachable state is exclusive, and
      loading is on exactly while a request waits for its callback. */
  lemma {:induction false} SupportedRunExclusive(s: State, events: seq<Event>)
    requires Exclusive(s)
    requires forall i :: 0 <= i < |events| ==> events[i] != Request(false)
    ensures Exclusive(Run(s, events))
    ensures |events| > 0 ==> (Run(s, events).loading <==> events[|events| - 1].Request?)
    decreases |events|
  {
    if |events| > 0 {
      SupportedRunExclusive(Step(s, events[0]), events[1..]);
      if |events| > 1 {
        assert events[1..][|events[1..]| - 1] == events[|events| - 1];
      }
    }
  }

  /** In a browser without geolocation no callback ever comes: from the
      initial state, any number of requests leaves no position, the
      unsupported message and no loading. */
  lemma {:induction false} UnsupportedRun(n: nat)
    requires n > 0
    ensures Run(Initial, seq(n, _ => Request(false))) == State(None, Some(UnsupportedMessage), false)
  {
    UnsupportedRequests(Initial, n);
  }

  lemma {:induction false} UnsupportedRequests(s: State, n: nat)
    requires s.coordinates.None?
    ensures n > 0 ==> Run(s, seq(n, _ => Request(false))) == State(None, Some(UnsupportedMessage), false)
    ensures n == 0 ==> Run(s, seq(n, _ => Request(false))) == s
    decreases n
  {
    if n > 0 {
      var es := seq(n, _ => Request(false));
      assert es[1..] == seq(n - 1, _ => Request(false));
      UnsupportedRequests(Step(s, es[0]), n - 1);
    }
  }

  // ---------------------------------------------------------------- options

  datatype Options = Options(enableHighAccuracy: Option<bool>, timeout: Option<int>, maximumAge: Option<int>)
  datatype PositionOptions = PositionOptions(enableHighAccuracy: bool, timeout: int, maximumAge: int)

  /** The options handed to the browser: each given value, else high accuracy,
      ten seconds, five minutes. Only an absent value is defaulted, so `false`
      and `0` are kept. */
  function PositionOptionsFor(o: Options): (p: PositionOptions)
    ensures o.enableHighAccuracy.Some? ==> p.enableHighAccuracy == o.enableHighAccuracy.value
    ensures o.enableHighAccuracy.None? ==> p.enableHighAccuracy
    ensures o.timeout.Some? ==> p.timeout == o.timeout.value
    ensures o.timeout.None? ==> p.timeout == 10000
    ensures o.maximumAge.Some? ==> p.maximumAge == o.maximumAge.value
    ensures o.maximumAge.None? ==> p.maximumAge == 300000
  {
    PositionOptions(
      match o.enableHighAccuracy case Some(b) => b case None => true,
      match o.timeout case Some(t) => t case None => 10000,
      match o.maximumAge case Some(m) => m case None => 300000)
  }
}
