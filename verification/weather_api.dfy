/** The OpenWeatherMap adapter: icon-code classification, the transform of an
    upstream current-conditions and forecast response pair into WeatherData,
    the mock fallback of `getCurrentWeather`, and `searchLocations`.

    The network is a parameter: each upstream fetch is given as its outcome.
    The calendar is a parameter too: `toDateString` and `toISOString` of an
    epoch second, and `toISOString` of the day a date string names. */
module WeatherApi {
  import opened Common
  import opened Text
  import opened WeatherTypes
  import opened DayGroups

  // ---------------------------------------------------------------- icon codes

  /** The `iconMap` record: 18 OpenWeatherMap icon codes. */
  const IconConditions: seq<(string, Condition)> := [
    ("01d", ClearDay), ("01n", ClearNight),
    ("02d", PartlyCloudy), ("02n", PartlyCloudy),
    ("03d", Cloudy), ("03n", Cloudy),
    ("04d", Cloudy), ("04n", Cloudy),
    ("09d", Rainy), ("09n", Rainy),
    ("10d", Rainy), ("10n", Rainy),
    ("11d", Stormy), ("11n", Stormy),
    ("13d", Snowy), ("13n", Snowy),
    ("50d", Foggy), ("50n", Foggy)
  ]

  /** The condition of the first entry listing `code`. */
  function LookupIcon(table: seq<(string, Condition)>, code: string): Option<Condition> {
    if |table| == 0 then None
    else if table[0].0 == code then Some(table[0].1)
    else LookupIcon(table[1..], code)
  }

  lemma {:induction false} LookupIconFinds(table: seq<(string, Condition)>, code: string)
    ensures LookupIcon(table, code).Some? ==> exists i :: 0 <= i < |table| && table[i] == (code, LookupIcon(table, code).value)
    ensures LookupIcon(table, code).None? ==> forall i :: 0 <= i < |table| ==> table[i].0 != code
  {
    if |table| > 0 && table[0].0 != code {
      LookupIconFinds(table[1..], code);
      if LookupIcon(table, code).Some? {
        var i :| 0 <= i < |table[1..]| && table[1..][i] == (code, LookupIcon(table, code).value);
        assert table[i + 1] == table[1..][i];
      } else {
        assert forall i :: 1 <= i < |table| ==> table[i] == table[1..][i - 1];
      }
    } else if |table| > 0 {
      assert table[0] == (code, LookupIcon(table, code).value);
    }
  }

  /** `mapWeatherCondition`: the table lookup, `PartlyCloudy` when it misses. */
  function MapWeatherCondition(code: string): Condition {
    match LookupIcon(IconConditions, code)
    case Some(c) => c
    case None => PartlyCloudy
  }

  /** A listed code (compared exactly, so case matters) gets the table's
      condition; every other string gets `PartlyCloudy`. */
  lemma MapWeatherConditionTable(code: string)
    ensures forall i :: 0 <= i < |IconConditions| && IconConditions[i].0 == code
                        ==> MapWeatherCondition(code) == IconConditions[i].1
    ensures (forall i :: 0 <= i < |IconConditions| ==> IconConditions[i].0 != code)
            ==> MapWeatherCondition(code) == PartlyCloudy
  {
    IconTableFunctional();
    LookupIconFinds(IconConditions, code);
  }

  /** Codes that agree map to the same condition (each code is listed once,
      day and night variants apart). */
  lemma IconTableFunctional()
    ensures forall i, j :: 0 <= i < |IconConditions| && 0 <= j < |IconConditions| && IconConditions[i].0 == IconConditions[j].0
                           ==> IconConditions[i].1 == IconConditions[j].1
  {
    forall i, j | 0 <= i < |IconConditions| && 0 <= j < |IconConditions| && IconConditions[i].0 == IconConditions[j].0
      ensures IconConditions[i].1 == IconConditions[j].1
    {
      IconCodeShape(i);
      IconCodeShape(j);
      assert IconConditions[i].0[..2] == IconConditions[j].0[..2];
    }
  }

  /** The published meaning of an icon code: two digits naming the sky, and a
      `d`/`n` suffix that only matters for a clear sky. */
  function ConditionOfGroup(group: string, suffix: char): Option<Condition> {
    if group == "01" then Some(if suffix == 'd' then ClearDay else ClearNight)
    else if group == "02" then Some(PartlyCloudy)
    else if group == "03" || group == "04" then Some(Cloudy)
    else if group == "09" || group == "10" then Some(Rainy)
    else if group == "11" then Some(Stormy)
    else if group == "13" then Some(Snowy)
    else if group == "50" then Some(Foggy)
    else None
  }

  /** A well-formed code: three characters, a known group, a `d` or `n` suffix. */
  predicate IsKnownCode(code: string) {
    |code| == 3 && (code[2] == 'd' || code[2] == 'n') && ConditionOfGroup(code[..2], code[2]).Some?
  }

  lemma IconCodeShape(i: nat)
    requires i < |IconConditions|
    ensures IsKnownCode(IconConditions[i].0)
    ensures ConditionOfGroup(IconConditions[i].0[..2], IconConditions[i].0[2]) == Some(IconConditions[i].1)
  {
    var c := IconConditions[i].0;
    assert |c| == 3 && c[..2] == [c[0], c[1]];
  }

  /** The table is exactly the published meaning: every well-formed code maps
      to its group's condition and every other string to `PartlyCloudy`. */
  lemma MapWeatherConditionByGroup(code: string)
    ensures IsKnownCode(code) ==> MapWeatherCondition(code) == ConditionOfGroup(code[..2], code[2]).value
    ensures !IsKnownCode(code) ==> MapWeatherCondition(code) == PartlyCloudy
  {
    var t := IconConditions;
    if IsKnownCode(code) {
      var g := code[..2];
      var i := if g == "01" then 0 else if g == "02" then 2 else if g == "03" then 4 else if g == "04" then 6
               else if g == "09" then 8 else if g == "10" then 10 else if g == "11" then 12
               else if g == "13" then 14 else 16;
      var k := if code[2] == 'd' then i else i + 1;
      assert code == [code[0], code[1], code[2]];
      assert t[k].0 == code;
      IconCodeShape(k);
      MapWeatherConditionTable(code);
    } else {
      forall i | 0 <= i < |t| ensures t[i].0 != code {
        IconCodeShape(i);
      }
      MapWeatherConditionTable(code);
    }
  }

  /** No code classifies as `Windy`. */
  lemma MapWeatherConditionNeverWindy(code: string)
    ensures MapWeatherCondition(code) != Windy
  {
    MapWeatherConditionTable(code);
    assert forall i :: 0 <= i < |IconConditions| ==> IconConditions[i].1 != Windy;
  }

  /** Codes are compared exactly: an upper-case suffix is not recognised. */
  lemma MapWeatherConditionCaseSensitive()
    ensures MapWeatherCondition("01d") == ClearDay
    ensures MapWeatherCondition("01D") == PartlyCloudy
  {
    MapWeatherConditionByGroup("01d");
    MapWeatherConditionByGroup("01D");
    assert "01d"[..2] == "01";
  }

  // ---------------------------------------------------------------- upstream payloads

  /** One `weather[]` entry of an upstream payload. */
  datatype WeatherEntry = WeatherEntry(icon: string, description: string)

  /** One three-hourly forecast entry, reduced to the fields the transform reads. */
  datatype ForecastItem = ForecastItem(
    dt: int, temp: real, humidity: real, windSpeed: real, pop: real, weather: seq<WeatherEntry>)

  /** The current-conditions payload, reduced to the fields the transform reads. */
  datatype CurrentResponse = CurrentResponse(
    coord: Coordinates, name: string, country: string,
    temp: real, feelsLike: real, humidity: real, pressure: real,
    windSpeed: real, windDeg: real, visibility: real, weather: seq<WeatherEntry>)

  datatype ForecastResponse = ForecastResponse(list: seq<ForecastItem>)

  /** The calendar: `new Date(dt * 1000).toDateString()`, the same `.toISOString()`,
      and `new Date(day).toISOString()` for a day string. */
  datatype Calendar = Calendar(dayKey: int -> string, instant: int -> string, dayStart: string -> string)

  // ---------------------------------------------------------------- hourly

  const HourlyLimit: nat := 24

  function HourlyCount(list: seq<ForecastItem>): nat {
    if |list| < HourlyLimit then |list| else HourlyLimit
  }

  /** The hourly forecast: one entry per item of `list.slice(0, 24)`. An item
      with an empty `weather` array makes the JavaScript map throw; that is None. */
  function HourlyForecastOf(list: seq<ForecastItem>, cal: Calendar): (r: Option<seq<HourlyForecast>>)
    ensures r.Some? <==> forall i :: 0 <= i < HourlyCount(list) ==> |list[i].weather| > 0
    ensures r.Some? ==> |r.value| == HourlyCount(list) <= HourlyLimit
    ensures r.Some? ==> forall i :: 0 <= i < |r.value| ==>
              && r.value[i].time == cal.instant(list[i].dt)
              && r.value[i].temperature == list[i].temp
              && r.value[i].precipitation == list[i].pop * 100.0
              && r.value[i].icon == list[i].weather[0].icon
              && r.value[i].condition == MapWeatherCondition(list[i].weather[0].icon)
  {
    var n := HourlyCount(list);
    if forall i :: 0 <= i < n ==> |list[i].weather| > 0 then
      Some(seq(n, i requires 0 <= i < n =>
        HourlyForecast(cal.instant(list[i].dt), list[i].temp, list[i].pop * 100.0,
                       MapWeatherCondition(list[i].weather[0].icon), list[i].weather[0].icon)))
    else None
  }

  // ---------------------------------------------------------------- daily

  const DailyLimit: nat := 7

  /** The grouping key of an item: its calendar day. */
  function DayKeyOf(cal: Calendar): ForecastItem -> string {
    (item: ForecastItem) => cal.dayKey(item.dt)
  }

  /** `items.map(item => item.main.temp)`. */
  function Temps(items: seq<ForecastItem>): seq<real> {
    if |items| == 0 then [] else [items[0].temp] + Temps(items[1..])
  }

  /** `items.map(item => item.pop * 100)`. */
  function Precipitations(items: seq<ForecastItem>): seq<real> {
    if |items| == 0 then [] else [items[0].pop * 100.0] + Precipitations(items[1..])
  }

  lemma {:induction false} TempsAt(items: seq<ForecastItem>)
    ensures |Temps(items)| == |items|
    ensures forall j :: 0 <= j < |items| ==> Temps(items)[j] == items[j].temp
  {
    if |items| > 0 {
      TempsAt(items[1..]);
    }
  }

  lemma {:induction false} PrecipitationsAt(items: seq<ForecastItem>)
    ensures |Precipitations(items)| == |items|
    ensures forall j :: 0 <= j < |items| ==> Precipitations(items)[j] == items[j].pop * 100.0
  {
    if |items| > 0 {
      PrecipitationsAt(items[1..]);
    }
  }

  /** The item the day's humidity, wind and condition are read from: the middle one. */
  function Representative(items: seq<ForecastItem>): ForecastItem
    requires |items| > 0
  {
    items[|items| / 2]
  }

  /** One day's summary: temperature extremes and the wettest slot over all
      its items, everything else from the middle item. None when the middle
      item has no `weather` entry, or there is no item at all (the JavaScript
      throws on either). */
  function DailyEntry(day: string, items: seq<ForecastItem>, cal: Calendar): (r: Option<DailyForecast>)
    ensures r.Some? <==> |items| > 0 && |Representative(items).weather| > 0
    ensures r.Some? ==> r.value.date == cal.dayStart(day)
    ensures r.Some? ==> var m := Representative(items);
                        && r.value.humidity == m.humidity && r.value.windSpeed == m.windSpeed
                        && r.value.icon == m.weather[0].icon && r.value.description == m.weather[0].description
                        && r.value.condition == MapWeatherCondition(m.weather[0].icon)
  {
    if |items| == 0 || |Representative(items).weather| == 0 then None
    else
      var m := Representative(items);
      var t := Temps(items);
      var p := Precipitations(items);
      TempsAt(items);
      PrecipitationsAt(items);
      Some(DailyForecast(cal.dayStart(day), Min(t), Max(t), Max(p), m.humidity, m.windSpeed,
                         MapWeatherCondition(m.weather[0].icon), m.weather[0].icon, m.weather[0].description))
  }

  /** A day's extremes are attained by its items and bound all of them. */
  lemma DailyEntryExtremes(day: string, items: seq<ForecastItem>, cal: Calendar)
    requires DailyEntry(day, items, cal).Some?
    ensures var d := DailyEntry(day, items, cal).value;
            && d.tempMin <= d.tempMax
            && (forall j :: 0 <= j < |items| ==> d.tempMin <= items[j].temp <= d.tempMax)
            && (exists j :: 0 <= j < |items| && items[j].temp == d.tempMin)
            && (exists j :: 0 <= j < |items| && items[j].temp == d.tempMax)
  {
    var t := Temps(items);
    TempsAt(items);
    var d := DailyEntry(day, items, cal).value;
    assert d.tempMin == Min(t) && d.tempMax == Max(t);
    MinLeMax(t);
    var lo :| 0 <= lo < |t| && t[lo] == Min(t);
    var hi :| 0 <= hi < |t| && t[hi] == Max(t);
    assert items[lo].temp == d.tempMin && items[hi].temp == d.tempMax;
  }

  /** A day's precipitation is the largest chance of any of its items, as a percentage. */
  lemma DailyEntryWettest(day: string, items: seq<ForecastItem>, cal: Calendar)
    requires DailyEntry(day, items, cal).Some?
    ensures var d := DailyEntry(day, items, cal).value;
            && (forall j :: 0 <= j < |items| ==> items[j].pop * 100.0 <= d.precipitation)
            && (exists j :: 0 <= j < |items| && items[j].pop * 100.0 == d.precipitation)
  {
    var p := Precipitations(items);
    PrecipitationsAt(items);
    var d := DailyEntry(day, items, cal).value;
    assert d.precipitation == Max(p);
    var hi :| 0 <= hi < |p| && p[hi] == Max(p);
    assert items[hi].pop * 100.0 == d.precipitation;
  }

  function DayGroupsOf(list: seq<ForecastItem>, cal: Calendar): seq<Group<string, ForecastItem>> {
    GroupByKey(list, DayKeyOf(cal))
  }

  /** The distinct days of the forecast, in order of first appearance. */
  ghost function Days(list: seq<ForecastItem>, cal: Calendar): seq<string> {
    FirstAppearance(KeysOf(list, DayKeyOf(cal)))
  }

  function DailyCount(groups: nat): nat {
    if groups < DailyLimit then groups else DailyLimit
  }

  /** `groups.map(...)`: every group summarised, in order; None as soon as one cannot be. */
  function SummariseDays(gs: seq<Group<string, ForecastItem>>, cal: Calendar): (r: Option<seq<DailyForecast>>)
    ensures r.Some? <==> forall i :: 0 <= i < |gs| ==> DailyEntry(gs[i].key, gs[i].items, cal).Some?
    ensures r.Some? ==> |r.value| == |gs|
    ensures r.Some? ==> forall i :: 0 <= i < |gs| ==> DailyEntry(gs[i].key, gs[i].items, cal) == Some(r.value[i])
  {
    if |gs| == 0 then Some([])
    else
      match DailyEntry(gs[0].key, gs[0].items, cal)
      case None => None
      case Some(d) =>
        match SummariseDays(gs[1..], cal)
        case None => None
        case Some(rest) => Some([d] + rest)
  }

  /** The daily forecast: the first seven day groups, summarised. */
  function DailyForecastOf(list: seq<ForecastItem>, cal: Calendar): (r: Option<seq<DailyForecast>>)
    ensures var gs := DayGroupsOf(list, cal);
            r.Some? <==> forall i :: 0 <= i < DailyCount(|gs|) ==> DailyEntry(gs[i].key, gs[i].items, cal).Some?
    ensures r.Some? ==> var gs := DayGroupsOf(list, cal);
            && |r.value| == DailyCount(|gs|)
            && forall i :: 0 <= i < |r.value| ==> DailyEntry(gs[i].key, gs[i].items, cal) == Some(r.value[i])
  {
    var gs := DayGroupsOf(list, cal);
    var first := gs[..DailyCount(|gs|)];
    assert forall i :: 0 <= i < |first| ==> first[i] == gs[i];
    SummariseDays(first, cal)
  }

  /** Entry i of the daily forecast summarises the i-th distinct day of the
      forecast list (in order of first appearance) from exactly that day's
      items; there are at most seven entries and never more than days. */
  lemma DailyForecastByDay(list: seq<ForecastItem>, cal: Calendar)
    requires DailyForecastOf(list, cal).Some?
    ensures var r := DailyForecastOf(list, cal).value;
            && |r| == DailyCount(|Days(list, cal)|) <= DailyLimit
            && forall i :: 0 <= i < |r| ==>
                 && r[i].date == cal.dayStart(Days(list, cal)[i])
                 && DailyEntry(Days(list, cal)[i], ItemsWithKey(list, DayKeyOf(cal), Days(list, cal)[i]), cal)
                    == Some(r[i])
  {
    var gs := DayGroupsOf(list, cal);
    GroupByKeyCorrect(list, DayKeyOf(cal));
    assert |Days(list, cal)| == |gs|;
    forall i | 0 <= i < |gs| ensures Days(list, cal)[i] == gs[i].key {
      assert Keys(gs)[i] == gs[i].key;
    }
  }

  /** Each daily entry covers exactly the items of its day: its extremes bound
      every forecast item falling on that day. */
  lemma DailyEntryCoversItsDay(list: seq<ForecastItem>, cal: Calendar, i: nat, j: nat)
    requires DailyForecastOf(list, cal).Some?
    requires i < |DailyForecastOf(list, cal).value| && i < |Days(list, cal)| && j < |list|
    requires cal.dayKey(list[j].dt) == Days(list, cal)[i]
    ensures var d := DailyForecastOf(list, cal).value[i];
            d.tempMin <= list[j].temp <= d.tempMax && list[j].pop * 100.0 <= d.precipitation
  {
    DailyForecastByDay(list, cal);
    var day := Days(list, cal)[i];
    var items := ItemsWithKey(list, DayKeyOf(cal), day);
    assert DailyEntry(day, items, cal) == Some(DailyForecastOf(list, cal).value[i]);
    assert DayKeyOf(cal)(list[j]) == day;
    ItemsWithPresentKey(list, DayKeyOf(cal), j);
    var k :| 0 <= k < |items| && items[k] == list[j];
    DailyEntryExtremes(day, items, cal);
    DailyEntryWettest(day, items, cal);
  }

  // ---------------------------------------------------------------- transform

  /** `transformWeatherData`; None when an indexed `weather[0]` is missing. */
  function TransformWeatherData(current: CurrentResponse, forecast: ForecastResponse, cal: Calendar, now: string)
    : (r: Option<WeatherData>)
    ensures r.Some? <==> |current.weather| > 0 && HourlyForecastOf(forecast.list, cal).Some?
                         && DailyForecastOf(forecast.list, cal).Some?
    ensures r.Some? ==> var d := r.value;
            && d.location == Location(current.name, current.country, current.coord)
            && d.current.temperature == current.temp && d.current.feelsLike == current.feelsLike
            && d.current.humidity == current.humidity && d.current.pressure == current.pressure
            && d.current.windSpeed == current.windSpeed && d.current.windDirection == current.windDeg
            && d.current.visibility * 1000.0 == current.visibility
            && d.current.uvIndex == 6.0
            && d.current.condition == MapWeatherCondition(current.weather[0].icon)
            && d.current.icon == current.weather[0].icon
            && d.current.description == current.weather[0].description
            && d.forecast == Forecast(HourlyForecastOf(forecast.list, cal).value, DailyForecastOf(forecast.list, cal).value)
            && d.lastUpdated == now
  {
    var hourly := HourlyForecastOf(forecast.list, cal);
    var daily := DailyForecastOf(forecast.list, cal);
    if hourly.None? || daily.None? || |current.weather| == 0 then None
    else
      var w := current.weather[0];
      Some(WeatherData(
        Location(current.name, current.country, current.coord),
        CurrentWeather(current.temp, current.feelsLike, current.humidity, current.pressure,
                       current.windSpeed, current.windDeg, current.visibility / 1000.0, 6.0,
                       MapWeatherCondition(w.icon), w.icon, w.description),
        Forecast(hourly.value, daily.value),
        now))
  }

  /** Both fetches succeeded with parseable bodies. */
  predicate BothFetched(current: Fetched<CurrentResponse>, forecast: Fetched<ForecastResponse>) {
    current.Response? && current.ok && current.body.Some?
    && forecast.Response? && forecast.ok && forecast.body.Some?
  }

  /** `getCurrentWeather`: never fails. Without a key, and on any failure (a
      rejected fetch, a non-OK status, an unparseable body, a throw in the
      transform), the result is the mock; otherwise the transformed data. */
  function GetCurrentWeather(
    apiKey: Option<string>, current: Fetched<CurrentResponse>, forecast: Fetched<ForecastResponse>,
    cal: Calendar, now: string, mock: WeatherData): (r: WeatherData)
    ensures !Truthy(apiKey) ==> r == mock
    ensures Truthy(apiKey) && !BothFetched(current, forecast) ==> r == mock
    ensures Truthy(apiKey) && BothFetched(current, forecast)
            ==> var t := TransformWeatherData(current.body.value, forecast.body.value, cal, now);
                r == if t.Some? then t.value else mock
  {
    if !Truthy(apiKey) then mock
    else if !BothFetched(current, forecast) then mock
    else
      match TransformWeatherData(current.body.value, forecast.body.value, cal, now)
      case Some(d) => d
      case None => mock
  }

  /** Real data is returned only when a key is set, both fetches succeeded and the transform did not throw. */
  lemma GetCurrentWeatherRealOnlyOnSuccess(
    apiKey: Option<string>, current: Fetched<CurrentResponse>, forecast: Fetched<ForecastResponse>,
    cal: Calendar, now: string, mock: WeatherData)
    requires GetCurrentWeather(apiKey, current, forecast, cal, now, mock) != mock
    ensures Truthy(apiKey) && BothFetched(current, forecast)
    ensures TransformWeatherData(current.body.value, forecast.body.value, cal, now)
            == Some(GetCurrentWeather(apiKey, current, forecast, cal, now, mock))
  {
  }

  // ---------------------------------------------------------------- search

  datatype Place = Place(name: string, country: string, lat: real, lon: real)

  /** The three places searched when no key is set. */
  const SeedPlaces: seq<Place> := [
    Place("San Francisco", "US", 37.7749, -122.4194),
    Place("New York", "US", 40.7128, -74.0060),
    Place("London", "GB", 51.5074, -0.1278)
  ]

  /** Case-insensitive substring match of the query on name or country. */
  predicate MatchesQuery(p: Place, query: string) {
    Contains(ToLower(p.name), ToLower(query)) || Contains(ToLower(p.country), ToLower(query))
  }

  function QueryMatcher(query: string): Place -> bool {
    (p: Place) => MatchesQuery(p, query)
  }

  /** `searchLocations`: the matching seeds without a key; with one, the
      upstream list when the request succeeds and the empty list otherwise. */
  function SearchLocations(apiKey: Option<string>, query: string, upstream: Fetched<seq<Place>>): (r: seq<Place>)
    ensures !Truthy(apiKey) ==> IsSubsequence(r, SeedPlaces)
    ensures !Truthy(apiKey) ==> forall i :: 0 <= i < |SeedPlaces| ==> (SeedPlaces[i] in r <==> MatchesQuery(SeedPlaces[i], query))
    ensures Truthy(apiKey) && upstream.Response? && upstream.ok && upstream.body.Some? ==> r == upstream.body.value
    ensures Truthy(apiKey) && !(upstream.Response? && upstream.ok && upstream.body.Some?) ==> r == []
  {
    if !Truthy(apiKey) then
      var r := Filter(SeedPlaces, QueryMatcher(query));
      assert forall i :: 0 <= i < |r| ==> r[i] in SeedPlaces && MatchesQuery(r[i], query);
      r
    else if upstream.Response? && upstream.ok && upstream.body.Some? then upstream.body.value
    else []
  }

  /** The seeds' names and countries, lower-cased. */
  lemma SeedsLowered()
    ensures ToLower(SeedPlaces[0].name) == "san francisco" && ToLower(SeedPlaces[0].country) == "us"
    ensures ToLower(SeedPlaces[1].name) == "new york" && ToLower(SeedPlaces[1].country) == "us"
    ensures ToLower(SeedPlaces[2].name) == "london" && ToLower(SeedPlaces[2].country) == "gb"
  {
  }

  /** A needle whose first character is absent is not found. */
  lemma NotContained(hay: string, needle: string)
    requires |needle| > 0 && needle[0] !in hay
    ensures !Contains(hay, needle)
  {
    if Contains(hay, needle) {
      ContainsHasFirstChar(hay, needle);
    }
  }

  lemma SeedsMatchingUs()
    ensures MatchesQuery(SeedPlaces[0], "us") && MatchesQuery(SeedPlaces[1], "us")
    ensures !MatchesQuery(SeedPlaces[2], "us")
  {
    SeedsLowered();
    assert ToLower("us") == "us";
    assert OccursAt("us", "us", 0);
    ContainsIff("us", "us");
    assert 'u' !in "gb" && 'u' !in "london";
    NotContained("gb", "us");
    NotContained("london", "us");
  }

  lemma LowerLon()
    ensures ToLower("LON") == "lon"
  {
    assert LowerChar('L') == 'l' && LowerChar('O') == 'o' && LowerChar('N') == 'n';
  }

  lemma SeedsMatchingLon()
    ensures !MatchesQuery(SeedPlaces[0], "LON") && !MatchesQuery(SeedPlaces[1], "LON")
    ensures MatchesQuery(SeedPlaces[2], "LON")
  {
    SeedsLowered();
    LowerLon();
    LonOnlyInLondon();
  }

  lemma LonOnlyInLondon()
    ensures Contains("london", "lon")
    ensures !Contains("san francisco", "lon") && !Contains("us", "lon")
    ensures !Contains("new york", "lon") && !Contains("gb", "lon")
  {
    assert OccursAt("london", "lon", 0);
    ContainsIff("london", "lon");
    LonNotIn("san francisco");
    LonNotIn("new york");
    LonNotIn("us");
    LonNotIn("gb");
  }

  lemma LonNotIn(hay: string)
    requires hay in {"san francisco", "new york", "us", "gb"}
    ensures !Contains(hay, "lon")
  {
    assert 'l' !in hay;
    NotContained(hay, "lon");
  }

  /** Without a key, "us" finds both US cities (by country). */
  lemma SearchLocationsByCountry(upstream: Fetched<seq<Place>>)
    ensures SearchLocations(None, "us", upstream) == SeedPlaces[..2]
  {
    var f := QueryMatcher("us");
    var s := SeedPlaces;
    SeedsMatchingUs();
    assert f(s[0]) && f(s[1]) && !f(s[2]);
    assert s[2..][1..] == [];
    assert Filter(s[2..], f) == [];
    assert s[1..][1..] == s[2..];
    assert Filter(s[1..], f) == [s[1]];
    assert Filter(s, f) == s[..2];
  }

  /** Without a key, matching ignores case: "LON" finds London. */
  lemma SearchLocationsIgnoresCase(upstream: Fetched<seq<Place>>)
    ensures SearchLocations(None, "LON", upstream) == [SeedPlaces[2]]
  {
    var f := QueryMatcher("LON");
    var s := SeedPlaces;
    SeedsMatchingLon();
    assert !f(s[0]) && !f(s[1]) && f(s[2]);
    assert s[2..][1..] == [];
    assert Filter(s[2..], f) == [s[2]];
    assert s[1..][1..] == s[2..];
    assert Filter(s[1..], f) == [s[2]];
    assert Filter(s, f) == [s[2]];
  }

  /** Without a key, the empty query keeps every seed. */
  lemma SearchLocationsEmptyQuery(upstream: Fetched<seq<Place>>)
    ensures SearchLocations(None, "", upstream) == SeedPlaces
  {
    var f := QueryMatcher("");
    forall p: Place ensures f(p) {
      assert OccursAt(ToLower(p.name), ToLower(""), 0);
      ContainsIff(ToLower(p.name), ToLower(""));
    }
    assert Filter(SeedPlaces[2..], f) == [SeedPlaces[2]];
    assert Filter(SeedPlaces[1..], f) == SeedPlaces[1..];
  }
}
