# Weather dashboard core, modelled in Dafny

This project models the logic of a weather and energy dashboard, leaving out the rendering. The parts modelled are:

- **The provider adapter.** It turns OpenWeatherMap answers into the dashboard's `WeatherData`:
  - the icon-code classifier;
  - the hourly slice;
  - the grouping of forecast entries by calendar day and the per-day summary;
  - the mock fallback;
  - the keyless location search.
- **Lookup and unit helpers:**
  - wind-compass bands and UV levels;
  - Celsius/Fahrenheit conversion;
  - the time of day;
  - the number formatters, including `Math.round` and `toFixed`, written out over exact reals.
- **Small state machines:**
  - the persisted location store;
  - the geolocation hook;
  - the energy stub, whose shallow copy aliases its baseline;
  - the API client's retry loop.
- **The two server routes.**
- **The client data hooks** and their exponential back-off.
- **UI helpers:** the weather icon selection, the air-quality bands and the alert-severity mapping.

Each module follows one source file or component:

| module | file |
|---|---|
| `WeatherApi` | `weather_api.dfy` |
| `DayGroups` | `day_groups.dfy` |
| `WeatherUtils` | `weather_utils.dfy` |
| `WeatherConstants` | `weather_constants.dfy` |
| `WeatherTypes` | `weather_types.dfy` |
| `Format` | `format.dfy` |
| `LocationStore` | `location_store.dfy` |
| `Geolocation` | `geolocation.dfy` |
| `WeatherQueries` | `weather_queries.dfy` |
| `ApiClient` | `api_client.dfy` |
| `EnergyApi` | `energy_api.dfy` |
| `WeatherRoutes` | `weather_routes.dfy` |
| `WeatherIconView` | `weather_icon.dfy` |
| `AirQuality` | `air_quality.dfy` |
| `WeatherAlerts` | `weather_alerts.dfy` |

Four support modules hold what JavaScript provides built in:

| module | provides |
|---|---|
| `Common` | `Option`, JS truthiness of strings, a fetch answer, `Math.min`/`Math.max`, `find`, `filter` |
| `Text` | ASCII `toLowerCase`, `includes`, `trim` |
| `Decimal` | integer `toString`, `Math.round`, `toFixed` |
| `FormEncoding` | the `application/x-www-form-urlencoded` serializer of section 5.2 of the WHATWG URL Standard, which `URLSearchParams` uses, with its decoder |

Every input the code cannot compute itself is a parameter:

- the calendar (`toDateString`, `toISOString`, `new Date(key)`);
- the clock;
- `Math.random` draws, in [0, 1);
- `Math.sin` and `Math.pow`;
- `parseFloat`;
- number-to-text conversion of coordinates;
- the relative-time formatter;
- the upstream `fetch` answers;
- the mock weather record.

In a few places the code does something other than what its own tests expect or its structure suggests; the model follows the code:

- Only rejections of `fetch` itself are retried. `handleResponse` is returned without `await` inside the `try` (src/lib/api/api-client.ts:58-59), so its error escapes the `catch`, and a non-2xx answer is not retried.
- The weather route answers 500 only when the service throws (src/app/api/weather/route.ts:25-31), and the service never does on an upstream failure: it returns the mock record instead (src/lib/api/weather-api.ts:160-164). tests/integration/api/weather.test.ts:106-118 expects a 500 on a network error.
- `formatSpeed` prints the unit key itself (`kmh`, `mph`), and only `ms` becomes `m/s` (src/lib/utils/format.ts:20). tests/unit/utils/format.test.ts:36 expects `10 km/h`.
- No formatter has a placeholder for missing values. tests/unit/utils/format.test.ts:24-30 expects `--°C`.
- The geolocation hook requests no position when it is mounted (src/lib/hooks/use-geolocation.ts:75-76). tests/unit/hooks/use-geolocation.test.ts:121-139 expects a request on mount.

## Model

| member | source | states |
|---|---|---|
| WeatherApi.MapWeatherConditionTable | src/lib/api/weather-api.ts:106-129 | a code listed in the 18-entry table yields its listed condition; every other string yields partly-cloudy |
| WeatherApi.IconTableFunctional | src/lib/api/weather-api.ts:107-126 | no code is listed twice with two meanings, so the table is a function |
| WeatherApi.MapWeatherConditionByGroup | src/lib/api/weather-api.ts:107-128 | the table is exactly the published meaning of a well-formed code: its group 01…50 decides the condition, and the day/night letter matters only for a clear sky; anything else is partly-cloudy |
| WeatherApi.MapWeatherConditionNeverWindy | src/lib/api/weather-api.ts:107-128 | no code is ever classified as windy |
| WeatherApi.MapWeatherConditionCaseSensitive | src/lib/api/weather-api.ts:128 | the lookup compares exactly: "01d" is a clear day, "01D" falls back to partly-cloudy |
| WeatherApi.HourlyForecastOf | src/lib/api/weather-api.ts:203-209 | the hourly list has min(24, n) entries; entry i comes from list item i, with precipitation pop·100 and the condition the classifier gives its icon; it fails exactly when one of those items has no weather entry |
| WeatherApi.DailyEntry | src/lib/api/weather-api.ts:220-234 | a day's humidity, wind, icon, description and condition come from its middle item, at index ⌊n/2⌋, and its date from the day key; it fails exactly when that item has no weather entry |
| WeatherApi.DailyEntryExtremes | src/lib/api/weather-api.ts:226-227 | tempMin ≤ tempMax; every temperature of the day lies between them, and both are attained |
| WeatherApi.DailyEntryWettest | src/lib/api/weather-api.ts:228 | the day's precipitation is the largest pop·100 of its items and is attained |
| WeatherApi.SummariseDays | src/lib/api/weather-api.ts:219-235 | one daily entry per group, in group order, defined exactly when every group's entry is |
| WeatherApi.DailyForecastOf | src/lib/api/weather-api.ts:212-235 | the daily list covers the first min(7, #groups) day groups, entry i summarising group i |
| WeatherApi.DailyForecastByDay | src/lib/api/weather-api.ts:212-235 | at most 7 entries; entry i is the i-th distinct day in order of first appearance, summarising exactly the items of that day |
| WeatherApi.DailyEntryCoversItsDay | src/lib/api/weather-api.ts:212-228 | every list item of a listed day lies within that day's min/max, and its pop·100 does not exceed the day's precipitation |
| WeatherApi.TransformWeatherData | src/lib/api/weather-api.ts:202-265 | the location, including coordinates, comes from the upstream answer, not the request; visibility is upstream/1000; the UV index is always 6; the condition comes from the current icon; the forecast is the hourly and daily lists; lastUpdated is the clock; it fails exactly when a needed weather entry is missing |
| WeatherApi.GetCurrentWeather | src/lib/api/weather-api.ts:135-165 | it never fails: the mock is returned when the key is absent or empty, when either fetch rejects or answers non-OK, or when the transform throws; otherwise the transformed data is returned |
| WeatherApi.GetCurrentWeatherRealOnlyOnSuccess | src/lib/api/weather-api.ts:135-165 | any answer other than the mock implies a key, two successful fetches, and that the answer is their transform |
| WeatherApi.SearchLocations | src/lib/api/weather-api.ts:167-200 | without a key: the seed cities whose lower-cased name or country contains the lower-cased query, in seed order; with a key: the upstream list on success and [] on any failure |
| WeatherApi.SearchLocationsByCountry | src/lib/api/weather-api.ts:170-177 | "us" matches San Francisco and New York through the country and does not match London |
| WeatherApi.SearchLocationsIgnoresCase | src/lib/api/weather-api.ts:174-177 | "LON" finds London alone |
| WeatherApi.SearchLocationsEmptyQuery | src/lib/api/weather-api.ts:174-177 | the empty query matches every seed city |
| DayGroups.GroupByKeyCorrect | src/lib/api/weather-api.ts:212-217 | the groups' keys are the distinct day keys in order of first appearance; each group holds exactly the items with its key, in list order, and is non-empty |
| DayGroups.EachItemInOneGroup | src/lib/api/weather-api.ts:212-217 | every item lands in the group of its key; keys are pairwise distinct; no group holds an item of another key |
| DayGroups.GroupSizesSum | src/lib/api/weather-api.ts:212-217 | the group sizes add up to the list length: nothing is lost or duplicated |
| DayGroups.AddToGroupShape | src/lib/api/weather-api.ts:214-215 | adding an item extends the group of its key, or appends a new group when the key is new; every other group is unchanged |
| DayGroups.AddToGroupTotal | src/lib/api/weather-api.ts:214-215 | adding an item adds exactly one to the total |
| DayGroups.FirstAppearance | src/lib/api/weather-api.ts:219 | the reference order of days: distinct, and holding exactly the keys that occur |
| WeatherUtils.WindDirection | src/lib/utils/weather.ts:4-9 | the label of the band containing the bearing; outside [0, 360) it is N |
| WeatherUtils.WindDirectionIsNearestPoint | src/lib/utils/weather.ts:4-9 | on [0, 360) the band lookup equals the nearest of the eight compass points, ⌊(d+22.5)/45⌋ mod 8 |
| WeatherUtils.UVIndexLevel | src/lib/utils/weather.ts:11-16 | the level whose inclusive range holds the index; when none does, the first level |
| WeatherUtils.UVIndexLevelFallbacks | src/lib/utils/weather.ts:11-16 | negative indices and the non-integer gaps (2,3), (5,6), (7,8) and (10,11) are reported "Low"; 11 and above "Extreme" |
| WeatherUtils.UVIndexLevelOnIntegers | src/lib/utils/weather.ts:11-16 | on integers the lookup agrees with the thresholds 2, 5, 7 and 10 |
| WeatherUtils.TemperatureConversionsInverse | src/lib/utils/weather.ts:18-24 | the two conversions are mutual inverses and order-preserving; 0 ↔ 32 and 100 ↔ 212 |
| WeatherUtils.WeatherDescription | src/lib/utils/weather.ts:26-40 | the result is the condition's own record entry: the lookup hits for all nine conditions, so the fallback text is never returned, and no other condition has the same description |
| WeatherUtils.DescriptionsDistinct | src/lib/utils/weather.ts:27-39 | no two conditions share a description |
| WeatherUtils.HeatIndex | src/lib/utils/weather.ts:49-66 | below 27 °C the temperature is returned unchanged |
| WeatherUtils.WindChill | src/lib/utils/weather.ts:68-79 | above 10 °C, or below a wind speed of 5, the temperature is returned unchanged |
| WeatherUtils.TimeOfDayPartition | src/lib/utils/weather.ts:85-90 | morning, afternoon and evening are exactly [5,12), [12,17) and [17,21); night is everything else |
| WeatherUtils.NightTimeVersusTimeOfDay | src/lib/utils/weather.ts:81-90 | night for the time of day implies night time; the two disagree exactly on [5,6) (morning) and [18,21) (evening) |
| WeatherConstants.WindBandsContiguous | src/lib/constants/weather.ts:77-87 | nine non-empty bands from 0 to 360, each starting where the previous ends |
| WeatherConstants.WindBandsPartition | src/lib/constants/weather.ts:77-87 | every bearing in [0, 360) lies in exactly one band, and every other bearing in none |
| WeatherConstants.WindLabelsDistinct | src/lib/constants/weather.ts:77-87 | eight distinct labels; N labels both the first and the last band |
| WeatherConstants.UvLevelsOrderedDisjoint | src/lib/constants/weather.ts:69-75 | five levels with increasing minima and pairwise disjoint ranges |
| WeatherConstants.UvLevelsCoverIntegers | src/lib/constants/weather.ts:69-75 | every non-negative integer lies in some level |
| WeatherConstants.UvLevelGaps | src/lib/constants/weather.ts:70-73 | the open intervals between consecutive levels lie in no level |
| WeatherConstants.WeatherConditionsOnePerCondition | src/lib/constants/weather.ts:21-67 | the condition style table has exactly one entry per condition |
| WeatherTypes.AllConditionsComplete | src/types/weather.ts:12-21 | the nine listed conditions are all there are |
| Format.FormatTemperatureAsWritten | src/lib/utils/format.ts:3-6 | the rounded temperature in its canonical decimal text (no leading zeros, no "-0"), then the two characters of the source's marker, then the unit letter |
| Format.FormatTemperatureStrayCharacter | src/lib/utils/format.ts:5 | 72 °C prints as "72Â°C", not "72°C" |
| Format.FormatTemperature | src/lib/utils/format.ts:3-6 | the rounded temperature in its canonical decimal text, a degree sign and the unit letter |
| Format.FormatTemperatureExamples | src/lib/utils/format.ts:3-6 | 72.5 → "73°C", 72.3 → "72°C", −10 → "−10°F" |
| Format.FormatSpeed | src/lib/utils/format.ts:8-21 | the speed is converted (×3.6 for kmh, ×2.237 for mph, none for ms) and then rounded, in canonical decimal text; a space and the suffix follow, which is m/s for ms and the unit key otherwise |
| Format.FormatSpeedDefaultConverts | src/lib/utils/format.ts:8-21 | by default 10 m/s prints as "36 kmh" |
| Format.FormatSpeedMetresPerSecond | src/lib/utils/format.ts:8-21 | 25.5 in ms prints as "26 m/s" |
| Format.FormatPressure | src/lib/utils/format.ts:23-31 | hPa: the rounded integer in canonical text and " hPa"; inHg: pressure·0.02953 as `toFixed(2)` writes it (canonical integer part, a minus exactly for a negative value) and " inHg" |
| Format.FormatPressureInHgExample | src/lib/utils/format.ts:23-31 | 1013 hPa prints as "29.91 inHg" |
| Format.FormatPercentage | src/lib/utils/format.ts:33-35 | the rounded value in canonical decimal text followed by % |
| Format.FormatDistance | src/lib/utils/format.ts:37-45 | the distance (×0.621371 for mi only) as `toFixed(1)` writes it (canonical integer part, a minus exactly for a negative value), a space and the unit |
| Decimal.Round | src/lib/utils/format.ts:4 | `Math.round`: the integer n with n − ½ ≤ x < n + ½, so halves round up |
| Decimal.ShowInt | src/lib/utils/format.ts:5 | `String(i)`: the text reads back as i through a parser that accepts only canonical text, and starts with a minus exactly when i < 0 |
| Decimal.ShowFixed | src/lib/utils/format.ts:44 | `toFixed(k)` reads back, through a parser that accepts only a canonical integer part and exactly k decimals, as the sign and the half-up rounding of the magnitude of x times 10^k; it starts with a minus exactly when x < 0, "-0.00" included |
| Decimal.ParseIntInjective | src/lib/utils/format.ts:5 | no two texts read back as the same integer, so every read-back above pins the exact digits |
| Decimal.ParseIntIsShowInt | src/lib/utils/format.ts:5 | the only text that reads back as i is `String(i)` |
| Decimal.ParseUnsignedFixedIsFixedDigits | src/lib/utils/format.ts:44 | the only unsigned text that reads back as n units of 10^-k is the one `toFixed(k)` writes |
| Decimal.ParseFixedInjective | src/lib/utils/format.ts:44 | two `toFixed` texts that read back as one value and agree on the minus sign are equal |
| Common.Min | src/lib/api/weather-api.ts:226 | `Math.min` of a non-empty list is one of its elements and no greater than any |
| Common.Max | src/lib/api/weather-api.ts:227-228 | `Math.max` of a non-empty list is one of its elements and no smaller than any |
| Common.Clamp | src/lib/api/energy-api.ts:18 | `max(lo, min(hi, x))` lies in [lo, hi] and is x when x already does |
| Common.FindIndex | src/lib/utils/weather.ts:5-7 | `find`: the first element satisfying the test, or none when no element does |
| Common.Filter | src/lib/api/weather-api.ts:174-177 | `filter`: an order-preserving subsequence holding exactly the elements that pass |
| Common.FilterCounts | src/lib/api/weather-api.ts:174-177 | each passing element is kept as often as it occurs, and no other element is kept |
| Text.ToLower | src/lib/api/weather-api.ts:175-176 | lower-cases each ASCII capital and leaves every other character |
| Text.ContainsIff | src/lib/api/weather-api.ts:175-176 | `includes` holds exactly when the needle occurs at some position |
| Text.Trim | src/app/api/weather/search/route.ts:9 | `trim` removes exactly the leading and trailing white space; the result is empty exactly for an all-space string |
| FormEncoding.DecodeEncodeComponent | src/lib/hooks/use-weather.ts:13-16 | decoding an encoded name or value gives back its UTF-8 bytes |
| FormEncoding.EncodedComponentHasNoDelimiters | src/lib/hooks/use-weather.ts:13-16 | an encoded component holds no &, =, # or space |
| FormEncoding.ParseSerializeQuery | src/lib/hooks/use-weather.ts:13-16 | parsing a serialized query gives back every name/value pair, in order |
| LocationStore.SetLocation | src/lib/store/location-store.ts:17-21 | the coordinates are set; the name is kept when truthy, otherwise it becomes null |
| LocationStore.ClearLocation | src/lib/store/location-store.ts:22-26 | both fields become null |
| LocationStore.SetLocationLastWriteWins | src/lib/store/location-store.ts:17-21 | a second setLocation overwrites the first entirely, and the prior state never matters |
| LocationStore.ClearLocationIdempotent | src/lib/store/location-store.ts:15-26 | clearing from any state gives the initial state, and clearing twice is clearing once |
| LocationStore.Partialize | src/lib/store/location-store.ts:32-35 | the snapshot keeps just the coordinates and the name |
| LocationStore.Rehydrate | src/lib/store/location-store.ts:28-35 | without a saved entry the store starts empty; otherwise it restores the saved snapshot |
| LocationStore.Apply | src/lib/store/location-store.ts:12-37 | each action updates the state and rewrites the "weather-location" entry with the new snapshot |
| LocationStore.RunKeepsStorageInSync | src/lib/store/location-store.ts:12-37 | after any actions, rehydrating the storage gives the live state back, and no other storage key is touched |
| Geolocation.ErrorMessage | src/lib/hooks/use-geolocation.ts:46-59 | each of the three error codes has its own message, and every other code the unknown-error message |
| Geolocation.ErrorMessagesDistinct | src/lib/hooks/use-geolocation.ts:46-59 | the three messages differ from each other and from the unsupported message |
| Geolocation.Step | src/lib/hooks/use-geolocation.ts:23-66 | a request keeps the coordinates and either starts loading with no error or, when unsupported, reports that without loading; success stores the position with no error; failure clears the coordinates and stores the message |
| Geolocation.SupportedRunExclusive | src/lib/hooks/use-geolocation.ts:23-66 | with a supported browser, an error and coordinates are never present together, and the hook is loading exactly after a request |
| Geolocation.UnsupportedRequests | src/lib/hooks/use-geolocation.ts:24-30 | repeated requests on an unsupported browser, from a state without coordinates, settle on the unsupported error |
| Geolocation.UnsupportedRun | src/lib/hooks/use-geolocation.ts:17-30 | from the initial state, the same happens |
| Geolocation.PositionOptionsFor | src/lib/hooks/use-geolocation.ts:67-71 | each option takes the caller's value when given; the defaults are high accuracy, 10000 ms and 300000 ms |
| WeatherQueries.RetryDelay | src/lib/hooks/use-weather.ts:51 | min(1000·2^i, 30000): never above 30 s and never above the uncapped value |
| WeatherQueries.RetryDelayValues | src/lib/hooks/use-weather.ts:51 | 1000, 2000, 4000, 8000, 16000, then 30000 for every i ≥ 5 |
| WeatherQueries.RetryDelayMonotone | src/lib/hooks/use-weather.ts:51 | later retries never wait less |
| WeatherQueries.Backoff | src/lib/hooks/use-weather.ts:50-51 | n retries wait at most n·30 s in all |
| WeatherQueries.WeatherQueryConfig | src/lib/hooks/use-weather.ts:40-53 | enabled exactly with coordinates; retry 2; five-minute stale time and refresh interval |
| WeatherQueries.WeatherQueryBackoff | src/lib/hooks/use-weather.ts:50-51 | the weather query's two retries wait three seconds in all |
| WeatherQueries.SearchMutationConfig | src/lib/hooks/use-weather.ts:55-60 | the location search retries once, one retry fewer than the weather query |
| WeatherQueries.RefreshMutationConfig | src/lib/hooks/use-weather.ts:62-73 | the refresh mutation sets no retry, so a failed refresh is not retried (the library's mutation default) |
| WeatherQueries.WeatherUrl | src/lib/hooks/use-weather.ts:12-18 | the URL is /api/weather? followed by a query that reads back as lat and lon, in that order |
| WeatherQueries.SettleFetch | src/lib/hooks/use-weather.ts:20-24 | a non-OK answer fails with the given message; an OK answer with a body resolves to it; a rejected fetch or an unreadable body propagates |
| WeatherQueries.WeatherQuery | src/lib/hooks/use-weather.ts:43-46 | without coordinates it rejects with "Coordinates are required"; otherwise it settles the weather fetch |
| WeatherQueries.SearchLocations | src/lib/hooks/use-weather.ts:27-38 | a query shorter than two characters, untrimmed, resolves to [] without a request; otherwise the search URL is fetched and settled with "Failed to search locations" |
| WeatherQueries.GuardsDisagreeOnPaddedQuery | src/lib/hooks/use-weather.ts:28 | " a" passes the client guard but gets a 400 from the search route, and that reply, seen through `fetch`, makes the search fail |
| ApiClient.WithQuery | src/lib/api/api-client.ts:39-45 | without parameters the URL is unchanged; otherwise "?" and the serialized parameters follow |
| ApiClient.WithQueryRoundTrip | src/lib/api/api-client.ts:39-45 | the query after "?" reads back as every parameter, in order |
| ApiClient.BuildURLAsWritten | src/lib/api/api-client.ts:36-46 | `new URL(base + endpoint)` with no base URL succeeds only when base + endpoint starts with a scheme (in the model: exactly then), and the result starts with it |
| ApiClient.BuildURLDefaultBaseFails | src/lib/api/api-client.ts:9 | with the default base "/api", every call fails to build a URL |
| ApiClient.BuildURL | src/lib/api/api-client.ts:36-46 | the corrected builder resolves a relative base against the page origin; it fails only when neither has a scheme |
| ApiClient.BuildURLNoOrigin | src/lib/api/api-client.ts:36-46 | with an origin that has no scheme, the corrected builder is the code as written |
| ApiClient.BuildURLAgreesWhereAsWrittenSucceeds | src/lib/api/api-client.ts:36-46 | the correction changes nothing where the written code already works |
| ApiClient.BuildURLDefaultBase | src/lib/api/api-client.ts:36-46 | with the default base the corrected builder yields origin + "/api" + endpoint and the query |
| ApiClient.SignalFor | src/lib/api/api-client.ts:56 | the 30 s timeout signal is used exactly when the caller gave no signal |
| ApiClient.MergeHeaders | src/lib/api/api-client.ts:73-76 | the caller's headers override the default; Content-Type is application/json unless the caller set it |
| ApiClient.ErrorOf | src/lib/api/api-client.ts:16-28 | the code is the status as text; the message is the body's message when truthy and otherwise the status text; with a JSON body the details are the body's, and without one (unparseable or null) there are none and the message is the status text |
| ApiClient.HandleResponse | src/lib/api/api-client.ts:15-34 | a non-2xx status throws the built error; a 2xx status resolves to the body and rejects when the body does not parse |
| ApiClient.HandleResponseExamples | src/lib/api/api-client.ts:16-30 | a 404 with a message reports that message; a 500 with an empty message reports the status text and keeps the details |
| ApiClient.Settle | src/lib/api/api-client.ts:53-59 | a rejected fetch rejects with its reason; an answer goes through handleResponse |
| ApiClient.AttemptsFrom | src/lib/api/api-client.ts:48-66 | at least one attempt, and at most retries + 1 |
| ApiClient.AttemptsFromStops | src/lib/api/api-client.ts:59-64 | every attempt before the last was a rejection that was retried; the last is an answer, or a rejection with the budget spent or the caller's signal aborted |
| ApiClient.FetchWithRetry | src/lib/api/api-client.ts:48-66 | 1 to 4 attempts with 1 s between consecutive ones; the outcome is that of the last attempt, and retries stop exactly as above |
| ApiClient.NoSignalRetriesEveryRejection | src/lib/api/api-client.ts:60-62 | without a caller signal, a fetch that always rejects is tried four times |
| ApiClient.ResponsesAreNotRetried | src/lib/api/api-client.ts:58 | an attempt that gets an answer, error status included, is the last |
| ApiClient.AbortedCallerStopsRetries | src/lib/api/api-client.ts:60 | a rejection while the caller's signal is aborted is not retried |
| ApiClient.Send | src/lib/api/api-client.ts:68-128 | get/post/put/delete, built on the corrected `BuildURL` (with a scheme-less origin, the code as written): they fail without an attempt when no URL can be built; otherwise they send the merged headers and the right signal, and retry as above |
| EnergyApi.MockEnergyData | src/lib/mocks/energy-data.ts:6-29 | the baseline: demand 4250, peak 5100; the renewable parts sum to their total of 2590; share 61 |
| EnergyApi.NextDemand | src/lib/api/energy-api.ts:15 | the perturbed demand stays within 100 of its base |
| EnergyApi.NextShare | src/lib/api/energy-api.ts:18 | the new share is clamped to [45, 75] and, from inside that range, moves by less than 5 |
| EnergyApi.GetEnergyDataAsWritten | src/lib/api/energy-api.ts:5-28 | demand and share are perturbed and everything else is copied; the clock is stamped; because the copy is shallow, the baseline's renewable object takes the new share |
| EnergyApi.GetEnergyData | src/lib/api/energy-api.ts:5-28 | the same answer computed from an untouched baseline: the service is unchanged |
| EnergyApi.CallBounds | src/lib/api/energy-api.ts:12-21 | the first call, either way, has demand in [4150, 4350), a share in [45, 75], and balanced renewables totalling 2590 |
| EnergyApi.AsWrittenPreservesInvariant | src/lib/api/energy-api.ts:12-18 | the written service keeps its demand baseline, a share in [45, 75] and balanced renewables, and moves the share by less than 5 per call |
| EnergyApi.AsWrittenDrifts | src/lib/api/energy-api.ts:12-18 | two high draws take the written share from 61 to 70.8, while the corrected service, from the same baseline, always reports a share below 66 |
| EnergyApi.CorrectedHasNoDrift | src/lib/api/energy-api.ts:12-18 | any number of corrected calls leaves the service unchanged |
| EnergyApi.GetHistoricalEnergyData | src/lib/api/energy-api.ts:30-57 | exactly `days` entries (none for a negative count), dated days − i days back, with the stated sine-plus-noise values |
| EnergyApi.HistoricalBounds | src/lib/api/energy-api.ts:40-50 | every entry's demand, peak and share lie in fixed ranges; the default gives 30 entries |
| WeatherRoutes.GetParam | src/app/api/weather/route.ts:7-8 | `searchParams.get`: the first pair with the name, or null when there is none |
| WeatherRoutes.WeatherRoute | src/app/api/weather/route.ts:4-32 | 400 "Latitude and longitude are required" exactly when lat or lon is missing or empty; otherwise the parsed pair goes unchecked to the service, whose data is the 200 body, and a service failure is 500 "Failed to fetch weather data" |
| WeatherRoutes.WeatherRouteEmptyLatitude | src/app/api/weather/route.ts:10-15 | an empty lat is rejected like a missing one |
| WeatherRoutes.WeatherRouteNeverFails | src/app/api/weather/route.ts:22-31 | with the real service the route never answers 500: valid parameters give 200, and an upstream failure gives 200 with the mock |
| WeatherRoutes.SearchRoute | src/app/api/weather/search/route.ts:4-26 | 400 "Query must be at least 2 characters long" exactly when q is missing or shorter than two once trimmed; otherwise the trimmed q goes to the service, whose list is the 200 body, and a failure is 500 |
| WeatherRoutes.SearchRouteRejectsBlank | src/app/api/weather/search/route.ts:9-14 | a query of spaces, however long, is rejected |
| WeatherRoutes.SearchRouteNeverFails | src/app/api/weather/search/route.ts:16-24 | with the real search the route never answers 500 |
| WeatherIconView.GlyphTableFunctional | src/components/weather/weather-icon.tsx:63-94 | no code is listed twice with two glyphs |
| WeatherIconView.GlyphGroupsAreKnownGroups | src/components/weather/weather-icon.tsx:63-94 | the icon switch knows exactly the code groups the condition classifier knows |
| WeatherIconView.IconFromCodeByGroup | src/components/weather/weather-icon.tsx:60-95 | after lower-casing, a well-formed code draws its group's glyph, and any other string draws the sun |
| WeatherIconView.IconFromCodeIgnoresCase | src/components/weather/weather-icon.tsx:61 | case does not matter to the icon: "01D" draws the sun, although the classifier reads it as partly cloudy |
| WeatherIconView.IconFromCondition | src/components/weather/weather-icon.tsx:100-123 | drawing from a condition never gives the drizzle or snow-cloud glyph |
| WeatherIconView.CodeAndConditionGlyphsAgree | src/components/weather/weather-icon.tsx:60-123 | drawing from a lower-case code and from its classified condition agree, except for groups 09 (drizzle against rain) and 13 (snow cloud against flake) |
| WeatherIconView.WeatherIcon | src/components/weather/weather-icon.tsx:30-49 | a truthy icon code wins over the condition, which defaults to a clear day; the size defaults to 24; the classes are text-current followed by the caller's class name, when one is given |
| WeatherIconView.EmptyIconFallsBackToCondition | src/components/weather/weather-icon.tsx:43-48 | an empty icon code is ignored in favour of the condition; "13d" with a snowy condition draws the snow cloud |
| AirQuality.Band | src/components/charts/air-quality-index.tsx:32-39 | the six bands ≤50, ≤100, ≤150, ≤200, ≤300 and above |
| AirQuality.BandMonotone | src/components/charts/air-quality-index.tsx:32-39 | a higher index never falls into a lower band |
| AirQuality.ColourFollowsBand | src/components/charts/air-quality-index.tsx:32-39 | two readings share a text colour exactly when they share a band |
| AirQuality.BgColourFollowsBand | src/components/charts/air-quality-index.tsx:41-48 | two readings share a background exactly when they share a band |
| AirQuality.ColoursAgree | src/components/charts/air-quality-index.tsx:32-48 | both helpers use the same thresholds: equal text colours exactly when equal backgrounds |
| AirQuality.AQIIcon | src/components/charts/air-quality-index.tsx:50-55 | four icons, one for each of the first three bands; every index above 150 shares the warning triangle |
| AirQuality.IconColourMatchesText | src/components/charts/air-quality-index.tsx:50-55 | the icon wears the text colour exactly in the first four bands |
| AirQuality.HealthRecommendationsDistinct | src/components/charts/air-quality-index.tsx:57-67 | each of the six levels has its own recommendation |
| AirQuality.MarkerPosition | src/components/charts/air-quality-index.tsx:112 | min(aqi/300·100, 100) lies in [0, 100] for a non-negative index; it pins at 100 exactly from 300 up |
| AirQuality.MarkerMonotone | src/components/charts/air-quality-index.tsx:112 | the marker moves right as the index rises |
| AirQuality.HealthTipsFromThirdBand | src/components/charts/air-quality-index.tsx:147 | the tips show exactly from the third band on |
| AirQuality.MockReading | src/components/charts/air-quality-index.tsx:21-30 | the card's own reading of 42 is green with a leaf, shows no tips and puts the marker at 14% |
| WeatherAlerts.AlertIcon | src/components/weather/weather-alerts-card.tsx:17-27 | size 20; the triangle exactly for extreme and high, the circle exactly for medium, the info sign for everything else |
| WeatherAlerts.AlertIconIgnoresKind | src/components/weather/weather-alerts-card.tsx:17-27 | the alert type never matters, and the colour is the 500 shade of the icon's hue |
| WeatherAlerts.AlertStylesHue | src/components/weather/weather-alerts-card.tsx:29-40 | each style ends in the dark background of its hue: red for extreme, orange for high, yellow for medium, blue otherwise |
| WeatherAlerts.AlertStylesDistinct | src/components/weather/weather-alerts-card.tsx:29-40 | two severities share a style exactly when they share a hue, that is, when they are equal or both unnamed |
| WeatherAlerts.IconAndStyleHues | src/components/weather/weather-alerts-card.tsx:17-40 | the icon's hue and the card's hue agree for every severity but high |
| WeatherAlerts.EntryOf | src/components/weather/weather-alerts-card.tsx:70-104 | an entry is keyed by the alert id, has the severity's icon, and has the base classes plus the severity's style |
| WeatherAlerts.Card | src/components/weather/weather-alerts-card.tsx:51-131 | the badge shows the count exactly for a non-empty list; the empty state shows exactly for an empty one; quick actions show for a non-empty list; one entry per alert, in order |
| WeatherAlerts.CardEmptyOrListed | src/components/weather/weather-alerts-card.tsx:51-131 | the empty state excludes the badge, the entries and the quick actions |
| WeatherAlerts.CardEntriesFollowSeverity | src/components/weather/weather-alerts-card.tsx:70-80 | each listed alert's key, icon and border follow its own severity |

## Left out

- Rendering, styling and the chart components are left out. Class-name merging (`cn`, tailwind-merge) is also left out: src/lib/utils.ts is not part of this model, so class lists are given as the lists passed to it.
- The alerts card is modelled over any list of alerts. The component itself always shows its fixed mock list.
- Query caching is left out: stale times, refetch timers, the cache invalidation in `useRefreshWeather` and `useCurrentLocation`, and the promise retries the query library performs. The delay formula and the retry budgets of the weather query and both mutations are modelled.
- Zustand `persist` and localStorage are modelled as a map from key to snapshot. JSON serialisation of the snapshot is left out.
- The network, timers and `AbortSignal` are left out. Attempt outcomes, abort flags and fetch answers are inputs.
- `new URL` and `url.toString()` normalisation is left out: an absolute base + endpoint is kept as written. Endpoints holding "?" or "#" are not modelled.
- Number-to-text conversion of non-integers (coordinates, query values) is a parameter. Only integers and `toFixed` are written out.
- `Object.entries` lists integer-like keys first. The day keys come from an uninterpreted calendar, and the model keeps insertion order.
- Binary floating point is left out: numbers are exact reals, `Math.round` is ⌊x+½⌋, and `toFixed` rounds half up. NaN from `parseFloat` is not modelled either.
- String lengths count code points, not UTF-16 units. Lower-casing is ASCII only.
- A truthy non-string `message` in an error body, and non-string values in JSON, are left out.
- A `mapWeatherCondition` lookup of an `Object.prototype` key such as "constructor" is left out.
- `src/lib/mocks/*` is left out: the weather mock is an opaque input, and the energy baseline's generated series are inputs.
- The energy route and the energy hook are thin wrappers around the service and are left out.
- The energy service's `catch` branches are left out, because nothing in their `try` bodies can throw.
- The air-quality pollutant bars and the relative-time formatter are left out; the formatter is a parameter.
- The dew point is left out: it needs `Math.log`.
- WeatherUtils.HeatIndex: only the guard branch is stated. The polynomial is computed, but nothing is proved about its value.
- WeatherUtils.WindChill: only the guard branch is stated. The formula takes `Math.pow(v, 0.16)` as a parameter, and nothing is proved about its value.
- ApiClient.BuildURLAsWritten: models `new URL` with no base as succeeding exactly when the text starts with a scheme. The URL parser's host validation (`new URL("http:")` and `new URL("https://a b/")` throw) and its stripping of leading and trailing spaces and control characters (`new URL(" https://x.org")` succeeds) are not modelled.
- ApiClient.BuildURL: the same parser details are left out of the corrected builder, and so of `ApiClient.Send`.
- EnergyApi.GetEnergyDataAsWritten: returns a value snapshot of each call's result. In the code every returned object shares the baseline's one `renewable` object, so a later call also rewrites the share inside results handed out earlier. Only the baseline's carried-over share is modelled.
- EnergyApi.GetHistoricalEnergyData: dates come from a given day-offset function rather than `setDate` on the clock.

## Findings

| source | as written | input that shows it | evidently intended | confidence | as-written member | corrected member |
|---|---|---|---|---|---|---|
| src/lib/utils/format.ts:5 | the template holds "Â°" (the UTF-8 bytes of the degree sign read as Latin-1), so two characters precede the unit | formatTemperature(72, 'C') gives "72Â°C" | "72°C", as the unit tests expect | not executed | Format.FormatTemperatureStrayCharacter | Format.FormatTemperature |
| src/lib/api/energy-api.ts:12-18 | `{ ...mockEnergyData }` copies shallowly, so setting `data.renewable.percentage` rewrites the shared baseline and the share drifts from call to call | two calls with draws 0.99 take the share from 61 to 70.8 | each call perturbs the fixed baseline, so the share stays within 5 of 61 | not executed | EnergyApi.AsWrittenDrifts | EnergyApi.CorrectedHasNoDrift |
| src/lib/api/api-client.ts:37 | `new URL(base + endpoint)` with no base URL, while the default base (src/lib/constants/config.ts:8) is the relative "/api" | any call with NEXT_PUBLIC_API_URL unset: `new URL("/api/weather")` throws | resolve the relative base against the page origin | not executed | ApiClient.BuildURLDefaultBaseFails | ApiClient.BuildURLDefaultBase |
