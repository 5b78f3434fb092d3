/** The weather utility functions: compass and UV lookups over the constant
    tables, temperature conversion, the guard branches of the heat-index and
    wind-chill formulas, the time-of-day partitions and condition descriptions. */
module WeatherUtils {
  import opened Common
  import opened WeatherTypes
  import opened WeatherConstants

  // ---------------------------------------------------------------- wind direction

  /** `getWindDirection`: the direction of the first band containing the
      degrees, `N` when none does. */
  function WindDirection(degrees: real): (r: Compass)
    ensures forall i :: 0 <= i < |WindDirectionLabels| && InWindBand(WindDirectionLabels[i], degrees)
                        ==> r == WindDirectionLabels[i].direction
    ensures !(0.0 <= degrees < 360.0) ==> r == N
  {
    WindBandsPartition(degrees);
    match FindIndex(WindDirectionLabels, b => InWindBand(b, degrees))
    case Some(i) => WindDirectionLabels[i].direction
    case None => N
  }

  /** The eight compass points, clockwise from north. */
  const CompassPoints: seq<Compass> := [N, NE, E, SE, S, SW, W, NW]

  /** An independent definition: the nearest of the eight 45-degree compass points. */
  function NearestCompassPoint(degrees: real): Compass
    requires 0.0 <= degrees < 360.0
  {
    CompassPoints[((degrees + 22.5) / 45.0).Floor % 8]
  }

  /** On [0, 360) the band lookup picks the nearest compass point. */
  lemma WindDirectionIsNearestPoint(degrees: real)
    requires 0.0 <= degrees < 360.0
    ensures WindDirection(degrees) == NearestCompassPoint(degrees)
  {
    var i := BandOf(degrees);
    assert InWindBand(WindDirectionLabels[i], degrees);
    FloorOfBand(degrees, i);
  }

  /** The index of the band holding the degrees. */
  function BandOf(degrees: real): (i: nat)
    requires 0.0 <= degrees < 360.0
    ensures i < 9 && InWindBand(WindDirectionLabels[i], degrees)
    ensures WindDirectionLabels[i].direction == CompassPoints[i % 8]
    ensures i as real * 45.0 - 22.5 <= degrees < i as real * 45.0 + 22.5
  {
    if degrees < 22.5 then 0 else if degrees < 67.5 then 1 else if degrees < 112.5 then 2
    else if degrees < 157.5 then 3 else if degrees < 202.5 then 4 else if degrees < 247.5 then 5
    else if degrees < 292.5 then 6 else if degrees < 337.5 then 7 else 8
  }

  lemma FloorOfBand(degrees: real, i: nat)
    requires i as real * 45.0 - 22.5 <= degrees < i as real * 45.0 + 22.5
    ensures ((degrees + 22.5) / 45.0).Floor == i
  {
    var q := (degrees + 22.5) / 45.0;
    assert i as real <= q < i as real + 1.0;
  }

  // ---------------------------------------------------------------- UV index

  /** `getUVIndexLevel`: the first level whose inclusive range holds the
      index, and level 0 ("Low") when none does. */
  function UVIndexLevel(index: real): (r: UvLevel)
    ensures r in UvIndexLevels
    ensures forall k :: 0 <= k < |UvIndexLevels| && InUvLevel(UvIndexLevels[k], index) ==> r == UvIndexLevels[k]
    ensures (forall k :: 0 <= k < |UvIndexLevels| ==> !InUvLevel(UvIndexLevels[k], index)) ==> r == UvIndexLevels[0]
  {
    UvLevelsOrderedDisjoint();
    match FindIndex(UvIndexLevels, l => InUvLevel(l, index))
    case Some(k) => UvIndexLevels[k]
    case None => UvIndexLevels[0]
  }

  /** Negative indices and the gaps between levels fall back to "Low";
      anything from 11 up is "Extreme". */
  lemma UVIndexLevelFallbacks(index: real)
    ensures index < 0.0 ==> UVIndexLevel(index).name == "Low"
    ensures (2.0 < index < 3.0 || 5.0 < index < 6.0 || 7.0 < index < 8.0 || 10.0 < index < 11.0)
            ==> UVIndexLevel(index).name == "Low"
    ensures index >= 11.0 ==> UVIndexLevel(index).name == "Extreme"
  {
    var l := UvIndexLevels;
    if index >= 11.0 {
      assert InUvLevel(l[4], index);
    } else if index < 0.0 || 2.0 < index < 3.0 || 5.0 < index < 6.0 || 7.0 < index < 8.0 || 10.0 < index < 11.0 {
      assert forall k :: 0 <= k < |l| ==> !InUvLevel(l[k], index);
    }
  }

  /** The level name an integer index should get, read off the published ranges. */
  function UvNameForInteger(n: int): string {
    if n <= 2 then "Low"
    else if n <= 5 then "Moderate"
    else if n <= 7 then "High"
    else if n <= 10 then "Very High"
    else "Extreme"
  }

  /** For every integer index the lookup agrees with the published ranges. */
  lemma UVIndexLevelOnIntegers(n: int)
    ensures UVIndexLevel(n as real).name == UvNameForInteger(n)
  {
    var l := UvIndexLevels;
    if n < 0 {
      UVIndexLevelFallbacks(n as real);
    } else if n <= 2 {
      assert InUvLevel(l[0], n as real);
    } else if n <= 5 {
      assert InUvLevel(l[1], n as real);
    } else if n <= 7 {
      assert InUvLevel(l[2], n as real);
    } else if n <= 10 {
      assert InUvLevel(l[3], n as real);
    } else {
      assert InUvLevel(l[4], n as real);
    }
  }

  // ---------------------------------------------------------------- temperature

  function CelsiusToFahrenheit(celsius: real): real {
    (celsius * 9.0) / 5.0 + 32.0
  }

  function FahrenheitToCelsius(fahrenheit: real): real {
    ((fahrenheit - 32.0) * 5.0) / 9.0
  }

  /** The two conversions are mutual inverses, fix the freezing and boiling
      points, and preserve order. */
  lemma TemperatureConversionsInverse(c: real, f: real)
    ensures FahrenheitToCelsius(CelsiusToFahrenheit(c)) == c
    ensures CelsiusToFahrenheit(FahrenheitToCelsius(f)) == f
    ensures CelsiusToFahrenheit(0.0) == 32.0 && FahrenheitToCelsius(32.0) == 0.0
    ensures CelsiusToFahrenheit(100.0) == 212.0 && FahrenheitToCelsius(212.0) == 100.0
    ensures c < FahrenheitToCelsius(f) <==> CelsiusToFahrenheit(c) < f
  {
  }

  /** `calculateHeatIndex`: below 27 degrees the temperature itself, otherwise
      the Rothfusz polynomial evaluated in Fahrenheit and converted back. */
  function HeatIndex(temp: real, humidity: real): (r: real)
    ensures temp < 27.0 ==> r == temp
  {
    if temp < 27.0 then temp
    else
      var f := CelsiusToFahrenheit(temp);
      var h := humidity;
      var indexF :=
        -42.379
        + 2.04901523 * f
        + 10.14333127 * h
        - 0.22475541 * f * h
        - 0.00683783 * f * f
        - 0.05481717 * h * h
        + 0.00122874 * f * f * h
        + 0.00085282 * f * h * h
        - 0.00000199 * f * f * h * h;
      FahrenheitToCelsius(indexF)
  }

  /** `calculateWindChill`: the temperature itself above 10 degrees or below a
      5 m/s wind; otherwise the wind-chill formula, with `Math.pow(v, 0.16)`
      supplied as `pow016`. */
  function WindChill(temp: real, windSpeed: real, pow016: real -> real): (r: real)
    ensures temp > 10.0 || windSpeed < 5.0 ==> r == temp
  {
    if temp > 10.0 || windSpeed < 5.0 then temp
    else
      var windKmh := windSpeed * 3.6;
      13.12 + 0.6215 * temp - 11.37 * pow016(windKmh) + 0.3965 * temp * pow016(windKmh)
  }

  // ---------------------------------------------------------------- time of day

  predicate IsNightTime(hour: real) {
    hour < 6.0 || hour >= 18.0
  }

  datatype DayPart = Morning | Afternoon | Evening | Night

  /** `getTimeOfDay`, checked in order: morning, afternoon, evening, else night. */
  function TimeOfDay(hour: real): DayPart {
    if hour >= 5.0 && hour < 12.0 then Morning
    else if hour >= 12.0 && hour < 17.0 then Afternoon
    else if hour >= 17.0 && hour < 21.0 then Evening
    else Night
  }

  /** The half-open window [start, end) a daytime part covers. */
  function PartWindow(p: DayPart): (w: (real, real))
    requires p != Night
  {
    match p
    case Morning => (5.0, 12.0)
    case Afternoon => (12.0, 17.0)
    case Evening => (17.0, 21.0)
  }

  /** The four parts partition the hours: each daytime part is exactly its
      window, and night is everything outside all three. */
  lemma TimeOfDayPartition(hour: real, p: DayPart)
    ensures p != Night ==> (TimeOfDay(hour) == p <==> PartWindow(p).0 <= hour < PartWindow(p).1)
    ensures TimeOfDay(hour) == Night <==> hour < 5.0 || hour >= 21.0
  {
  }

  /** Night by `getTimeOfDay` is always night by `isNightTime`; they disagree
      exactly on [5, 6) (morning) and [18, 21) (evening). */
  lemma NightTimeVersusTimeOfDay(hour: real)
    ensures TimeOfDay(hour) == Night ==> IsNightTime(hour)
    ensures IsNightTime(hour) && TimeOfDay(hour) != Night
            <==> (5.0 <= hour < 6.0 && TimeOfDay(hour) == Morning)
                 || (18.0 <= hour < 21.0 && TimeOfDay(hour) == Evening)
  {
  }

  // ---------------------------------------------------------------- descriptions

  const FallbackDescription := "Weather conditions variable"

  /** The descriptions record of `getWeatherDescription`. */
  function DescriptionOf(c: Condition): string {
    match c
    case ClearDay => "Clear skies with abundant sunshine"
    case ClearNight => "Clear night with visible stars"
    case PartlyCloudy => "Partly cloudy with some sunshine"
    case Cloudy => "Overcast skies throughout the day"
    case Rainy => "Rain expected, carry an umbrella"
    case Stormy => "Thunderstorms likely, stay indoors if possible"
    case Snowy => "Snow falling, drive carefully"
    case Windy => "Strong winds, secure loose objects"
    case Foggy => "Limited visibility due to fog"
  }

  /** The length and last character of each description, which tell the nine
      apart and from the fallback (27 characters, ending in 'e'). */
  function DescriptionKey(c: Condition): (nat, char) {
    match c
    case ClearDay => (34, 'e')
    case ClearNight => (30, 's')
    case PartlyCloudy => (32, 'e')
    case Cloudy => (33, 'y')
    case Rainy => (32, 'a')
    case Stormy => (46, 'e')
    case Snowy => (29, 'y')
    case Windy => (34, 's')
    case Foggy => (29, 'g')
  }

  lemma DescriptionHasKey(c: Condition)
    ensures |DescriptionOf(c)| > 0
    ensures DescriptionKey(c) == (|DescriptionOf(c)|, DescriptionOf(c)[|DescriptionOf(c)| - 1])
  {
  }

  /** Each condition has its own description, none of them the fallback. */
  lemma DescriptionsDistinct(c: Condition)
    ensures DescriptionOf(c) != FallbackDescription && DescriptionOf(c) != ""
    ensures forall d :: d != c ==> DescriptionOf(c) != DescriptionOf(d)
  {
    DescriptionHasKey(c);
    assert |FallbackDescription| == 27;
    forall d | d != c
      ensures DescriptionOf(c) != DescriptionOf(d)
    {
      DescriptionHasKey(d);
    }
  }

  /** `getWeatherDescription`: the record entry, or the fallback when it is
      falsy. Every condition has a non-empty entry, so the lookup always hits
      and the fallback is never returned. */
  function WeatherDescription(c: Condition): (r: string)
    ensures r == DescriptionOf(c)
    ensures r != FallbackDescription && r != ""
    ensures forall d :: d != c ==> r != DescriptionOf(d)
  {
    DescriptionsDistinct(c);
    var d := DescriptionOf(c);
    if d != "" then d else FallbackDescription
  }
}
