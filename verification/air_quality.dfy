/** The air-quality card's pure helpers: the six AQI bands behind the text and
    background colours, the four-way icon, the health recommendation per
    level, the position of the marker on the 0–300 scale, and when the health
    tips show. */
module AirQuality {

  /** The band index: ≤50, ≤100, ≤150, ≤200, ≤300, above. */
  function Band(aqi: real): (b: nat)
    ensures b <= 5
    ensures b == 0 <==> aqi <= 50.0
    ensures b == 5 <==> aqi > 300.0
    ensures 0 < b < 5 ==> [50.0, 100.0, 150.0, 200.0, 300.0][b - 1] < aqi <= [50.0, 100.0, 150.0, 200.0, 300.0][b]
  {
    if aqi <= 50.0 then 0
    else if aqi <= 100.0 then 1
    else if aqi <= 150.0 then 2
    else if aqi <= 200.0 then 3
    else if aqi <= 300.0 then 4
    else 5
  }

  /** A higher index never falls into a lower band. */
  lemma BandMonotone(a: real, b: real)
    requires a <= b
    ensures Band(a) <= Band(b)
  {
  }

  /** `getAQIColor`. */
  function AQIColor(aqi: real): string {
    if aqi <= 50.0 then "text-green-600"
    else if aqi <= 100.0 then "text-yellow-600"
    else if aqi <= 150.0 then "text-orange-600"
    else if aqi <= 200.0 then "text-red-600"
    else if aqi <= 300.0 then "text-purple-600"
    else "text-red-800"
  }

  /** `getAQIBgColor`: background, dark background, border and dark border. */
  function AQIBgColor(aqi: real): string {
    if aqi <= 50.0 then BgGood
    else if aqi <= 100.0 then BgModerate
    else if aqi <= 150.0 then BgSensitive
    else if aqi <= 200.0 then BgUnhealthy
    else if aqi <= 300.0 then BgVeryUnhealthy
    else BgHazardous
  }

  const BgGood: string := "bg-green-50 dark:bg-green-950/20 border-green-200 dark:border-green-800"
  const BgModerate: string := "bg-yellow-50 dark:bg-yellow-950/20 border-yellow-200 dark:border-yellow-800"
  const BgSensitive: string := "bg-orange-50 dark:bg-orange-950/20 border-orange-200 dark:border-orange-800"
  const BgUnhealthy: string := "bg-red-50 dark:bg-red-950/20 border-red-200 dark:border-red-800"
  const BgVeryUnhealthy: string := "bg-purple-50 dark:bg-purple-950/20 border-purple-200 dark:border-purple-800"
  const BgHazardous: string := "bg-red-100 dark:bg-red-950/30 border-red-300 dark:border-red-700"

  /** The sixth-, fifth- and third-last characters tell the six text colours
      apart, and likewise the six backgrounds: both end in the band's colour
      name and shade. */
  const ColourKeys: seq<(char, char, char)> := [('e', 'n', '6'), ('o', 'w', '6'), ('g', 'e', '6'), ('e', 'd', '6'), ('l', 'e', '6'), ('e', 'd', '8')]
  const BgKeys: seq<(char, char, char)> := [('e', 'n', '8'), ('o', 'w', '8'), ('g', 'e', '8'), ('e', 'd', '8'), ('l', 'e', '8'), ('e', 'd', '7')]

  function Key(s: string): (char, char, char)
    requires |s| >= 6
  {
    (s[|s| - 6], s[|s| - 5], s[|s| - 3])
  }

  lemma ColourKey(aqi: real)
    ensures |AQIColor(aqi)| >= 6 && Key(AQIColor(aqi)) == ColourKeys[Band(aqi)]
  {
  }

  lemma BgColourKey(aqi: real)
    ensures |AQIBgColor(aqi)| >= 6 && Key(AQIBgColor(aqi)) == BgKeys[Band(aqi)]
  {
    assert Key(BgGood) == BgKeys[0];
    assert Key(BgModerate) == BgKeys[1];
    assert Key(BgSensitive) == BgKeys[2];
    assert Key(BgUnhealthy) == BgKeys[3];
    assert Key(BgVeryUnhealthy) == BgKeys[4];
    assert Key(BgHazardous) == BgKeys[5];
  }

  /** The text colour tells the six bands apart: two indices share a text
      colour exactly when they share a band. */
  lemma ColourFollowsBand(a: real, b: real)
    ensures AQIColor(a) == AQIColor(b) <==> Band(a) == Band(b)
  {
    ColourKey(a);
    ColourKey(b);
    if Band(a) != Band(b) {
      assert ColourKeys[Band(a)] != ColourKeys[Band(b)];
    }
  }

  /** So does the background. */
  lemma BgColourFollowsBand(a: real, b: real)
    ensures AQIBgColor(a) == AQIBgColor(b) <==> Band(a) == Band(b)
  {
    BgColourKey(a);
    BgColourKey(b);
    if Band(a) != Band(b) {
      assert BgKeys[Band(a)] != BgKeys[Band(b)];
    }
  }

  datatype AqiIcon = Leaf | Shield | WindIcon | AlertTriangle

  /** `getAQIIcon`: the first three bands have their own icon, the rest share
      the warning triangle. */
  function AQIIcon(aqi: real): (i: AqiIcon)
    ensures Band(aqi) == 0 <==> i == Leaf
    ensures Band(aqi) == 1 <==> i == Shield
    ensures Band(aqi) == 2 <==> i == WindIcon
    ensures Band(aqi) >= 3 <==> i == AlertTriangle
  {
    if aqi <= 50.0 then Leaf
    else if aqi <= 100.0 then Shield
    else if aqi <= 150.0 then WindIcon
    else AlertTriangle
  }

  /** The colour class `getAQIIcon` gives its icon. */
  function AQIIconColour(aqi: real): string {
    if aqi <= 50.0 then "text-green-600"
    else if aqi <= 100.0 then "text-yellow-600"
    else if aqi <= 150.0 then "text-orange-600"
    else "text-red-600"
  }

  /** The icon wears the reading's text colour in the first four bands only:
      above 200 it stays red-600 while the number turns purple or dark red. */
  lemma IconColourMatchesText(aqi: real)
    ensures AQIIconColour(aqi) == AQIColor(aqi) <==> Band(aqi) <= 3
  {
    ColourKey(aqi);
    if Band(aqi) > 3 {
      assert Key(AQIIconColour(aqi)) == ColourKeys[3];
    }
  }

  /** Both colour helpers pick the same band: two readings share a text
      colour exactly when they share a background. */
  lemma ColoursAgree(a: real, b: real)
    ensures AQIColor(a) == AQIColor(b) <==> AQIBgColor(a) == AQIBgColor(b)
  {
    ColourFollowsBand(a, b);
    BgColourFollowsBand(a, b);
  }

  datatype Level = Good | Moderate | UnhealthyForSensitiveGroups | Unhealthy | VeryUnhealthy | Hazardous

  /** `getHealthRecommendation`: one sentence per level. */
  function HealthRecommendation(level: Level): string {
    match level
    case Good => AdviceGood
    case Moderate => AdviceModerate
    case UnhealthyForSensitiveGroups => AdviceSensitive
    case Unhealthy => AdviceUnhealthy
    case VeryUnhealthy => AdviceVeryUnhealthy
    case Hazardous => AdviceHazardous
  }

  const AdviceGood: string := "Air quality is satisfactory and poses little or no risk."
  const AdviceModerate: string := "Air quality is acceptable for most people."
  const AdviceSensitive: string := "Sensitive individuals may experience symptoms."
  const AdviceUnhealthy: string := "Everyone may experience symptoms; sensitive groups more serious."
  const AdviceVeryUnhealthy: string := "Health alert; everyone may experience serious effects."
  const AdviceHazardous: string := "Health warning; emergency conditions for entire population."

  /** Each level has its own recommendation. */
  lemma HealthRecommendationsDistinct(a: Level, b: Level)
    ensures HealthRecommendation(a) == HealthRecommendation(b) <==> a == b
  {
    RecommendationLength(a);
    RecommendationLength(b);
  }

  /** The recommendations have six different lengths. */
  lemma RecommendationLength(level: Level)
    ensures |HealthRecommendation(level)| == [56, 42, 46, 64, 54, 59][LevelIndex(level)]
  {
    match level
    case Good => assert |AdviceGood| == 56;
    case Moderate => assert |AdviceModerate| == 42;
    case UnhealthyForSensitiveGroups => assert |AdviceSensitive| == 46;
    case Unhealthy => assert |AdviceUnhealthy| == 64;
    case VeryUnhealthy => assert |AdviceVeryUnhealthy| == 54;
    case Hazardous => assert |AdviceHazardous| == 59;
  }

  function LevelIndex(level: Level): (i: nat)
    ensures i < 6
  {
    match level
    case Good => 0
    case Moderate => 1
    case UnhealthyForSensitiveGroups => 2
    case Unhealthy => 3
    case VeryUnhealthy => 4
    case Hazardous => 5
  }

  /** The marker's left offset in percent: `min(aqi / 300 * 100, 100)`. */
  function MarkerPosition(aqi: real): (p: real)
    ensures aqi >= 0.0 ==> 0.0 <= p <= 100.0
    ensures p == 100.0 <==> aqi >= 300.0
    ensures aqi <= 300.0 ==> p * 3.0 == aqi
  {
    if aqi / 300.0 * 100.0 < 100.0 then aqi / 300.0 * 100.0 else 100.0
  }

  /** The marker moves right as the index rises, until it pins at the end. */
  lemma MarkerMonotone(a: real, b: real)
    requires a <= b
    ensures MarkerPosition(a) <= MarkerPosition(b)
  {
  }

  /** The health tips show above 100, from the third band on. */
  predicate ShowsHealthTips(aqi: real) {
    aqi > 100.0
  }

  lemma HealthTipsFromThirdBand(aqi: real)
    ensures ShowsHealthTips(aqi) <==> Band(aqi) >= 2
  {
  }

  /** The card's own reading, 42, is in the first band: green, a leaf, no tips. */
  lemma MockReading()
    ensures Band(42.0) == 0 && AQIColor(42.0) == "text-green-600" && AQIIcon(42.0) == Leaf
    ensures !ShowsHealthTips(42.0) && MarkerPosition(42.0) == 14.0
    ensures HealthRecommendation(Good) == "Air quality is satisfactory and poses little or no risk."
  {
  }
}
