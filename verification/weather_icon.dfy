/** The weather icon component: which glyph it draws for an icon code or a
    condition, and with which size and classes. */
module WeatherIconView {
  import opened Common
  import opened Text
  import opened WeatherTypes
  import WeatherApi

  datatype Glyph = Sun | Moon | Cloud | CloudDrizzle | CloudRain | CloudLightning | CloudSnow | Snowflake | Wind

  /** The code switch: 18 lower-case OpenWeatherMap codes. */
  const CodeGlyphs: seq<(string, Glyph)> := [
    ("01d", Sun), ("01n", Moon),
    ("02d", Cloud), ("03d", Cloud), ("02n", Cloud), ("03n", Cloud),
    ("04d", Cloud), ("04n", Cloud),
    ("09d", CloudDrizzle), ("09n", CloudDrizzle),
    ("10d", CloudRain), ("10n", CloudRain),
    ("11d", CloudLightning), ("11n", CloudLightning),
    ("13d", CloudSnow), ("13n", CloudSnow),
    ("50d", Wind), ("50n", Wind)
  ]

  function Lookup(table: seq<(string, Glyph)>, code: string): Option<Glyph> {
    if |table| == 0 then None
    else if table[0].0 == code then Some(table[0].1)
    else Lookup(table[1..], code)
  }

  lemma {:induction false} LookupFinds(table: seq<(string, Glyph)>, code: string)
    ensures Lookup(table, code).Some? ==> exists i :: 0 <= i < |table| && table[i] == (code, Lookup(table, code).value)
    ensures Lookup(table, code).None? ==> forall i :: 0 <= i < |table| ==> table[i].0 != code
  {
    if |table| > 0 && table[0].0 != code {
      LookupFinds(table[1..], code);
      if Lookup(table, code).Some? {
        var i :| 0 <= i < |table[1..]| && table[1..][i] == (code, Lookup(table, code).value);
        assert table[i + 1] == table[1..][i];
      } else {
        assert forall i :: 1 <= i < |table| ==> table[i] == table[1..][i - 1];
      }
    } else if |table| > 0 {
      assert table[0] == (code, Lookup(table, code).value);
    }
  }

  /** `getIconFromCode`: the code is lower-cased, then switched on; an unlisted
      code draws the sun. */
  function IconFromCode(iconCode: string): Glyph {
    match Lookup(CodeGlyphs, ToLower(iconCode))
    case Some(g) => g
    case None => Sun
  }

  /** The glyph for a code's sky group: only a clear sky tells day from night. */
  function GlyphOfGroup(group: string, suffix: char): Option<Glyph> {
    if group == "01" then Some(if suffix == 'd' then Sun else Moon)
    else if group == "02" || group == "03" || group == "04" then Some(Cloud)
    else if group == "09" then Some(CloudDrizzle)
    else if group == "10" then Some(CloudRain)
    else if group == "11" then Some(CloudLightning)
    else if group == "13" then Some(CloudSnow)
    else if group == "50" then Some(Wind)
    else None
  }

  lemma GlyphGroupsAreKnownGroups(group: string, suffix: char)
    ensures GlyphOfGroup(group, suffix).Some? <==> WeatherApi.ConditionOfGroup(group, suffix).Some?
  {
  }

  lemma CodeGlyphShape(i: nat)
    requires i < |CodeGlyphs|
    ensures WeatherApi.IsKnownCode(CodeGlyphs[i].0)
    ensures GlyphOfGroup(CodeGlyphs[i].0[..2], CodeGlyphs[i].0[2]) == Some(CodeGlyphs[i].1)
  {
    var c := CodeGlyphs[i].0;
    assert |c| == 3 && c[..2] == [c[0], c[1]];
  }

  /** Codes that agree draw the same glyph. */
  lemma GlyphTableFunctional()
    ensures forall i, j :: 0 <= i < |CodeGlyphs| && 0 <= j < |CodeGlyphs| && CodeGlyphs[i].0 == CodeGlyphs[j].0
                           ==> CodeGlyphs[i].1 == CodeGlyphs[j].1
  {
    forall i, j | 0 <= i < |CodeGlyphs| && 0 <= j < |CodeGlyphs| && CodeGlyphs[i].0 == CodeGlyphs[j].0
      ensures CodeGlyphs[i].1 == CodeGlyphs[j].1
    {
      CodeGlyphShape(i);
      CodeGlyphShape(j);
      assert CodeGlyphs[i].0[..2] == CodeGlyphs[j].0[..2];
    }
  }

  /** A listed code draws the table's glyph; an unlisted one the sun. */
  lemma LookupCodeGlyphs(code: string)
    ensures forall i :: 0 <= i < |CodeGlyphs| && CodeGlyphs[i].0 == code ==> Lookup(CodeGlyphs, code) == Some(CodeGlyphs[i].1)
    ensures (forall i :: 0 <= i < |CodeGlyphs| ==> CodeGlyphs[i].0 != code) ==> Lookup(CodeGlyphs, code) == None
  {
    GlyphTableFunctional();
    LookupFinds(CodeGlyphs, code);
  }

  /** The table position of a well-formed code. */
  function PositionOf(code: string): (k: nat)
    requires WeatherApi.IsKnownCode(code)
    ensures k < |CodeGlyphs| && CodeGlyphs[k].0 == code
  {
    var g := code[..2];
    var d := code[2] == 'd';
    assert code == [code[0], code[1], code[2]];
    if g == "01" then (if d then 0 else 1)
    else if g == "02" then (if d then 2 else 4)
    else if g == "03" then (if d then 3 else 5)
    else if g == "04" then (if d then 6 else 7)
    else if g == "09" then (if d then 8 else 9)
    else if g == "10" then (if d then 10 else 11)
    else if g == "11" then (if d then 12 else 13)
    else if g == "13" then (if d then 14 else 15)
    else (if d then 16 else 17)
  }

  /** The switch is exactly the published meaning of the codes, read without
      regard to case: a well-formed code draws its group's glyph, anything else
      the sun. */
  lemma IconFromCodeByGroup(iconCode: string)
    ensures var code := ToLower(iconCode);
            && (WeatherApi.IsKnownCode(code) ==> IconFromCode(iconCode) == GlyphOfGroup(code[..2], code[2]).value)
            && (!WeatherApi.IsKnownCode(code) ==> IconFromCode(iconCode) == Sun)
  {
    var code := ToLower(iconCode);
    LookupCodeGlyphs(code);
    if WeatherApi.IsKnownCode(code) {
      CodeGlyphShape(PositionOf(code));
    } else {
      forall i | 0 <= i < |CodeGlyphs| ensures CodeGlyphs[i].0 != code {
        CodeGlyphShape(i);
      }
    }
  }

  /** Case does not matter to the icon: "01D" draws the sun, although the
      condition classifier, which compares exactly, reads it as partly cloudy. */
  lemma IconFromCodeIgnoresCase(iconCode: string)
    ensures IconFromCode(ToLower(iconCode)) == IconFromCode(iconCode)
    ensures IconFromCode("01D") == Sun && WeatherApi.MapWeatherCondition("01D") == PartlyCloudy
  {
    ToLowerIdempotent(iconCode);
    assert ToLower("01D") == "01d";
    WeatherApi.MapWeatherConditionCaseSensitive();
  }

  /** `getIconFromCondition`. */
  function IconFromCondition(c: Condition): (g: Glyph)
    ensures g != CloudDrizzle && g != CloudSnow
  {
    match c
    case ClearDay => Sun
    case ClearNight => Moon
    case PartlyCloudy => Cloud
    case Cloudy => Cloud
    case Rainy => CloudRain
    case Stormy => CloudLightning
    case Snowy => Snowflake
    case Windy => Wind
    case Foggy => Wind
  }

  lemma GroupGlyphsAgree(group: string, suffix: char)
    requires WeatherApi.ConditionOfGroup(group, suffix).Some?
    ensures GlyphOfGroup(group, suffix).Some?
    ensures GlyphOfGroup(group, suffix).value == IconFromCondition(WeatherApi.ConditionOfGroup(group, suffix).value)
            <==> group != "09" && group != "13"
  {
  }

  /** Drawing from the code and drawing from the condition the code classifies
      as agree on every well-formed lower-case code except the shower (09) and
      snow (13) groups: drizzle against rain, a snow cloud against a flake. */
  lemma CodeAndConditionGlyphsAgree(code: string)
    requires WeatherApi.IsKnownCode(code) && ToLower(code) == code
    ensures IconFromCode(code) == IconFromCondition(WeatherApi.MapWeatherCondition(code))
            <==> code[..2] != "09" && code[..2] != "13"
  {
    IconFromCodeByGroup(code);
    WeatherApi.MapWeatherConditionByGroup(code);
    GroupGlyphsAgree(code[..2], code[2]);
  }

  // ---------------------------------------------------------------- the component

  /** What the component draws: the glyph, its size, and the class list given
      to the class-name merger (its merging is not part of this model). */
  datatype Rendered = Rendered(glyph: Glyph, size: int, classes: seq<string>, testId: string)

  const DefaultSize: int := 24

  /** `WeatherIcon`: a truthy icon code takes precedence over the condition,
      which defaults to a clear day. */
  function WeatherIcon(condition: Option<Condition>, icon: Option<string>, size: Option<int>, className: Option<string>)
    : (r: Rendered)
    ensures Truthy(icon) ==> r.glyph == IconFromCode(icon.value)
    ensures !Truthy(icon) && condition.Some? ==> r.glyph == IconFromCondition(condition.value)
    ensures !Truthy(icon) && condition.None? ==> r.glyph == Sun
    ensures size.None? ==> r.size == 24
    ensures size.Some? ==> r.size == size.value
    ensures |r.classes| >= 1 && r.classes[0] == "text-current"
    ensures r.classes == ["text-current"] + (match className case Some(c) => [c] case None => [])
    ensures className.Some? ==> className.value in r.classes
    ensures r.testId == "weather-icon"
  {
    var props := (match size case Some(s) => s case None => DefaultSize,
                  ["text-current"] + (match className case Some(c) => [c] case None => []));
    var glyph := if Truthy(icon) then IconFromCode(icon.value)
                 else IconFromCondition(match condition case Some(c) => c case None => ClearDay);
    Rendered(glyph, props.0, props.1, "weather-icon")
  }

  /** An empty icon code is ignored in favour of the condition. */
  lemma EmptyIconFallsBackToCondition(c: Condition)
    ensures WeatherIcon(Some(c), Some(""), None, None).glyph == IconFromCondition(c)
    ensures WeatherIcon(Some(Snowy), Some("13d"), None, None).glyph == CloudSnow
  {
    var code := "13d";
    assert ToLower(code) == code;
    assert code[..2] == "13";
    assert WeatherApi.IsKnownCode(code);
    IconFromCodeByGroup(code);
  }
}
