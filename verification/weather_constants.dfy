/** The lookup tables of the weather constants file, as data, with the
    invariants the lookups rely on: the wind bands tile [0, 360), the UV
    levels cover every non-negative integer, and the condition table has one
    entry per condition. */
module WeatherConstants {
  import opened WeatherTypes

  // ---------------------------------------------------------------- wind

  datatype Compass = N | NE | E | SE | S | SW | W | NW

  function CompassLabel(c: Compass): string {
    match c
    case N => "N"
    case NE => "NE"
    case E => "E"
    case SE => "SE"
    case S => "S"
    case SW => "SW"
    case W => "W"
    case NW => "NW"
  }

  /** A band matches degrees d when min <= d < max. */
  datatype WindBand = WindBand(min: real, max: real, direction: Compass)

  predicate InWindBand(b: WindBand, d: real) {
    b.min <= d < b.max
  }

  /** `WIND_DIRECTION_LABELS`: nine bands, `N` at both ends. */
  const WindDirectionLabels: seq<WindBand> := [
    WindBand(0.0, 22.5, N),
    WindBand(22.5, 67.5, NE),
    WindBand(67.5, 112.5, E),
    WindBand(112.5, 157.5, SE),
    WindBand(157.5, 202.5, S),
    WindBand(202.5, 247.5, SW),
    WindBand(247.5, 292.5, W),
    WindBand(292.5, 337.5, NW),
    WindBand(337.5, 360.0, N)
  ]

  /** Each band's max is the next band's min; the first starts at 0, the last ends at 360. */
  lemma WindBandsContiguous()
    ensures |WindDirectionLabels| == 9
    ensures WindDirectionLabels[0].min == 0.0 && WindDirectionLabels[8].max == 360.0
    ensures forall i :: 0 <= i < 8 ==> WindDirectionLabels[i].max == WindDirectionLabels[i + 1].min
    ensures forall i :: 0 <= i < 9 ==> WindDirectionLabels[i].min < WindDirectionLabels[i].max
  {
  }

  /** Every degree in [0, 360) lies in exactly one band, and nothing outside it lies in any. */
  lemma WindBandsPartition(d: real)
    ensures 0.0 <= d < 360.0 ==> exists i :: 0 <= i < 9 && InWindBand(WindDirectionLabels[i], d)
    ensures forall i, j ::
              (0 <= i < 9 && 0 <= j < 9 && InWindBand(WindDirectionLabels[i], d)
               && InWindBand(WindDirectionLabels[j], d)) ==> i == j
    ensures !(0.0 <= d < 360.0) ==> forall i :: 0 <= i < 9 ==> !InWindBand(WindDirectionLabels[i], d)
  {
    WindBandsContiguous();
    var b := WindDirectionLabels;
    if 0.0 <= d < 360.0 {
      var i := if d < 22.5 then 0 else if d < 67.5 then 1 else if d < 112.5 then 2
               else if d < 157.5 then 3 else if d < 202.5 then 4 else if d < 247.5 then 5
               else if d < 292.5 then 6 else if d < 337.5 then 7 else 8;
      assert InWindBand(b[i], d);
    }
  }

  /** Nine bands but eight distinct labels: `N` labels the first and the last band. */
  lemma WindLabelsDistinct()
    ensures (set i | 0 <= i < |WindDirectionLabels| :: WindDirectionLabels[i].direction)
            == {N, NE, E, SE, S, SW, W, NW}
    ensures WindDirectionLabels[0].direction == N && WindDirectionLabels[8].direction == N
    ensures forall i, j :: 0 <= i < j < 8 ==> WindDirectionLabels[i].direction != WindDirectionLabels[j].direction
  {
    var b := WindDirectionLabels;
    var labels := set i | 0 <= i < |b| :: b[i].direction;
    assert b[0].direction == N && b[1].direction == NE && b[2].direction == E && b[3].direction == SE;
    assert b[4].direction == S && b[5].direction == SW && b[6].direction == W && b[7].direction == NW;
    forall c: Compass ensures c in labels {
      match c
      case N => assert b[0].direction == c;
      case NE => assert b[1].direction == c;
      case E => assert b[2].direction == c;
      case SE => assert b[3].direction == c;
      case S => assert b[4].direction == c;
      case SW => assert b[5].direction == c;
      case W => assert b[6].direction == c;
      case NW => assert b[7].direction == c;
    }
  }

  // ---------------------------------------------------------------- UV

  /** An upper bound that may be `Infinity`. */
  datatype Ceiling = AtMost(value: real) | Unbounded

  /** A level matches index i when min <= i <= max. */
  datatype UvLevel = UvLevel(min: real, max: Ceiling, name: string, color: string)

  predicate InUvLevel(l: UvLevel, i: real) {
    l.min <= i && (l.max.Unbounded? || i <= l.max.value)
  }

  /** `UV_INDEX_LEVELS`. */
  const UvIndexLevels: seq<UvLevel> := [
    UvLevel(0.0, AtMost(2.0), "Low", "text-green-500"),
    UvLevel(3.0, AtMost(5.0), "Moderate", "text-yellow-500"),
    UvLevel(6.0, AtMost(7.0), "High", "text-orange-500"),
    UvLevel(8.0, AtMost(10.0), "Very High", "text-red-500"),
    UvLevel(11.0, Unbounded, "Extreme", "text-purple-600")
  ]

  /** Levels are ordered by min and pairwise disjoint. */
  lemma UvLevelsOrderedDisjoint()
    ensures |UvIndexLevels| == 5
    ensures forall i, j :: 0 <= i < j < 5 ==> UvIndexLevels[i].min < UvIndexLevels[j].min
    ensures forall i, j, x :: 0 <= i < j < 5 && InUvLevel(UvIndexLevels[i], x) ==> !InUvLevel(UvIndexLevels[j], x)
  {
  }

  /** Every non-negative integer index lies in some level. */
  lemma UvLevelsCoverIntegers(n: int)
    requires n >= 0
    ensures exists i :: 0 <= i < 5 && InUvLevel(UvIndexLevels[i], n as real)
  {
    var l := UvIndexLevels;
    if n <= 2 { assert InUvLevel(l[0], n as real); }
    else if n <= 5 { assert InUvLevel(l[1], n as real); }
    else if n <= 7 { assert InUvLevel(l[2], n as real); }
    else if n <= 10 { assert InUvLevel(l[3], n as real); }
    else { assert InUvLevel(l[4], n as real); }
  }

  /** Between consecutive finite levels lies an open gap that no level covers, e.g. (2, 3) and (5, 6). */
  lemma UvLevelGaps(x: real)
    requires 2.0 < x < 3.0 || 5.0 < x < 6.0 || 7.0 < x < 8.0 || 10.0 < x < 11.0
    ensures forall i :: 0 <= i < 5 ==> !InUvLevel(UvIndexLevels[i], x)
  {
  }

  // ---------------------------------------------------------------- conditions

  /** A condition's display entry; `labelText` is the source's `label`, a
      reserved word in Dafny. */
  datatype ConditionStyle = ConditionStyle(labelText: string, color: string, bgColor: string)

  /** `WEATHER_CONDITIONS`, as an ordered list of entries. */
  const WeatherConditions: seq<(Condition, ConditionStyle)> := [
    (ClearDay, ConditionStyle("Clear", "text-yellow-500", "bg-yellow-50")),
    (ClearNight, ConditionStyle("Clear", "text-indigo-500", "bg-indigo-50")),
    (PartlyCloudy, ConditionStyle("Partly Cloudy", "text-gray-500", "bg-gray-50")),
    (Cloudy, ConditionStyle("Cloudy", "text-gray-600", "bg-gray-100")),
    (Rainy, ConditionStyle("Rainy", "text-blue-500", "bg-blue-50")),
    (Stormy, ConditionStyle("Stormy", "text-purple-600", "bg-purple-50")),
    (Snowy, ConditionStyle("Snowy", "text-cyan-500", "bg-cyan-50")),
    (Windy, ConditionStyle("Windy", "text-teal-500", "bg-teal-50")),
    (Foggy, ConditionStyle("Foggy", "text-gray-400", "bg-gray-50"))
  ]

  /** The table has exactly one entry per condition. */
  lemma WeatherConditionsOnePerCondition(c: Condition)
    ensures |WeatherConditions| == 9
    ensures exists i :: 0 <= i < 9 && WeatherConditions[i].0 == c
    ensures forall i, j ::
              (0 <= i < 9 && 0 <= j < 9 && WeatherConditions[i].0 == c
               && WeatherConditions[j].0 == c) ==> i == j
  {
    var t := WeatherConditions;
    var i := match c
      case ClearDay => 0 case ClearNight => 1 case PartlyCloudy => 2 case Cloudy => 3
      case Rainy => 4 case Stormy => 5 case Snowy => 6 case Windy => 7 case Foggy => 8;
    assert t[i].0 == c;
  }
}
