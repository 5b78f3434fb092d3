/** The display formatters of the format utilities: rounding, unit
    conversion and unit suffixes. Every rendering is stated by reading it back:
    the text before the suffix parses to the rounded (or fixed-point) value.
    The parsers accept only the canonical text `String` and `toFixed` write
    (`ParseIntInjective`, `ParseFixedInjective`), so this pins the digits. */
module Format {
  import opened Common
  import opened Decimal

  datatype TemperatureUnit = C | F

  function UnitLetter(u: TemperatureUnit): char {
    match u
    case C => 'C'
    case F => 'F'
  }

  /** The degree sign U+00B0. */
  const Degree: char := '\U{00B0}'

  /** The marker the source file literally contains between number and unit:
      U+00C2 followed by U+00B0, the UTF-8 bytes of the degree sign read back
      as Latin-1. */
  const DegreeAsWritten: string := "\U{00C2}\U{00B0}"

  /** `formatTemperature` as written: the rounded temperature, the two-character
      marker, the unit letter. */
  function FormatTemperatureAsWritten(temp: real, unit: TemperatureUnit): (r: string)
    ensures |r| >= 4 && r[|r| - 3..] == DegreeAsWritten + [UnitLetter(unit)]
    ensures ParseInt(r[..|r| - 3]) == Some(Round(temp))
  {
    var n := ShowInt(Round(temp));
    assert (n + DegreeAsWritten + [UnitLetter(unit)])[..|n|] == n;
    n + DegreeAsWritten + [UnitLetter(unit)]
  }

  /** The discrepancy: 72 renders with a stray U+00C2 before the degree sign,
      not as the "72°C" the unit tests expect. */
  lemma FormatTemperatureStrayCharacter()
    ensures FormatTemperatureAsWritten(72.0, C) == "72\U{00C2}\U{00B0}C"
    ensures FormatTemperatureAsWritten(72.0, C) != "72\U{00B0}C"
  {
    assert Round(72.0) == 72;
    assert ShowNat(72) == "72";
  }

  /** `formatTemperature` with the degree sign intended: the rounded temperature,
      `°`, the unit letter. */
  function FormatTemperature(temp: real, unit: TemperatureUnit): (r: string)
    ensures |r| >= 3 && r[|r| - 2] == Degree && r[|r| - 1] == UnitLetter(unit)
    ensures ParseInt(r[..|r| - 2]) == Some(Round(temp))
  {
    var n := ShowInt(Round(temp));
    assert (n + [Degree, UnitLetter(unit)])[..|n|] == n;
    n + [Degree, UnitLetter(unit)]
  }

  /** Halves round up: 72.5 renders as 73, 72.3 as 72, -10 as -10. */
  lemma FormatTemperatureExamples()
    ensures FormatTemperature(72.5, C) == "73\U{00B0}C"
    ensures FormatTemperature(72.3, C) == "72\U{00B0}C"
    ensures FormatTemperature(-10.0, F) == "-10\U{00B0}F"
  {
    RoundUnique(72.5, 73);
    RoundUnique(72.3, 72);
    RoundUnique(-10.0, -10);
    assert ShowNat(7) == "7" && ShowNat(1) == "1";
    assert ShowNat(73) == "73";
    assert ShowNat(72) == "72";
    assert ShowNat(10) == "10";
    assert ShowInt(-10) == "-10";
  }

  // ---------------------------------------------------------------- speed

  datatype SpeedUnit = Ms | Kmh | Mph

  /** The conversion factor applied before rounding; `ms` applies none. */
  function SpeedFactor(u: SpeedUnit): real {
    match u
    case Ms => 1.0
    case Kmh => 3.6
    case Mph => 2.237
  }

  /** The suffix: `m/s` for `ms`, otherwise the unit key itself. */
  function SpeedSuffix(u: SpeedUnit): string {
    match u
    case Ms => "m/s"
    case Kmh => "kmh"
    case Mph => "mph"
  }

  /** The default unit when none is given. */
  const DefaultSpeedUnit := Kmh

  /** `formatSpeed`: converted, then rounded, then a space and the suffix. */
  function FormatSpeed(speed: real, unit: SpeedUnit): (r: string)
    ensures var k := |r| - |SpeedSuffix(unit)| - 1;
            && k >= 1 && r[k] == ' ' && r[k + 1..] == SpeedSuffix(unit)
            && ParseInt(r[..k]) == Some(Round(speed * SpeedFactor(unit)))
  {
    var n := ShowInt(Round(speed * SpeedFactor(unit)));
    Suffixed(n, SpeedSuffix(unit));
    n + " " + SpeedSuffix(unit)
  }

  /** The default unit renders `kmh`, converted: 10 m/s is "36 kmh", not the
      unconverted "10 km/h". */
  lemma FormatSpeedDefaultConverts()
    ensures FormatSpeed(10.0, DefaultSpeedUnit) == "36 kmh"
  {
    assert Round(10.0 * 3.6) == 36;
    assert ShowInt(36) == "36";
  }

  /** `ms` is neither converted nor keyed: 25.5 renders "26 m/s". */
  lemma FormatSpeedMetresPerSecond()
    ensures FormatSpeed(25.5, Ms) == "26 m/s"
  {
    assert Round(25.5 * 1.0) == 26;
    assert ShowInt(26) == "26";
  }

  // ---------------------------------------------------------------- pressure

  datatype PressureUnit = Hpa | InHg

  /** `formatPressure`: rounded hectopascals, or inches of mercury with two decimals. */
  function FormatPressure(pressure: real, unit: PressureUnit): (r: string)
    ensures unit == Hpa ==> |r| >= 5 && r[|r| - 4..] == " hPa"
                            && ParseInt(r[..|r| - 4]) == Some(Round(pressure))
    ensures unit == InHg ==> |r| >= 6 && r[|r| - 5..] == " inHg"
                             && ParseFixed(r[..|r| - 5], 2) == Some(SignedScaled(pressure * 0.02953, 2))
                             && ((r[0] == '-') <==> pressure * 0.02953 < 0.0)
  {
    match unit
    case Hpa =>
      var n := ShowInt(Round(pressure));
      assert (n + " hPa")[..|n|] == n;
      n + " hPa"
    case InHg =>
      var n := ShowFixed(pressure * 0.02953, 2);
      assert (n + " inHg")[..|n|] == n;
      n + " inHg"
  }

  /** The fixed-point value `toFixed(k)` encodes for x, in units of 10^-k. */
  function SignedScaled(x: real, k: nat): int {
    if x < 0.0 then 0 - ScaledRound(-x, k) else ScaledRound(x, k)
  }

  /** 1013 hPa is 29.91 inches of mercury at two decimals. */
  lemma FormatPressureInHgExample()
    ensures FormatPressure(1013.0, InHg) == "29.91 inHg"
  {
    InHgScaled();
    InHgDigits();
    assert ShowFixed(1013.0 * 0.02953, 2) == "29.91";
  }

  lemma InHgScaled()
    ensures ScaledRound(1013.0 * 0.02953, 2) == 2991
  {
    assert Pow10(2) == 100;
  }

  lemma InHgDigits()
    ensures FixedDigits(2991, 2) == "29.91"
  {
    ShowsDigits();
    PadsNothing();
    var digits := PadZeros(ShowNat(2991), 3);
    assert FixedDigits(2991, 2) == digits[..2] + "." + digits[2..];
    assert digits[..2] == "29" && digits[2..] == "91";
  }

  lemma ShowsDigits()
    ensures ShowNat(2991) == "2991"
  {
    assert ShowNat(2) == "2";
    assert ShowNat(29) == "29";
    assert ShowNat(299) == "299";
  }

  lemma PadsNothing()
    ensures PadZeros("2991", 3) == "2991"
  {
    assert Zeros(0) == "";
  }

  // ---------------------------------------------------------------- percentage, distance

  /** `formatPercentage`: the rounded value followed by `%`. */
  function FormatPercentage(value: real): (r: string)
    ensures |r| >= 2 && r[|r| - 1] == '%' && ParseInt(r[..|r| - 1]) == Some(Round(value))
  {
    var n := ShowInt(Round(value));
    assert (n + "%")[..|n|] == n;
    n + "%"
  }

  datatype DistanceUnit = Km | Mi

  function DistanceSuffix(u: DistanceUnit): string {
    match u
    case Km => "km"
    case Mi => "mi"
  }

  /** The distance in the unit shown: miles convert by 0.621371, kilometres
      not at all. */
  function Converted(distance: real, unit: DistanceUnit): real {
    if unit == Mi then distance * 0.621371 else distance
  }

  /** `formatDistance`: converted, one decimal, a space and the unit. */
  function FormatDistance(distance: real, unit: DistanceUnit): (r: string)
    ensures var k := |r| - |DistanceSuffix(unit)| - 1;
            && k >= 1 && r[k] == ' ' && r[k + 1..] == DistanceSuffix(unit)
            && ParseFixed(r[..k], 1) == Some(SignedScaled(Converted(distance, unit), 1))
            && ((r[0] == '-') <==> Converted(distance, unit) < 0.0)
  {
    var n := ShowFixed(Converted(distance, unit), 1);
    Suffixed(n, DistanceSuffix(unit));
    n + " " + DistanceSuffix(unit)
  }

  /** A rendering followed by a space and a suffix splits back into the two. */
  lemma Suffixed(n: string, suffix: string)
    ensures var r := n + " " + suffix;
            r[..|n|] == n && r[|n|] == ' ' && r[|n| + 1..] == suffix
  {
  }
}
