/** Decimal rendering of numbers as the formatters need it: JavaScript's
    `Math.round`, integer-to-string conversion, and `Number.prototype.toFixed`,
    each paired with a parser that reads the rendering back. Numbers are exact
    reals; binary floating-point rounding is not modelled. */
module Decimal {
  import opened Common

  predicate IsDigit(c: char) {
    '0' <= c <= '9'
  }

  predicate AllDigits(s: string) {
    forall i :: 0 <= i < |s| ==> IsDigit(s[i])
  }

  function DigitValue(c: char): (d: nat)
    requires IsDigit(c)
    ensures d < 10
  {
    c as int - '0' as int
  }

  function DigitChar(d: nat): (c: char)
    requires d < 10
    ensures IsDigit(c) && DigitValue(c) == d
  {
    ('0' as int + d) as char
  }

  /** The value of a digit string, most significant digit first; leading zeros are allowed. */
  function DigitsValue(s: string): nat
    requires AllDigits(s)
  {
    if |s| == 0 then 0 else DigitsValue(s[..|s| - 1]) * 10 + DigitValue(s[|s| - 1])
  }

  /** A digit run as `String(n)` writes it: at least one digit, and no
      leading zero unless the run is "0" itself. */
  predicate CanonicalDigits(s: string) {
    |s| >= 1 && AllDigits(s) && (s[0] == '0' ==> |s| == 1)
  }

  /** `String(n)` for a non-negative integer: its digits, without leading zeros. */
  function ShowNat(n: nat): (s: string)
    ensures CanonicalDigits(s)
    ensures s[0] == '0' <==> n == 0
    ensures n == 0 ==> s == "0"
    ensures DigitsValue(s) == n
  {
    if n < 10 then [DigitChar(n)]
    else
      var p := ShowNat(n / 10);
      var s := p + [DigitChar(n % 10)];
      assert s[..|s| - 1] == p;
      s
  }

  /** `String(i)` for an integer; with `ParseIntInjective`, the only text
      that reads back as i. */
  function ShowInt(i: int): (s: string)
    ensures ParseInt(s) == Some(i)
    ensures (s[0] == '-') <==> i < 0
  {
    if i < 0 then
      var d := ShowNat(-i);
      assert ("-" + d)[1..] == d;
      "-" + d
    else ShowNat(i)
  }

  /** Reads a decimal integer written as `String` writes one: an optional
      minus sign before a canonical digit run, and no "-0". None for anything
      else. */
  function ParseInt(s: string): Option<int> {
    if |s| >= 2 && s[0] == '-' && CanonicalDigits(s[1..]) && s[1..] != "0" then Some(-(DigitsValue(s[1..]) as int))
    else if CanonicalDigits(s) then Some(DigitsValue(s))
    else None
  }

  /** A digit run that does not start with '0' has a positive value. */
  lemma {:induction false} LeadingNonZero(s: string)
    requires |s| >= 1 && AllDigits(s) && s[0] != '0'
    ensures DigitsValue(s) >= 1
    decreases |s|
  {
    if |s| > 1 {
      LeadingNonZero(s[..|s| - 1]);
    }
  }

  /** `String` gives back every canonical digit run from its value. */
  lemma {:induction false} ShowNatOfCanonical(s: string)
    requires CanonicalDigits(s)
    ensures ShowNat(DigitsValue(s)) == s
    decreases |s|
  {
    var v := DigitsValue(s);
    if |s| == 1 {
      assert [DigitChar(DigitValue(s[0]))] == s;
    } else {
      var p := s[..|s| - 1];
      LeadingNonZero(p);
      ShowNatOfCanonical(p);
      assert v / 10 == DigitsValue(p) && v % 10 == DigitValue(s[|s| - 1]);
      assert p + [DigitChar(v % 10)] == s;
    }
  }

  /** Two digit runs of one length with one value are the same run. */
  lemma {:induction false} DigitsValueInjective(s: string, t: string)
    requires AllDigits(s) && AllDigits(t) && |s| == |t| && DigitsValue(s) == DigitsValue(t)
    ensures s == t
    decreases |s|
  {
    if |s| > 0 {
      var n := |s| - 1;
      assert DigitValue(s[n]) == DigitsValue(s) % 10 == DigitValue(t[n]);
      DigitsValueInjective(s[..n], t[..n]);
      assert s == s[..n] + [s[n]] && t == t[..n] + [t[n]];
    }
  }

  /** The parser is canonical: distinct texts never read back as the same
      integer, so `ShowInt(i)` is the one rendering of i. */
  lemma ParseIntInjective(s: string, t: string)
    requires ParseInt(s).Some? && ParseInt(s) == ParseInt(t)
    ensures s == t
  {
    var i := ParseInt(s).value;
    ParseIntIsShowInt(s, i);
    ParseIntIsShowInt(t, i);
  }

  lemma ParseIntIsShowInt(s: string, i: int)
    requires ParseInt(s) == Some(i)
    ensures s == ShowInt(i)
  {
    if |s| >= 2 && s[0] == '-' && CanonicalDigits(s[1..]) && s[1..] != "0" {
      var d := s[1..];
      LeadingNonZero(d);
      ShowNatOfCanonical(d);
      assert s == "-" + d;
    } else {
      ShowNatOfCanonical(s);
    }
  }

  /** JavaScript `Math.round`: the nearest integer, halves rounded up. */
  function Round(x: real): (r: int)
    ensures r as real - 0.5 <= x < r as real + 0.5
  {
    (x + 0.5).Floor
  }

  /** Round is determined by its contract: at most one integer lies within half of x this way. */
  lemma RoundUnique(x: real, n: int)
    requires n as real - 0.5 <= x < n as real + 0.5
    ensures Round(x) == n
  {
  }

  function Pow10(k: nat): (p: nat)
    ensures p >= 1
  {
    if k == 0 then 1 else 10 * Pow10(k - 1)
  }

  function Zeros(k: nat): (z: string)
    ensures |z| == k && AllDigits(z) && DigitsValue(z) == 0
  {
    if k == 0 then ""
    else
      var z := Zeros(k - 1) + "0";
      assert z[..|z| - 1] == Zeros(k - 1);
      z
  }

  /** Leading zeros do not change a digit string's value. */
  lemma {:induction false} LeadingZeros(z: string, s: string)
    requires AllDigits(z) && DigitsValue(z) == 0 && AllDigits(s)
    ensures AllDigits(z + s) && DigitsValue(z + s) == DigitsValue(s)
    decreases |s|
  {
    assert AllDigits(z + s);
    if |s| == 0 {
      assert z + s == z;
    } else {
      var p := s[..|s| - 1];
      LeadingZeros(z, p);
      assert (z + s)[..|z + s| - 1] == z + p;
    }
  }

  /** `s` left-padded with zeros to at least `width` characters. */
  function PadZeros(s: string, width: nat): (r: string)
    requires AllDigits(s)
    ensures |r| >= width && |r| >= |s|
    ensures |s| >= width ==> r == s
    ensures |s| < width ==> |r| == width
    ensures AllDigits(r) && DigitsValue(r) == DigitsValue(s)
  {
    var z := Zeros(if |s| < width then width - |s| else 0);
    LeadingZeros(z, s);
    assert |s| >= width ==> z + s == s;
    z + s
  }

  /** `x` scaled by 10^k and rounded as `toFixed` rounds: to nearest, halves up. */
  function ScaledRound(x: real, k: nat): (n: nat)
    requires x >= 0.0
    ensures n as real - 0.5 <= x * Pow10(k) as real < n as real + 0.5
  {
    Round(x * Pow10(k) as real)
  }

  /** The fixed-point rendering of n units of 10^-k: at least one digit before the point. */
  function FixedDigits(n: nat, k: nat): (s: string)
    ensures ParseUnsignedFixed(s, k) == Some(n)
    ensures |s| >= 1 && s[0] != '-'
  {
    var digits := PadZeros(ShowNat(n), k + 1);
    if k == 0 then
      assert digits == ShowNat(n);
      digits
    else
      PaddedIntegerPart(n, k);
      PointedPadded(n, k, digits);
      PointAt(digits, k)
  }

  /** A digit run of value n whose integer part is canonical, pointed before
      its last k digits, reads back as n. */
  lemma PointedPadded(n: nat, k: nat, digits: string)
    requires k > 0 && |digits| >= k + 1 && AllDigits(digits) && DigitsValue(digits) == n
    requires CanonicalDigits(digits[..|digits| - k])
    ensures ParseUnsignedFixed(PointAt(digits, k), k) == Some(n)
    ensures PointAt(digits, k)[0] != '-'
  {
    var a, b := digits[..|digits| - k], digits[|digits| - k..];
    assert AllDigits(b) by {
      forall i | 0 <= i < |b| ensures IsDigit(b[i]) {
        assert b[i] == digits[|digits| - k + i];
      }
    }
    ParsePointed(PointAt(digits, k), a, b, k);
  }

  /** A digit run with a point before its last k digits. */
  function PointAt(d: string, k: nat): (s: string)
    requires |d| >= k + 1
    ensures s == d[..|d| - k] + "." + d[|d| - k..]
    ensures d == d[..|d| - k] + d[|d| - k..]
  {
    d[..|d| - k] + "." + d[|d| - k..]
  }

  /** The integer part of a padded rendering is canonical. */
  lemma PaddedIntegerPart(n: nat, k: nat)
    ensures var d := PadZeros(ShowNat(n), k + 1);
            CanonicalDigits(d[..|d| - k])
  {
    var shown := ShowNat(n);
    var d := PadZeros(shown, k + 1);
    if |shown| >= k + 1 {
      assert d == shown;
      assert d[..|d| - k][0] == shown[0];
    }
  }

  /** A canonical integer part, a point and k digits read back as the digits' value. */
  lemma ParsePointed(s: string, a: string, b: string, k: nat)
    requires k > 0 && CanonicalDigits(a) && AllDigits(b) && |b| == k && s == a + "." + b
    ensures ParseUnsignedFixed(s, k) == Some(DigitsValue(a + b))
    ensures s[0] != '-'
  {
    assert s[|s| - k - 1] == '.';
    assert s[..|s| - k - 1] == a;
    assert s[|s| - k..] == b;
  }

  /** A value is at most as long as any digit run that spells it. */
  lemma {:induction false} DigitsValueBound(s: string)
    requires AllDigits(s)
    ensures DigitsValue(s) < Pow10(|s|)
    decreases |s|
  {
    if |s| > 0 {
      DigitsValueBound(s[..|s| - 1]);
    }
  }

  lemma {:induction false} ShowNatShort(n: nat, m: nat)
    requires m >= 1 && n < Pow10(m)
    ensures |ShowNat(n)| <= m
    decreases n
  {
    if n >= 10 {
      ShowNatShort(n / 10, m - 1);
    }
  }

  /** The unsigned fixed-point parser is canonical: the only text that reads
      back as n units of 10^-k is `FixedDigits(n, k)`. */
  lemma ParseUnsignedFixedIsFixedDigits(s: string, k: nat, n: nat)
    requires ParseUnsignedFixed(s, k) == Some(n)
    ensures s == FixedDigits(n, k)
  {
    if k == 0 {
      ShowNatOfCanonical(s);
    } else {
      var a, b := s[..|s| - k - 1], s[|s| - k..];
      assert s == a + "." + b;
      PaddedIsIntegerAndFraction(a, b, k);
    }
  }

  /** Padding the rendering of a + b's value to k + 1 digits gives back a + b. */
  lemma PaddedIsIntegerAndFraction(a: string, b: string, k: nat)
    requires k > 0 && CanonicalDigits(a) && AllDigits(b) && |b| == k
    ensures FixedDigits(DigitsValue(a + b), k) == a + "." + b
  {
    var n := DigitsValue(a + b);
    var digits := PadZeros(ShowNat(n), k + 1);
    if a[0] != '0' {
      ShowNatOfCanonical(a + b);
    } else {
      DigitsValueBound(a + b);
      ShowNatShort(n, k + 1);
      DigitsValueInjective(digits, a + b);
    }
    assert digits == a + b;
    assert digits[..|digits| - k] == a && digits[|digits| - k..] == b;
  }

  /** `x.toFixed(k)`: a minus sign for negative x, then the rounded magnitude.
      A negative x that rounds to zero keeps its sign ("-0.00"). */
  function ShowFixed(x: real, k: nat): (s: string)
    ensures ParseFixed(s, k) == Some(if x < 0.0 then 0 - ScaledRound(-x, k) else ScaledRound(x, k) as int)
    ensures |s| >= 1 && ((s[0] == '-') <==> x < 0.0)
  {
    if x < 0.0 then
      var m := FixedDigits(ScaledRound(-x, k), k);
      assert ("-" + m)[1..] == m;
      "-" + m
    else FixedDigits(ScaledRound(x, k), k)
  }

  /** Reads an unsigned fixed-point string as `toFixed(k)` writes one: a
      canonical integer part and, for k > 0, a point and exactly k digits; the
      result counts 10^-k units. */
  function ParseUnsignedFixed(s: string, k: nat): Option<nat> {
    if k == 0 then (if CanonicalDigits(s) then Some(DigitsValue(s)) else None)
    else if |s| >= k + 2 && s[|s| - k - 1] == '.'
            && CanonicalDigits(s[..|s| - k - 1]) && AllDigits(s[|s| - k..]) then
      Some(DigitsValue(s[..|s| - k - 1] + s[|s| - k..]))
    else None
  }

  /** Reads an optionally signed fixed-point string with exactly k decimals. */
  function ParseFixed(s: string, k: nat): Option<int> {
    if |s| >= 1 && s[0] == '-' then
      match ParseUnsignedFixed(s[1..], k)
      case Some(n) => Some(-(n as int))
      case None => None
    else
      match ParseUnsignedFixed(s, k)
      case Some(n) => Some(n)
      case None => None
  }

  /** With the sign fixed, the fixed-point parser is canonical: two texts
      that read back as one value and agree on a leading minus are equal.
      The sign has to be given because `toFixed` writes "-0.00" for a small
      negative number and "0.00" for zero. */
  lemma ParseFixedInjective(s: string, t: string, k: nat)
    requires |s| >= 1 && |t| >= 1 && (s[0] == '-') == (t[0] == '-')
    requires ParseFixed(s, k).Some? && ParseFixed(s, k) == ParseFixed(t, k)
    ensures s == t
  {
    if s[0] == '-' {
      var m := ParseUnsignedFixed(s[1..], k).value;
      ParseUnsignedFixedIsFixedDigits(s[1..], k, m);
      ParseUnsignedFixedIsFixedDigits(t[1..], k, m);
      assert s == [s[0]] + s[1..] && t == [t[0]] + t[1..];
    } else {
      var m := ParseUnsignedFixed(s, k).value;
      ParseUnsignedFixedIsFixedDigits(s, k, m);
      ParseUnsignedFixedIsFixedDigits(t, k, m);
    }
  }
}
