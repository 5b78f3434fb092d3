/** String helpers standing in for the JavaScript built-ins the core uses:
    `toLowerCase` (ASCII letters), `includes` and `trim`. */
module Text {

  predicate IsUpperAscii(c: char) {
    'A' <= c <= 'Z'
  }

  /** ASCII lower-casing of one character; every other character is kept. */
  function LowerChar(c: char): (d: char)
    ensures !IsUpperAscii(d)
    ensures !IsUpperAscii(c) ==> d == c
    ensures IsUpperAscii(c) ==> 'a' <= d <= 'z' && d as int - c as int == 32
  {
    if IsUpperAscii(c) then (c as int + 32) as char else c
  }

  /** `s.toLowerCase()` restricted to ASCII letters. */
  function ToLower(s: string): (r: string)
    ensures |r| == |s|
    ensures forall i :: 0 <= i < |s| ==> r[i] == LowerChar(s[i])
  {
    seq(|s|, i requires 0 <= i < |s| => LowerChar(s[i]))
  }

  lemma ToLowerIdempotent(s: string)
    ensures ToLower(ToLower(s)) == ToLower(s)
  {
  }

  /** `hay.startsWith(needle)`. */
  predicate StartsWith(hay: string, needle: string) {
    |needle| <= |hay| && hay[..|needle|] == needle
  }

  /** `hay.includes(needle)`, scanning left to right. */
  predicate Contains(hay: string, needle: string)
    decreases |hay|
  {
    StartsWith(hay, needle) || (|hay| > 0 && Contains(hay[1..], needle))
  }

  /** `needle` occurs in `hay` starting at offset `i`. */
  predicate OccursAt(hay: string, needle: string, i: int) {
    0 <= i <= |hay| - |needle| && hay[i..i + |needle|] == needle
  }

  /** The scan above finds the needle exactly when it occurs at some offset. */
  lemma {:induction false} ContainsIff(hay: string, needle: string)
    ensures Contains(hay, needle) <==> exists i :: OccursAt(hay, needle, i)
    decreases |hay|
  {
    if StartsWith(hay, needle) {
      assert OccursAt(hay, needle, 0);
    } else if |hay| > 0 {
      ContainsIff(hay[1..], needle);
      if Contains(hay[1..], needle) {
        var i :| OccursAt(hay[1..], needle, i);
        assert hay[i + 1..i + 1 + |needle|] == hay[1..][i..i + |needle|];
        assert OccursAt(hay, needle, i + 1);
      }
      if exists i :: OccursAt(hay, needle, i) {
        var i :| OccursAt(hay, needle, i);
        assert i != 0;
        assert hay[1..][i - 1..i - 1 + |needle|] == hay[i..i + |needle|];
        assert OccursAt(hay[1..], needle, i - 1);
      }
    } else {
      assert forall i :: !OccursAt(hay, needle, i);
    }
  }

  /** A non-empty needle can only be found where its first character occurs. */
  lemma {:induction false} ContainsHasFirstChar(hay: string, needle: string)
    requires |needle| > 0 && Contains(hay, needle)
    ensures needle[0] in hay
    decreases |hay|
  {
    if StartsWith(hay, needle) {
      assert hay[0] == needle[0];
    } else {
      ContainsHasFirstChar(hay[1..], needle);
      assert hay == [hay[0]] + hay[1..];
    }
  }

  /** The characters `String.prototype.trim` removes: the ECMAScript
      WhiteSpace and LineTerminator code points. */
  predicate IsJsSpace(c: char) {
    c == '\t' || c == '\n' || c == '\U{000B}' || c == '\U{000C}' || c == '\r' || c == ' '
    || c == '\U{00A0}' || c == '\U{1680}' || ('\U{2000}' <= c <= '\U{200A}')
    || c == '\U{2028}' || c == '\U{2029}' || c == '\U{202F}' || c == '\U{205F}'
    || c == '\U{3000}' || c == '\U{FEFF}'
  }

  predicate AllSpace(s: string) {
    forall i :: 0 <= i < |s| ==> IsJsSpace(s[i])
  }

  /** Number of leading space characters. */
  function LeadingSpace(s: string): (n: nat)
    ensures n <= |s|
    ensures AllSpace(s[..n])
    ensures n < |s| ==> !IsJsSpace(s[n])
  {
    if |s| == 0 || !IsJsSpace(s[0]) then 0
    else
      var k := LeadingSpace(s[1..]);
      assert forall i :: 1 <= i < 1 + k ==> s[i] == s[1..][..k][i - 1];
      1 + k
  }

  /** Number of trailing space characters. */
  function TrailingSpace(s: string): (n: nat)
    ensures n <= |s|
    ensures AllSpace(s[|s| - n..])
    ensures n < |s| ==> !IsJsSpace(s[|s| - n - 1])
  {
    if |s| == 0 || !IsJsSpace(s[|s| - 1]) then 0
    else
      var p := s[..|s| - 1];
      var k := TrailingSpace(p);
      assert forall i :: |s| - 1 - k <= i < |s| - 1 ==> s[i] == p[|p| - k..][i - (|s| - 1 - k)];
      1 + k
  }

  /** `s` is `r` with only space characters added on either side. */
  ghost predicate SpacePadded(s: string, r: string) {
    exists lo :: 0 <= lo && lo + |r| <= |s| && s[lo..lo + |r|] == r
                 && AllSpace(s[..lo]) && AllSpace(s[lo + |r|..])
  }

  /** `s.trim()`. */
  function Trim(s: string): (r: string)
    ensures SpacePadded(s, r)
    ensures |r| > 0 ==> !IsJsSpace(r[0]) && !IsJsSpace(r[|r| - 1])
    ensures |r| == 0 <==> AllSpace(s)
  {
    var lo := LeadingSpace(s);
    var rest := s[lo..];
    var t := TrailingSpace(rest);
    var r := rest[..|rest| - t];
    TrimPadded(s, rest, r, lo, t);
    TrimEnds(s, rest, r, lo, t);
    r
  }

  /** The slice Trim returns has non-space ends, and is empty only for an all-space input. */
  lemma TrimEnds(s: string, rest: string, r: string, lo: nat, t: nat)
    requires lo == LeadingSpace(s) && rest == s[lo..]
    requires t == TrailingSpace(rest) && r == rest[..|rest| - t]
    ensures |r| > 0 ==> !IsJsSpace(r[0]) && !IsJsSpace(r[|r| - 1])
    ensures |r| == 0 <==> AllSpace(s)
  {
    if |r| > 0 {
      assert r[0] == s[lo];
      assert r[|r| - 1] == rest[|rest| - t - 1];
      assert !IsJsSpace(s[lo]);
    } else {
      assert rest[|rest| - t..] == rest;
      assert s == s[..lo] + rest;
      AllSpaceConcat(s[..lo], rest);
    }
  }

  lemma TrimPadded(s: string, rest: string, r: string, lo: nat, t: nat)
    requires lo <= |s| && rest == s[lo..] && t <= |rest| && r == rest[..|rest| - t]
    requires AllSpace(s[..lo]) && AllSpace(rest[|rest| - t..])
    ensures SpacePadded(s, r)
  {
    assert s[lo..lo + |r|] == r;
    assert s[lo + |r|..] == rest[|rest| - t..];
  }

  lemma AllSpaceConcat(a: string, b: string)
    requires AllSpace(a) && AllSpace(b)
    ensures AllSpace(a + b)
  {
    assert forall i :: 0 <= i < |a + b| ==> (a + b)[i] == if i < |a| then a[i] else b[i - |a|];
  }
}
