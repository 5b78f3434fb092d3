/** Small shared vocabulary: optional values, JavaScript truthiness of
    optional strings, and the extrema of non-empty sequences of numbers. */
module Common {

  /** `null`/`undefined` versus a present value. */
  datatype Option<+T> = None | Some(value: T)

  /** An optional string is truthy in JavaScript when it is present and non-empty. */
  predicate Truthy(s: Option<string>) {
    s.Some? && s.value != ""
  }

  /** `Math.min(...s)` for a non-empty sequence. */
  function Min(s: seq<real>): (m: real)
    requires |s| > 0
    ensures m in s
    ensures forall i :: 0 <= i < |s| ==> m <= s[i]
  {
    if |s| == 1 then s[0]
    else
      var rest := Min(s[1..]);
      assert s[1..][0] == s[1];
      if s[0] <= rest then s[0] else rest
  }

  /** `Math.max(...s)` for a non-empty sequence. */
  function Max(s: seq<real>): (m: real)
    requires |s| > 0
    ensures m in s
    ensures forall i :: 0 <= i < |s| ==> s[i] <= m
  {
    if |s| == 1 then s[0]
    else
      var rest := Max(s[1..]);
      assert s[1..][0] == s[1];
      if s[0] >= rest then s[0] else rest
  }

  lemma MinLeMax(s: seq<real>)
    requires |s| > 0
    ensures Min(s) <= Max(s)
  {
    assert Min(s) <= s[0] <= Max(s);
  }

  /** `Math.max(lo, Math.min(hi, x))`. */
  function Clamp(lo: real, hi: real, x: real): (r: real)
    requires lo <= hi
    ensures lo <= r <= hi
    ensures lo <= x <= hi ==> r == x
    ensures x < lo ==> r == lo
    ensures x > hi ==> r == hi
  {
    if x > hi then hi else if x < lo then lo else x
  }

  /** `s.findIndex(p)` (and the index behind `s.find(p)`): the first position whose element satisfies p. */
  function FindIndex<T>(s: seq<T>, p: T -> bool): (r: Option<nat>)
    ensures r.Some? ==> r.value < |s| && p(s[r.value])
    ensures r.Some? ==> forall j :: 0 <= j < r.value ==> !p(s[j])
    ensures r.None? ==> forall j :: 0 <= j < |s| ==> !p(s[j])
  {
    if |s| == 0 then None
    else if p(s[0]) then Some(0)
    else
      match FindIndex(s[1..], p)
      case Some(i) => Some(i + 1)
      case None => None
  }

  /** r keeps some of the elements of s, in the order they have in s. */
  predicate IsSubsequence<T(==)>(r: seq<T>, s: seq<T>)
    decreases |s|
  {
    if |r| == 0 then true
    else if |s| == 0 then false
    else (r[0] == s[0] && IsSubsequence(r[1..], s[1..])) || IsSubsequence(r, s[1..])
  }

  /** `s.filter(p)`: exactly the elements satisfying p, in their original
      order; `FilterCounts` adds that each is kept as often as it occurs. */
  function Filter<T(==)>(s: seq<T>, p: T -> bool): (r: seq<T>)
    ensures IsSubsequence(r, s)
    ensures forall i :: 0 <= i < |r| ==> r[i] in s && p(r[i])
    ensures forall i :: 0 <= i < |s| && p(s[i]) ==> s[i] in r
  {
    if |s| == 0 then []
    else
      var rest := Filter(s[1..], p);
      assert forall i :: 1 <= i < |s| ==> s[i] == s[1..][i - 1];
      if p(s[0]) then
        assert ([s[0]] + rest)[1..] == rest;
        [s[0]] + rest
      else rest
  }

  /** Filtering keeps every passing element as often as it occurs in s and
      drops every other: as multisets, the result is s restricted to p. */
  lemma {:induction false} FilterCounts<T(!new)>(s: seq<T>, p: T -> bool)
    ensures forall x :: multiset(Filter(s, p))[x] == if p(x) then multiset(s)[x] else 0
  {
    if |s| > 0 {
      FilterCounts(s[1..], p);
      assert s == [s[0]] + s[1..];
    }
  }

  /** What a `fetch` produced: a rejection (network failure or abort), or a
      response with its `ok` flag and its body when that parses as the expected JSON. */
  datatype Fetched<T> = Rejected | Response(ok: bool, body: Option<T>)
}
