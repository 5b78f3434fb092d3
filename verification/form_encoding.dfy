/** The application/x-www-form-urlencoded serializer of the WHATWG URL
    Standard (section 5.2), which `URLSearchParams` uses for a URL's query:
    each name and value is UTF-8 encoded, bytes outside the unreserved set
    are written `%XX` with upper-case hex, a space becomes `+`, and the pairs
    are joined as `name=value` with `&`. Each encoder is paired with a decoder
    that reads its output back. */
module FormEncoding {
  import opened Common

  newtype byte = x: int | 0 <= x < 256

  // ---------------------------------------------------------------- UTF-8

  /** The UTF-8 encoding of one Unicode scalar value: one to four bytes. */
  function Utf8Char(c: char): (bs: seq<byte>)
    ensures 1 <= |bs| <= 4
    ensures (c as int < 0x80) <==> |bs| == 1
    ensures c as int < 0x80 ==> bs[0] as int == c as int
    ensures c as int >= 0x80 ==> forall i :: 0 <= i < |bs| ==> bs[i] >= 0x80
  {
    var n := c as int;
    if n < 0x80 then [n as byte]
    else if n < 0x800 then [(0xC0 + n / 0x40) as byte, (0x80 + n % 0x40) as byte]
    else if n < 0x10000 then
      [(0xE0 + n / 0x1000) as byte, (0x80 + (n / 0x40) % 0x40) as byte, (0x80 + n % 0x40) as byte]
    else
      [(0xF0 + n / 0x40000) as byte, (0x80 + (n / 0x1000) % 0x40) as byte,
       (0x80 + (n / 0x40) % 0x40) as byte, (0x80 + n % 0x40) as byte]
  }

  function Utf8(s: string): seq<byte> {
    if |s| == 0 then [] else Utf8Char(s[0]) + Utf8(s[1..])
  }

  // ---------------------------------------------------------------- percent-encoding

  /** The bytes written as themselves: ASCII letters, digits, `*`, `-`, `.`, `_`. */
  predicate IsUnreserved(b: byte) {
    (0x30 <= b <= 0x39) || (0x41 <= b <= 0x5A) || (0x61 <= b <= 0x7A)
    || b == 0x2A || b == 0x2D || b == 0x2E || b == 0x5F
  }

  function HexDigit(d: nat): (c: char)
    requires d < 16
  {
    if d < 10 then ('0' as int + d) as char else ('A' as int + d - 10) as char
  }

  function HexValue(c: char): Option<nat> {
    if '0' <= c <= '9' then Some(c as int - '0' as int)
    else if 'A' <= c <= 'F' then Some(c as int - 'A' as int + 10)
    else if 'a' <= c <= 'f' then Some(c as int - 'a' as int + 10)
    else None
  }

  lemma HexDigitValue(d: nat)
    requires d < 16
    ensures HexValue(HexDigit(d)) == Some(d)
  {
  }

  /** One byte of the serializer's output. */
  function EncodeByte(b: byte): (s: string)
    ensures 1 <= |s| <= 3
  {
    if IsUnreserved(b) then [b as int as char]
    else if b == 0x20 then "+"
    else ['%', HexDigit(b as int / 16), HexDigit(b as int % 16)]
  }

  function EncodeBytes(bs: seq<byte>): string {
    if |bs| == 0 then "" else EncodeByte(bs[0]) + EncodeBytes(bs[1..])
  }

  /** The form-urlencoding of one name or value. */
  function EncodeComponent(s: string): string {
    EncodeBytes(Utf8(s))
  }

  /** Characters that can appear in an encoded component. */
  predicate IsEncodedChar(c: char) {
    ('0' <= c <= '9') || ('A' <= c <= 'Z') || ('a' <= c <= 'z')
    || c == '*' || c == '-' || c == '.' || c == '_' || c == '+' || c == '%'
  }

  /** The percent-decoder: `+` is a space, `%XX` a byte, an unreserved
      character itself; None for anything the encoder never writes. */
  function DecodeBytes(s: string): Option<seq<byte>>
    decreases |s|
  {
    if |s| == 0 then Some([])
    else if s[0] == '+' then
      match DecodeBytes(s[1..])
      case Some(rest) => Some([0x20 as byte] + rest)
      case None => None
    else if s[0] == '%' then
      if |s| < 3 || HexValue(s[1]).None? || HexValue(s[2]).None? then None
      else
        match DecodeBytes(s[3..])
        case Some(rest) => Some([(HexValue(s[1]).value * 16 + HexValue(s[2]).value) as byte] + rest)
        case None => None
    else if s[0] as int < 256 && IsUnreserved(s[0] as int as byte) then
      match DecodeBytes(s[1..])
      case Some(rest) => Some([s[0] as int as byte] + rest)
      case None => None
    else None
  }

  lemma DecodeEncodedByte(b: byte, t: string)
    ensures DecodeBytes(EncodeByte(b) + t)
            == (match DecodeBytes(t) case Some(rest) => Some([b] + rest) case None => None)
  {
    var s := EncodeByte(b) + t;
    if IsUnreserved(b) {
      assert s[1..] == t;
    } else if b == 0x20 {
      assert s[1..] == t;
    } else {
      assert s[3..] == t;
      HexDigitValue(b as int / 16);
      HexDigitValue(b as int % 16);
    }
  }

  /** Percent-decoding inverts percent-encoding, for every byte sequence. */
  lemma {:induction false} DecodeEncodeBytes(bs: seq<byte>)
    ensures DecodeBytes(EncodeBytes(bs)) == Some(bs)
  {
    if |bs| > 0 {
      DecodeEncodeBytes(bs[1..]);
      DecodeEncodedByte(bs[0], EncodeBytes(bs[1..]));
      assert [bs[0]] + bs[1..] == bs;
    }
  }

  /** Decoding a component yields exactly the UTF-8 bytes of the original text. */
  lemma DecodeEncodeComponent(s: string)
    ensures DecodeBytes(EncodeComponent(s)) == Some(Utf8(s))
  {
    DecodeEncodeBytes(Utf8(s));
  }

  lemma {:induction false} EncodeBytesChars(bs: seq<byte>)
    ensures forall i :: 0 <= i < |EncodeBytes(bs)| ==> IsEncodedChar(EncodeBytes(bs)[i])
  {
    if |bs| > 0 {
      EncodeBytesChars(bs[1..]);
      var h := EncodeByte(bs[0]);
      var t := EncodeBytes(bs[1..]);
      assert forall i :: 0 <= i < |h| ==> IsEncodedChar(h[i]);
      assert forall i :: 0 <= i < |t| ==> (h + t)[|h| + i] == t[i];
    }
  }

  /** An encoded component never contains the query delimiters `&`, `=`, `#` or a space. */
  lemma EncodedComponentHasNoDelimiters(s: string)
    ensures '&' !in EncodeComponent(s) && '=' !in EncodeComponent(s)
    ensures '#' !in EncodeComponent(s) && ' ' !in EncodeComponent(s)
  {
    EncodeBytesChars(Utf8(s));
  }

  // ---------------------------------------------------------------- joining and splitting

  /** `parts.join([sep])`. */
  function Join(parts: seq<string>, sep: char): string {
    if |parts| == 0 then ""
    else if |parts| == 1 then parts[0]
    else parts[0] + [sep] + Join(parts[1..], sep)
  }

  /** `s.split(sep)`: the maximal separator-free pieces, always at least one. */
  function Split(s: string, sep: char): (r: seq<string>)
    ensures |r| >= 1
  {
    if |s| == 0 then [""]
    else
      var rest := Split(s[1..], sep);
      if s[0] == sep then [""] + rest else [[s[0]] + rest[0]] + rest[1..]
  }

  lemma {:induction false} SplitSeparatorFree(p: string, t: string, sep: char)
    requires sep !in p
    ensures Split(p + t, sep) == [p + Split(t, sep)[0]] + Split(t, sep)[1..]
  {
    if |p| > 0 {
      SplitSeparatorFree(p[1..], t, sep);
      var st := Split(t, sep);
      var rest := Split(p[1..] + t, sep);
      assert (p + t)[1..] == p[1..] + t;
      assert (p + t)[0] == p[0] && p[0] != sep;
      assert rest[0] == p[1..] + st[0] && rest[1..] == st[1..];
      assert Split(p + t, sep) == [[p[0]] + rest[0]] + rest[1..];
      assert [p[0]] + (p[1..] + st[0]) == p + st[0];
    } else {
      assert p + t == t;
      assert p + Split(t, sep)[0] == Split(t, sep)[0];
      assert [Split(t, sep)[0]] + Split(t, sep)[1..] == Split(t, sep);
    }
  }

  /** Splitting undoes joining when no part contains the separator. */
  lemma {:induction false} SplitJoin(parts: seq<string>, sep: char)
    requires |parts| >= 1
    requires forall i :: 0 <= i < |parts| ==> sep !in parts[i]
    ensures Split(Join(parts, sep), sep) == parts
  {
    if |parts| == 1 {
      SplitSeparatorFree(parts[0], "", sep);
      assert parts[0] + "" == parts[0];
    } else {
      var j := Join(parts[1..], sep);
      SplitJoin(parts[1..], sep);
      assert Split([sep] + j, sep) == [""] + Split(j, sep) by {
        assert ([sep] + j)[1..] == j;
      }
      SplitSeparatorFree(parts[0], [sep] + j, sep);
      assert parts[0] + [sep] + j == parts[0] + ([sep] + j);
      assert parts[0] + "" == parts[0];
      assert [parts[0]] + parts[1..] == parts;
    }
  }

  // ---------------------------------------------------------------- query strings

  function EncodePair(p: (string, string)): string {
    EncodeComponent(p.0) + "=" + EncodeComponent(p.1)
  }

  function EncodePairs(params: seq<(string, string)>): (r: seq<string>)
    ensures |r| == |params|
    ensures forall i :: 0 <= i < |params| ==> r[i] == EncodePair(params[i])
  {
    if |params| == 0 then [] else [EncodePair(params[0])] + EncodePairs(params[1..])
  }

  /** `URLSearchParams.toString()` after appending each pair in order. */
  function SerializeQuery(params: seq<(string, string)>): string {
    Join(EncodePairs(params), '&')
  }

  /** Decode one `name=value` piece back to the names' and values' UTF-8 bytes. */
  function DecodePair(piece: string): Option<(seq<byte>, seq<byte>)> {
    var halves := Split(piece, '=');
    if |halves| != 2 then None
    else
      match (DecodeBytes(halves[0]), DecodeBytes(halves[1]))
      case (Some(k), Some(v)) => Some((k, v))
      case _ => None
  }

  function DecodePieces(pieces: seq<string>): Option<seq<(seq<byte>, seq<byte>)>> {
    if |pieces| == 0 then Some([])
    else
      match (DecodePair(pieces[0]), DecodePieces(pieces[1..]))
      case (Some(p), Some(rest)) => Some([p] + rest)
      case _ => None
  }

  /** The query parser for a non-empty serialisation. */
  function ParseQuery(q: string): Option<seq<(seq<byte>, seq<byte>)>> {
    DecodePieces(Split(q, '&'))
  }

  function Utf8Pairs(params: seq<(string, string)>): (r: seq<(seq<byte>, seq<byte>)>)
    ensures |r| == |params|
  {
    if |params| == 0 then [] else [(Utf8(params[0].0), Utf8(params[0].1))] + Utf8Pairs(params[1..])
  }

  lemma DecodeEncodedPair(p: (string, string))
    ensures DecodePair(EncodePair(p)) == Some((Utf8(p.0), Utf8(p.1)))
  {
    var k := EncodeComponent(p.0);
    var v := EncodeComponent(p.1);
    EncodedComponentHasNoDelimiters(p.0);
    EncodedComponentHasNoDelimiters(p.1);
    SplitJoin([k, v], '=');
    assert Join([k, v], '=') == EncodePair(p);
    DecodeEncodeComponent(p.0);
    DecodeEncodeComponent(p.1);
  }

  lemma {:induction false} DecodeEncodedPieces(params: seq<(string, string)>)
    ensures DecodePieces(EncodePairs(params)) == Some(Utf8Pairs(params))
  {
    if |params| > 0 {
      DecodeEncodedPieces(params[1..]);
      DecodeEncodedPair(params[0]);
      assert EncodePairs(params)[1..] == EncodePairs(params[1..]);
    }
  }

  /** Parsing a serialised query gives back every pair, in order, as the
      UTF-8 bytes of its name and value. */
  lemma ParseSerializeQuery(params: seq<(string, string)>)
    requires |params| > 0
    ensures ParseQuery(SerializeQuery(params)) == Some(Utf8Pairs(params))
  {
    var pieces := EncodePairs(params);
    forall i | 0 <= i < |pieces| ensures '&' !in pieces[i] {
      EncodedComponentHasNoDelimiters(params[i].0);
      EncodedComponentHasNoDelimiters(params[i].1);
    }
    SplitJoin(pieces, '&');
    DecodeEncodedPieces(params);
  }
}
