/** `encodeURIComponent` (section 19.2.6.5 of ECMA-262): every character
    outside the unreserved set becomes the `%XX` escapes of its UTF-8 bytes.
    Characters here are Unicode scalar values, so the lone-surrogate error
    case cannot arise. */
module Url {
  import opened Wrappers
  import opened Strings

  /** The characters `encodeURIComponent` leaves alone. */
  predicate Unreserved(c: char) {
    || ('A' <= c <= 'Z') || ('a' <= c <= 'z') || ('0' <= c <= '9')
    || c == '-' || c == '_' || c == '.' || c == '!' || c == '~'
    || c == '*' || c == '\'' || c == '(' || c == ')'
  }

  predicate IsUpperHex(c: char) {
    ('0' <= c <= '9') || ('A' <= c <= 'F')
  }

  /** What an encoded string may contain. */
  predicate EncodedChar(c: char) {
    Unreserved(c) || c == '%'
  }

  const UpperHexDigits := "0123456789ABCDEF"

  /** The UTF-8 bytes of one character. */
  function Utf8(c: char): (b: seq<int>)
    ensures 1 <= |b| <= 4
    ensures forall i :: 0 <= i < |b| ==> 0 <= b[i] < 256
    ensures |b| == 1 <==> c as int < 0x80
    ensures forall i :: 1 <= i < |b| ==> 0x80 <= b[i] < 0xC0
  {
    var n := c as int;
    if n < 0x80 then [n]
    else if n < 0x800 then [0xC0 + n / 64, 0x80 + n % 64]
    else if n < 0x1_0000 then [0xE0 + n / 4096, 0x80 + n / 64 % 64, 0x80 + n % 64]
    else [0xF0 + n / 262144, 0x80 + n / 4096 % 64, 0x80 + n / 64 % 64, 0x80 + n % 64]
  }

  /** The number of bytes of the sequence a lead byte starts. */
  function SequenceLength(lead: int): nat {
    if lead < 0x80 then 1 else if lead < 0xE0 then 2 else if lead < 0xF0 then 3 else 4
  }

  lemma Utf8Length(c: char)
    ensures SequenceLength(Utf8(c)[0]) == |Utf8(c)|
  {
  }

  /** Reads one character back from its UTF-8 bytes. */
  function Utf8Char(b: seq<int>): Option<char> {
    var n :=
      if |b| == 1 then b[0]
      else if |b| == 2 then (b[0] - 0xC0) * 64 + (b[1] - 0x80)
      else if |b| == 3 then ((b[0] - 0xE0) * 64 + (b[1] - 0x80)) * 64 + (b[2] - 0x80)
      else if |b| == 4 then (((b[0] - 0xF0) * 64 + (b[1] - 0x80)) * 64 + (b[2] - 0x80)) * 64 + (b[3] - 0x80)
      else -1;
    if 0 <= n < 0xD800 || 0xE000 <= n < 0x11_0000 then Some(n as char) else None
  }

  lemma Utf8RoundTrip(c: char)
    ensures Utf8Char(Utf8(c)) == Some(c)
  {
    var n := c as int;
    SixBitGroups(n);
    if n >= 0x1_0000 {
      assert ((n / 262144 * 64 + n / 4096 % 64) * 64 + n / 64 % 64) * 64 + n % 64 == n;
    } else if n >= 0x800 {
      assert (n / 4096 * 64 + n / 64 % 64) * 64 + n % 64 == n;
    }
  }

  /** A number split into six-bit groups, most significant first. */
  lemma SixBitGroups(n: int)
    requires n >= 0
    ensures n == n / 64 * 64 + n % 64
    ensures n / 64 == n / 4096 * 64 + n / 64 % 64
    ensures n / 4096 == n / 262144 * 64 + n / 4096 % 64
  {
    var q := n / 64;
    assert q / 64 == n / 4096;
    assert q / 4096 == n / 262144;
  }

  /** `%XY` for one byte, upper-case hex. */
  function PercentByte(b: int): (r: string)
    requires 0 <= b < 256
    ensures |r| == 3 && r[0] == '%' && IsUpperHex(r[1]) && IsUpperHex(r[2])
  {
    ['%', UpperHexDigits[b / 16], UpperHexDigits[b % 16]]
  }

  function HexValue(c: char): (d: int)
    requires IsUpperHex(c)
    ensures 0 <= d < 16
  {
    if c <= '9' then c as int - '0' as int else c as int - 'A' as int + 10
  }

  function PercentBytes(b: seq<int>): (r: string)
    requires forall i :: 0 <= i < |b| ==> 0 <= b[i] < 256
    ensures |r| == 3 * |b|
    ensures forall i :: 0 <= i < |r| ==> EncodedChar(r[i])
  {
    if |b| == 0 then "" else PercentByte(b[0]) + PercentBytes(b[1..])
  }

  /** The escape of one character. */
  function EncodeChar(c: char): (r: string)
    ensures Unreserved(c) ==> r == [c]
    ensures !Unreserved(c) ==> 3 <= |r| <= 12 && r[0] == '%'
    ensures forall i :: 0 <= i < |r| ==> EncodedChar(r[i])
  {
    if Unreserved(c) then [c] else PercentBytes(Utf8(c))
  }

  /** `encodeURIComponent`. */
  function EncodeURIComponent(s: string): (r: string)
    ensures |r| >= |s|
    ensures forall i :: 0 <= i < |r| ==> EncodedChar(r[i])
  {
    if |s| == 0 then "" else EncodeChar(s[0]) + EncodeURIComponent(s[1..])
  }

  /** A string of unreserved characters is its own encoding. */
  lemma {:induction false} EncodeUnreserved(s: string)
    requires forall i :: 0 <= i < |s| ==> Unreserved(s[i])
    ensures EncodeURIComponent(s) == s
  {
    if |s| > 0 {
      EncodeUnreserved(s[1..]);
      assert s == [s[0]] + s[1..];
    }
  }

  /** An encoded value never holds a query-string delimiter. */
  lemma NoDelimiters(s: string)
    ensures var r := EncodeURIComponent(s);
      '&' !in r && '=' !in r && '?' !in r && '#' !in r && '/' !in r && ' ' !in r
  {
    var r := EncodeURIComponent(s);
    forall i | 0 <= i < |r|
      ensures r[i] != '&' && r[i] != '=' && r[i] != '?' && r[i] != '#' && r[i] != '/' && r[i] != ' '
    {
      assert EncodedChar(r[i]);
    }
  }

  lemma {:induction false} EncodeAppend(a: string, b: string)
    ensures EncodeURIComponent(a + b) == EncodeURIComponent(a) + EncodeURIComponent(b)
    decreases |a|
  {
    if |a| > 0 {
      var ab := a + b;
      assert ab[0] == a[0] && ab[1..] == a[1..] + b;
      EncodeAppend(a[1..], b);
      var c := EncodeChar(a[0]);
      assert EncodeURIComponent(ab) == c + EncodeURIComponent(a[1..] + b);
      assert EncodeURIComponent(a) == c + EncodeURIComponent(a[1..]);
      assert c + (EncodeURIComponent(a[1..]) + EncodeURIComponent(b))
          == (c + EncodeURIComponent(a[1..])) + EncodeURIComponent(b);
    } else {
      assert a + b == b;
    }
  }

  // ---------------------------------------------------------------------
  // Decoding, the partner of the encoder
  // ---------------------------------------------------------------------

  /** Reads `k` `%XY` escapes from the front of `s`. */
  function ReadEscapes(s: string, k: nat): Option<seq<int>>
    decreases k
  {
    if k == 0 then Some([])
    else if |s| >= 3 && s[0] == '%' && IsUpperHex(s[1]) && IsUpperHex(s[2]) then
      var rest := ReadEscapes(s[3..], k - 1);
      if rest.Some? then Some([HexValue(s[1]) * 16 + HexValue(s[2])] + rest.value) else None
    else None
  }

  /** `decodeURIComponent`, for upper-case escapes. */
  function DecodeURIComponent(s: string): Option<string>
    decreases |s|
  {
    if |s| == 0 then Some("")
    else if s[0] != '%' then
      var rest := DecodeURIComponent(s[1..]);
      if rest.Some? then Some([s[0]] + rest.value) else None
    else if |s| >= 3 && IsUpperHex(s[1]) && IsUpperHex(s[2]) then
      var k := SequenceLength(HexValue(s[1]) * 16 + HexValue(s[2]));
      var bytes := ReadEscapes(s, k);
      if bytes.Some? && 3 * k <= |s| then
        var c := Utf8Char(bytes.value);
        var rest := DecodeURIComponent(s[3 * k..]);
        if c.Some? && rest.Some? then Some([c.value] + rest.value) else None
      else None
    else None
  }

  /** One escape at the front is read as its byte. */
  lemma ReadOne(b: int, rest: string)
    requires 0 <= b < 256
    ensures var s := PercentByte(b) + rest;
      |s| >= 3 && s[0] == '%' && IsUpperHex(s[1]) && IsUpperHex(s[2])
      && HexValue(s[1]) * 16 + HexValue(s[2]) == b && s[3..] == rest
  {
    var p := PercentByte(b);
    HexDigitValue(b / 16);
    HexDigitValue(b % 16);
    assert (p + rest)[3..] == rest;
  }

  lemma {:induction false} ReadPercentBytes(b: seq<int>, tail: string)
    requires forall i :: 0 <= i < |b| ==> 0 <= b[i] < 256
    ensures ReadEscapes(PercentBytes(b) + tail, |b|) == Some(b)
    decreases |b|
  {
    if |b| > 0 {
      var rest := PercentBytes(b[1..]) + tail;
      var s := PercentBytes(b) + tail;
      assert s == PercentByte(b[0]) + rest;
      ReadOne(b[0], rest);
      ReadPercentBytes(b[1..], tail);
      ReadEscapesStep(s, |b|, rest, b[0], b[1..]);
      assert [b[0]] + b[1..] == b;
    }
  }

  /** Reading `k` escapes is reading the first, then `k - 1` more. */
  lemma ReadEscapesStep(s: string, k: nat, rest: string, first: int, more: seq<int>)
    requires k > 0 && |s| >= 3 && s[0] == '%' && IsUpperHex(s[1]) && IsUpperHex(s[2]) && s[3..] == rest
    requires first == HexValue(s[1]) * 16 + HexValue(s[2])
    requires ReadEscapes(rest, k - 1) == Some(more)
    ensures ReadEscapes(s, k) == Some([first] + more)
  {
  }

  lemma HexDigitValue(d: int)
    requires 0 <= d < 16
    ensures IsUpperHex(UpperHexDigits[d]) && HexValue(UpperHexDigits[d]) == d
  {
  }

  /** Decoding one escaped character followed by anything. */
  lemma DecodeChar(c: char, tail: string)
    requires DecodeURIComponent(tail).Some?
    ensures DecodeURIComponent(EncodeChar(c) + tail) == Some([c] + DecodeURIComponent(tail).value)
  {
    var s := EncodeChar(c) + tail;
    if Unreserved(c) {
      assert s[0] == c && s[1..] == tail;
    } else {
      var b := Utf8(c);
      Utf8Length(c);
      Utf8RoundTrip(c);
      ReadPercentBytes(b, tail);
      var p := PercentByte(b[0]);
      assert s[..3] == p;
      HexDigitValue(b[0] / 16);
      HexDigitValue(b[0] % 16);
      assert HexValue(s[1]) * 16 + HexValue(s[2]) == b[0];
      assert s[3 * |b|..] == tail;
    }
  }

  /** Decoding an encoding gives back the original string. */
  lemma {:induction false} DecodeEncode(s: string)
    ensures DecodeURIComponent(EncodeURIComponent(s)) == Some(s)
    decreases |s|
  {
    if |s| > 0 {
      DecodeEncode(s[1..]);
      DecodeChar(s[0], EncodeURIComponent(s[1..]));
      assert s == [s[0]] + s[1..];
    }
  }

  // ---------------------------------------------------------------------
  // Reading a query parameter back
  // ---------------------------------------------------------------------

  /** The query of a URL: after the first `?`, up to the first `#`. */
  function QueryOf(url: string): (q: Option<string>)
    ensures q.None? <==> '?' !in url
  {
    var path := BeforeFirst(url, '?');
    if |path| == |url| then None else Some(BeforeFirst(url[|path| + 1..], '#'))
  }

  /** The raw value of the first `name=` pair. */
  function FirstValue(pairs: seq<string>, name: string): Option<string> {
    if |pairs| == 0 then None
    else if name + "=" <= pairs[0] then Some(pairs[0][|name| + 1..])
    else FirstValue(pairs[1..], name)
  }

  /** The raw (still encoded) value `searchParams.get(name)` starts from. */
  function QueryParam(url: string, name: string): Option<string> {
    match QueryOf(url)
    case None => None
    case Some(q) => FirstValue(Split(q, '&'), name)
  }

  /** A URL whose query starts with `name=` followed by `rest`. */
  lemma QueryStart(head: string, name: string, rest: string)
    requires '?' !in head && '#' !in name && '#' !in rest
    ensures QueryOf(head + "?" + name + "=" + rest) == Some(name + "=" + rest)
  {
    var tail := name + "=" + rest;
    var url := head + "?" + name + "=" + rest;
    assert url == head + ['?'] + tail;
    BeforeFirstField(head, '?', tail);
    assert url[|head| + 1..] == tail;
    BeforeFirstNone(tail, '#');
  }

  /** A value without `&` or `#` reads back whole. */
  lemma ParamReadsBack(head: string, name: string, v: string)
    requires '?' !in head && '#' !in name && '&' !in name && '#' !in v && '&' !in v
    ensures QueryParam(head + "?" + name + "=" + v, name) == Some(v)
  {
    var tail := name + "=" + v;
    QueryStart(head, name, v);
    SplitNoSep(tail, '&');
    assert name + "=" <= tail;
    assert tail[|name| + 1..] == v;
  }

  /** A value holding `&` is cut there: only the text before it reads back. */
  lemma ParamCutAtAmpersand(head: string, name: string, a: string, b: string)
    requires '?' !in head && '#' !in name && '&' !in name && '#' !in a && '&' !in a && '#' !in b
    ensures QueryParam(head + "?" + name + "=" + a + "&" + b, name) == Some(a)
  {
    var rest := a + "&" + b;
    assert head + "?" + name + "=" + a + "&" + b == head + "?" + name + "=" + rest;
    QueryStart(head, name, rest);
    var first := name + "=" + a;
    assert name + "=" + rest == first + ['&'] + b;
    SplitAppend(first, '&', b);
    assert name + "=" <= first;
    assert first[|name| + 1..] == a;
  }

  /** An encoded value reads back whole and decodes to the original. */
  lemma EncodedParamReadsBack(head: string, name: string, v: string)
    requires '?' !in head && '#' !in name && '&' !in name
    ensures var raw := QueryParam(head + "?" + name + "=" + EncodeURIComponent(v), name);
      raw == Some(EncodeURIComponent(v)) && DecodeURIComponent(raw.value) == Some(v)
  {
    NoDelimiters(v);
    ParamReadsBack(head, name, EncodeURIComponent(v));
    DecodeEncode(v);
  }

  /** The first of two encoded parameters reads back intact, whatever the
      second one holds. */
  lemma FirstOfTwoParams(head: string, n1: string, v1: string, n2: string, v2: string)
    requires '?' !in head && '#' !in n1 && '&' !in n1 && '#' !in n2
    ensures var raw := QueryParam(head + "?" + n1 + "=" + EncodeURIComponent(v1) + "&" + n2 + "=" + EncodeURIComponent(v2), n1);
      raw.Some? && DecodeURIComponent(raw.value) == Some(v1)
  {
    var e := EncodeURIComponent(v1);
    var b := n2 + "=" + EncodeURIComponent(v2);
    NoDelimiters(v1);
    NoDelimiters(v2);
    assert '#' !in b;
    assert head + "?" + n1 + "=" + e + "&" + n2 + "=" + EncodeURIComponent(v2) == head + "?" + n1 + "=" + e + "&" + b;
    ParamCutAtAmpersand(head, n1, e, b);
    DecodeEncode(v1);
  }

  /** An encoded first parameter reads back intact before a second one
      left unencoded, short of a `#` in it. */
  lemma FirstBeforeRawParam(head: string, n1: string, v1: string, n2: string, raw2: string)
    requires '?' !in head && '#' !in n1 && '&' !in n1 && '#' !in n2 && '#' !in raw2
    ensures var raw := QueryParam(head + "?" + n1 + "=" + EncodeURIComponent(v1) + "&" + n2 + "=" + raw2, n1);
      raw.Some? && DecodeURIComponent(raw.value) == Some(v1)
  {
    var e := EncodeURIComponent(v1);
    var b := n2 + "=" + raw2;
    NoDelimiters(v1);
    assert '#' !in b;
    assert head + "?" + n1 + "=" + e + "&" + n2 + "=" + raw2 == head + "?" + n1 + "=" + e + "&" + b;
    ParamCutAtAmpersand(head, n1, e, b);
    DecodeEncode(v1);
  }
}
