/**
 `encodeURIComponent` as ECMAScript defines it: characters outside the
 unreserved set are written as the percent-escaped bytes of their UTF-8
 encoding, with upper-case hex digits. `decodeURIComponent` is its inverse.
 The OAuth callback uses the encoder to put the signed token into the
 redirect URL's query string. A Dafny `char` is a Unicode scalar value, so
 a lone surrogate, on which ECMAScript's encoder throws a URIError, cannot
 be given to this model.
 */
module Uri {
  import opened Js

  /** The characters `encodeURIComponent` leaves as they are. */
  predicate IsUnreserved(c: char) {
    || ('A' <= c <= 'Z') || ('a' <= c <= 'z') || ('0' <= c <= '9')
    || c == '-' || c == '_' || c == '.' || c == '!' || c == '~' || c == '*' || c == '\'' || c == '(' || c == ')'
  }

  const HexDigits := "0123456789ABCDEF"

  predicate IsHexDigit(c: char) {
    ('0' <= c <= '9') || ('A' <= c <= 'F')
  }

  function HexDigit(d: nat): (c: char)
    requires d < 16
    ensures IsHexDigit(c)
  {
    HexDigits[d]
  }

  /** The value of a hex digit of either case. */
  function HexValue(c: char): (r: Option<nat>)
    ensures r.Some? ==> r.value < 16
  {
    if '0' <= c <= '9' then Some(c as int - '0' as int)
    else if 'A' <= c <= 'F' then Some(c as int - 'A' as int + 10)
    else if 'a' <= c <= 'f' then Some(c as int - 'a' as int + 10)
    else None
  }

  lemma HexValueOfDigit(d: nat)
    requires d < 16
    ensures HexValue(HexDigit(d)) == Some(d)
  {
  }

  // ---------------------------------------------------------------------
  // UTF-8
  // ---------------------------------------------------------------------

  predicate IsScalar(n: int) {
    (0 <= n < 0xD800) || (0xE000 <= n < 0x11_0000)
  }

  /** The UTF-8 encoding of one code point: one to four bytes. */
  function Utf8(c: char): (bs: seq<nat>)
    ensures 1 <= |bs| <= 4
    ensures forall i :: 0 <= i < |bs| ==> bs[i] < 256
    ensures IsUnreserved(c) ==> bs == [c as int]
  {
    var n := c as int;
    if n < 0x80 then [n]
    else if n < 0x800 then [0xC0 + n / 64, 0x80 + n % 64]
    else if n < 0x1_0000 then [0xE0 + n / 4096, 0x80 + (n / 64) % 64, 0x80 + n % 64]
    else [0xF0 + n / 262144, 0x80 + (n / 4096) % 64, 0x80 + (n / 64) % 64, 0x80 + n % 64]
  }

  /** The number of bytes a lead byte announces, or 0 for a byte that cannot lead. */
  function SequenceLength(lead: nat): (n: nat)
    ensures n <= 4
  {
    if lead < 0x80 then 1
    else if 0xC0 <= lead < 0xE0 then 2
    else if 0xE0 <= lead < 0xF0 then 3
    else if 0xF0 <= lead < 0xF8 then 4
    else 0
  }

  /** The code point the payload bits of a byte sequence spell. */
  function CodePoint(bs: seq<nat>): int
    requires 1 <= |bs| <= 4
  {
    var b := seq(|bs|, i requires 0 <= i < |bs| => bs[i] as int);
    if |b| == 1 then b[0]
    else if |b| == 2 then (b[0] - 0xC0) * 64 + (b[1] - 0x80)
    else if |b| == 3 then (b[0] - 0xE0) * 4096 + (b[1] - 0x80) * 64 + (b[2] - 0x80)
    else (b[0] - 0xF0) * 262144 + (b[1] - 0x80) * 4096 + (b[2] - 0x80) * 64 + (b[3] - 0x80)
  }

  /**
   Decoding a byte sequence: accepted only when it is the shortest UTF-8
   encoding of a scalar value, which rejects overlong forms, surrogates,
   values beyond U+10FFFF and bad continuation bytes.
   */
  function DecodeUtf8(bs: seq<nat>): (r: Option<char>)
    requires 1 <= |bs| <= 4
    ensures r.Some? ==> Utf8(r.value) == bs
  {
    var n := CodePoint(bs);
    if IsScalar(n) && Utf8(n as char) == bs then Some(n as char) else None
  }

  lemma Split64(n: nat)
    ensures n == (n / 64) * 64 + n % 64
    ensures n / 4096 == (n / 64) / 64
    ensures n / 262144 == (n / 4096) / 64
  {
  }

  /** Decoding the UTF-8 bytes of a character gives the character back. */
  lemma DecodeUtf8OfEncoding(c: char)
    ensures DecodeUtf8(Utf8(c)) == Some(c)
  {
    var n := c as int;
    Split64(n);
    Split64(n / 64);
    Split64(n / 4096);
    assert CodePoint(Utf8(c)) == n;
  }

  // ---------------------------------------------------------------------
  // Percent encoding
  // ---------------------------------------------------------------------

  /** "%XY" for one byte. */
  function Escape(b: nat): (r: string)
    requires b < 256
    ensures |r| == 3 && r[0] == '%'
  {
    ['%', HexDigit(b / 16), HexDigit(b % 16)]
  }

  function EscapeAll(bs: seq<nat>): (r: string)
    requires forall i :: 0 <= i < |bs| ==> bs[i] < 256
    ensures |r| == 3 * |bs|
    ensures forall i :: 0 <= i < |bs| ==> r[3 * i..3 * i + 3] == Escape(bs[i])
    decreases |bs|
  {
    if |bs| == 0 then ""
    else
      var rest := EscapeAll(bs[1..]);
      var r := Escape(bs[0]) + rest;
      assert forall i :: 1 <= i < |bs| ==> r[3 * i..3 * i + 3] == rest[3 * (i - 1)..3 * (i - 1) + 3];
      r
  }

  /** Only '%' and upper-case hex digits appear in an escaped byte sequence. */
  lemma EscapeAllAlphabet(bs: seq<nat>)
    requires forall i :: 0 <= i < |bs| ==> bs[i] < 256
    ensures forall c :: c in EscapeAll(bs) ==> c == '%' || IsHexDigit(c)
  {
    var r := EscapeAll(bs);
    forall j | 0 <= j < |r| ensures r[j] == '%' || IsHexDigit(r[j]) {
      var i := j / 3;
      assert r[3 * i..3 * i + 3] == Escape(bs[i]);
      assert r[j] == Escape(bs[i])[j - 3 * i];
    }
  }

  function EncodeChar(c: char): (r: string)
    ensures 1 <= |r|
    ensures IsUnreserved(c) ==> r == [c]
    ensures !IsUnreserved(c) ==> r[0] == '%'
    ensures forall x :: x in r ==> IsUnreserved(x) || x == '%'
  {
    if IsUnreserved(c) then [c]
    else
      EscapeAllAlphabet(Utf8(c));
      EscapeAll(Utf8(c))
  }

  /** `encodeURIComponent(s)`. */
  function EncodeURIComponent(s: string): (r: string)
    ensures |r| >= |s|
    ensures forall x :: x in r ==> IsUnreserved(x) || x == '%'
    ensures (forall i :: 0 <= i < |s| ==> IsUnreserved(s[i])) ==> r == s
    decreases |s|
  {
    if |s| == 0 then ""
    else
      assert s == [s[0]] + s[1..];
      EncodeChar(s[0]) + EncodeURIComponent(s[1..])
  }

  /** The encoded form never holds a query-string delimiter. */
  lemma EncodedHasNoDelimiters(s: string)
    ensures var r := EncodeURIComponent(s);
      '&' !in r && '=' !in r && '#' !in r && '?' !in r && '+' !in r && ' ' !in r
  {
    var r := EncodeURIComponent(s);
    assert !IsUnreserved('&') && !IsUnreserved('=') && !IsUnreserved('#');
    assert !IsUnreserved('?') && !IsUnreserved('+') && !IsUnreserved(' ');
  }

  // ---------------------------------------------------------------------
  // Percent decoding
  // ---------------------------------------------------------------------

  /** The byte a "%XY" escape at the front of `s` stands for. */
  function ReadByte(s: string): (r: Option<nat>)
    ensures r.Some? ==> |s| >= 3 && r.value < 256
  {
    if |s| >= 3 && s[0] == '%' && HexValue(s[1]).Some? && HexValue(s[2]).Some? then
      Some(16 * HexValue(s[1]).value + HexValue(s[2]).value)
    else None
  }

  /** `n` consecutive escapes at the front of `s`. */
  function ReadBytes(s: string, n: nat): (r: Option<seq<nat>>)
    ensures r.Some? ==> |r.value| == n && |s| >= 3 * n
    decreases n
  {
    if n == 0 then Some([])
    else match ReadByte(s)
      case None => None
      case Some(b) =>
        match ReadBytes(s[3..], n - 1)
        case None => None
        case Some(bs) => Some([b] + bs)
  }

  /** The character an escape group at the front of `s` encodes, and the group's length. */
  function DecodeEscapedChar(s: string): (r: Option<(char, nat)>)
    ensures r.Some? ==> 3 <= r.value.1 <= |s|
  {
    match ReadByte(s)
    case None => None
    case Some(lead) =>
      var n := SequenceLength(lead);
      if n == 0 then None
      else match ReadBytes(s, n)
        case None => None
        case Some(bs) =>
          match DecodeUtf8(bs)
          case None => None
          case Some(c) => Some((c, 3 * n))
  }

  /** `decodeURIComponent(s)`, None where it throws a URIError. */
  function DecodeURIComponent(s: string): (r: Option<string>)
    decreases |s|
  {
    if |s| == 0 then Some("")
    else if s[0] != '%' then
      match DecodeURIComponent(s[1..])
      case None => None
      case Some(rest) => Some([s[0]] + rest)
    else
      match DecodeEscapedChar(s)
      case None => None
      case Some((c, k)) =>
        match DecodeURIComponent(s[k..])
        case None => None
        case Some(rest) => Some([c] + rest)
  }

  lemma ReadEscape(b: nat, t: string)
    requires b < 256
    ensures ReadByte(Escape(b) + t) == Some(b)
  {
    HexValueOfDigit(b / 16);
    HexValueOfDigit(b % 16);
  }

  lemma {:induction false} ReadEscapes(bs: seq<nat>, t: string)
    requires forall i :: 0 <= i < |bs| ==> bs[i] < 256
    ensures ReadBytes(EscapeAll(bs) + t, |bs|) == Some(bs)
    decreases |bs|
  {
    if |bs| > 0 {
      var s := EscapeAll(bs) + t;
      assert EscapeAll(bs) == Escape(bs[0]) + EscapeAll(bs[1..]);
      assert s == Escape(bs[0]) + (EscapeAll(bs[1..]) + t);
      ReadEscape(bs[0], EscapeAll(bs[1..]) + t);
      assert s[3..] == EscapeAll(bs[1..]) + t;
      ReadEscapes(bs[1..], t);
      assert [bs[0]] + bs[1..] == bs;
    }
  }

  /** The escapes of a byte sequence read back as the sequence, the first one as its lead byte. */
  lemma EscapesReadBack(bs: seq<nat>, t: string)
    requires 1 <= |bs| && forall i :: 0 <= i < |bs| ==> bs[i] < 256
    ensures ReadByte(EscapeAll(bs) + t) == Some(bs[0])
    ensures ReadBytes(EscapeAll(bs) + t, |bs|) == Some(bs)
  {
    ReadEscapes(bs, t);
    ReadEscape(bs[0], EscapeAll(bs[1..]) + t);
    assert EscapeAll(bs) + t == Escape(bs[0]) + (EscapeAll(bs[1..]) + t);
  }

  /** The lead byte of a character's encoding announces the encoding's length. */
  lemma LeadAnnouncesLength(c: char)
    ensures SequenceLength(Utf8(c)[0]) == |Utf8(c)|
  {
  }

  /** The decoding step, given the bytes the escapes at the front of `s` spell. */
  lemma DecodeEscapedFrom(s: string, bs: seq<nat>, c: char)
    requires 1 <= |bs| <= 4
    requires ReadByte(s) == Some(bs[0]) && SequenceLength(bs[0]) == |bs|
    requires ReadBytes(s, |bs|) == Some(bs) && DecodeUtf8(bs) == Some(c)
    ensures DecodeEscapedChar(s) == Some((c, 3 * |bs|))
  {
  }

  /** An escaped character at the front is decoded, and the group's length is skipped. */
  lemma DecodeEscapedOfEncoding(c: char, t: string)
    requires !IsUnreserved(c)
    ensures DecodeEscapedChar(EncodeChar(c) + t) == Some((c, |EncodeChar(c)|))
  {
    var bs := Utf8(c);
    var e := EscapeAll(bs) + t;
    assert EncodeChar(c) + t == e;
    EscapesReadBack(bs, t);
    LeadAnnouncesLength(c);
    DecodeUtf8OfEncoding(c);
    DecodeEscapedFrom(e, bs, c);
  }

  /** Decoding a string that starts with an encoded character. */
  lemma DecodeAfterEncodedChar(c: char, t: string)
    ensures DecodeURIComponent(EncodeChar(c) + t) == if DecodeURIComponent(t).Some? then Some([c] + DecodeURIComponent(t).value) else None
  {
    var e := EncodeChar(c) + t;
    if IsUnreserved(c) {
      assert e[0] == c && e[1..] == t;
    } else {
      DecodeEscapedOfEncoding(c, t);
      assert e[|EncodeChar(c)|..] == t;
    }
  }

  /** Decoding undoes encoding, for every string. */
  lemma {:induction false} DecodeEncode(s: string)
    ensures DecodeURIComponent(EncodeURIComponent(s)) == Some(s)
    decreases |s|
  {
    if |s| > 0 {
      DecodeEncode(s[1..]);
      DecodeAfterEncodedChar(s[0], EncodeURIComponent(s[1..]));
      assert [s[0]] + s[1..] == s;
    }
  }
}
