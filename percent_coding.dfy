/**
 * `urllib.parse.unquote_plus`, which recovers the destination hidden in a
 * double-tracked link: `+` stands for a space (the
 * application/x-www-form-urlencoded rule of the WHATWG URL standard) and
 * `%XX` for the character with hexadecimal code XX (section 2.1 of RFC 3986).
 * `QuotePlus` is the encoder the newsletter platform applies to the
 * destination; the round-trip lemma ties the two together.
 */
module PercentCoding {
  import opened Ascii

  /** `s.replace('+', ' ')`. */
  function PlusToSpace(s: string): (r: string)
    ensures |r| == |s|
    ensures forall i :: 0 <= i < |s| ==> r[i] == (if s[i] == '+' then ' ' else s[i])
  {
    if s == [] then [] else [if s[0] == '+' then ' ' else s[0]] + PlusToSpace(s[1..])
  }

  lemma PlusToSpaceAppend(a: string, b: string)
    ensures PlusToSpace(a + b) == PlusToSpace(a) + PlusToSpace(b)
  {
    var l, r := PlusToSpace(a + b), PlusToSpace(a) + PlusToSpace(b);
    assert forall i :: 0 <= i < |l| ==> l[i] == r[i];
  }

  /** A `%` followed by two hexadecimal digits starts `s`. */
  predicate EscapeAt(s: string) {
    |s| >= 3 && s[0] == '%' && IsHexDigit(s[1]) && IsHexDigit(s[2])
  }

  /**
   * `unquote`: every `%XX` escape becomes the character whose code is XX; a
   * `%` not followed by two hexadecimal digits is kept as it is, and scanning
   * resumes right after it.
   */
  function PercentDecode(s: string): (r: string)
    ensures |r| <= |s|
    ensures '%' !in s ==> r == s
  {
    if s == [] then []
    else if EscapeAt(s) then [(16 * HexValue(s[1]) + HexValue(s[2])) as char] + PercentDecode(s[3..])
    else [s[0]] + PercentDecode(s[1..])
  }

  /** `unquote_plus`: spaces for `+` first, then percent-decoding. */
  function UnquotePlus(s: string): string {
    PercentDecode(PlusToSpace(s))
  }

  /** The characters `quote_plus` never escapes. */
  predicate AlwaysSafe(c: char) {
    IsAlnum(c) || c == '_' || c == '.' || c == '-' || c == '~'
  }

  predicate IsAsciiText(s: string) {
    forall i :: 0 <= i < |s| ==> s[i] as int < 128
  }

  /** What `quote_plus` writes for one ASCII character. */
  function EncodeChar(c: char): (r: string)
    requires c as int < 128
    ensures forall i :: 0 <= i < |r| ==> AlwaysSafe(r[i]) || r[i] == '+' || r[i] == '%'
  {
    if c == ' ' then "+"
    else if AlwaysSafe(c) then [c]
    else ['%', HexDigit(c as int / 16), HexDigit(c as int % 16)]
  }

  /** `quote_plus` on ASCII text. */
  function QuotePlus(s: string): (r: string)
    requires IsAsciiText(s)
    ensures |r| >= |s|
    ensures forall i :: 0 <= i < |r| ==> AlwaysSafe(r[i]) || r[i] == '+' || r[i] == '%'
  {
    if s == [] then [] else EncodeChar(s[0]) + QuotePlus(s[1..])
  }

  lemma DecodeEncodedChar(c: char, rest: string)
    requires c as int < 128
    ensures PercentDecode(PlusToSpace(EncodeChar(c)) + rest) == [c] + PercentDecode(rest)
  {
    var e := EncodeChar(c);
    if c != ' ' && !AlwaysSafe(c) {
      var p := PlusToSpace(e) + rest;
      assert p[..3] == e;
      assert EscapeAt(p) && p[3..] == rest;
    } else {
      var p := PlusToSpace(e) + rest;
      assert p[0] != '%' && p[1..] == rest;
    }
  }

  /** Decoding undoes the platform's encoding: `unquote_plus(quote_plus(s)) == s`. */
  lemma {:induction false} UnquoteQuoteRoundTrip(s: string)
    requires IsAsciiText(s)
    ensures UnquotePlus(QuotePlus(s)) == s
  {
    if s != [] {
      var rest := QuotePlus(s[1..]);
      PlusToSpaceAppend(EncodeChar(s[0]), rest);
      DecodeEncodedChar(s[0], PlusToSpace(rest));
      UnquoteQuoteRoundTrip(s[1..]);
    }
  }
}
