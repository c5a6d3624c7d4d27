/** String helpers shared by every script: decimal rendering of integers (Python's
    `str`/`%s`/`%d`, JavaScript's template interpolation, Ruby's `to_s`), two-digit
    lower-case hex (`%02x`), `sep.join(parts)`, prefix and suffix tests, and
    Python's `strip()` for each of the two notions of white space the scripts use. */
module Strings {

  // ---------------------------------------------------------------------------
  // Decimal numbers

  predicate IsDigit(c: char) {
    '0' <= c <= '9'
  }

  predicate IsDigits(s: string) {
    forall i :: 0 <= i < |s| ==> IsDigit(s[i])
  }

  function DigitChar(d: int): (c: char)
    requires 0 <= d < 10
    ensures IsDigit(c) && c as int - '0' as int == d
  {
    ('0' as int + d) as char
  }

  function DigitValue(c: char): (d: nat)
    requires IsDigit(c)
    ensures d < 10
  {
    c as int - '0' as int
  }

  /** The canonical decimal form of a natural number: digits only, at least one,
      and no leading zero unless the number is zero itself. */
  function NatToString(n: nat): (s: string)
    ensures |s| >= 1 && IsDigits(s)
    ensures s[0] == '0' ==> n == 0
    decreases n
  {
    if n < 10 then [DigitChar(n)] else NatToString(n / 10) + [DigitChar(n % 10)]
  }

  /** Reads a string of decimal digits back as a number (the inverse of NatToString). */
  function ParseNat(s: string): nat
    requires IsDigits(s)
  {
    if s == [] then 0 else ParseNat(s[..|s| - 1]) * 10 + DigitValue(s[|s| - 1])
  }

  lemma {:induction false} ParseNatToString(n: nat)
    ensures ParseNat(NatToString(n)) == n
    decreases n
  {
    if n >= 10 {
      var s := NatToString(n);
      assert s[..|s| - 1] == NatToString(n / 10);
      ParseNatToString(n / 10);
    }
  }

  /** The decimal form of an integer, with a leading '-' when it is negative. */
  function IntToString(i: int): (s: string)
    ensures |s| >= 1
    ensures forall k :: 0 <= k < |s| ==> IsDigit(s[k]) || s[k] == '-'
    ensures s[0] == '-' <==> i < 0
  {
    if i < 0 then "-" + NatToString(-i) else NatToString(i)
  }

  /** Reads back what IntToString writes. */
  function ParseInt(s: string): (i: int)
    requires |s| >= 1
    requires (s[0] == '-' && IsDigits(s[1..])) || IsDigits(s)
  {
    if s[0] == '-' then 0 - ParseNat(s[1..]) else ParseNat(s)
  }

  lemma ParseIntToString(i: int)
    ensures ParseInt(IntToString(i)) == i
  {
    if i < 0 {
      assert IntToString(i)[1..] == NatToString(-i);
      ParseNatToString(-i);
    } else {
      ParseNatToString(i);
    }
  }

  /** Distinct integers have distinct decimal forms. */
  lemma IntToStringInjective(a: int, b: int)
    ensures IntToString(a) == IntToString(b) ==> a == b
  {
    ParseIntToString(a);
    ParseIntToString(b);
  }

  // ---------------------------------------------------------------------------
  // Two-digit lower-case hexadecimal, as Python's '%02x' prints a byte

  const HexDigits: string := "0123456789abcdef"

  predicate IsHexDigit(c: char) {
    ('0' <= c <= '9') || ('a' <= c <= 'f')
  }

  function HexDigit(d: int): (c: char)
    requires 0 <= d < 16
    ensures IsHexDigit(c)
  {
    HexDigits[d]
  }

  function HexValue(c: char): (d: nat)
    requires IsHexDigit(c)
    ensures d < 16
  {
    if '0' <= c <= '9' then c as int - '0' as int else c as int - 'a' as int + 10
  }

  lemma HexValueOfDigit(d: int)
    requires 0 <= d < 16
    ensures HexValue(HexDigit(d)) == d
  {
    if d < 10 {
      assert HexDigits[..10] == "0123456789";
      assert HexDigits[d] == HexDigits[..10][d];
    } else {
      assert HexDigits[10..] == "abcdef";
      assert HexDigits[d] == HexDigits[10..][d - 10];
    }
  }

  function Hex2(b: int): (s: string)
    requires 0 <= b < 256
    ensures |s| == 2 && IsHexDigit(s[0]) && IsHexDigit(s[1])
  {
    [HexDigit(b / 16), HexDigit(b % 16)]
  }

  function ParseHex2(s: string): int
    requires |s| == 2 && IsHexDigit(s[0]) && IsHexDigit(s[1])
  {
    HexValue(s[0]) * 16 + HexValue(s[1])
  }

  lemma ParseHex2RoundTrip(b: int)
    requires 0 <= b < 256
    ensures ParseHex2(Hex2(b)) == b
  {
    HexValueOfDigit(b / 16);
    HexValueOfDigit(b % 16);
  }

  // ---------------------------------------------------------------------------
  // Joining, prefixes and suffixes

  /** Python's `sep.join(parts)`: the parts with `sep` between neighbours. */
  function Join(parts: seq<string>, sep: string): string
  {
    if |parts| == 0 then ""
    else if |parts| == 1 then parts[0]
    else parts[0] + sep + Join(parts[1..], sep)
  }

  /** With a non-empty separator the joined text is empty exactly when there is
      nothing to join or the single part is itself empty. */
  lemma JoinEmpty(parts: seq<string>, sep: string)
    requires sep != ""
    ensures Join(parts, sep) == "" <==> parts == [] || parts == [""]
  {
    if |parts| >= 2 {
      assert |Join(parts, sep)| >= |sep|;
    }
  }

  /** The joined text starts with the first part. */
  lemma JoinContainsFirst(parts: seq<string>, sep: string)
    requires |parts| >= 1
    ensures parts[0] <= Join(parts, sep)
  {
  }

  predicate StartsWith(s: string, prefix: string) {
    prefix <= s
  }

  predicate EndsWith(s: string, suffix: string) {
    |suffix| <= |s| && s[|s| - |suffix|..] == suffix
  }

  // ---------------------------------------------------------------------------
  // strip()

  /** Which characters `strip()` removes: Python 3's `str.strip()` (Unicode
      white space) or Python 2's byte-string `strip()` (ASCII white space). */
  datatype Whitespace = UnicodeSpace | AsciiSpace

  predicate IsSpace(ws: Whitespace, c: char) {
    match ws
    case UnicodeSpace => IsUnicodeSpace(c)
    case AsciiSpace => IsAsciiSpace(c)
  }

  /** The number of leading characters that are white space under `ws`. */
  function LeadingSpaces(s: string, ws: Whitespace): (n: nat)
    ensures n <= |s|
  {
    if s == [] || !IsSpace(ws, s[0]) then 0 else 1 + LeadingSpaces(s[1..], ws)
  }

  /** The number of trailing characters that are white space under `ws`. */
  function TrailingSpaces(s: string, ws: Whitespace): (n: nat)
    ensures n <= |s|
  {
    if s == [] || !IsSpace(ws, s[|s| - 1]) then 0 else 1 + TrailingSpaces(s[..|s| - 1], ws)
  }

  /** The leading spaces counted are spaces, and the character after them is not. */
  lemma {:induction false} LeadingSpacesSpec(s: string, ws: Whitespace)
    ensures forall k :: 0 <= k < LeadingSpaces(s, ws) ==> IsSpace(ws, s[k])
    ensures LeadingSpaces(s, ws) < |s| ==> !IsSpace(ws, s[LeadingSpaces(s, ws)])
  {
    if s != [] && IsSpace(ws, s[0]) {
      LeadingSpacesSpec(s[1..], ws);
    }
  }

  /** The trailing spaces counted are spaces, and the character before them is not. */
  lemma {:induction false} TrailingSpacesSpec(s: string, ws: Whitespace)
    ensures forall k :: |s| - TrailingSpaces(s, ws) <= k < |s| ==> IsSpace(ws, s[k])
    ensures TrailingSpaces(s, ws) < |s| ==> !IsSpace(ws, s[|s| - 1 - TrailingSpaces(s, ws)])
  {
    if s != [] && IsSpace(ws, s[|s| - 1]) {
      TrailingSpacesSpec(s[..|s| - 1], ws);
    }
  }

  /** Python's `s.strip()`: drops the leading spaces, then the trailing ones. */
  function Strip(s: string, ws: Whitespace): string
  {
    var rest := s[LeadingSpaces(s, ws)..];
    rest[..|rest| - TrailingSpaces(rest, ws)]
  }

  /** What is left after stripping is the part of `s` after its leading
      spaces and before its trailing ones. */
  lemma StripSlice(s: string, ws: Whitespace)
    ensures LeadingSpaces(s, ws) + |Strip(s, ws)| <= |s|
    ensures Strip(s, ws) == s[LeadingSpaces(s, ws)..LeadingSpaces(s, ws) + |Strip(s, ws)|]
  {
    var n := LeadingSpaces(s, ws);
    var rest := s[n..];
    var r := rest[..|rest| - TrailingSpaces(rest, ws)];
    assert r == Strip(s, ws);
    assert r == s[n..n + |r|];
  }

  /** The characters after what is left are the trailing spaces. */
  lemma StripTrailing(s: string, ws: Whitespace)
    ensures forall k :: LeadingSpaces(s, ws) + |Strip(s, ws)| <= k < |s| ==> IsSpace(ws, s[k])
  {
    var n := LeadingSpaces(s, ws);
    var rest := s[n..];
    TrailingSpacesSpec(rest, ws);
    forall k | n + |Strip(s, ws)| <= k < |s| ensures IsSpace(ws, s[k]) {
      assert s[k] == rest[k - n];
    }
  }

  /** What is left neither starts nor ends with a space. */
  lemma StripEnds(s: string, ws: Whitespace)
    ensures Strip(s, ws) != [] ==> !IsSpace(ws, Strip(s, ws)[0]) && !IsSpace(ws, Strip(s, ws)[|Strip(s, ws)| - 1])
  {
    var n := LeadingSpaces(s, ws);
    var rest := s[n..];
    var t := TrailingSpaces(rest, ws);
    var r := Strip(s, ws);
    if r != [] {
      LeadingSpacesSpec(s, ws);
      TrailingSpacesSpec(rest, ws);
      assert r[0] == s[n];
      assert r[|r| - 1] == rest[|rest| - 1 - t];
    }
  }

  /** What `strip()` promises: only spaces are removed, at both ends, and the
      result neither starts nor ends with a space. */
  lemma StripSpec(s: string, ws: Whitespace)
    ensures forall k :: 0 <= k < LeadingSpaces(s, ws) ==> IsSpace(ws, s[k])
    ensures forall k :: LeadingSpaces(s, ws) + |Strip(s, ws)| <= k < |s| ==> IsSpace(ws, s[k])
    ensures Strip(s, ws) != [] ==> !IsSpace(ws, Strip(s, ws)[0]) && !IsSpace(ws, Strip(s, ws)[|Strip(s, ws)| - 1])
  {
    LeadingSpacesSpec(s, ws);
    StripTrailing(s, ws);
    StripEnds(s, ws);
  }

  /** Stripping leaves a string unchanged when it neither starts nor ends with a space. */
  lemma StripUnchanged(s: string, ws: Whitespace)
    requires s != [] ==> !IsSpace(ws, s[0]) && !IsSpace(ws, s[|s| - 1])
    ensures Strip(s, ws) == s
  {
    if s != [] {
      assert LeadingSpaces(s, ws) == 0;
      assert s[0..] == s;
    }
  }

  /** A string whose last character is not a space keeps it through `strip()`. */
  lemma StripKeepsLast(s: string, ws: Whitespace)
    requires s != [] && !IsSpace(ws, s[|s| - 1])
    ensures Strip(s, ws) != [] && Strip(s, ws)[|Strip(s, ws)| - 1] == s[|s| - 1]
  {
    StripSpec(s, ws);
    StripSlice(s, ws);
    var r := Strip(s, ws);
    assert !(LeadingSpaces(s, ws) + |r| <= |s| - 1);
  }

  /** The characters Python 3's `str.strip()` removes: those `str.isspace()` accepts. */
  predicate IsUnicodeSpace(c: char) {
    ('\t' <= c <= '\r') || ('\U{1c}' <= c <= ' ')
    || c == '\U{85}' || c == '\U{a0}' || c == '\U{1680}'
    || ('\U{2000}' <= c <= '\U{200a}') || c == '\U{2028}' || c == '\U{2029}'
    || c == '\U{202f}' || c == '\U{205f}' || c == '\U{3000}'
  }

  /** The characters Python 2's byte-string `strip()` removes (C `isspace`). */
  predicate IsAsciiSpace(c: char) {
    c == ' ' || ('\t' <= c <= '\r')
  }
}
