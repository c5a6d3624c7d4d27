/** The strict Base64 encoding of section 4 of RFC 4648 (the standard
    alphabet, `=` padding, no line breaks), as Ruby's `Base64.strict_encode64`
    produces it, with the matching decoder. */
module Base64 {
  import opened Wrappers

  type Byte = b: int | 0 <= b < 256
  type Sextet = v: int | 0 <= v < 64

  /** The character of a six-bit value: `A`-`Z`, `a`-`z`, `0`-`9`, `+`, `/`
      (Table 1 of RFC 4648). */
  function Char(v: Sextet): (c: char)
    ensures c != '='
  {
    if v < 26 then (('A' as int) + v) as char
    else if v < 52 then (('a' as int) + (v - 26)) as char
    else if v < 62 then (('0' as int) + (v - 52)) as char
    else if v == 62 then '+'
    else '/'
  }

  /** The value of an alphabet character; `None` for anything else, `=`
      included. */
  function Value(c: char): (r: Option<Sextet>)
    ensures c == '=' ==> r.None?
  {
    if 'A' <= c <= 'Z' then Some((c as int) - ('A' as int))
    else if 'a' <= c <= 'z' then Some((c as int) - ('a' as int) + 26)
    else if '0' <= c <= '9' then Some((c as int) - ('0' as int) + 52)
    else if c == '+' then Some(62)
    else if c == '/' then Some(63)
    else None
  }

  lemma ValueOfChar(v: Sextet)
    ensures Value(Char(v)) == Some(v)
  {
  }

  predicate IsAlphabet(c: char)
  {
    Value(c).Some?
  }

  lemma CharsInAlphabet()
    ensures forall v: Sextet :: IsAlphabet(Char(v))
  {
    forall v: Sextet ensures IsAlphabet(Char(v)) {
      ValueOfChar(v);
    }
  }

  /** Three bytes as four characters: the 24 bits cut into four 6-bit groups,
      most significant first. */
  function EncodeGroup(b0: Byte, b1: Byte, b2: Byte): string
  {
    [Char(b0 / 4), Char((b0 % 4) * 16 + b1 / 16), Char((b1 % 16) * 4 + b2 / 64), Char(b2 % 64)]
  }

  /** The last group after one byte: two characters and `==`. */
  function EncodeOne(b0: Byte): string
  {
    [Char(b0 / 4), Char((b0 % 4) * 16), '=', '=']
  }

  /** The last group after two bytes: three characters and `=`. */
  function EncodeTwo(b0: Byte, b1: Byte): string
  {
    [Char(b0 / 4), Char((b0 % 4) * 16 + b1 / 16), Char((b1 % 16) * 4), '=']
  }

  /** `strict_encode64`: four characters per started group of three bytes. */
  function Encode(bs: seq<Byte>): (s: string)
    ensures |s| % 4 == 0
    ensures |s| == 4 * ((|bs| + 2) / 3)
  {
    if |bs| == 0 then []
    else if |bs| == 1 then EncodeOne(bs[0])
    else if |bs| == 2 then EncodeTwo(bs[0], bs[1])
    else EncodeGroup(bs[0], bs[1], bs[2]) + Encode(bs[3..])
  }

  /** The value of the i-th character of a group, known to be in the
      alphabet. */
  function V(s: string, i: nat): Sextet
    requires i < |s| && IsAlphabet(s[i])
  {
    Value(s[i]).value
  }

  /** The decoder: the length must be a multiple of four, padding may only
      end the last group, and every other character must be in the alphabet. */
  function Decode(s: string): Option<seq<Byte>>
    decreases |s|
  {
    if s == [] then Some([])
    else if |s| < 4 then None
    else if |s| == 4 && IsAlphabet(s[0]) && IsAlphabet(s[1]) && s[2] == '=' && s[3] == '=' then
      Some([V(s, 0) * 4 + V(s, 1) / 16])
    else if |s| == 4 && IsAlphabet(s[0]) && IsAlphabet(s[1]) && IsAlphabet(s[2]) && s[3] == '=' then
      Some([V(s, 0) * 4 + V(s, 1) / 16, (V(s, 1) % 16) * 16 + V(s, 2) / 4])
    else if IsAlphabet(s[0]) && IsAlphabet(s[1]) && IsAlphabet(s[2]) && IsAlphabet(s[3]) then
      match Decode(s[4..])
      case None => None
      case Some(rest) =>
        Some([V(s, 0) * 4 + V(s, 1) / 16, (V(s, 1) % 16) * 16 + V(s, 2) / 4, (V(s, 2) % 4) * 64 + V(s, 3)] + rest)
    else None
  }

  /** A full group decodes back to its three bytes. */
  lemma GroupRoundTrip(b0: Byte, b1: Byte, b2: Byte)
    ensures var g := EncodeGroup(b0, b1, b2);
      && IsAlphabet(g[0]) && IsAlphabet(g[1]) && IsAlphabet(g[2]) && IsAlphabet(g[3])
      && V(g, 0) * 4 + V(g, 1) / 16 == b0
      && (V(g, 1) % 16) * 16 + V(g, 2) / 4 == b1
      && (V(g, 2) % 4) * 64 + V(g, 3) == b2
  {
    ValueOfChar(b0 / 4);
    ValueOfChar((b0 % 4) * 16 + b1 / 16);
    ValueOfChar((b1 % 16) * 4 + b2 / 64);
    ValueOfChar(b2 % 64);
  }

  /** The last group after one byte decodes back to it. */
  lemma OneRoundTrip(b0: Byte)
    ensures Decode(EncodeOne(b0)) == Some([b0])
  {
    ValueOfChar(b0 / 4);
    ValueOfChar((b0 % 4) * 16);
    assert ((b0 % 4) * 16) / 16 == b0 % 4;
  }

  /** The last group after two bytes decodes back to them. */
  lemma TwoRoundTrip(b0: Byte, b1: Byte)
    ensures Decode(EncodeTwo(b0, b1)) == Some([b0, b1])
  {
    var v1 := (b0 % 4) * 16 + b1 / 16;
    ValueOfChar(b0 / 4);
    ValueOfChar(v1);
    ValueOfChar((b1 % 16) * 4);
    assert v1 / 16 == b0 % 4 && v1 % 16 == b1 / 16;
    assert ((b1 % 16) * 4) / 4 == b1 % 16;
  }

  /** A full group in front of a decodable rest decodes to its three bytes in
      front of the rest's bytes. */
  lemma DecodeFullGroup(b0: Byte, b1: Byte, b2: Byte, rest: string, restBytes: seq<Byte>)
    requires Decode(rest) == Some(restBytes)
    ensures Decode(EncodeGroup(b0, b1, b2) + rest) == Some([b0, b1, b2] + restBytes)
  {
    var g := EncodeGroup(b0, b1, b2);
    GroupRoundTrip(b0, b1, b2);
    var s := g + rest;
    assert s[4..] == rest;
    assert s[..4] == g;
  }

  lemma SplitThree<T>(s: seq<T>)
    requires |s| >= 3
    ensures s == [s[0], s[1], s[2]] + s[3..]
  {
  }

  /** Decoding undoes the encoding, so no two byte strings share an encoding. */
  lemma {:induction false} DecodeEncode(bs: seq<Byte>)
    ensures Decode(Encode(bs)) == Some(bs)
    decreases |bs|
  {
    if |bs| == 1 {
      OneRoundTrip(bs[0]);
      assert bs == [bs[0]];
    } else if |bs| == 2 {
      TwoRoundTrip(bs[0], bs[1]);
      assert bs == [bs[0], bs[1]];
    } else if |bs| > 2 {
      DecodeEncode(bs[3..]);
      DecodeFullGroup(bs[0], bs[1], bs[2], Encode(bs[3..]), bs[3..]);
      SplitThree(bs);
    }
  }

  lemma EncodeInjective(a: seq<Byte>, b: seq<Byte>)
    ensures Encode(a) == Encode(b) ==> a == b
  {
    DecodeEncode(a);
    DecodeEncode(b);
  }

  /** Every character of an encoding is in the alphabet or is padding, and
      padding appears only among the last two characters. */
  lemma {:induction false} EncodeAlphabet(bs: seq<Byte>)
    ensures forall i :: 0 <= i < |Encode(bs)| ==> IsAlphabet(Encode(bs)[i]) || Encode(bs)[i] == '='
    ensures forall i :: 0 <= i < |Encode(bs)| - 2 ==> IsAlphabet(Encode(bs)[i])
    decreases |bs|
  {
    CharsInAlphabet();
    if |bs| > 2 {
      EncodeAlphabet(bs[3..]);
      var g := EncodeGroup(bs[0], bs[1], bs[2]);
      assert Encode(bs) == g + Encode(bs[3..]);
    }
  }
}
