/** The health colour both GitHub scripts put on their summary line: green when
    nothing is waiting, otherwise a blend from a caution yellow towards a critical
    red that deepens with each waiting item and saturates at ten. */
module HealthColour {
  import opened Strings

  datatype Rgb = Rgb(red: int, green: int, blue: int)

  /** Shown when the count is zero. */
  const Healthy: string := "#00a357"
  /** `start_color`: the blend at a fraction of 0. */
  const Caution: Rgb := Rgb(255, 196, 0)
  /** `end_color`: the blend at a fraction of 1. */
  const Critical: Rgb := Rgb(229, 83, 83)

  /** `min(count, 10)`; the script's `warn_percentage` is this over 10. */
  function Clamp(count: nat): (k: nat)
    ensures k <= 10
    ensures count <= 10 ==> k == count
    ensures count >= 10 ==> k == 10
  {
    if count < 10 then count else 10
  }

  /** `int(start + k / 10 * (end - start))` computed in integers; the script's
      value is never negative, so truncation is the floor taken here. */
  function Blend(start: int, end: int, k: nat): int
    requires k <= 10
  {
    start + (k * (end - start)) / 10
  }

  /** The integer blend is the truncation of the exact-real blend. */
  lemma BlendIsTruncatedRealBlend(start: int, end: int, k: nat)
    requires k <= 10 && 0 <= start && 0 <= end
    ensures (start as real + (k as real / 10.0) * (end - start) as real).Floor == Blend(start, end, k)
  {
    var q := (k * (end - start)) / 10;
    var r := (k * (end - start)) % 10;
    assert k * (end - start) == 10 * q + r && 0 <= r < 10;
    var x := start as real + (k as real / 10.0) * (end - start) as real;
    assert (k as real / 10.0) * (end - start) as real == (k * (end - start)) as real / 10.0;
    assert x == (start + q) as real + r as real / 10.0;
  }

  predicate IsByte(c: Rgb) {
    0 <= c.red < 256 && 0 <= c.green < 256 && 0 <= c.blue < 256
  }

  /** The blended channels for a given count of waiting items. */
  function Channels(count: nat): (c: Rgb)
    ensures Critical.red <= c.red <= Caution.red
    ensures Critical.green <= c.green <= Caution.green
    ensures Caution.blue <= c.blue <= Critical.blue
    ensures IsByte(c)
  {
    var k := Clamp(count);
    Rgb(Blend(Caution.red, Critical.red, k), Blend(Caution.green, Critical.green, k),
        Blend(Caution.blue, Critical.blue, k))
  }

  /** `'#%02x%02x%02x' % (red, green, blue)`. */
  function Format(c: Rgb): string
    requires IsByte(c)
  {
    "#" + Hex2(c.red) + Hex2(c.green) + Hex2(c.blue)
  }

  /** The colour for `count` waiting items: `#` and six lower-case hex digits. */
  function Colour(count: nat): (c: string)
    ensures |c| == 7 && c[0] == '#'
    ensures forall i :: 1 <= i < 7 ==> IsHexDigit(c[i])
  {
    if Clamp(count) == 0 then Healthy else Format(Channels(count))
  }

  /** Reads a `#rrggbb` colour back into its channels. */
  function ParseColour(s: string): Rgb
    requires |s| == 7 && forall i :: 1 <= i < 7 ==> IsHexDigit(s[i])
  {
    Rgb(ParseHex2(s[1..3]), ParseHex2(s[3..5]), ParseHex2(s[5..7]))
  }

  /** For a non-zero count the printed colour carries exactly the blended channels. */
  lemma ColourCarriesChannels(count: nat)
    requires count > 0
    ensures ParseColour(Colour(count)) == Channels(count)
  {
    var c := Channels(count);
    var s := Colour(count);
    assert s[1..3] == Hex2(c.red) && s[3..5] == Hex2(c.green) && s[5..7] == Hex2(c.blue);
    ParseHex2RoundTrip(c.red);
    ParseHex2RoundTrip(c.green);
    ParseHex2RoundTrip(c.blue);
  }

  /** Zero waiting items give the healthy green, and every count from ten on gives
      the critical colour `#e55353`. */
  lemma ColourEnds(count: nat)
    ensures Colour(0) == Healthy
    ensures count >= 10 ==> Channels(count) == Critical && Colour(count) == "#e55353"
  {
    if count >= 10 {
      assert Hex2(229) == "e5" by {
        assert HexDigits[14] == 'e' && HexDigits[5] == '5';
      }
      assert Hex2(83) == "53" by {
        assert HexDigits[5] == '5' && HexDigits[3] == '3';
      }
    }
  }

  lemma {:induction false} BlendMonotone(start: int, end: int, j: nat, k: nat)
    requires j <= k <= 10
    ensures end <= start ==> Blend(start, end, k) <= Blend(start, end, j)
    ensures start <= end ==> Blend(start, end, j) <= Blend(start, end, k)
  {
    var d := end - start;
    if d <= 0 {
      assert k * d <= j * d by {
        assert (k - j) * d <= 0;
      }
    } else {
      assert j * d <= k * d by {
        assert (k - j) * d >= 0;
      }
    }
  }

  /** As the count rises, red and green never increase and blue never decreases:
      the colour only moves from caution towards critical. */
  lemma ChannelsMonotone(m: nat, n: nat)
    requires m <= n
    ensures Channels(n).red <= Channels(m).red
    ensures Channels(n).green <= Channels(m).green
    ensures Channels(m).blue <= Channels(n).blue
  {
    var j, k := Clamp(m), Clamp(n);
    BlendMonotone(Caution.red, Critical.red, j, k);
    BlendMonotone(Caution.green, Critical.green, j, k);
    BlendMonotone(Caution.blue, Critical.blue, j, k);
  }
}
