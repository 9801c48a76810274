/**
 * Colour helpers shared by the PowerPoint export (services/pptService.ts) and
 * the design preview card (components/DesignPreviewCard.tsx): `hex`, which
 * drops the '#', and `isDarkColor`, the YIQ brightness test. The two files
 * carry character-for-character the same `isDarkColor`, so one function
 * models both.
 */
module Color {
  import opened Common
  import opened Text

  // ---------------------------------------------------------------------------
  // String steps

  /**
   * `hex(c)`, which is `c.replace('#', '')`: only the first '#' is removed
   * (a string pattern, not a global regular expression). `isDarkColor` starts
   * with the same step.
   */
  function Hex(s: string): (r: string)
    ensures '#' !in s ==> r == s
    ensures '#' in s ==> |r| == |s| - 1
    ensures '#' in s ==> exists i :: 0 <= i < |s| && s[i] == '#' && '#' !in s[..i] && r == s[..i] + s[i + 1..]
  {
    if '#' in s then
      var i := IndexOfChar(s, '#');
      s[..i] + s[i + 1..]
    else s
  }

  /** The '#' at `i`, with none before it, is the one `hex` removes. */
  lemma HexAt(s: string, i: nat)
    requires i < |s| && s[i] == '#' && '#' !in s[..i]
    ensures Hex(s) == s[..i] + s[i + 1..]
  {
    IndexOfCharAt(s, '#', i);
  }

  /** Prefixing '#' and removing it again gives the original text, whatever it holds. */
  lemma HexOfPrefixed(h: string)
    ensures Hex(['#'] + h) == h
  {
    IndexOfCharAt(['#'] + h, '#', 0);
    assert (['#'] + h)[1..] == h;
  }

  function Min(a: int, b: int): int { if a <= b then a else b }

  function Max(a: int, b: int): int { if a <= b then b else a }

  /** `s.substring(a, b)`: the bounds are clamped to the length and swapped when reversed. */
  function Substring(s: string, a: nat, b: nat): (r: string)
    ensures a <= b <= |s| ==> r == s[a..b]
    ensures |r| <= |s|
  {
    var lo := Min(Min(a, b), |s|);
    var hi := Min(Max(a, b), |s|);
    s[lo..hi]
  }

  // ---------------------------------------------------------------------------
  // parseInt(_, 16)

  predicate IsHexDigit(c: char) {
    ('0' <= c <= '9') || ('a' <= c <= 'f') || ('A' <= c <= 'F')
  }

  predicate AllHex(s: string) {
    forall k :: 0 <= k < |s| ==> IsHexDigit(s[k])
  }

  function HexDigitValue(c: char): (v: nat)
    requires IsHexDigit(c)
    ensures v < 16
  {
    if '0' <= c <= '9' then c as int - '0' as int
    else if 'a' <= c <= 'f' then c as int - 'a' as int + 10
    else c as int - 'A' as int + 10
  }

  /** The value of a string of hexadecimal digits, most significant first. */
  function HexValue(d: string): nat
    requires AllHex(d)
  {
    if |d| == 0 then 0 else HexValue(d[..|d| - 1]) * 16 + HexDigitValue(d[|d| - 1])
  }

  lemma {:induction false} HexValueBound(d: string)
    requires AllHex(d)
    ensures |d| == 2 ==> HexValue(d) < 256
  {
    if |d| == 2 {
      var hi := d[..1];
      assert hi[..0] == [];
      assert HexValue(hi) == HexDigitValue(d[0]);
    }
  }

  /** The number of leading hexadecimal digits. */
  function HexRun(s: string): (n: nat)
    ensures n <= |s| && AllHex(s[..n])
    ensures n < |s| ==> !IsHexDigit(s[n])
  {
    if |s| > 0 && IsHexDigit(s[0]) then
      var n := 1 + HexRun(s[1..]);
      assert s[..n] == [s[0]] + s[1..][..n - 1];
      n
    else 0
  }

  lemma {:induction false} HexRunOfHex(d: string)
    requires AllHex(d)
    ensures HexRun(d) == |d|
  {
    if |d| > 0 {
      HexRunOfHex(d[1..]);
    }
  }

  /** The text after one leading '-' or '+', if there is one. */
  function AfterSign(t: string): (u: string)
    ensures |t| > 0 && (t[0] == '-' || t[0] == '+') ==> u == t[1..]
    ensures |t| == 0 || (t[0] != '-' && t[0] != '+') ==> u == t
  {
    if |t| > 0 && (t[0] == '-' || t[0] == '+') then t[1..] else t
  }

  /** The text after a leading "0x" or "0X", if there is one. */
  function AfterRadixPrefix(u: string): (v: string)
    ensures |u| >= 2 && u[0] == '0' && (u[1] == 'x' || u[1] == 'X') ==> v == u[2..]
    ensures !(|u| >= 2 && u[0] == '0' && (u[1] == 'x' || u[1] == 'X')) ==> v == u
  {
    if |u| >= 2 && u[0] == '0' && (u[1] == 'x' || u[1] == 'X') then u[2..] else u
  }

  /**
   * `parseInt(s, 16)`, with `None` for NaN: leading white space is skipped,
   * then one sign, then an optional "0x"/"0X"; the longest run of hex digits
   * that follows is the value, and no digits at all is NaN.
   */
  function ParseHex(s: string): (r: Option<int>)
  {
    var t := TrimStart(s);
    var negative := |t| > 0 && t[0] == '-';
    var v := AfterRadixPrefix(AfterSign(t));
    var n := HexRun(v);
    var magnitude: int := HexValue(v[..n]);
    if n == 0 then None
    else if negative then Some(-magnitude)
    else Some(magnitude)
  }

  /** A non-empty string of hexadecimal digits parses to its value. */
  lemma ParseHexOfDigits(d: string)
    requires |d| > 0 && AllHex(d)
    ensures ParseHex(d) == Some(HexValue(d))
  {
    assert !IsWhitespace(d[0]);
    TrimStartOfClean(d);
    assert AfterSign(d) == d;
    assert |d| >= 2 ==> IsHexDigit(d[1]);
    assert AfterRadixPrefix(d) == d;
    HexRunOfHex(d);
    assert d[..|d|] == d;
  }

  /** Text without a single hex digit up front, like the empty string, parses to NaN. */
  lemma ParseHexOfEmpty()
    ensures ParseHex("") == None
  {
  }

  // ---------------------------------------------------------------------------
  // isDarkColor

  /** The YIQ brightness times 1000 of three channel values. */
  function Yiq(r: int, g: int, b: int): int {
    r * 299 + g * 587 + b * 114
  }

  /** The channel `isDarkColor` reads at `k`: characters k and k+1 after the '#', in hex. */
  function Channel(color: string, k: nat): Option<int> {
    ParseHex(Substring(Hex(color), k, k + 2))
  }

  /**
   * `isDarkColor`: after the '#' is dropped, characters 0-1, 2-3 and 4-5 are
   * read as hex channels, and the colour is dark when their YIQ brightness is
   * below 128. A channel that reads as NaN makes the comparison false.
   */
  function IsDarkColor(color: string): bool
  {
    var r := Channel(color, 0);
    var g := Channel(color, 2);
    var b := Channel(color, 4);
    r.Some? && g.Some? && b.Some? && Yiq(r.value, g.value, b.value) < 128000
  }

  /** A colour written as '#' and six hex digits. */
  predicate IsHexColor(color: string) {
    |color| == 7 && color[0] == '#'
    && IsHexDigit(color[1]) && IsHexDigit(color[2]) && IsHexDigit(color[3])
    && IsHexDigit(color[4]) && IsHexDigit(color[5]) && IsHexDigit(color[6])
  }

  /** The six characters after the '#' of a colour are its digits. */
  lemma HexColorDigits(color: string)
    requires IsHexColor(color)
    ensures AllHex(color[1..])
  {
  }

  /** The value of the two digits at `k` after the '#' of a '#rrggbb' colour. */
  function ChannelValue(color: string, k: nat): (v: int)
    requires IsHexColor(color) && k <= 4
    ensures 0 <= v <= 255
  {
    var d := color[1..][k..k + 2];
    HexColorDigits(color);
    assert AllHex(d) by {
      assert d[0] == color[k + 1] && d[1] == color[k + 2];
    }
    HexValueBound(d);
    HexValue(d)
  }

  /** The YIQ brightness (times 1000) of a well-formed '#rrggbb' colour. */
  function Brightness(color: string): (y: int)
    requires IsHexColor(color)
    ensures 0 <= y <= 255000
  {
    Yiq(ChannelValue(color, 0), ChannelValue(color, 2), ChannelValue(color, 4))
  }

  /** On '#rrggbb' colours, `isDarkColor` is exactly "brightness below 128". */
  lemma DarkIffDim(color: string)
    requires IsHexColor(color)
    ensures IsDarkColor(color) <==> Brightness(color) < 128000
  {
    ChannelParses(color, 0);
    ChannelParses(color, 2);
    ChannelParses(color, 4);
  }

  /** The channel at `k` of a '#rrggbb' colour parses to the value of its two digits. */
  lemma ChannelParses(color: string, k: nat)
    requires IsHexColor(color) && k <= 4
    ensures Channel(color, k) == Some(ChannelValue(color, k))
  {
    HexIsTail(color);
    var digits := color[1..][k..k + 2];
    ChannelDigits(color, k);
    ParseHexOfDigits(digits);
  }

  /** The two characters at `k` after the '#' of a '#rrggbb' colour are hex digits. */
  lemma ChannelDigits(color: string, k: nat)
    requires IsHexColor(color) && k <= 4
    ensures |color[1..][k..k + 2]| == 2 && AllHex(color[1..][k..k + 2])
  {
    var d := color[1..][k..k + 2];
    assert d[0] == color[k + 1] && d[1] == color[k + 2];
  }

  /** `hex` of a '#rrggbb' colour is the text after the '#'. */
  lemma HexIsTail(color: string)
    requires IsHexColor(color)
    ensures Hex(color) == color[1..]
  {
    assert color == ['#'] + color[1..];
    HexOfPrefixed(color[1..]);
  }

  /** `hex` of a '#rrggbb' colour is its six digits: putting the '#' back gives the colour. */
  lemma HexOfHexColor(color: string)
    requires IsHexColor(color)
    ensures |Hex(color)| == 6 && AllHex(Hex(color)) && ['#'] + Hex(color) == color
  {
    HexColorDigits(color);
    assert color == ['#'] + color[1..];
    HexOfPrefixed(color[1..]);
  }
}
