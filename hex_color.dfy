/**
  The colour prop of the light-rays background: a string such as "#ffd27a"
  turned into the three channel intensities the shader's `raysColor` uniform
  takes. The accepted strings are those the pattern
  `^#?([a-f\d]{2})([a-f\d]{2})([a-f\d]{2})$` (case-insensitive) matches;
  every other string falls back to white.
*/
module HexColor {
  import opened Wrappers

  /** Channel intensities, red, green and blue. */
  datatype Rgb = Rgb(r: real, g: real, b: real)

  const White: Rgb := Rgb(1.0, 1.0, 1.0)

  /** The colour prop's default, used both by destructuring and by `raysColor || DEFAULT_COLOR`. */
  const DefaultColor: string := "#ffffff"

  predicate InUnitCube(c: Rgb) {
    0.0 <= c.r <= 1.0 && 0.0 <= c.g <= 1.0 && 0.0 <= c.b <= 1.0
  }

  /** `[a-f\d]` under the `i` flag: ASCII digits and the letters a-f in either case. */
  predicate IsHexDigit(c: char) {
    '0' <= c <= '9' || 'a' <= c <= 'f' || 'A' <= c <= 'F'
  }

  predicate AllHex(s: string) {
    forall i :: 0 <= i < |s| ==> IsHexDigit(s[i])
  }

  /**
    The strings the colour pattern accepts, written as a reference definition:
    exactly six hex digits, optionally preceded by a single '#'.
  */
  ghost predicate MatchesColorPattern(s: string) {
    (|s| == 6 && AllHex(s)) || (|s| == 7 && s[0] == '#' && AllHex(s[1..]))
  }

  function DigitValue(c: char): (v: nat)
    requires IsHexDigit(c)
    ensures v < 16
    ensures HexDigit(v) == LowerCase(c)
  {
    if '0' <= c <= '9' then c as int - '0' as int
    else if 'a' <= c <= 'f' then c as int - 'a' as int + 10
    else c as int - 'A' as int + 10
  }

  /** The lower-case hex digit of a value below 16. */
  function HexDigit(v: nat): (c: char)
    requires v < 16
    ensures IsHexDigit(c)
  {
    if v < 10 then ('0' as int + v) as char else ('a' as int + v - 10) as char
  }

  /** ASCII lower-casing; characters other than 'A'..'Z' are left alone. */
  function LowerCase(c: char): char {
    if 'A' <= c <= 'Z' then (c as int - 'A' as int + 'a' as int) as char else c
  }

  /** ASCII upper-casing; characters other than 'a'..'z' are left alone. */
  function UpperChar(c: char): (u: char)
    ensures IsHexDigit(u) <==> IsHexDigit(c)
    ensures IsHexDigit(c) ==> DigitValue(u) == DigitValue(c)
    ensures u == '#' <==> c == '#'
  {
    if 'a' <= c <= 'z' then (c as int - 'a' as int + 'A' as int) as char else c
  }

  function UpperCase(s: string): (u: string)
    ensures |u| == |s|
    ensures forall i :: 0 <= i < |s| ==> u[i] == UpperChar(s[i])
  {
    seq(|s|, i requires 0 <= i < |s| => UpperChar(s[i]))
  }

  /** The value of the two-digit group starting at position `k` of `s`. */
  ghost function PairValue(s: string, k: nat): nat
    requires k + 2 <= |s| && IsHexDigit(s[k]) && IsHexDigit(s[k + 1])
  {
    16 * DigitValue(s[k]) + DigitValue(s[k + 1])
  }

  /** The value of channel `i` (0 red, 1 green, 2 blue) of a string the pattern accepts. */
  ghost function ChannelValue(s: string, i: nat): nat
    requires MatchesColorPattern(s) && i < 3
  {
    var k := |s| - 6 + 2 * i;
    assert IsHexDigit(s[k]) && IsHexDigit(s[k + 1]) by {
      if |s| == 7 { assert s[k] == s[1..][k - 1] && s[k + 1] == s[1..][k]; }
    }
    PairValue(s, k)
  }

  /** Reads one two-digit group off the front of `s`: what one `([a-f\d]{2})` consumes. */
  function ParsePair(s: string): (r: Option<(nat, string)>)
    ensures r.Some? <==> |s| >= 2 && IsHexDigit(s[0]) && IsHexDigit(s[1])
    ensures r.Some? ==> r.value.0 < 256 && r.value.0 == PairValue(s, 0) && r.value.1 == s[2..]
  {
    if |s| >= 2 && IsHexDigit(s[0]) && IsHexDigit(s[1])
    then Some((16 * DigitValue(s[0]) + DigitValue(s[1]), s[2..]))
    else None
  }

  /**
    The parser behind the pattern: an optional '#', three groups, then the
    end of the string. (The pattern cannot match a leading '#' as a digit, so
    taking the '#' whenever it is there loses no match.)
  */
  function ParseChannels(s: string): (r: Option<(nat, nat, nat)>)
    ensures r.Some? <==> MatchesColorPattern(s)
    ensures r.Some? ==> r.value == (ChannelValue(s, 0), ChannelValue(s, 1), ChannelValue(s, 2))
  {
    var body := if |s| > 0 && s[0] == '#' then s[1..] else s;
    match ParsePair(body)
    case None =>
      BodyDigits(s, body, 0);
      None
    case Some((red, rest1)) =>
      match ParsePair(rest1)
      case None =>
        BodyDigits(s, body, 2);
        None
      case Some((green, rest2)) =>
        match ParsePair(rest2)
        case None =>
          BodyDigits(s, body, 4);
          None
        case Some((blue, rest3)) =>
          if rest3 == [] then
            assert |body| == 6;
            assert AllHex(body) by {
              forall i | 0 <= i < 6 ensures IsHexDigit(body[i]) {
                if i >= 4 { assert body[i] == rest2[i - 4]; }
                else if i >= 2 { assert body[i] == rest1[i - 2]; }
              }
            }
            assert MatchesColorPattern(s);
            ChannelsOfBody(s, body);
            Some((red, green, blue))
          else
            BodyDigits(s, body, 0);
            None
  }

  /** Every group of the body of a string the pattern accepts is two hex digits. */
  lemma BodyDigits(s: string, body: string, k: nat)
    requires body == if |s| > 0 && s[0] == '#' then s[1..] else s
    requires k <= 4
    ensures MatchesColorPattern(s) ==> |body| == 6 && IsHexDigit(body[k]) && IsHexDigit(body[k + 1])
  {
    if MatchesColorPattern(s) {
      assert body == (if |s| == 7 then s[1..] else s);
    }
  }

  lemma ChannelsOfBody(s: string, body: string)
    requires body == if |s| > 0 && s[0] == '#' then s[1..] else s
    requires |body| == 6 && AllHex(body) && MatchesColorPattern(s)
    ensures ParsePair(body).Some? && ParsePair(body).value.0 == ChannelValue(s, 0)
    ensures ParsePair(body[2..]).Some? && ParsePair(body[2..]).value.0 == ChannelValue(s, 1)
    ensures ParsePair(body[4..]).Some? && ParsePair(body[4..]).value.0 == ChannelValue(s, 2)
  {
    var o := |s| - 6;
    assert forall i :: 0 <= i < 6 ==> body[i] == s[o + i];
    assert body[2..][0] == body[2] && body[2..][1] == body[3];
    assert body[4..][0] == body[4] && body[4..][1] == body[5];
    assert body[2..][2..] == body[4..];
  }

  /**
    `hexToRgb`: a colour whose channels lie in [0, 1]; which colour is stated
    by `HexToRgbMeaning`.
  */
  function HexToRgb(hex: string): (c: Rgb)
    ensures InUnitCube(c)
  {
    match ParseChannels(hex)
    case Some((red, green, blue)) => Rgb(red as real / 255.0, green as real / 255.0, blue as real / 255.0)
    case None => White
  }

  /**
    Each accepted pair's value divided by 255; white for every string the
    pattern rejects (three-digit shorthand, an empty string, a trailing
    character, a letter beyond 'f', ...).
  */
  lemma HexToRgbMeaning(hex: string)
    ensures !MatchesColorPattern(hex) ==> HexToRgb(hex) == White
    ensures MatchesColorPattern(hex) ==>
      HexToRgb(hex) == Rgb(ChannelValue(hex, 0) as real / 255.0, ChannelValue(hex, 1) as real / 255.0, ChannelValue(hex, 2) as real / 255.0)
  {
  }

  /**
    The value the uniform gets from the prop: `hexToRgb(raysColor || DEFAULT_COLOR)`.
    The fallback to the default is invisible, since the default is white too.
  */
  function ColorUniform(raysColor: string): (c: Rgb)
    ensures c == HexToRgb(raysColor)
  {
    DefaultColorIsWhite();
    HexToRgb(if raysColor == "" then DefaultColor else raysColor)
  }

  /** The default colour and the empty string both come out white. */
  lemma DefaultColorIsWhite()
    ensures HexToRgb(DefaultColor) == White && HexToRgb("") == White
  {
    HexToRgbMeaning(DefaultColor);
    HexToRgbMeaning("");
    assert MatchesColorPattern(DefaultColor) by { assert AllHex(DefaultColor[1..]); }
    assert ChannelValue(DefaultColor, 0) == 255 && ChannelValue(DefaultColor, 1) == 255 && ChannelValue(DefaultColor, 2) == 255;
  }

  /** "#rrggbb" in lower case: the inverse direction of `HexToRgb`. */
  function FormatHex(red: nat, green: nat, blue: nat): (s: string)
    requires red < 256 && green < 256 && blue < 256
    ensures |s| == 7 && s[0] == '#'
  {
    ['#', HexDigit(red / 16), HexDigit(red % 16), HexDigit(green / 16), HexDigit(green % 16),
     HexDigit(blue / 16), HexDigit(blue % 16)]
  }

  lemma DigitValueOfHexDigit(v: nat)
    requires v < 16
    ensures DigitValue(HexDigit(v)) == v
  {
  }

  /** Formatting three bytes and parsing them back gives each byte over 255. */
  lemma HexToRgbOfFormatHex(red: nat, green: nat, blue: nat)
    requires red < 256 && green < 256 && blue < 256
    ensures HexToRgb(FormatHex(red, green, blue)) == Rgb(red as real / 255.0, green as real / 255.0, blue as real / 255.0)
  {
    var s := FormatHex(red, green, blue);
    HexToRgbMeaning(s);
    assert AllHex(s[1..]);
    DigitValueOfHexDigit(red / 16);
    DigitValueOfHexDigit(red % 16);
    DigitValueOfHexDigit(green / 16);
    DigitValueOfHexDigit(green % 16);
    DigitValueOfHexDigit(blue / 16);
    DigitValueOfHexDigit(blue % 16);
    assert ChannelValue(s, 0) == red && ChannelValue(s, 1) == green && ChannelValue(s, 2) == blue;
  }

  /** The digits are read case-insensitively: upper-casing the prop changes nothing. */
  lemma HexToRgbIgnoresCase(s: string)
    ensures HexToRgb(UpperCase(s)) == HexToRgb(s)
  {
    var u := UpperCase(s);
    HexToRgbMeaning(u);
    HexToRgbMeaning(s);
    UpperCaseMatches(s);
    if MatchesColorPattern(s) {
      UpperCaseChannels(s);
    }
  }

  lemma UpperCaseMatches(s: string)
    ensures MatchesColorPattern(UpperCase(s)) <==> MatchesColorPattern(s)
  {
    var u := UpperCase(s);
    if |s| == 7 {
      assert AllHex(u[1..]) <==> AllHex(s[1..]) by {
        assert forall i :: 0 <= i < 6 ==> u[1..][i] == UpperChar(s[1..][i]);
      }
    }
  }

  lemma UpperCaseChannels(s: string)
    requires MatchesColorPattern(s) && MatchesColorPattern(UpperCase(s))
    ensures ChannelValue(UpperCase(s), 0) == ChannelValue(s, 0)
    ensures ChannelValue(UpperCase(s), 1) == ChannelValue(s, 1)
    ensures ChannelValue(UpperCase(s), 2) == ChannelValue(s, 2)
  {
  }

  /** The leading '#' is optional: adding one to a string that has none changes nothing. */
  lemma HexToRgbHashOptional(s: string)
    requires |s| == 0 || s[0] != '#'
    ensures HexToRgb("#" + s) == HexToRgb(s)
  {
    var t := "#" + s;
    HexToRgbMeaning(t);
    HexToRgbMeaning(s);
    assert t[1..] == s;
    assert MatchesColorPattern(t) <==> MatchesColorPattern(s) by {
      if |s| == 6 && AllHex(s) { assert MatchesColorPattern(t); }
      if MatchesColorPattern(s) { assert |s| == 6; }
    }
    if MatchesColorPattern(s) {
      forall i | 0 <= i < 6 ensures t[i + 1] == s[i] { }
      assert ChannelValue(t, 0) == ChannelValue(s, 0);
      assert ChannelValue(t, 1) == ChannelValue(s, 1);
      assert ChannelValue(t, 2) == ChannelValue(s, 2);
    }
  }

  /** Strings whose length is neither 6 nor 7 (the three-digit shorthand among them) are white. */
  lemma WrongLengthIsWhite(s: string)
    requires |s| != 6 && |s| != 7
    ensures HexToRgb(s) == White
  {
    HexToRgbMeaning(s);
  }

  lemma ShorthandIsWhite()
    ensures HexToRgb("#fff") == White && HexToRgb("") == White && HexToRgb("#ffffff0") == White
  {
    HexToRgbMeaning("#fff");
    HexToRgbMeaning("");
    HexToRgbMeaning("#ffffff0");
  }
}
