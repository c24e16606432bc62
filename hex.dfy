/**
 * Parsing of `#RRGGBB` colour strings (`hexToRgb`): exactly six hexadecimal
 * digits, an optional leading `#`, letters in either case.
 */
module Hex {
  import opened Wrappers

  /** An RGB triple; a parsed colour has every channel in 0..255. */
  datatype Rgb = Rgb(r: int, g: int, b: int)

  predicate InRange(c: Rgb) {
    0 <= c.r < 256 && 0 <= c.g < 256 && 0 <= c.b < 256
  }

  /** One character of the class `[a-f\d]` matched case-insensitively. */
  predicate IsHexDigit(ch: char) {
    '0' <= ch <= '9' || 'a' <= ch <= 'f' || 'A' <= ch <= 'F'
  }

  function DigitValue(ch: char): (v: int)
    requires IsHexDigit(ch)
    ensures 0 <= v < 16
  {
    if '0' <= ch <= '9' then ch as int - '0' as int
    else if 'a' <= ch <= 'f' then ch as int - 'a' as int + 10
    else ch as int - 'A' as int + 10
  }

  predicate AllHex(s: string) {
    forall i :: 0 <= i < |s| ==> IsHexDigit(s[i])
  }

  /** The strings the pattern `/^#?([a-f\d]{2})([a-f\d]{2})([a-f\d]{2})$/i` accepts. */
  predicate MatchesHexPattern(s: string) {
    (|s| == 6 && AllHex(s)) || (|s| == 7 && s[0] == '#' && AllHex(s[1..]))
  }

  /** The value of the two hex digits at `i` (what `parseInt(..., 16)` gives). */
  function Channel(s: string, i: nat): (v: int)
    requires i + 1 < |s| && IsHexDigit(s[i]) && IsHexDigit(s[i + 1])
    ensures 0 <= v < 256
  {
    16 * DigitValue(s[i]) + DigitValue(s[i + 1])
  }

  /** `hexToRgb`: `None` stands for the `null` returned on a failed match. */
  function HexToRgb(hex: string): (r: Option<Rgb>)
    ensures r.Some? ==> InRange(r.value)
  {
    var digits := if |hex| > 0 && hex[0] == '#' then hex[1..] else hex;
    if |digits| == 6 && AllHex(digits) then
      Some(Rgb(Channel(digits, 0), Channel(digits, 2), Channel(digits, 4)))
    else
      None
  }

  /** Parsing succeeds exactly on an optional `#` followed by six hex digits. */
  lemma HexToRgbSucceedsIff(hex: string)
    ensures HexToRgb(hex).Some? <==> MatchesHexPattern(hex)
  {
    if |hex| == 6 && hex[0] == '#' {
      assert !IsHexDigit(hex[0]);
    }
  }

  // ----- case-insensitivity -----

  /** Maps `a`..`z` to `A`..`Z` and leaves every other character alone. */
  function FoldCase(ch: char): char {
    if 'a' <= ch <= 'z' then (ch as int - 32) as char else ch
  }

  /** `s` and `t` spell the same characters up to the case of ASCII letters. */
  predicate SameUpToCase(s: string, t: string) {
    |s| == |t| && forall i :: 0 <= i < |s| ==> FoldCase(s[i]) == FoldCase(t[i])
  }

  lemma DigitUpToCase(a: char, b: char)
    requires FoldCase(a) == FoldCase(b)
    ensures IsHexDigit(a) <==> IsHexDigit(b)
    ensures IsHexDigit(a) ==> DigitValue(a) == DigitValue(b)
  {
  }

  /** Upper- and lower-case spellings of a colour parse to the same RGB, or both fail. */
  lemma CaseInsensitive(s: string, t: string)
    requires SameUpToCase(s, t)
    ensures HexToRgb(s) == HexToRgb(t)
  {
    forall i | 0 <= i < |s|
      ensures (IsHexDigit(s[i]) <==> IsHexDigit(t[i]))
      ensures IsHexDigit(s[i]) ==> DigitValue(s[i]) == DigitValue(t[i])
    {
      DigitUpToCase(s[i], t[i]);
    }
    if |s| > 0 {
      assert s[0] == '#' <==> t[0] == '#' by {
        assert FoldCase(s[0]) == FoldCase(t[0]);
      }
    }
    var ds := if |s| > 0 && s[0] == '#' then s[1..] else s;
    var dt := if |t| > 0 && t[0] == '#' then t[1..] else t;
    assert |ds| == |dt|;
    forall i | 0 <= i < |ds|
      ensures (IsHexDigit(ds[i]) <==> IsHexDigit(dt[i]))
      ensures IsHexDigit(ds[i]) ==> DigitValue(ds[i]) == DigitValue(dt[i])
    {
      var j := if |s| > 0 && s[0] == '#' then i + 1 else i;
      assert ds[i] == s[j] && dt[i] == t[j];
    }
  }

  // ----- formatting, the inverse of parsing -----

  const HexChars: string := "0123456789ABCDEF"

  function ByteText(v: int): (s: string)
    requires 0 <= v < 256
    ensures |s| == 2 && IsHexDigit(s[0]) && IsHexDigit(s[1])
  {
    [HexChars[v / 16], HexChars[v % 16]]
  }

  /** The canonical `#RRGGBB` spelling of a colour, as the brand palette writes them. */
  function FormatHex(c: Rgb): (s: string)
    requires InRange(c)
    ensures |s| == 7 && s[0] == '#'
  {
    "#" + ByteText(c.r) + ByteText(c.g) + ByteText(c.b)
  }

  lemma DigitRoundTrip(d: int)
    requires 0 <= d < 16
    ensures IsHexDigit(HexChars[d]) && DigitValue(HexChars[d]) == d
  {
  }

  lemma ByteRoundTrip(v: int)
    requires 0 <= v < 256
    ensures Channel(ByteText(v), 0) == v
  {
    DigitRoundTrip(v / 16);
    DigitRoundTrip(v % 16);
  }

  /** Formatting and then parsing gives back the colour. */
  lemma FormatThenParse(c: Rgb)
    requires InRange(c)
    ensures HexToRgb(FormatHex(c)) == Some(c)
  {
    var s := FormatHex(c);
    var d := s[1..];
    assert d == ByteText(c.r) + ByteText(c.g) + ByteText(c.b);
    ByteRoundTrip(c.r);
    ByteRoundTrip(c.g);
    ByteRoundTrip(c.b);
    assert AllHex(d);
    assert Channel(d, 0) == Channel(ByteText(c.r), 0);
    assert Channel(d, 2) == Channel(ByteText(c.g), 0);
    assert Channel(d, 4) == Channel(ByteText(c.b), 0);
  }
}
