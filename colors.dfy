/** Colour strings: the `#rrggbb` and `#rgb` notations, how they are parsed into
    integer channel triples, and how a channel triple is written back out as hex. */
module Colors {

  /** A colour as three integer channels (red, green, blue). */
  datatype Rgb = Rgb(r: int, g: int, b: int)

  /** Every channel lies in [0, 255]. */
  predicate InRange(c: Rgb) {
    0 <= c.r <= 255 && 0 <= c.g <= 255 && 0 <= c.b <= 255
  }

  /** A digit `parseInt(_, 16)` accepts, in either case. */
  predicate IsHexDigit(ch: char) {
    '0' <= ch <= '9' || 'a' <= ch <= 'f' || 'A' <= ch <= 'F'
  }

  /** A digit as `Number.prototype.toString(16)` writes it. */
  predicate IsLowerHexDigit(ch: char) {
    '0' <= ch <= '9' || 'a' <= ch <= 'f'
  }

  /** The value of one base-16 digit. */
  function HexValue(ch: char): (v: int)
    requires IsHexDigit(ch)
    ensures 0 <= v < 16
  {
    if '0' <= ch <= '9' then ch as int - '0' as int
    else if 'a' <= ch <= 'f' then ch as int - 'a' as int + 10
    else ch as int - 'A' as int + 10
  }

  /** The lower-case digit for a value below 16; `HexValue` inverts it. */
  function HexDigit(d: int): (ch: char)
    requires 0 <= d < 16
    ensures IsLowerHexDigit(ch) && HexValue(ch) == d
  {
    if d < 10 then ('0' as int + d) as char else ('a' as int + d - 10) as char
  }

  /** On lower-case digits the two conversions are inverse the other way too. */
  lemma DigitRoundTrip(ch: char)
    requires IsLowerHexDigit(ch)
    ensures HexDigit(HexValue(ch)) == ch
  {
  }

  /** `v.toString(16)` for a non-negative integer: its shortest lower-case base-16
      numeral, which has a single digit exactly when `v` is below 16. */
  function HexString(v: nat): (s: string)
    ensures 1 <= |s|
    ensures |s| == 1 <==> v < 16
    ensures forall k :: 0 <= k < |s| ==> IsLowerHexDigit(s[k])
    decreases v
  {
    if v < 16 then [HexDigit(v)] else HexString(v / 16) + [HexDigit(v % 16)]
  }

  /** The padding of the zone loop: a one-character numeral gets a leading '0'. */
  function Pad2(s: string): string {
    if |s| == 1 then "0" + s else s
  }

  /** A byte written by `toString(16)` and then padded is always its two digits. */
  lemma PaddedByte(v: nat)
    requires v < 256
    ensures Pad2(HexString(v)) == [HexDigit(v / 16), HexDigit(v % 16)]
  {
    if v >= 16 {
      assert HexString(v / 16) == [HexDigit(v / 16)];
    }
  }

  /** The form every generated entry has: '#' and six lower-case hex digits. */
  predicate IsCanonical(s: string) {
    |s| == 7 && s[0] == '#' && forall k :: 1 <= k < 7 ==> IsLowerHexDigit(s[k])
  }

  /** What the parser handles without `NaN`: the shorthand `#rgb`, or a string whose
      characters 1 to 6 are hex digits. The leading '#' is never inspected. */
  predicate IsColor(s: string) {
    || (|s| == 4 && forall k :: 1 <= k < 4 ==> IsHexDigit(s[k]))
    || (|s| >= 7 && forall k :: 1 <= k < 7 ==> IsHexDigit(s[k]))
  }

  /** The shorthand expansion: '#' followed by each of the three digits twice. */
  function Expand(s: string): (e: string)
    requires |s| == 4
    ensures e == ['#', s[1], s[1], s[2], s[2], s[3], s[3]]
  {
    "#" + s[1..2] + s[1..2] + s[2..3] + s[2..3] + s[3..] + s[3..]
  }

  /** `parseInt` of a two-digit base-16 string. */
  function ParseByte(hi: char, lo: char): (v: int)
    requires IsHexDigit(hi) && IsHexDigit(lo)
    ensures 0 <= v < 256
  {
    16 * HexValue(hi) + HexValue(lo)
  }

  /** `parseColor`: expand a four-character shorthand, then read the digit pairs at
      positions 1-2, 3-4 and 5-6. */
  function ParseColor(s: string): (c: Rgb)
    requires IsColor(s)
    ensures InRange(c)
  {
    var t := if |s| == 4 then Expand(s) else s;
    Rgb(ParseByte(t[1], t[2]), ParseByte(t[3], t[4]), ParseByte(t[5], t[6]))
  }

  /** How a zone writes a colour in range: '#' and each channel's two lower-case hex
      digits, high digit first. `PaddedHex` shows this is what `toString(16)` and the
      zone's padding produce. */
  function FormatColor(c: Rgb): string
    requires InRange(c)
  {
    ['#', HexDigit(c.r / 16), HexDigit(c.r % 16),
          HexDigit(c.g / 16), HexDigit(c.g % 16),
          HexDigit(c.b / 16), HexDigit(c.b % 16)]
  }

  /** The zone's own recipe: every channel through `toString(16)`, padded to two
      characters, joined behind '#'. */
  lemma PaddedHex(c: Rgb)
    requires InRange(c)
    ensures FormatColor(c) == "#" + Pad2(HexString(c.r)) + Pad2(HexString(c.g)) + Pad2(HexString(c.b))
  {
    PaddedByte(c.r);
    PaddedByte(c.g);
    PaddedByte(c.b);
  }

  /** Formatting yields a canonical `#rrggbb`, and parsing it gives the triple back. */
  lemma FormatThenParse(c: Rgb)
    requires InRange(c)
    ensures IsCanonical(FormatColor(c))
    ensures IsColor(FormatColor(c)) && ParseColor(FormatColor(c)) == c
  {
    var s := FormatColor(c);
    assert ParseByte(s[1], s[2]) == c.r;
    assert ParseByte(s[3], s[4]) == c.g;
    assert ParseByte(s[5], s[6]) == c.b;
  }

  /** A canonical string is exactly what formatting its parse produces. */
  lemma ParseThenFormat(s: string)
    requires IsCanonical(s)
    ensures IsColor(s) && FormatColor(ParseColor(s)) == s
  {
    var c := ParseColor(s);
    DigitRoundTrip(s[1]); DigitRoundTrip(s[2]);
    DigitRoundTrip(s[3]); DigitRoundTrip(s[4]);
    DigitRoundTrip(s[5]); DigitRoundTrip(s[6]);
    assert c.r / 16 == HexValue(s[1]) && c.r % 16 == HexValue(s[2]);
    assert c.g / 16 == HexValue(s[3]) && c.g % 16 == HexValue(s[4]);
    assert c.b / 16 == HexValue(s[5]) && c.b % 16 == HexValue(s[6]);
  }

  /** `#abc` parses exactly like `#aabbcc`: every channel is its digit times 17. */
  lemma Shorthand(s: string)
    requires |s| == 4 && IsColor(s)
    ensures IsColor(Expand(s)) && ParseColor(s) == ParseColor(Expand(s))
    ensures ParseColor(s) == Rgb(17 * HexValue(s[1]), 17 * HexValue(s[2]), 17 * HexValue(s[3]))
  {
  }
}
