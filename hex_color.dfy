/**
 * The channel extraction of `Color(hex:)`: the text is trimmed of leading and
 * trailing non-alphanumeric characters, scanned as a hexadecimal number, and
 * split into alpha, red, green and blue by its length (3, 6 or 8 digits).
 * Channels are the integers 0..255 that the colour is built from; the final
 * division by 255 and the colour itself are not modelled.
 */
module HexColor {

  /** ASCII letters and digits: the alphanumerics of the theme's hexadecimal strings. */
  predicate IsAlphanumeric(c: char) {
    ('0' <= c <= '9') || ('a' <= c <= 'z') || ('A' <= c <= 'Z')
  }

  predicate IsHexDigit(c: char) {
    ('0' <= c <= '9') || ('a' <= c <= 'f') || ('A' <= c <= 'F')
  }

  function HexDigitValue(c: char): (d: nat)
    requires IsHexDigit(c)
    ensures d < 16
  {
    if '0' <= c <= '9' then c as int - '0' as int
    else if 'a' <= c <= 'f' then c as int - 'a' as int + 10
    else c as int - 'A' as int + 10
  }

  predicate AllHex(s: string) {
    forall i :: 0 <= i < |s| ==> IsHexDigit(s[i])
  }

  /** The value of a run of hexadecimal digits, most significant first. */
  function HexValue(s: string): nat
    requires AllHex(s)
  {
    if |s| == 0 then 0 else HexValue(s[..|s| - 1]) * 16 + HexDigitValue(s[|s| - 1])
  }

  function Pow16(n: nat): (p: nat)
    ensures p > 0
  {
    if n == 0 then 1 else 16 * Pow16(n - 1)
  }

  /** The longest prefix of `s` made of hexadecimal digits. */
  function HexPrefix(s: string): (p: string)
    ensures |p| <= |s| && p == s[..|p|] && AllHex(p)
    ensures |p| < |s| ==> !IsHexDigit(s[|p|])
  {
    if |s| > 0 && IsHexDigit(s[0]) then [s[0]] + HexPrefix(s[1..]) else []
  }

  /** `Scanner.scanHexInt64`: an optional "0x"/"0X", then as many hex digits as there are. */
  function ScanHex(s: string): nat {
    var digits := if |s| >= 2 && s[0] == '0' && (s[1] == 'x' || s[1] == 'X') then s[2..] else s;
    HexValue(HexPrefix(digits))
  }

  function TrimLeading(s: string): (t: string)
    ensures |t| <= |s| && t == s[|s| - |t|..]
    ensures |t| > 0 ==> IsAlphanumeric(t[0])
  {
    if |s| > 0 && !IsAlphanumeric(s[0]) then TrimLeading(s[1..]) else s
  }

  function TrimTrailing(s: string): (t: string)
    ensures |t| <= |s| && t == s[..|t|]
    ensures |t| > 0 ==> IsAlphanumeric(t[|t| - 1])
  {
    if |s| > 0 && !IsAlphanumeric(s[|s| - 1]) then TrimTrailing(s[..|s| - 1]) else s
  }

  /**
   * `trimmingCharacters(in: CharacterSet.alphanumerics.inverted)` on ASCII
   * text; Unicode letters and digits outside ASCII are trimmed here but kept
   * by Swift.
   */
  function Trim(s: string): string {
    TrimTrailing(TrimLeading(s))
  }

  datatype Channels = Channels(a: nat, r: nat, g: nat, b: nat)

  /** The integer channels `Color(hex:)` builds its colour from. */
  function HexChannels(hex: string): (c: Channels)
    ensures |Trim(hex)| !in {3, 6, 8} ==> c == Channels(1, 1, 1, 0)
    ensures |Trim(hex)| == 3 || |Trim(hex)| == 6 ==> c.a == 255
  {
    var t := Trim(hex);
    var v := ScanHex(t);
    if |t| == 3 then Channels(255, (v / 256) * 17, (v / 16 % 16) * 17, (v % 16) * 17)
    else if |t| == 6 then Channels(255, v / 65536, v / 256 % 256, v % 256)
    else if |t| == 8 then Channels(v / 16777216, v / 65536 % 256, v / 256 % 256, v % 256)
    else Channels(1, 1, 1, 0)
  }

  // ---------------------------------------------------------------- properties

  lemma {:induction false} HexValueBound(s: string)
    requires AllHex(s)
    ensures HexValue(s) < Pow16(|s|)
  {
    if |s| > 0 {
      HexValueBound(s[..|s| - 1]);
    }
  }

  lemma {:induction false} Pow16Monotone(m: nat, n: nat)
    requires m <= n
    ensures Pow16(m) <= Pow16(n)
  {
    if m < n {
      Pow16Monotone(m, n - 1);
    }
  }

  /** A scan of `s` never yields more digits than `s` has. */
  lemma ScanHexBound(s: string)
    ensures ScanHex(s) < Pow16(|s|)
  {
    var digits := if |s| >= 2 && s[0] == '0' && (s[1] == 'x' || s[1] == 'X') then s[2..] else s;
    var p := HexPrefix(digits);
    HexValueBound(p);
    Pow16Monotone(|p|, |s|);
  }

  /** Whatever 3-, 6- or 8-character text it is given, every channel is a byte. */
  lemma ChannelsAreBytes(hex: string)
    ensures var c := HexChannels(hex); c.a <= 255 && c.r <= 255 && c.g <= 255 && c.b <= 255
  {
    var t := Trim(hex);
    ScanHexBound(t);
    assert Pow16(3) == 4096 && Pow16(6) == 16777216 && Pow16(8) == 4294967296;
  }

  function HexChar(d: nat): (c: char)
    requires d < 16
    ensures IsHexDigit(c) && IsAlphanumeric(c) && HexDigitValue(c) == d
  {
    "0123456789abcdef"[d]
  }

  /** A byte as two lower-case hex digits. */
  function Byte2(x: nat): (s: string)
    requires x < 256
    ensures |s| == 2 && AllHex(s)
  {
    [HexChar(x / 16), HexChar(x % 16)]
  }

  lemma ShiftDigit(x: nat, p: nat, y: nat, d: nat)
    ensures (x * p + y) * 16 + d == x * (16 * p) + (y * 16 + d)
  {
  }

  lemma {:induction false} HexValueAppend(a: string, b: string)
    requires AllHex(a) && AllHex(b)
    ensures AllHex(a + b) && HexValue(a + b) == HexValue(a) * Pow16(|b|) + HexValue(b)
  {
    if |b| > 0 {
      var b' := b[..|b| - 1];
      var ab := a + b;
      assert ab[..|ab| - 1] == a + b';
      assert ab[|ab| - 1] == b[|b| - 1];
      HexValueAppend(a, b');
      var d := HexDigitValue(b[|b| - 1]);
      assert HexValue(ab) == HexValue(a + b') * 16 + d;
      assert HexValue(b) == HexValue(b') * 16 + d;
      ShiftDigit(HexValue(a), Pow16(|b'|), HexValue(b'), d);
    } else {
      assert a + b == a;
    }
  }

  lemma Byte2Value(x: nat)
    requires x < 256
    ensures HexValue(Byte2(x)) == x
  {
    var s := Byte2(x);
    assert s[..1] == [HexChar(x / 16)];
    assert HexValue(s[..1]) == x / 16 by {
      assert s[..1][..0] == [];
    }
  }

  lemma TrimOfAlphanumeric(s: string)
    requires |s| > 0 && forall i :: 0 <= i < |s| ==> IsAlphanumeric(s[i])
    ensures Trim("#" + s) == s
  {
    assert ("#" + s)[1..] == s;
    assert TrimLeading("#" + s) == s;
  }

  lemma {:induction false} HexPrefixOfHex(s: string)
    requires AllHex(s)
    ensures HexPrefix(s) == s
  {
    if |s| > 0 {
      HexPrefixOfHex(s[1..]);
    }
  }

  lemma ScanOfHexDigits(s: string)
    requires AllHex(s)
    ensures ScanHex(s) == HexValue(s)
  {
    HexPrefixOfHex(s);
    if |s| >= 2 {
      assert IsHexDigit(s[1]);
      assert s[1] != 'x' && s[1] != 'X';
    }
    assert ScanHex(s) == HexValue(HexPrefix(s));
  }

  lemma {:induction false} SixDigitValue(r: nat, g: nat, b: nat)
    requires r < 256 && g < 256 && b < 256
    ensures AllHex(Byte2(r) + Byte2(g) + Byte2(b))
    ensures HexValue(Byte2(r) + Byte2(g) + Byte2(b)) == r * 65536 + g * 256 + b
  {
    Byte2Value(r);
    AppendByte(Byte2(r), g, r);
    AppendByte(Byte2(r) + Byte2(g), b, r * 256 + g);
  }

  lemma SplitThreeBytes(r: nat, g: nat, b: nat)
    requires r < 256 && g < 256 && b < 256
    ensures var v := r * 65536 + g * 256 + b;
      v / 65536 == r && v / 256 % 256 == g && v % 256 == b
  {
    var v := r * 65536 + g * 256 + b;
    assert v / 256 == r * 256 + g;
  }

  /** A six-digit text whose scan is r, g, b in base 256 gives those channels. */
  lemma ChannelsOfSix(hex: string, r: nat, g: nat, b: nat)
    requires r < 256 && g < 256 && b < 256
    requires |Trim(hex)| == 6 && ScanHex(Trim(hex)) == r * 65536 + g * 256 + b
    ensures HexChannels(hex) == Channels(255, r, g, b)
  {
    SplitThreeBytes(r, g, b);
  }

  /** "#rrggbb" written from three bytes reads back as those bytes, fully opaque. */
  lemma {:induction false} RgbRoundTrip(r: nat, g: nat, b: nat)
    requires r < 256 && g < 256 && b < 256
    ensures HexChannels("#" + Byte2(r) + Byte2(g) + Byte2(b)) == Channels(255, r, g, b)
  {
    var s := Byte2(r) + Byte2(g) + Byte2(b);
    assert "#" + Byte2(r) + Byte2(g) + Byte2(b) == "#" + s;
    SixDigitValue(r, g, b);
    TrimOfAlphanumeric(s);
    ScanOfHexDigits(s);
    ChannelsOfSix("#" + s, r, g, b);
  }

  lemma ShiftByte(a: nat, r: nat, g: nat)
    ensures (a * 65536 + r * 256 + g) * 256 == a * 16777216 + r * 65536 + g * 256
  {
  }

  lemma {:induction false} EightDigitValue(a: nat, r: nat, g: nat, b: nat)
    requires a < 256 && r < 256 && g < 256 && b < 256
    ensures AllHex(Byte2(a) + Byte2(r) + Byte2(g) + Byte2(b))
    ensures HexValue(Byte2(a) + Byte2(r) + Byte2(g) + Byte2(b)) == a * 16777216 + r * 65536 + g * 256 + b
  {
    var six := Byte2(a) + Byte2(r) + Byte2(g);
    SixDigitValue(a, r, g);
    AppendByte(six, b, a * 65536 + r * 256 + g);
    ShiftByte(a, r, g);
  }

  /** Two more digits after a run worth v make it worth v * 256 plus their byte. */
  lemma AppendByte(hi: string, x: nat, v: nat)
    requires AllHex(hi) && HexValue(hi) == v && x < 256
    ensures AllHex(hi + Byte2(x)) && HexValue(hi + Byte2(x)) == v * 256 + x
  {
    HexValueAppend(hi, Byte2(x));
    Byte2Value(x);
    assert Pow16(|Byte2(x)|) == 256;
  }

  lemma SplitFourBytes(a: nat, r: nat, g: nat, b: nat)
    requires a < 256 && r < 256 && g < 256 && b < 256
    ensures var v := a * 16777216 + r * 65536 + g * 256 + b;
      v / 16777216 == a && v / 65536 % 256 == r && v / 256 % 256 == g && v % 256 == b
  {
    var v := a * 16777216 + r * 65536 + g * 256 + b;
    assert v / 65536 == a * 256 + r;
    assert v / 256 == a * 65536 + r * 256 + g;
  }

  /** An eight-digit text whose scan is a, r, g, b in base 256 gives those channels. */
  lemma ChannelsOfEight(hex: string, a: nat, r: nat, g: nat, b: nat)
    requires a < 256 && r < 256 && g < 256 && b < 256
    requires |Trim(hex)| == 8 && ScanHex(Trim(hex)) == a * 16777216 + r * 65536 + g * 256 + b
    ensures HexChannels(hex) == Channels(a, r, g, b)
  {
    SplitFourBytes(a, r, g, b);
  }

  /** "#aarrggbb" reads back as alpha, red, green and blue. */
  lemma {:induction false} ArgbRoundTrip(a: nat, r: nat, g: nat, b: nat)
    requires a < 256 && r < 256 && g < 256 && b < 256
    ensures HexChannels("#" + Byte2(a) + Byte2(r) + Byte2(g) + Byte2(b)) == Channels(a, r, g, b)
  {
    var s := Byte2(a) + Byte2(r) + Byte2(g) + Byte2(b);
    assert "#" + Byte2(a) + Byte2(r) + Byte2(g) + Byte2(b) == "#" + s;
    EightDigitValue(a, r, g, b);
    TrimOfAlphanumeric(s);
    ScanOfHexDigits(s);
    ChannelsOfEight("#" + s, a, r, g, b);
  }

  lemma ThreeNibbleValue(r: nat, g: nat, b: nat)
    requires r < 16 && g < 16 && b < 16
    ensures AllHex([HexChar(r), HexChar(g), HexChar(b)])
    ensures HexValue([HexChar(r), HexChar(g), HexChar(b)]) == r * 256 + g * 16 + b
  {
    var s := [HexChar(r), HexChar(g), HexChar(b)];
    assert s[..2] == [HexChar(r), HexChar(g)];
    assert [HexChar(r), HexChar(g)][..1] == [HexChar(r)];
    assert [HexChar(r)][..0] == [];
    assert HexValue([HexChar(r)]) == r;
    assert HexValue([HexChar(r), HexChar(g)]) == r * 16 + g;
  }

  /** A three-digit text whose scan is r, g, b in base 16 gives each nibble times 17. */
  lemma ChannelsOfThree(hex: string, r: nat, g: nat, b: nat)
    requires r < 16 && g < 16 && b < 16
    requires |Trim(hex)| == 3 && ScanHex(Trim(hex)) == r * 256 + g * 16 + b
    ensures HexChannels(hex) == Channels(255, r * 17, g * 17, b * 17)
  {
    var v := r * 256 + g * 16 + b;
    assert v / 256 == r;
    assert v / 16 == r * 16 + g;
  }

  /** "#rgb" repeats each nibble: the channel is the nibble times 17. */
  lemma {:induction false} ShortRgbRoundTrip(r: nat, g: nat, b: nat)
    requires r < 16 && g < 16 && b < 16
    ensures HexChannels("#" + [HexChar(r), HexChar(g), HexChar(b)]) == Channels(255, r * 17, g * 17, b * 17)
  {
    var s := [HexChar(r), HexChar(g), HexChar(b)];
    ThreeNibbleValue(r, g, b);
    TrimOfAlphanumeric(s);
    ScanOfHexDigits(s);
    ChannelsOfThree("#" + s, r, g, b);
  }

  /** "fff" is opaque white. */
  lemma WhiteShortForm()
    ensures HexChannels("fff") == Channels(255, 255, 255, 255)
  {
    var s := [HexChar(15), HexChar(15), HexChar(15)];
    assert s == "fff";
    assert Trim("fff") == "fff";
    ThreeNibbleValue(15, 15, 15);
    ScanOfHexDigits(s);
    ChannelsOfThree("fff", 15, 15, 15);
  }
}
