/**
 * The helpers of `Components`: `Color.init(hex:)`, which reads a colour
 * from text such as "#56ACC7", and the tint the inventory card gives a
 * category.
 */
module Components {
  import opened Text
  import opened Hex
  import DataProvider

  const UInt64Max: nat := 0xFFFF_FFFF_FFFF_FFFF

  /**
   * `Scanner.scanHexInt64`: the scanner first skips its default
   * `charactersToBeSkipped`, the whitespace and newlines; then comes an
   * optional "0x" or "0X" before a digit, then the longest run of hex
   * digits. Too large a number gives `UInt64.max`; no digit after the
   * skipped whitespace leaves the value at 0.
   */
  function ScanHexInt64(s: string): (v: nat)
    ensures v <= UInt64Max
    ensures var t := TrimStart(s); t == [] || !IsHexDigit(t[0]) ==> v == 0
  {
    var t := TrimStart(s);
    var body := if |t| > 2 && t[0] == '0' && (t[1] == 'x' || t[1] == 'X') && IsHexDigit(t[2]) then t[2..] else t;
    var digits := LeadingDigits(body);
    if Value(digits) > UInt64Max then UInt64Max else Value(digits)
  }

  /** The text `init(hex:)` scans: trimmed, upper-cased, one leading '#' removed. */
  function Normalized(hex: string): string {
    var upper := Upper(Trim(hex));
    if HasPrefix(upper, "#") then upper[1..] else upper
  }

  /** The three 8-bit channels `(v & 0xFF0000) >> 16`, `(v & 0xFF00) >> 8` and `v & 0xFF`. */
  datatype Channels = Channels(red: nat, green: nat, blue: nat)

  function ChannelsOf(v: nat): (c: Channels)
    ensures c.red < 256 && c.green < 256 && c.blue < 256
  {
    Channels((v / 65536) % 256, (v / 256) % 256, v % 256)
  }

  /** Splitting a 24-bit number into channels and putting them back together gives the number. */
  lemma ChannelsRoundTrip(v: nat)
    requires v < 0x100_0000
    ensures v == ChannelsOf(v).red * 65536 + ChannelsOf(v).green * 256 + ChannelsOf(v).blue
  {
    var low := v % 65536;
    var r, g, b := v / 65536, low / 256, low % 256;
    assert v == r * 65536 + low;
    assert low == g * 256 + b;
    ChannelsOfJoin(r, g, b);
  }

  /** Channels put together into a 24-bit number come back out unchanged. */
  lemma ChannelsOfJoin(r: nat, g: nat, b: nat)
    requires r < 256 && g < 256 && b < 256
    ensures ChannelsOf(r * 65536 + g * 256 + b) == Channels(r, g, b)
  {
  }

  lemma ChannelsOfValue(v: nat, r: nat, g: nat, b: nat)
    requires r < 256 && g < 256 && b < 256 && v == r * 65536 + g * 256 + b
    ensures ChannelsOf(v) == Channels(r, g, b)
  {
    ChannelsOfJoin(r, g, b);
  }

  /** A colour, each component in [0, 1]. */
  datatype Rgb = Rgb(red: real, green: real, blue: real)

  /** `Color.init(hex:)` */
  function ColorFromHex(hex: string): (c: Rgb)
    ensures 0.0 <= c.red <= 1.0 && 0.0 <= c.green <= 1.0 && 0.0 <= c.blue <= 1.0
  {
    var ch := ChannelsOf(ScanHexInt64(Normalized(hex)));
    Rgb(ch.red as real / 255.0, ch.green as real / 255.0, ch.blue as real / 255.0)
  }

  function Pow16(n: nat): (p: nat)
    ensures p >= 1
  {
    if n == 0 then 1 else 16 * Pow16(n - 1)
  }

  lemma {:induction false} ValueBound(s: string)
    requires AllHexDigits(s)
    ensures Value(s) < Pow16(|s|)
  {
    if s != [] {
      ValueBound(s[..|s| - 1]);
    }
  }

  lemma AllHexDigitsAppend(a: string, b: string)
    requires AllHexDigits(a) && AllHexDigits(b)
    ensures AllHexDigits(a + b)
  {
    forall i | 0 <= i < |a + b| ensures IsHexDigit((a + b)[i]) {
      if i >= |a| { assert (a + b)[i] == b[i - |a|]; }
    }
  }

  lemma Distribute(x: nat, p: nat, y: nat, d: nat)
    ensures (x * p + y) * 16 + d == x * (16 * p) + (y * 16 + d)
  {
  }

  lemma {:induction false} ValueAppend(a: string, b: string)
    requires AllHexDigits(a) && AllHexDigits(b)
    ensures AllHexDigits(a + b) && Value(a + b) == Value(a) * Pow16(|b|) + Value(b)
    decreases |b|
  {
    AllHexDigitsAppend(a, b);
    if b == [] {
      assert a + b == a;
    } else {
      var init := b[..|b| - 1];
      var last := b[|b| - 1];
      assert (a + b)[..|a + b| - 1] == a + init;
      assert (a + b)[|a + b| - 1] == last;
      ValueAppend(a, init);
      assert Value(a + b) == Value(a + init) * 16 + DigitValue(last);
      Distribute(Value(a), Pow16(|init|), Value(init), DigitValue(last));
    }
  }

  lemma {:induction false} ValueUpper(s: string)
    requires AllHexDigits(s)
    ensures AllHexDigits(Upper(s)) && Value(Upper(s)) == Value(s)
  {
    var u := Upper(s);
    forall i | 0 <= i < |s| ensures IsHexDigit(u[i]) && DigitValue(u[i]) == DigitValue(s[i]) {
      UpperDigit(s[i]);
    }
    if s != [] {
      var init := s[..|s| - 1];
      assert u[..|u| - 1] == Upper(init);
      ValueUpper(init);
    }
  }

  lemma {:induction false} LeadingAll(s: string)
    requires AllHexDigits(s)
    ensures LeadingDigits(s) == s
  {
    if s != [] {
      LeadingAll(s[1..]);
    }
  }

  /** Whitespace before the number does not change what is scanned. */
  lemma ScanSkipsWhitespace(w: string, s: string)
    requires forall i :: 0 <= i < |w| ==> IsWhitespace(w[i])
    ensures ScanHexInt64(w + s) == ScanHexInt64(s)
  {
    TrimStartPrefix(w, s);
  }

  lemma {:induction false} TrimStartPrefix(w: string, s: string)
    requires forall i :: 0 <= i < |w| ==> IsWhitespace(w[i])
    ensures TrimStart(w + s) == TrimStart(s)
  {
    if w != [] {
      assert (w + s)[0] == w[0];
      assert (w + s)[1..] == w[1..] + s;
      TrimStartPrefix(w[1..], s);
    } else {
      assert w + s == s;
    }
  }

  /** A bare run of digits scans to its value (a digit run has no 'X' to read as a prefix). */
  lemma ScanDigits(s: string)
    requires AllHexDigits(s) && Value(s) <= UInt64Max
    ensures ScanHexInt64(s) == Value(s)
  {
    assert s != [] ==> !IsWhitespace(s[0]);
    assert TrimStart(s) == s;
    assert |s| > 2 ==> IsHexDigit(s[1]);
    LeadingAll(s);
  }

  lemma NormalizedPound(digits: string)
    requires |digits| > 0 && AllHexDigits(digits)
    ensures Normalized("#" + digits) == Upper(digits)
  {
    var hex := "#" + digits;
    assert hex[|hex| - 1] == digits[|digits| - 1];
    assert TrimStart(hex) == hex;
    assert TrimEnd(hex) == hex;
    assert Upper(hex) == "#" + Upper(digits);
  }

  lemma ValueOfSix(digits: string)
    requires |digits| == 6 && AllHexDigits(digits)
    ensures Value(digits[..2]) < 256 && Value(digits[2..4]) < 256 && Value(digits[4..]) < 256
    ensures Value(digits) == Value(digits[..2]) * 65536 + Value(digits[2..4]) * 256 + Value(digits[4..])
  {
    var a, b, c := digits[..2], digits[2..4], digits[4..];
    assert digits == (a + b) + c;
    ValueAppend(a, b);
    ValueAppend(a + b, c);
    ValueBound(a);
    ValueBound(b);
    ValueBound(c);
  }

  lemma ScanPound(digits: string)
    requires |digits| == 6 && AllHexDigits(digits)
    ensures ScanHexInt64(Normalized("#" + digits)) == Value(digits)
  {
    NormalizedPound(digits);
    ValueUpper(digits);
    ValueBound(digits);
    ScanDigits(Upper(digits));
  }

  lemma SixDigitChannels(digits: string)
    requires |digits| == 6 && AllHexDigits(digits)
    ensures ChannelsOf(ScanHexInt64(Normalized("#" + digits))) ==
      Channels(Value(digits[..2]), Value(digits[2..4]), Value(digits[4..]))
  {
    var v := ScanHexInt64(Normalized("#" + digits));
    var r, g, b := Value(digits[..2]), Value(digits[2..4]), Value(digits[4..]);
    ScanPound(digits);
    ValueOfSix(digits);
    assert v == r * 65536 + g * 256 + b;
    ChannelsOfValue(v, r, g, b);
  }

  /**
   * "#RRGGBB", in either case, gives the colour whose channels are the
   * three digit pairs, each divided by 255.
   */
  lemma SixDigitColor(digits: string)
    requires |digits| == 6 && AllHexDigits(digits)
    ensures ColorFromHex("#" + digits) == Rgb(
      Value(digits[..2]) as real / 255.0, Value(digits[2..4]) as real / 255.0, Value(digits[4..]) as real / 255.0)
  {
    SixDigitChannels(digits);
  }

  /** Whitespace between the '#' and the digits is skipped: "# 56ACC7" is the same colour as "#56ACC7". */
  lemma SpacedPoundColor(w: string, digits: string)
    requires forall i :: 0 <= i < |w| ==> IsWhitespace(w[i])
    requires |digits| > 0 && AllHexDigits(digits)
    ensures ColorFromHex("#" + w + digits) == ColorFromHex("#" + digits)
  {
    var hex := "#" + w + digits;
    assert hex[0] == '#' && hex[|hex| - 1] == digits[|digits| - 1];
    assert TrimStart(hex) == hex;
    assert TrimEnd(hex) == hex;
    var up := Upper(w);
    assert up == w;
    assert Upper(hex) == "#" + up + Upper(digits);
    assert Normalized(hex) == up + Upper(digits);
    ScanSkipsWhitespace(up, Upper(digits));
    NormalizedPound(digits);
  }

  const Teal := "#56ACC7"
  const Rose := "#E57675"

  /** `colorForCategory`: meat and fish are teal, everything else rose. */
  function ColorForCategory(category: string): (hex: string)
    ensures hex == Teal <==> Contains(category, "肉") || Contains(category, "魚")
    ensures hex == Teal || hex == Rose
  {
    if Contains(category, "肉") || Contains(category, "魚") then Teal else Rose
  }

  /** The card's tint agrees with its emoji: teal exactly for the 🍗 and 🐟 categories. */
  lemma TintMatchesEmoji(category: string)
    ensures ColorForCategory(category) == Teal <==>
      DataProvider.EmojiFor(category) == "🍗" || DataProvider.EmojiFor(category) == "🐟"
  {
  }

  /** The value of a two-digit pair. */
  lemma PairValue(s: string)
    requires |s| == 2 && AllHexDigits(s)
    ensures Value(s) == DigitValue(s[0]) * 16 + DigitValue(s[1])
  {
    var head := s[..1];
    assert head[..0] == [] && head[0] == s[0];
    assert Value(head) == DigitValue(s[0]);
    assert Value(s) == Value(head) * 16 + DigitValue(s[1]);
  }

  lemma SixDigitLiteral(hex: string, digits: string, r: nat, g: nat, b: nat)
    requires |digits| == 6 && AllHexDigits(digits) && hex == "#" + digits
    requires DigitValue(digits[0]) * 16 + DigitValue(digits[1]) == r
    requires DigitValue(digits[2]) * 16 + DigitValue(digits[3]) == g
    requires DigitValue(digits[4]) * 16 + DigitValue(digits[5]) == b
    ensures ColorFromHex(hex) == Rgb(r as real / 255.0, g as real / 255.0, b as real / 255.0)
  {
    SixDigitColor(digits);
    PairValue(digits[..2]);
    PairValue(digits[2..4]);
    PairValue(digits[4..]);
  }

  /**
   * The gauge tint of a category: meat and fish get red 0x56, green 0xAC,
   * blue 0xC7; every other category red 0xE5, green 0x76, blue 0x75.
   */
  lemma CategoryTint(category: string)
    ensures Contains(category, "肉") || Contains(category, "魚") ==>
      ColorFromHex(ColorForCategory(category)) == Rgb(86.0 / 255.0, 172.0 / 255.0, 199.0 / 255.0)
    ensures !Contains(category, "肉") && !Contains(category, "魚") ==>
      ColorFromHex(ColorForCategory(category)) == Rgb(229.0 / 255.0, 118.0 / 255.0, 117.0 / 255.0)
  {
    var hex := ColorForCategory(category);
    if hex == Teal {
      var digits := "56ACC7";
      assert AllHexDigits(digits) && Teal == "#" + digits;
      SixDigitLiteral(hex, digits, 86, 172, 199);
    } else {
      var digits := "E57675";
      assert AllHexDigits(digits) && Rose == "#" + digits;
      SixDigitLiteral(hex, digits, 229, 118, 117);
    }
  }
}
