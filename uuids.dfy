/**
 * Foundation's `UUID` as sixteen bytes, with `uuidString` (upper-case,
 * 8-4-4-4-12 digit groups) and `UUID(uuidString:)`, which also accepts
 * lower-case digits.
 */
module Uuids {
  import opened Wrappers
  import opened Text
  import opened Hex

  type Byte = x: int | 0 <= x < 256

  type Uuid = s: seq<Byte> | |s| == 16
    witness [0, 0, 0, 0, 0, 0, 0, 0, 0, 0, 0, 0, 0, 0, 0, 0]

  function ByteDigits(b: Byte): string {
    [DigitChar(b / 16), DigitChar(b % 16)]
  }

  /** Two hex digits per byte. */
  function HexBytes(bs: seq<Byte>): (r: string)
    ensures |r| == 2 * |bs|
  {
    if bs == [] then [] else ByteDigits(bs[0]) + HexBytes(bs[1..])
  }

  /** `uuid.uuidString` */
  function Format(u: Uuid): (r: string)
    ensures |r| == 36
  {
    HexBytes(u[..4]) + "-" + HexBytes(u[4..6]) + "-" + HexBytes(u[6..8]) + "-"
    + HexBytes(u[8..10]) + "-" + HexBytes(u[10..])
  }

  /** Bytes from a run of digit pairs; `None` when a character is not a hex digit. */
  function ParseHexBytes(s: string): (r: Option<seq<Byte>>)
    requires |s| % 2 == 0
    ensures r.Some? ==> |r.value| == |s| / 2
  {
    if s == [] then Some([])
    else if IsHexDigit(s[0]) && IsHexDigit(s[1]) then
      match ParseHexBytes(s[2..])
      case None => None
      case Some(rest) => Some([DigitValue(s[0]) * 16 + DigitValue(s[1])] + rest)
    else None
  }

  /** `UUID(uuidString: s)` */
  function Parse(s: string): (r: Option<Uuid>)
  {
    if |s| != 36 || s[8] != '-' || s[13] != '-' || s[18] != '-' || s[23] != '-' then None
    else
      match (ParseHexBytes(s[..8]), ParseHexBytes(s[9..13]), ParseHexBytes(s[14..18]),
             ParseHexBytes(s[19..23]), ParseHexBytes(s[24..]))
      case (Some(a), Some(b), Some(c), Some(d), Some(e)) => Some(a + b + c + d + e)
      case _ => None
  }

  lemma {:induction false} ParseHexBytesRoundTrip(bs: seq<Byte>)
    ensures ParseHexBytes(HexBytes(bs)) == Some(bs)
  {
    if bs != [] {
      var s := HexBytes(bs);
      assert s[2..] == HexBytes(bs[1..]);
      ParseHexBytesRoundTrip(bs[1..]);
      assert [bs[0]] + bs[1..] == bs;
    }
  }

  /** Reading back `uuidString` gives the same UUID. */
  lemma ParseFormat(u: Uuid)
    ensures Parse(Format(u)) == Some(u)
  {
    var s := Format(u);
    assert s[..8] == HexBytes(u[..4]);
    assert s[9..13] == HexBytes(u[4..6]);
    assert s[14..18] == HexBytes(u[6..8]);
    assert s[19..23] == HexBytes(u[8..10]);
    assert s[24..] == HexBytes(u[10..]);
    ParseHexBytesRoundTrip(u[..4]);
    ParseHexBytesRoundTrip(u[4..6]);
    ParseHexBytesRoundTrip(u[6..8]);
    ParseHexBytesRoundTrip(u[8..10]);
    ParseHexBytesRoundTrip(u[10..]);
    assert u[..4] + u[4..6] + u[6..8] + u[8..10] + u[10..] == u;
  }

  lemma {:induction false} HexBytesOfParse(s: string)
    requires |s| % 2 == 0 && ParseHexBytes(s).Some?
    ensures HexBytes(ParseHexBytes(s).value) == Upper(s)
  {
    if s != [] {
      HexBytesOfParse(s[2..]);
      var hi, lo := DigitValue(s[0]), DigitValue(s[1]);
      var b: Byte := hi * 16 + lo;
      assert b / 16 == hi && b % 16 == lo;
      UpperDigit(s[0]);
      UpperDigit(s[1]);
      assert Upper(s) == [UpperChar(s[0]), UpperChar(s[1])] + Upper(s[2..]);
    }
  }

  lemma UpperAppend(x: string, y: string)
    ensures Upper(x + y) == Upper(x) + Upper(y)
  {
  }

  /**
   * A string that parses is the upper-case spelling of its UUID: only
   * the case of its digits can differ from `uuidString`.
   */
  lemma FormatParse(s: string)
    requires Parse(s).Some?
    ensures Format(Parse(s).value) == Upper(s)
  {
    var a, b, c := ParseHexBytes(s[..8]).value, ParseHexBytes(s[9..13]).value, ParseHexBytes(s[14..18]).value;
    var d, e := ParseHexBytes(s[19..23]).value, ParseHexBytes(s[24..]).value;
    var u := Parse(s).value;
    assert u == a + b + c + d + e;
    assert u[..4] == a && u[4..6] == b && u[6..8] == c && u[8..10] == d && u[10..] == e;
    HexBytesOfParse(s[..8]);
    HexBytesOfParse(s[9..13]);
    HexBytesOfParse(s[14..18]);
    HexBytesOfParse(s[19..23]);
    HexBytesOfParse(s[24..]);
    assert Format(u) == Upper(s[..8]) + "-" + Upper(s[9..13]) + "-" + Upper(s[14..18]) + "-"
      + Upper(s[19..23]) + "-" + Upper(s[24..]);
    UpperPieces(s);
  }

  lemma UpperPieces(s: string)
    requires |s| == 36 && s[8] == '-' && s[13] == '-' && s[18] == '-' && s[23] == '-'
    ensures Upper(s) == Upper(s[..8]) + "-" + Upper(s[9..13]) + "-" + Upper(s[14..18]) + "-"
      + Upper(s[19..23]) + "-" + Upper(s[24..])
  {
    assert s == s[..8] + "-" + s[9..13] + "-" + s[14..18] + "-" + s[19..23] + "-" + s[24..];
    var dash := "-";
    assert Upper(dash) == dash;
    UpperAppend(s[..8], dash);
    UpperAppend(s[..8] + dash, s[9..13]);
    UpperAppend(s[..8] + dash + s[9..13], dash);
    UpperAppend(s[..8] + dash + s[9..13] + dash, s[14..18]);
    UpperAppend(s[..8] + dash + s[9..13] + dash + s[14..18], dash);
    UpperAppend(s[..8] + dash + s[9..13] + dash + s[14..18] + dash, s[19..23]);
    UpperAppend(s[..8] + dash + s[9..13] + dash + s[14..18] + dash + s[19..23], dash);
    UpperAppend(s[..8] + dash + s[9..13] + dash + s[14..18] + dash + s[19..23] + dash, s[24..]);
  }
}
