/** Hexadecimal digits, shared by `UUID.uuidString` and `Color.init(hex:)`. */
module Hex {
  import opened Text

  predicate IsHexDigit(c: char) {
    ('0' <= c <= '9') || ('A' <= c <= 'F') || ('a' <= c <= 'f')
  }

  function DigitValue(c: char): (v: nat)
    requires IsHexDigit(c)
    ensures v < 16
  {
    if '0' <= c <= '9' then c as int - '0' as int
    else if 'A' <= c <= 'F' then c as int - 'A' as int + 10
    else c as int - 'a' as int + 10
  }

  /** The upper-case digit for `n`, as `uuidString` prints it. */
  function DigitChar(n: nat): (c: char)
    requires n < 16
    ensures IsHexDigit(c) && DigitValue(c) == n && UpperChar(c) == c
  {
    if n < 10 then ('0' as int + n) as char else ('A' as int + n - 10) as char
  }

  /** Upper-casing a digit keeps it a digit of the same value. */
  lemma UpperDigit(c: char)
    requires IsHexDigit(c)
    ensures IsHexDigit(UpperChar(c)) && DigitValue(UpperChar(c)) == DigitValue(c)
    ensures UpperChar(c) == DigitChar(DigitValue(c))
  {
  }

  predicate AllHexDigits(s: string) {
    forall i :: 0 <= i < |s| ==> IsHexDigit(s[i])
  }

  /** The number that a run of hex digits spells, most significant digit first. */
  function Value(s: string): nat
    requires AllHexDigits(s)
  {
    if s == [] then 0 else Value(s[..|s| - 1]) * 16 + DigitValue(s[|s| - 1])
  }

  /** The longest prefix of `s` made of hex digits: what `Scanner.scanHexInt64` consumes. */
  function LeadingDigits(s: string): (r: string)
    ensures AllHexDigits(r) && HasPrefix(s, r)
    ensures |r| == |s| || !IsHexDigit(s[|r|])
  {
    if s != [] && IsHexDigit(s[0]) then [s[0]] + LeadingDigits(s[1..]) else []
  }
}
