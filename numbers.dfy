/**
 * `Double(String)` on plain decimal literals: an optional sign, then
 * digits with an optional fraction (`12`, `-0.5`, `3.`, `.25`).
 */
module Numbers {
  import opened Wrappers

  predicate IsDigit(c: char) {
    '0' <= c <= '9'
  }

  predicate AllDigits(s: string) {
    forall i :: 0 <= i < |s| ==> IsDigit(s[i])
  }

  /** The number a run of decimal digits spells. */
  function DecimalValue(s: string): nat
    requires AllDigits(s)
  {
    if s == [] then 0 else DecimalValue(s[..|s| - 1]) * 10 + (s[|s| - 1] as int - '0' as int)
  }

  function Pow10(n: nat): (r: nat)
    ensures r > 0
  {
    if n == 0 then 1 else 10 * Pow10(n - 1)
  }

  /** The longest prefix of decimal digits. */
  function LeadingDecimals(s: string): (r: string)
    ensures |r| <= |s| && r == s[..|r|] && AllDigits(r)
    ensures |r| == |s| || !IsDigit(s[|r|])
  {
    if s != [] && IsDigit(s[0]) then [s[0]] + LeadingDecimals(s[1..]) else []
  }

  /** An unsigned literal: digits, or digits '.' digits, with at least one digit in all. */
  function ParseUnsigned(s: string): Option<real> {
    var whole := LeadingDecimals(s);
    var rest := s[|whole|..];
    if rest == [] then
      if whole == [] then None else Some(DecimalValue(whole) as real)
    else if rest[0] == '.' && AllDigits(rest[1..]) && (whole != [] || |rest| > 1) then
      Some(DecimalValue(whole) as real + DecimalValue(rest[1..]) as real / Pow10(|rest| - 1) as real)
    else None
  }

  /** `Double(s)` for decimal literals. */
  function ParseDouble(s: string): Option<real> {
    if s != [] && s[0] == '-' then
      match ParseUnsigned(s[1..])
      case Some(v) => Some(-v)
      case None => None
    else if s != [] && s[0] == '+' then ParseUnsigned(s[1..])
    else ParseUnsigned(s)
  }

  /** A string of digits reads as the whole number it spells. */
  lemma ParseDigits(s: string)
    requires s != [] && AllDigits(s)
    ensures ParseDouble(s) == Some(DecimalValue(s) as real)
  {
    LeadingDecimalsOfDigits(s);
    assert IsDigit(s[0]);
  }

  lemma {:induction false} LeadingDecimalsOfDigits(s: string)
    requires AllDigits(s)
    ensures LeadingDecimals(s) == s
  {
    if s != [] {
      LeadingDecimalsOfDigits(s[1..]);
      assert [s[0]] + s[1..] == s;
    }
  }

  /** Only digits, one sign and one point can occur in a literal; anything else reads as no number. */
  predicate IsNumeralChar(c: char) {
    IsDigit(c) || c == '.' || c == '+' || c == '-'
  }

  lemma {:induction false} ParseUnsignedRejects(s: string, k: nat)
    requires k < |s| && !IsDigit(s[k]) && s[k] != '.'
    ensures ParseUnsigned(s) == None
  {
    var whole := LeadingDecimals(s);
    var rest := s[|whole|..];
    if |whole| <= k {
      assert rest[k - |whole|] == s[k];
      if rest != [] && rest[0] == '.' && k > |whole| {
        assert rest[1..][k - |whole| - 1] == s[k];
      }
    }
  }

  lemma ParseDoubleRejects(s: string, k: nat)
    requires k < |s| && !IsNumeralChar(s[k])
    ensures ParseDouble(s) == None
  {
    if s[0] == '-' || s[0] == '+' {
      ParseUnsignedRejects(s[1..], k - 1);
    } else {
      ParseUnsignedRejects(s, k);
    }
  }
}
