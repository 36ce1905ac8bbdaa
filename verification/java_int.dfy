/**
 * Java's 32-bit `int` and the two conversions the protocol relies on:
 * decimal rendering (`Integer.toString`, also used by string concatenation)
 * and `Integer.parseInt(s)` in radix 10.
 */
module JavaInt {
  import opened Wrappers

  const MinInt32: int := -0x8000_0000
  const MaxInt32: int := 0x7fff_ffff

  /** The values of a Java `int`. */
  type Int32 = x: int | MinInt32 <= x <= MaxInt32

  /** Two's-complement wrap-around of Java `int` arithmetic. */
  function Wrap32(x: int): (r: Int32)
    ensures (r - x) % 0x1_0000_0000 == 0
    ensures MinInt32 <= x <= MaxInt32 ==> r == x
  {
    (x - MinInt32) % 0x1_0000_0000 + MinInt32
  }

  predicate IsDigit(c: char) {
    '0' <= c <= '9'
  }

  predicate AllDigits(s: string) {
    forall i | 0 <= i < |s| :: IsDigit(s[i])
  }

  function DigitChar(d: nat): (c: char)
    requires d < 10
    ensures IsDigit(c)
  {
    ('0' as int + d) as char
  }

  function DigitValue(c: char): (d: nat)
    requires IsDigit(c)
    ensures d < 10
  {
    c as int - '0' as int
  }

  /** The value of a string of decimal digits, most significant first. */
  function DigitsValue(s: string): nat
    requires AllDigits(s)
  {
    if |s| == 0 then 0 else DigitsValue(s[..|s| - 1]) * 10 + DigitValue(s[|s| - 1])
  }

  /** Shortest decimal rendering of a natural number. */
  function NatToDecimal(n: nat): (r: string)
    ensures |r| >= 1 && AllDigits(r)
    ensures n > 0 ==> r[0] != '0'
  {
    if n < 10 then [DigitChar(n)] else NatToDecimal(n / 10) + [DigitChar(n % 10)]
  }

  /** Decimal rendering of an integer, with a leading `-` when negative. */
  function IntToString(n: int): (r: string)
    ensures |r| >= 1
    ensures n < 0 <==> r[0] == '-'
    ensures AllDigits(if n < 0 then r[1..] else r)
    ensures ',' !in r && ';' !in r && '|' !in r && '\\' !in r && '/' !in r && ':' !in r
  {
    var digits := if n < 0 then NatToDecimal(-n) else NatToDecimal(n);
    assert forall c | c in digits :: IsDigit(c);
    if n < 0 then "-" + digits else digits
  }

  /** Decimal syntax: an optional `+` or `-` followed by at least one digit. */
  predicate DecimalSyntax(s: string) {
    && |s| >= 1
    && AllDigits(s[1..])
    && (IsDigit(s[0]) || ((s[0] == '-' || s[0] == '+') && |s| >= 2))
  }

  /** The integer a decimal string denotes, sign included. */
  function SignedValue(s: string): int
    requires DecimalSyntax(s)
  {
    if s[0] == '-' then 0 - DigitsValue(s[1..]) as int
    else if s[0] == '+' then DigitsValue(s[1..])
    else
      assert AllDigits(s) by { assert forall i | 1 <= i < |s| :: s[i] == s[1..][i - 1]; }
      DigitsValue(s)
  }

  /**
   * `Integer.parseInt(s)`: an optional `+` or `-`, then at least one digit,
   * with a value that fits an `int`; anything else throws
   * NumberFormatException, modelled as `None`.
   */
  function ParseInt(s: string): (r: Option<Int32>)
    ensures r.Some? ==> |s| >= 1 && AllDigits(s[1..]) && (IsDigit(s[0]) || s[0] == '-' || s[0] == '+')
    ensures r.Some? ==> (r.value < 0 ==> s[0] == '-')
    ensures |s| >= 1 && AllDigits(s) && DigitsValue(s) <= MaxInt32 ==> r == Some(DigitsValue(s))
    ensures r.Some? <==> DecimalSyntax(s) && MinInt32 <= SignedValue(s) <= MaxInt32
    ensures r.Some? ==> r.value == SignedValue(s)
  {
    if |s| == 0 then None
    else
      var digits := if s[0] == '-' || s[0] == '+' then s[1..] else s;
      if |digits| == 0 || !AllDigits(digits) then None
      else
        var magnitude: int := DigitsValue(digits);
        var v := if s[0] == '-' then -magnitude else magnitude;
        if MinInt32 <= v <= MaxInt32 then Some(v) else None
  }

  lemma {:induction false} DigitsOfDecimal(n: nat)
    ensures DigitsValue(NatToDecimal(n)) == n
    decreases n
  {
    if n >= 10 {
      var prefix := NatToDecimal(n / 10);
      var r := prefix + [DigitChar(n % 10)];
      assert r[..|r| - 1] == prefix;
      DigitsOfDecimal(n / 10);
    }
  }

  /** Parsing what `Integer.toString` printed gives the number back, negatives included. */
  lemma ParseIntToString(n: Int32)
    ensures ParseInt(IntToString(n)) == Some(n)
  {
    if n < 0 {
      var m: int := n;
      DigitsOfDecimal(-m);
      assert IntToString(n)[1..] == NatToDecimal(-m);
    } else {
      DigitsOfDecimal(n);
    }
  }
}
