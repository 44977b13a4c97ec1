/** Decimal rendering of signed 64-bit integers, as Java's `Long.toString`
    renders the cache-busting draw, together with a parser that inverts it. */
module Decimal {
  import opened Wrappers

  const MinLong: int := -0x8000_0000_0000_0000
  const MaxLong: int := 0x7FFF_FFFF_FFFF_FFFF

  /** A Java `long`. */
  type Int64 = x: int | MinLong <= x <= MaxLong

  predicate IsDigit(c: char) {
    '0' <= c <= '9'
  }

  predicate AllDigits(s: string) {
    forall i | 0 <= i < |s| :: IsDigit(s[i])
  }

  function DigitChar(d: nat): (c: char)
    requires d < 10
    ensures IsDigit(c)
    ensures c as int - '0' as int == d
  {
    (d + '0' as int) as char
  }

  function DigitValue(c: char): (d: nat)
    requires IsDigit(c)
    ensures d < 10
    ensures DigitChar(d) == c
  {
    c as int - '0' as int
  }

  /** The shortest decimal spelling of `n`: digits only, no leading zero. */
  function NatToDecimal(n: nat): (s: string)
    decreases n
    ensures |s| >= 1 && AllDigits(s)
    ensures |s| > 1 ==> s[0] != '0'
    ensures s == "0" <==> n == 0
  {
    if n < 10 then [DigitChar(n)]
    else NatToDecimal(n / 10) + [DigitChar(n % 10)]
  }

  /** `Long.toString(x)`: an optional minus sign followed by the digits of |x|. */
  function LongToString(x: Int64): (s: string)
    ensures |s| >= 1
    ensures s[0] == '-' <==> x < 0
    ensures x < 0 ==> |s| >= 2 && AllDigits(s[1..]) && s[1] != '0'
    ensures x >= 0 ==> AllDigits(s) && (|s| > 1 ==> s[0] != '0')
  {
    if x < 0 then "-" + NatToDecimal(-(x as int)) else NatToDecimal(x)
  }

  /** The value of a string of decimal digits, most significant first. */
  function DigitsValue(s: string): (n: nat)
    requires AllDigits(s)
  {
    if |s| == 0 then 0
    else DigitsValue(s[..|s| - 1]) * 10 + DigitValue(s[|s| - 1])
  }

  /** Reads back an optionally signed decimal integer; `None` when `s` is not one. */
  function ParseLong(s: string): (r: Option<int>)
    ensures r.Some? ==> |s| >= 1
  {
    if |s| >= 2 && s[0] == '-' && AllDigits(s[1..]) then Some(0 - DigitsValue(s[1..]) as int)
    else if |s| >= 1 && AllDigits(s) then Some(DigitsValue(s))
    else None
  }

  lemma {:induction false} DigitsOfNat(n: nat)
    ensures DigitsValue(NatToDecimal(n)) == n
    decreases n
  {
    if n >= 10 {
      var s := NatToDecimal(n);
      var prefix := NatToDecimal(n / 10);
      assert s[..|s| - 1] == prefix;
      DigitsOfNat(n / 10);
    }
  }

  /** Parsing inverts `Long.toString`, so distinct draws give distinct `z` values. */
  lemma LongToStringRoundTrip(x: Int64)
    ensures ParseLong(LongToString(x)) == Some(x as int)
  {
    var s := LongToString(x);
    if x < 0 {
      var digits := NatToDecimal(-(x as int));
      assert s == "-" + digits;
      assert s[1..] == digits;
      DigitsOfNat(-(x as int));
      assert ParseLong(s) == Some(0 - DigitsValue(digits) as int);
    } else {
      assert s == NatToDecimal(x as int);
      assert IsDigit(s[0]) && s[0] != '-';
      DigitsOfNat(x as int);
      assert ParseLong(s) == Some(DigitsValue(s) as int);
    }
  }

  lemma LongToStringInjective(x: Int64, y: Int64)
    ensures LongToString(x) == LongToString(y) ==> x == y
  {
    LongToStringRoundTrip(x);
    LongToStringRoundTrip(y);
  }
}
