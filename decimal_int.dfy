/** Python's `int()` applied to a string of ASCII decimal digits, and the
    canonical decimal spelling of a natural number as its inverse. */
module DecimalInt {

  predicate IsAsciiDigit(c: char)
  {
    '0' <= c <= '9'
  }

  /** Every character is one of `0123456789` (vacuously true of ""). */
  predicate AllAsciiDigits(t: string)
  {
    forall i :: 0 <= i < |t| ==> IsAsciiDigit(t[i])
  }

  function DigitValue(c: char): (d: nat)
    requires IsAsciiDigit(c)
    ensures d < 10
  {
    (c as int) - ('0' as int)
  }

  function DigitChar(d: nat): (c: char)
    requires d < 10
    ensures IsAsciiDigit(c) && DigitValue(c) == d
  {
    ('0' as int + d) as char
  }

  function Pow10(k: nat): (p: nat)
    ensures p >= 1
  {
    if k == 0 then 1 else 10 * Pow10(k - 1)
  }

  /** The number a digit string denotes, read left to right; "" reads as 0,
      which is the value `int()` gives to a mode that was never set. */
  function DecimalValue(t: string): (n: nat)
    requires AllAsciiDigits(t)
    ensures n < Pow10(|t|)
  {
    if t == [] then 0 else 10 * DecimalValue(t[..|t| - 1]) + DigitValue(t[|t| - 1])
  }

  /** The shortest decimal spelling of `n`, without leading zeros. */
  function Decimal(n: nat): (t: string)
    ensures |t| > 0 && AllAsciiDigits(t)
    ensures t[0] == '0' ==> n == 0
  {
    if n < 10 then [DigitChar(n)] else Decimal(n / 10) + [DigitChar(n % 10)]
  }

  /** Reading back the spelling of a number gives the number. */
  lemma {:induction false} DecimalRoundTrip(n: nat)
    ensures DecimalValue(Decimal(n)) == n
  {
    if n >= 10 {
      var t := Decimal(n);
      assert t[..|t| - 1] == Decimal(n / 10);
      DecimalRoundTrip(n / 10);
    }
  }

  /** A digit string without a leading zero has a non-zero value. */
  lemma {:induction false} LeadingDigitPositive(t: string)
    requires AllAsciiDigits(t) && |t| > 0 && t[0] != '0'
    ensures DecimalValue(t) > 0
    decreases |t|
  {
    if |t| > 1 {
      LeadingDigitPositive(t[..|t| - 1]);
    }
  }

  /** Spelling back the value of a canonical digit string gives the string. */
  lemma {:induction false} ValueRoundTrip(t: string)
    requires AllAsciiDigits(t) && |t| > 0 && (t[0] == '0' ==> |t| == 1)
    ensures Decimal(DecimalValue(t)) == t
    decreases |t|
  {
    if |t| > 1 {
      var p := t[..|t| - 1];
      LeadingDigitPositive(p);
      ValueRoundTrip(p);
      var n := DecimalValue(t);
      assert n / 10 == DecimalValue(p) && n % 10 == DigitValue(t[|t| - 1]);
      assert t == p + [t[|t| - 1]];
    }
  }

  /** A string of digits followed by one more digit. */
  lemma AppendDigit(t: string, c: char)
    requires AllAsciiDigits(t) && IsAsciiDigit(c)
    ensures AllAsciiDigits(t + [c])
    ensures DecimalValue(t + [c]) == 10 * DecimalValue(t) + DigitValue(c)
  {
    assert (t + [c])[..|t|] == t;
  }

  /** Leading zeros do not change the value: `int("007") == 7`. */
  lemma {:induction false} LeadingZeroIgnored(t: string)
    requires AllAsciiDigits(t)
    ensures AllAsciiDigits("0" + t)
    ensures DecimalValue("0" + t) == DecimalValue(t)
    decreases |t|
  {
    if t != [] {
      var p := t[..|t| - 1];
      LeadingZeroIgnored(p);
      assert "0" + t == ("0" + p) + [t[|t| - 1]];
      AppendDigit("0" + p, t[|t| - 1]);
    }
  }
}
