// Decimal text of a signed integer, as `std::stringstream << time_t` writes it
// (src/driver/button_event_handler.cpp:138-139): an optional '-' followed by the
// digits of the magnitude, most significant first, with no leading zeros.
// `Parse` is its inverse and is used only to state what the text determines.

module Decimal {

  predicate IsDigit(c: char) {
    '0' <= c <= '9'
  }

  predicate AllDigits(s: string) {
    forall i :: 0 <= i < |s| ==> IsDigit(s[i])
  }

  /** Non-empty digits, optionally preceded by a minus sign. */
  predicate IsDecimal(s: string) {
    (|s| > 0 && AllDigits(s)) || (|s| > 1 && s[0] == '-' && AllDigits(s[1..]))
  }

  function DigitValue(c: char): (d: nat)
    requires IsDigit(c)
    ensures d < 10
  {
    c as int - '0' as int
  }

  function DigitChar(d: nat): (c: char)
    requires d < 10
    ensures IsDigit(c) && DigitValue(c) == d
  {
    ('0' as int + d) as char
  }

  /** The digits of `n`, most significant first. */
  function Digits(n: nat): (s: string)
    ensures |s| > 0 && AllDigits(s)
    ensures |s| > 1 ==> s[0] != '0'
  {
    if n < 10 then [DigitChar(n)] else Digits(n / 10) + [DigitChar(n % 10)]
  }

  /** The value of a string of digits, read most significant first. */
  function ParseDigits(s: string): nat
    requires AllDigits(s)
  {
    if s == [] then 0 else 10 * ParseDigits(s[..|s| - 1]) + DigitValue(s[|s| - 1])
  }

  /** The text `ss << n` produces for a signed integer `n`. */
  function Format(n: int): (s: string)
    ensures IsDecimal(s)
    ensures (s[0] == '-') <==> n < 0
  {
    if n < 0 then "-" + Digits(-n) else Digits(n)
  }

  function Parse(s: string): int
    requires IsDecimal(s)
  {
    if s[0] == '-' then 0 - ParseDigits(s[1..]) as int else ParseDigits(s)
  }

  lemma {:induction false} ParseDigitsOfDigits(n: nat)
    ensures ParseDigits(Digits(n)) == n
  {
    var s := Digits(n);
    if n >= 10 {
      ParseDigitsOfDigits(n / 10);
      assert s[..|s| - 1] == Digits(n / 10);
    }
  }

  /** Reading back the formatted text gives the number that was formatted. */
  lemma FormatRoundTrip(n: int)
    ensures Parse(Format(n)) == n
  {
    if n < 0 {
      ParseDigitsOfDigits(-n);
      assert Format(n)[1..] == Digits(-n);
    } else {
      ParseDigitsOfDigits(n);
    }
  }

  /** Distinct numbers are formatted as distinct texts. */
  lemma FormatInjective(a: int, b: int)
    requires a != b
    ensures Format(a) != Format(b)
  {
    FormatRoundTrip(a);
    FormatRoundTrip(b);
  }
}
