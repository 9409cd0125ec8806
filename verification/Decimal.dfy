/** Printing and reading natural numbers in decimal. */
module Decimal {
  import opened Options

  function DigitChar(d: nat): char
    requires d < 10
  {
    '0' + d as char
  }

  predicate IsDigit(c: char) {
    '0' <= c <= '9'
  }

  function DigitValue(c: char): nat
    requires IsDigit(c)
  {
    (c - '0') as nat
  }

  function Digits(n: nat): string {
    if n < 10 then [DigitChar(n)] else Digits(n / 10) + [DigitChar(n % 10)]
  }

  /** The value of a non-empty run of digits; anything else is not a number. */
  function Parse(s: string): Option<nat>
    decreases |s|
  {
    if s == "" then None
    else
      var last := s[|s| - 1];
      if !IsDigit(last) then None
      else if |s| == 1 then Some(DigitValue(last))
      else
        var front := Parse(s[..|s| - 1]);
        if front.None? then None else Some(10 * front.value + DigitValue(last))
  }

  lemma {:induction false} ParseDigits(n: nat)
    ensures Parse(Digits(n)) == Some(n)
    ensures Digits(n) != "" && forall i | 0 <= i < |Digits(n)| :: IsDigit(Digits(n)[i])
    decreases n
  {
    if n >= 10 {
      ParseDigits(n / 10);
      var s := Digits(n);
      assert s[..|s| - 1] == Digits(n / 10);
    }
  }
}
