/** Decimal numerals, as str(), %d and {} print them and int() and kstrtoint read them back. */
module Digits {
  import opened Ring

  predicate IsDigit(c: char) { '0' <= c <= '9' }

  function Digit(d: nat): (c: char)
    requires d < 10
    ensures IsDigit(c)
  {
    '0' + d as char
  }

  function Dec(n: nat): string {
    if n < 10 then [Digit(n)] else Dec(n / 10) + [Digit(n % 10)]
  }

  predicate AllDigits(s: string) { forall i :: 0 <= i < |s| ==> IsDigit(s[i]) }

  function Value(s: string): nat
    requires AllDigits(s)
  {
    if s == [] then 0 else 10 * Value(s[..|s| - 1]) + (s[|s| - 1] - '0') as nat
  }

  /** None for what is not a nonempty string of digits. */
  function ParseNat(s: string): Option<nat> {
    if s != [] && AllDigits(s) then Some(Value(s)) else None
  }

  lemma DigitValue(d: nat)
    requires d < 10
    ensures (Digit(d) - '0') as nat == d
  {}

  lemma {:induction false} DecReadsBack(n: nat)
    ensures Dec(n) != [] && AllDigits(Dec(n)) && ParseNat(Dec(n)) == Some(n)
  {
    var s, last := Dec(n), n % 10;
    DigitValue(last);
    if n >= 10 {
      DecReadsBack(n / 10);
    } else {
      assert Value([]) == 0;
    }
    assert s[|s| - 1] == Digit(last) && s[..|s| - 1] == if n >= 10 then Dec(n / 10) else [];
  }
}
