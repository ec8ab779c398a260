/** Natural numbers written in decimal. */
module Decimals {

  predicate IsDigit(c: char) {
    '0' <= c <= '9'
  }

  function DigitOf(d: nat): char
    requires d < 10
  {
    '0' + d as char
  }

  function Written(n: nat): string {
    if n < 10 then [DigitOf(n)] else Written(n / 10) + [DigitOf(n % 10)]
  }

  predicate AllDigits(s: string) {
    forall i :: 0 <= i < |s| ==> IsDigit(s[i])
  }

  function DigitValue(c: char): nat {
    if IsDigit(c) then (c - '0') as nat else 0
  }

  /** The number a run of digits says. */
  function Value(s: string): nat {
    if s == "" then 0 else 10 * Value(s[..|s| - 1]) + DigitValue(s[|s| - 1])
  }

  lemma {:induction false} WrittenReads(n: nat)
    ensures Written(n) != "" && AllDigits(Written(n)) && Value(Written(n)) == n
  {
    if n < 10 {
      assert Written(n)[..0] == "";
    } else {
      WrittenReads(n / 10);
      assert Written(n)[..|Written(n)| - 1] == Written(n / 10);
    }
  }

  /** Different numbers are written differently. */
  lemma WrittenIsInjective(m: nat, n: nat)
    requires Written(m) == Written(n)
    ensures m == n
  {
    WrittenReads(m);
    WrittenReads(n);
  }
}
