/** Decimal numbers as Go prints and reads them: %d and strconv.Atoi. */
module Decimal {
  import opened Wrappers

  predicate IsDigit(c: char) {
    '0' <= c <= '9'
  }

  predicate AllDigits(s: string) {
    forall i :: 0 <= i < |s| ==> IsDigit(s[i])
  }

  predicate InInt64(n: int) {
    -0x8000_0000_0000_0000 <= n < 0x8000_0000_0000_0000
  }

  function DigitsOf(n: nat): (s: string)
    ensures s != "" && AllDigits(s)
  {
    if n < 10 then [(n + '0' as int) as char]
    else DigitsOf(n / 10) + [(n % 10 + '0' as int) as char]
  }

  function ValueOf(s: string): nat
    requires AllDigits(s)
  {
    if s == "" then 0 else 10 * ValueOf(s[..|s| - 1]) + (s[|s| - 1] as int - '0' as int)
  }

  lemma {:induction false} ValueOfDigits(n: nat)
    ensures ValueOf(DigitsOf(n)) == n
  {
    if n >= 10 {
      ValueOfDigits(n / 10);
      assert DigitsOf(n)[..|DigitsOf(n)| - 1] == DigitsOf(n / 10);
    } else {
      assert DigitsOf(n)[..0] == "";
    }
  }

  /** %d */
  function Itoa(n: int): string {
    if n < 0 then "-" + DigitsOf(-n) else DigitsOf(n)
  }

  /** strconv.Atoi on a 64-bit machine: an optional sign, digits, and no overflow. */
  function Atoi(s: string): Option<int> {
    var signed := s != "" && (s[0] == '-' || s[0] == '+');
    var digits := if signed then s[1..] else s;
    if digits == "" || !AllDigits(digits) then None
    else
      var n: int := if signed && s[0] == '-' then 0 - ValueOf(digits) else ValueOf(digits);
      if InInt64(n) then Some(n) else None
  }

  lemma AtoiInvertsItoa(n: int)
    ensures Atoi(Itoa(n)) == if InInt64(n) then Some(n) else None
  {
    var digits := DigitsOf(if n < 0 then -n else n);
    ValueOfDigits(if n < 0 then -n else n);
    assert n < 0 ==> Itoa(n)[0] == '-' && Itoa(n)[1..] == digits;
    assert IsDigit(digits[0]);
  }
}
