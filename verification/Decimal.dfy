/** Integers as the verb %d of Go's fmt package prints them. */
module Decimal {
  function Digit(d: nat): (r: char)
    requires d < 10
    ensures r != '-' && '0' <= r <= '9'
  {
    '0' + d as char
  }

  function Digits(n: nat): (r: string)
    ensures r != [] && '-' !in r && forall c <- r :: '0' <= c <= '9'
  {
    if n < 10 then [Digit(n)] else Digits(n / 10) + [Digit(n % 10)]
  }

  function Print(n: int): (r: string)
    ensures r != [] && forall c <- r :: c == '-' || '0' <= c <= '9'
  {
    if n < 0 then "-" + Digits(-n) else Digits(n)
  }

  function Value(s: string): int {
    if s == [] then 0 else Value(s[..|s| - 1]) * 10 + (s[|s| - 1] as int - '0' as int)
  }

  function Scan(s: string): int {
    if s != [] && s[0] == '-' then -Value(s[1..]) else Value(s)
  }

  lemma {:induction false} ValueOfDigits(n: nat)
    ensures Value(Digits(n)) == n
  {
    if n < 10 {
      assert Value([]) == 0;
    } else {
      ValueOfDigits(n / 10);
      var s := Digits(n);
      assert s[..|s| - 1] == Digits(n / 10);
    }
  }

  /** What is printed can be read back. */
  lemma ScanOfPrint(n: int)
    ensures Scan(Print(n)) == n
  {
    if n < 0 {
      ValueOfDigits(-n);
      assert Print(n)[1..] == Digits(-n);
    } else {
      ValueOfDigits(n);
      assert Digits(n)[0] in Digits(n);
    }
  }
}
