/** Numbers in decimal: `std::to_string`, and what `operator>>` makes of it. */
module Decimals {

  function Digit(n: nat): (c: char)
    requires n < 10
    ensures '0' <= c <= '9' && c as int - '0' as int == n
  {
    ('0' as int + n) as char
  }

  predicate AllDigits(s: string) {
    forall k :: 0 <= k < |s| ==> '0' <= s[k] <= '9'
  }

  /** Digits, the first of them not zero unless it is the only one. */
  function Decimal(n: nat): (s: string)
    ensures s != "" && AllDigits(s) && (s[0] == '0' ==> s == "0" && n == 0)
  {
    if n < 10 then [Digit(n)] else Decimal(n / 10) + [Digit(n % 10)]
  }

  function Undecimal(s: string): nat {
    if s == "" then 0
    else
      var c := s[|s| - 1];
      10 * Undecimal(s[..|s| - 1]) + (if '0' <= c <= '9' then c as int - '0' as int else 0)
  }

  lemma {:induction false} DecimalBack(n: nat)
    ensures Undecimal(Decimal(n)) == n
  {
    var s := Decimal(n);
    if n < 10 {
      assert Undecimal(s[..0]) == 0;
    } else {
      assert s[..|s| - 1] == Decimal(n / 10);
      DecimalBack(n / 10);
    }
  }

  /** Digits, behind a sign exactly if the number is negative. */
  function Signed(n: int): (s: string)
    ensures s != "" && (s[0] == '-' <==> n < 0)
    ensures forall k :: 0 <= k < |s| ==> '0' <= s[k] <= '9' || (k == 0 && s[k] == '-')
  {
    if n < 0 then "-" + Decimal(-n) else Decimal(n)
  }

  function Unsigned(s: string): int {
    if s != "" && s[0] == '-' then 0 - Undecimal(s[1..]) else Undecimal(s)
  }

  lemma SignedBack(n: int)
    ensures Unsigned(Signed(n)) == n
  {
    if n < 0 {
      var s := Decimal(-n);
      assert ("-" + s)[1..] == s;
      DecimalBack(-n);
    } else {
      assert '0' <= Decimal(n)[0] <= '9';
      DecimalBack(n);
    }
  }
}
