// Decimal numerals as fmt's %d and strconv.Itoa print them, and their parser.
module Decimal {
  import opened Tokens

  predicate IsDigit(c: char) { '0' <= c <= '9' }

  ghost predicate Digits(s: string) { forall i :: 0 <= i < |s| ==> IsDigit(s[i]) }

  function Numeral(n: nat): (s: string)
    ensures s != [] && Digits(s)
  {
    if n < 10 then [n as char + '0'] else Numeral(n / 10) + [(n % 10) as char + '0']
  }

  function Itoa(n: int): string {
    if n < 0 then "-" + Numeral(-n) else Numeral(n)
  }

  /** The number a non-empty digit string denotes. */
  function Parse(s: string): Option<nat> {
    if s == [] || !IsDigit(s[|s| - 1]) then None
    else
      var d := (s[|s| - 1] - '0') as nat;
      if |s| == 1 then Some(d)
      else match Parse(s[..|s| - 1])
        case None => None
        case Some(n) => Some(10 * n + d)
  }

  lemma {:induction false} ParseNumeral(n: nat)
    ensures Parse(Numeral(n)) == Some(n)
  {
    if n >= 10 {
      ParseNumeral(n / 10);
      var s := Numeral(n);
      assert s[..|s| - 1] == Numeral(n / 10);
    }
  }

  /** Distinct numbers print differently, and no numeral holds a separator or a wildcard. */
  lemma NumeralInjective(a: nat, b: nat)
    requires Numeral(a) == Numeral(b)
    ensures a == b
  {
    ParseNumeral(a);
    ParseNumeral(b);
  }

  const DIGITS := "0123456789"

  /** Decimal notation: digit by digit from the table, most significant first, no leading zero. */
  lemma NumeralExactly(n: nat)
    ensures n < 10 ==> Numeral(n) == [DIGITS[n]]
    ensures n >= 10 ==> Numeral(n) == Numeral(n / 10) + [DIGITS[n % 10]]
    ensures n > 0 ==> Numeral(n)[0] != '0'
    decreases n
  {
    assert forall d :: 0 <= d < 10 ==> DIGITS[d] == d as char + '0';
    if n >= 10 { NumeralExactly(n / 10); }
  }
}
