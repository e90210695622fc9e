/** Decimal numerals as strings. */
module Numerals {
  predicate IsDigit(c: char) {
    '0' <= c <= '9'
  }

  predicate AllDigits(s: string) {
    forall i :: 0 <= i < |s| ==> IsDigit(s[i])
  }

  function Pow10(n: nat): (p: int)
    ensures p > 0
  {
    if n == 0 then 1 else 10 * Pow10(n - 1)
  }

  function Val(s: string): (v: nat)
    requires AllDigits(s)
  {
    if s == [] then 0 else 10 * Val(s[..|s| - 1]) + (s[|s| - 1] as int - '0' as int)
  }

  function DigitChar(n: nat): char
    requires n < 10
  {
    '0' + n as char
  }

  function Digits(n: nat): (s: string)
    ensures |s| > 0 && AllDigits(s)
  {
    if n < 10 then [DigitChar(n)] else Digits(n / 10) + [DigitChar(n % 10)]
  }

  function Zeros(n: nat): (s: string)
    ensures |s| == n && AllDigits(s)
  {
    seq(n, _ => '0')
  }

  lemma {:induction false} DigitsVal(n: nat)
    ensures Val(Digits(n)) == n
  {
    if n >= 10 {
      DigitsVal(n / 10);
      assert Digits(n)[..|Digits(n)| - 1] == Digits(n / 10);
    } else {
      assert Digits(n)[..0] == [];
    }
  }

  lemma {:induction false} LeadingZeros(n: nat, s: string)
    requires AllDigits(s)
    ensures AllDigits(Zeros(n) + s) && Val(Zeros(n) + s) == Val(s)
    decreases n, |s|
  {
    if s != [] {
      LeadingZeros(n, s[..|s| - 1]);
      assert (Zeros(n) + s)[..|Zeros(n) + s| - 1] == Zeros(n) + s[..|s| - 1];
    } else if n > 0 {
      LeadingZeros(n - 1, s);
      assert (Zeros(n) + s)[..n - 1] == Zeros(n - 1) + s;
    }
  }

  lemma AllDigitsJoin(a: string, b: string)
    requires AllDigits(a) && AllDigits(b)
    ensures AllDigits(a + b)
  {
  }

  predicate IsSign(s: string) {
    s == "" || s == "+" || s == "-"
  }

  function Negated(sign: string, n: int): int {
    if sign == "-" then -n else n
  }

  function SplitSign(s: string): (string, string) {
    if s != "" && (s[0] == '+' || s[0] == '-') then (s[..1], s[1..]) else ("", s)
  }

  lemma SplitSignOf(sign: string, rest: string)
    requires IsSign(sign) && (rest == "" || (rest[0] != '+' && rest[0] != '-'))
    ensures SplitSign(sign + rest) == (sign, rest)
  {
    assert sign != "" ==> (sign + rest)[..1] == sign && (sign + rest)[1..] == rest;
    assert sign == "" ==> sign + rest == rest;
  }

  lemma JoinSign(s: string)
    ensures SplitSign(s).0 + SplitSign(s).1 == s && IsSign(SplitSign(s).0)
  {
    if s != "" {
      assert s[..1] == [s[0]];
    }
  }
}
