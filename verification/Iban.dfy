/** The check as the web client makes it before a form is sent. */
module Iban {
  import opened Wrappers
  import opened Numerals
  import opened AccountNumber

  const ACCOUNT_NUMBER_LENGTH := 20

  function ToUpper(c: char): char
    requires IsLetter(c)
  {
    if c <= 'Z' then c else 'A' + (c - 'a')
  }

  function LetterCode(c: char): (n: nat)
    requires IsLetter(c)
    ensures n == NumericValue(c)
  {
    ToUpper(c) as int - 'A' as int + 10
  }

  method ToNumericString(input: string) returns (result: string)
    ensures result == Numeric(input)
  {
    result := "";
    for i := 0 to |input|
      invariant result == Numeric(input[..i])
    {
      assert input[..i + 1][..i] == input[..i];
      if IsLetter(input[i]) {
        result := result + Digits(LetterCode(input[i]));
      } else {
        result := result + [input[i]];
      }
    }
    assert input[..|input|] == input;
  }

  /** A string that is not a plain run of digits here raises an error, which is caught as false. */
  function RemainderIsOne(numeric: string): bool {
    AllDigits(numeric) && Val(numeric) % 97 == 1
  }

  predicate IsValidFernbankAccountNumber(accountNumber: string) {
    && |accountNumber| == ACCOUNT_NUMBER_LENGTH
    && AllDigits(accountNumber[2..4])
    && AllDigits(accountNumber[4..])
    && RemainderIsOne(Numeric(Rearranged(accountNumber)))
  }

  /** The client accepts exactly what the server accepts with digits from the third position on. */
  lemma ClientMatchesServer(s: string)
    ensures IsValidFernbankAccountNumber(s) <==> IsValidChecksum(s) == Success(true) && |s| >= 2 && AllDigits(s[2..])
  {
    if |s| == 20 {
      TailDigits(s);
      if AllDigits(s[2..]) {
        DigitFirst(s);
      }
    }
  }

  lemma TailDigits(s: string)
    requires |s| == 20
    ensures AllDigits(s[2..]) <==> AllDigits(s[2..4]) && AllDigits(s[4..])
  {
    assert s[2..] == s[2..4] + s[4..];
    if AllDigits(s[2..]) {
      SubDigits(s, 2, 4);
      SubDigits(s, 4, 20);
    } else if AllDigits(s[2..4]) && AllDigits(s[4..]) {
      AllDigitsJoin(s[2..4], s[4..]);
    }
  }

  lemma DigitFirst(s: string)
    requires |s| == 20 && AllDigits(s[2..])
    ensures var n := Numeric(Rearranged(s));
            n != "" && IsDigit(n[0]) && SplitSign(n) == ("", n)
  {
    var rest := s[..2] + s[2..4];
    assert Rearranged(s) == s[4..] + rest;
    NumericJoins(s[4..], rest);
    TailDigits(s);
    NumericOfDigits(s[4..]);
    assert Numeric(Rearranged(s))[0] == s[4..][0];
  }

  /** On numbers of the ordinary shape the two checks agree, and neither raises an error. */
  lemma ValidatorsAgree(s: string)
    requires |s| >= 2 && IsAlphanumeric(s[..2]) && AllDigits(s[2..])
    ensures IsValidChecksum(s) == Success(IsValidFernbankAccountNumber(s))
  {
    ClientMatchesServer(s);
    if |s| == 20 {
      ValidMeans(s);
    }
  }
}
