/** Account numbers with ISO/IEC 7064 MOD 97-10 check digits, as the server computes and checks them. */
module AccountNumber {
  import opened Wrappers
  import opened Numerals

  const COUNTRY_CODE := "FB"
  const BBAN_LENGTH := 16
  const MAX_GENERATION_ATTEMPTS := 5

  datatype NumberError = NotANumber | AllTaken

  predicate IsLetter(c: char) {
    'A' <= c <= 'Z' || 'a' <= c <= 'z'
  }

  predicate IsAlphanumeric(s: string) {
    forall i :: 0 <= i < |s| ==> IsLetter(s[i]) || IsDigit(s[i])
  }

  function NumericValue(c: char): (n: nat)
    requires IsLetter(c)
    ensures 10 <= n <= 35
  {
    if c <= 'Z' then c as int - 'A' as int + 10 else c as int - 'a' as int + 10
  }

  function Expand(c: char): string {
    if IsLetter(c) then Digits(NumericValue(c)) else [c]
  }

  function Numeric(s: string): string {
    if s == [] then [] else Numeric(s[..|s| - 1]) + Expand(s[|s| - 1])
  }

  method ToNumericString(input: string) returns (result: string)
    ensures result == Numeric(input)
  {
    result := "";
    for i := 0 to |input|
      invariant result == Numeric(input[..i])
    {
      assert input[..i + 1][..i] == input[..i];
      if IsLetter(input[i]) {
        result := result + Digits(NumericValue(input[i]));
      } else {
        result := result + [input[i]];
      }
    }
    assert input[..|input|] == input;
  }

  /** An optional sign and at least one digit. */
  function ParseInteger(s: string): Option<int> {
    var (sign, digits) := SplitSign(s);
    if digits != "" && AllDigits(digits) then Some(Negated(sign, Val(digits))) else None
  }

  function Rearranged(s: string): string
    requires |s| >= 4
  {
    s[4..] + s[..2] + s[2..4]
  }

  function IsValidChecksum(accountNumber: string): Result<bool, NumberError> {
    if |accountNumber| != |COUNTRY_CODE| + 2 + BBAN_LENGTH then Success(false)
    else match ParseInteger(Numeric(Rearranged(accountNumber)))
      case None => Failure(NotANumber)
      case Some(n) => Success(n % 97 == 1)
  }

  /** The shape every generated number has: two letters or digits, then eighteen digits. */
  predicate WellFormed(s: string) {
    |s| == 20 && IsAlphanumeric(s[..2]) && AllDigits(s[2..])
  }

  predicate IsBban(s: string) {
    |s| == BBAN_LENGTH && AllDigits(s)
  }

  function CheckDigits(bban: string): (s: string)
    requires IsBban(bban)
  {
    var numeric := Numeric(bban + COUNTRY_CODE + "00");
    NumericFB(bban, "00");
    TwoDigits(98 - Val(numeric) % 97)
  }

  function TwoDigits(n: nat): (s: string)
    requires n < 100
  {
    [DigitChar(n / 10), DigitChar(n % 10)]
  }

  function Candidate(bban: string): string
    requires IsBban(bban)
  {
    COUNTRY_CODE + CheckDigits(bban) + bban
  }

  /** The random numbers drawn are `drawn(0)`, `drawn(1)`, ...; `taken` are the numbers already in use. */
  method Generate(taken: set<string>, drawn: nat -> string) returns (r: Result<string, NumberError>)
    requires forall k: nat :: IsBban(drawn(k))
    ensures r.Success? ==> r.value !in taken && WellFormed(r.value) && IsValidChecksum(r.value) == Success(true)
    ensures r.Success? ==> exists k: nat :: k < 5 && r.value == Candidate(drawn(k)) &&
                                            forall j: nat :: j < k ==> Candidate(drawn(j)) in taken
    ensures r.Failure? <==> forall k: nat :: k < 5 ==> Candidate(drawn(k)) in taken
  {
    for attempt := 0 to MAX_GENERATION_ATTEMPTS
      invariant forall j: nat :: j < attempt ==> Candidate(drawn(j)) in taken
    {
      var candidate := Candidate(drawn(attempt));
      if candidate !in taken {
        CandidatePasses(drawn(attempt));
        return Success(candidate);
      }
    }
    return Failure(AllTaken);
  }

  /** Letters count from A as 10 to Z as 35, in either case, and each stands for two digits. */
  lemma LetterValues(c: char)
    requires 'A' <= c <= 'Z'
    ensures NumericValue('A') == 10 && NumericValue('Z') == 35
    ensures c < 'Z' ==> NumericValue(c + (1 as char)) == NumericValue(c) + 1
    ensures NumericValue(c + (32 as char)) == NumericValue(c)
    ensures |Expand(c)| == 2 && AllDigits(Expand(c)) && Val(Expand(c)) == NumericValue(c)
  {
    DigitsVal(NumericValue(c));
    assert |Digits(NumericValue(c) / 10)| == 1;
  }

  /** Any other length is no valid number, and at this length a numeral that cannot be read is an error. */
  lemma OtherLengths(s: string)
    ensures |s| != 20 ==> IsValidChecksum(s) == Success(false)
    ensures |s| == 20 ==>
            (IsValidChecksum(s) == Failure(NotANumber) <==> ParseInteger(Numeric(s[4..] + s[..2] + s[2..4])) == None)
  {
  }

  // ---- The string that is checked ----

  lemma {:induction false} NumericJoins(s: string, t: string)
    ensures Numeric(s + t) == Numeric(s) + Numeric(t)
  {
    if t == "" {
      assert s + t == s;
    } else {
      var u := t[..|t| - 1];
      assert (s + t)[..|s + t| - 1] == s + u;
      NumericJoins(s, u);
      assert (s + t)[|s + t| - 1] == t[|t| - 1];
      Regroup(Numeric(s), Numeric(u), Expand(t[|t| - 1]));
    }
  }

  lemma Regroup(a: string, b: string, c: string)
    ensures a + b + c == a + (b + c)
  {
  }

  lemma {:induction false} NumericOfDigits(s: string)
    requires AllDigits(s)
    ensures Numeric(s) == s
  {
    if s != "" {
      NumericOfDigits(s[..|s| - 1]);
    }
  }

  lemma {:induction false} NumericIsDigits(s: string)
    requires IsAlphanumeric(s)
    ensures AllDigits(Numeric(s)) && |s| <= |Numeric(s)| <= 2 * |s|
  {
    if s != "" {
      var c := s[|s| - 1];
      NumericIsDigits(s[..|s| - 1]);
      if IsLetter(c) {
        assert |Digits(NumericValue(c) / 10)| == 1;
      }
      AllDigitsJoin(Numeric(s[..|s| - 1]), Expand(c));
    }
  }

  lemma NumericFB(bban: string, check: string)
    requires AllDigits(bban) && AllDigits(check)
    ensures Numeric(bban + COUNTRY_CODE + check) == bban + "1511" + check
    ensures AllDigits(bban + "1511" + check)
  {
    NumericJoins(bban + COUNTRY_CODE, check);
    NumericJoins(bban, COUNTRY_CODE);
    NumericOfDigits(bban);
    NumericOfDigits(check);
    CountryCodeNumeric();
  }

  lemma CountryCodeNumeric()
    ensures Numeric("FB") == "1511"
  {
    assert "FB"[..1] == "F" && "F"[..0] == "";
    assert Digits(15) == Digits(1) + "5" == "15" && Digits(11) == Digits(1) + "1" == "11";
    assert Numeric("F") == Numeric("") + Expand('F');
    assert "15" + "11" == "1511";
  }

  function Checked(s: string): string
    requires |s| == 20
  {
    s[4..] + Numeric(s[..2]) + s[2..4]
  }

  lemma CheckedString(s: string)
    requires WellFormed(s)
    ensures Numeric(Rearranged(s)) == Checked(s) && AllDigits(Checked(s)) && 20 <= |Checked(s)| <= 22
  {
    SubDigits(s, 4, 20);
    SubDigits(s, 2, 4);
    NumericJoins(s[4..] + s[..2], s[2..4]);
    NumericJoins(s[4..], s[..2]);
    NumericOfDigits(s[4..]);
    NumericOfDigits(s[2..4]);
    NumericIsDigits(s[..2]);
    AllDigitsJoin(s[4..], Numeric(s[..2]));
    AllDigitsJoin(s[4..] + Numeric(s[..2]), s[2..4]);
  }

  lemma SubDigits(s: string, i: nat, j: nat)
    requires 2 <= i <= j <= |s| && AllDigits(s[2..])
    ensures AllDigits(s[i..j])
  {
    forall k | 0 <= k < j - i ensures IsDigit(s[i..j][k]) {
      assert s[i..j][k] == s[2..][i - 2 + k];
    }
  }

  /** On well-formed numbers the check is the remainder of one numeral. */
  lemma ValidMeans(s: string)
    requires WellFormed(s)
    ensures AllDigits(Checked(s)) && IsValidChecksum(s) == Success(Val(Checked(s)) % 97 == 1)
  {
    CheckedString(s);
    var t := Checked(s);
    assert t[0] == s[4] == s[2..][2];
    assert SplitSign(t) == ("", t);
  }

  // ---- Check digits ----

  lemma CheckDigitsRange(bban: string)
    requires IsBban(bban)
    ensures AllDigits(CheckDigits(bban)) && 2 <= Val(CheckDigits(bban)) <= 98 && |CheckDigits(bban)| == 2
  {
    NumericFB(bban, "00");
    TwoDigitsVal(98 - Val(bban + "1511" + "00") % 97);
  }

  lemma TwoDigitsVal(n: nat)
    requires n < 100
    ensures AllDigits(TwoDigits(n)) && Val(TwoDigits(n)) == n
  {
    var s := TwoDigits(n);
    assert s[..1][..0] == "";
    assert Val(s[..1]) == n / 10;
  }

  /** Exactly one pair of check digits from 02 to 98 makes a number valid: the computed one. */
  lemma CheckDigitsUnique(bban: string, check: string)
    requires IsBban(bban) && |check| == 2 && AllDigits(check) && 2 <= Val(check) <= 98
    ensures IsValidChecksum(COUNTRY_CODE + check + bban) == Success(true) <==> check == CheckDigits(bban)
  {
    UniqueFor(bban, check, Base(bban), Base(bban) + Val(check));
  }

  lemma UniqueFor(bban: string, check: string, base: nat, n: nat)
    requires IsBban(bban) && |check| == 2 && AllDigits(check) && 2 <= Val(check) <= 98
    requires base == Base(bban) && n == base + Val(check)
    ensures IsValidChecksum(COUNTRY_CODE + check + bban) == Success(true) <==> check == CheckDigits(bban)
  {
    ValidByRemainder(bban, check, n);
    CheckDigitsVal(bban, base);
    PassesIff(base, check, n);
  }

  /** The value with check digits 00. */
  function Base(bban: string): (n: nat)
    requires IsBban(bban)
  {
    AllDigitsJoin(bban, "1511");
    100 * Val(bban + "1511")
  }

  lemma PassesIff(base: nat, check: string, n: nat)
    requires |check| == 2 && AllDigits(check) && 2 <= Val(check) <= 98 && n == base + Val(check)
    ensures n % 97 == 1 <==> check == TwoDigits(98 - base % 97)
  {
    Remainders(base, Val(check));
    TwoDigitsVal(98 - base % 97);
    TwoDigitsInjective(check, TwoDigits(98 - base % 97));
  }

  lemma ValidByRemainder(bban: string, check: string, n: nat)
    requires IsBban(bban) && |check| == 2 && AllDigits(check) && n == Base(bban) + Val(check)
    ensures IsValidChecksum(COUNTRY_CODE + check + bban) == Success(n % 97 == 1)
  {
    CheckedOf(bban, check);
    CheckedVal(bban, check);
    ValidIs(COUNTRY_CODE + check + bban, n);
  }

  lemma ValidIs(s: string, n: nat)
    requires WellFormed(s) && AllDigits(Checked(s)) && Val(Checked(s)) == n
    ensures IsValidChecksum(s) == Success(n % 97 == 1)
  {
    ValidMeans(s);
  }

  lemma CheckedVal(bban: string, check: string)
    requires IsBban(bban) && |check| == 2 && AllDigits(check)
    ensures AllDigits(bban + "1511" + check) && Val(bban + "1511" + check) == Base(bban) + Val(check)
  {
    AllDigitsJoin(bban, "1511");
    TwoMore(bban + "1511", check);
  }

  lemma CheckedOf(bban: string, check: string)
    requires IsBban(bban) && |check| == 2 && AllDigits(check)
    ensures WellFormed(COUNTRY_CODE + check + bban) && Checked(COUNTRY_CODE + check + bban) == bban + "1511" + check
  {
    Parts(bban, check);
    CountryCodeNumeric();
  }

  lemma CheckDigitsVal(bban: string, base: nat)
    requires IsBban(bban) && base == Base(bban)
    ensures CheckDigits(bban) == TwoDigits(98 - base % 97)
  {
    NumericFB(bban, "00");
    assert AllDigits("00") && Val("00") == 0 by {
      PairVal("00");
    }
    CheckedVal(bban, "00");
  }

  lemma Remainders(n: nat, c: nat)
    requires 2 <= c <= 98
    ensures (n + c) % 97 == 1 <==> c == 98 - n % 97
  {
  }

  lemma TwoDigitsInjective(a: string, b: string)
    requires |a| == |b| == 2 && AllDigits(a) && AllDigits(b)
    ensures Val(a) == Val(b) <==> a == b
  {
    PairVal(a);
    PairVal(b);
  }

  lemma PairVal(s: string)
    requires |s| == 2 && AllDigits(s)
    ensures Val(s) == 10 * (s[0] as int - '0' as int) + (s[1] as int - '0' as int)
  {
    var t := s[..1];
    assert t[..0] == "" && t[0] == s[0];
    assert Val(t) == s[0] as int - '0' as int;
  }

  lemma Parts(bban: string, check: string)
    requires IsBban(bban) && |check| == 2 && AllDigits(check)
    ensures var s := COUNTRY_CODE + check + bban;
            WellFormed(s) && s[4..] == bban && s[..2] == "FB" && s[2..4] == check
  {
    var s := COUNTRY_CODE + check + bban;
    assert s[2..] == check + bban;
    AllDigitsJoin(check, bban);
  }

  lemma TwoMore(s: string, t: string)
    requires AllDigits(s) && AllDigits(t) && |t| == 2
    ensures AllDigits(s + t) && Val(s + t) == 100 * Val(s) + Val(t)
  {
    var u := s + t;
    AllDigitsJoin(s, t);
    var v := u[..|u| - 1];
    assert v[..|v| - 1] == s && v[|s|] == t[0] && u[|s| + 1] == t[1];
    PairVal(t);
  }

  lemma CandidatePasses(bban: string)
    requires IsBban(bban)
    ensures WellFormed(Candidate(bban)) && IsValidChecksum(Candidate(bban)) == Success(true)
    ensures Candidate(bban)[..2] == "FB" && Candidate(bban)[4..] == bban
  {
    CheckDigitsRange(bban);
    Parts(bban, CheckDigits(bban));
    CheckDigitsUnique(bban, CheckDigits(bban));
  }

  // ---- Errors that are caught ----

  /** What a difference of digits at a place adds to the value. */
  function Weighted(a: int, k: nat): int {
    a * Pow10(k)
  }

  /** What swapping digits that differ by a adds to the value. */
  function Swapped(a: int, i: nat, j: nat): int {
    a * (Pow10(i) - Pow10(j))
  }

  /** Replacing one digit moves the value by the difference times the digit's weight. */
  lemma {:induction false} ValUpdate(s: string, i: nat, d: char)
    requires AllDigits(s) && i < |s| && IsDigit(d)
    ensures AllDigits(s[i := d])
    ensures Val(s[i := d]) == Val(s) + Weighted(d as int - s[i] as int, |s| - 1 - i)
  {
    var t := s[i := d];
    var n := |s| - 1;
    if i == n {
      assert t[..n] == s[..n];
    } else {
      assert t[..n] == s[..n][i := d];
      ValUpdate(s[..n], i, d);
      var w := Pow10(n - 1 - i);
      TenTimes(d as int - s[i] as int, w);
      assert Pow10(n - i) == 10 * w;
    }
  }

  lemma TenTimes(a: int, w: int)
    ensures a * (10 * w) == 10 * (a * w)
  {
  }

  lemma TenCancels(m: int)
    requires (10 * m) % 97 == 0
    ensures m % 97 == 0
  {
    var q := (10 * m) / 97;
    assert m == 97 * (68 * q - 7 * m);
  }

  /** Ten is invertible modulo 97, so a weight never hides a difference. */
  lemma {:induction false} WeightCancels(a: int, k: nat)
    requires (a * Pow10(k)) % 97 == 0
    ensures a % 97 == 0
  {
    if k > 0 {
      TenTimes(a, Pow10(k - 1));
      TenCancels(a * Pow10(k - 1));
      WeightCancels(a, k - 1);
    }
  }

  /** The inverse of each digit modulo 97. */
  function Inverse(b: nat): nat
    requires 1 <= b <= 9
  {
    [1, 49, 65, 73, 39, 81, 14, 85, 54][b - 1]
  }

  lemma SmallFactorCancels(a: int, m: int)
    requires -9 <= a <= 9 && a != 0 && (a * m) % 97 == 0
    ensures m % 97 == 0
  {
    var b := if a < 0 then -a else a;
    assert b * m == if a < 0 then -(a * m) else a * m;
    DigitCancels(b, m);
  }

  lemma DigitCancels(b: nat, m: int)
    requires 1 <= b <= 9 && (b * m) % 97 == 0
    ensures m % 97 == 0
  {
    var q := (b * m) / 97;
    var c := (Inverse(b) * b) / 97;
    assert Inverse(b) * b == 97 * c + 1;
    assert b * m == 97 * q;
    Bezout(b, Inverse(b), c, q, m);
    assert m == 97 * (Inverse(b) * q - c * m);
    Multiple(Inverse(b) * q - c * m);
  }

  lemma Bezout(b: int, inverse: int, c: int, q: int, m: int)
    requires inverse * b == 97 * c + 1 && b * m == 97 * q
    ensures m == 97 * (inverse * q - c * m)
  {
    assert inverse * (b * m) == (inverse * b) * m;
    assert inverse * (97 * q) == 97 * (inverse * q);
    assert (97 * c + 1) * m == 97 * (c * m) + m;
  }

  lemma Multiple(k: int)
    ensures (97 * k) % 97 == 0
  {
  }

  /** The powers of ten modulo 97 that the places of an account number can be apart. */
  const RESIDUES: seq<nat> := [1, 10, 3, 30, 9, 90, 27, 76, 81, 34, 49, 5, 50, 15, 53, 45, 62, 38, 89, 17, 73, 51]

  lemma ResidueStep(k: nat)
    requires k < 21
    ensures RESIDUES[k + 1] == (10 * RESIDUES[k]) % 97 && RESIDUES[k + 1] != 1
  {
  }

  lemma TimesTen(n: nat)
    ensures (10 * n) % 97 == (10 * (n % 97)) % 97
  {
    SameRemainder(10 * n, 10 * (n % 97), 10 * (n / 97));
  }

  lemma SameRemainder(a: int, b: int, k: int)
    requires a == b + 97 * k
    ensures a % 97 == b % 97
  {
  }

  lemma {:induction false} PowerResidue(k: nat)
    requires k <= 21
    ensures Pow10(k) % 97 == RESIDUES[k]
  {
    if k > 0 {
      PowerResidue(k - 1);
      TimesTen(Pow10(k - 1));
      ResidueStep(k - 1);
    }
  }

  /** No two places of an account number have weights equal modulo 97. */
  lemma PowersDiffer(k: nat)
    requires 1 <= k <= 21
    ensures Pow10(k) % 97 != 1
  {
    PowerResidue(k);
    ResidueStep(k - 1);
  }

  lemma {:induction false} PowSplit(i: nat, j: nat)
    ensures Pow10(i + j) == Pow10(i) * Pow10(j)
  {
    if i > 0 {
      PowSplit(i - 1, j);
      assert Pow10(i + j) == 10 * (Pow10(i - 1) * Pow10(j));
      assert Pow10(i) * Pow10(j) == (10 * Pow10(i - 1)) * Pow10(j);
      TenTimes(Pow10(j), Pow10(i - 1));
    }
  }

  lemma WeightsDiffer(a: int, i: nat, j: nat)
    requires -9 <= a <= 9 && a != 0 && j < i <= 21
    ensures (a * (Pow10(i) - Pow10(j))) % 97 != 0
  {
    var k := i - j;
    PowSplit(k, j);
    PowersDiffer(k);
    GapDiffers(a, Pow10(k), j, Pow10(i));
  }

  lemma GapDiffers(a: int, p: int, j: nat, r: int)
    requires -9 <= a <= 9 && a != 0 && r == p * Pow10(j) && p % 97 != 1
    ensures (a * (r - Pow10(j))) % 97 != 0
  {
    Factor(a, p, Pow10(j));
    if (a * (r - Pow10(j))) % 97 == 0 {
      WeightCancels(a * (p - 1), j);
      SmallFactorCancels(a, p - 1);
      assert false;
    }
  }

  lemma Factor(a: int, p: int, q: int)
    ensures a * (p * q - q) == (a * (p - 1)) * q
  {
  }

  /** Where a digit of the account number stands in the checked string. */
  function Place(s: string, i: nat): nat
    requires |s| == 20 && 2 <= i < 20
  {
    if i >= 4 then i - 4 else 14 + |Numeric(s[..2])| + i
  }

  lemma CheckedUpdate(s: string, i: nat, d: char)
    requires WellFormed(s) && 2 <= i < 20 && IsDigit(d)
    ensures WellFormed(s[i := d]) && Place(s, i) < |Checked(s)|
    ensures Checked(s[i := d]) == Checked(s)[Place(s, i) := d] && Checked(s)[Place(s, i)] == s[i]
  {
    var t := s[i := d];
    var c := Numeric(s[..2]);
    assert t[..2] == s[..2];
    assert t[2..] == s[2..][i - 2 := d];
    if i >= 4 {
      assert t[4..] == s[4..][i - 4 := d] && t[2..4] == s[2..4];
      assert Checked(t) == Checked(s)[i - 4 := d];
    } else {
      assert t[4..] == s[4..] && t[2..4] == s[2..4][i - 2 := d];
      assert Checked(t) == Checked(s)[14 + |c| + i := d];
    }
  }

  lemma UpdateWellFormed(s: string, i: nat, d: char)
    requires WellFormed(s) && 2 <= i < 20 && IsDigit(d)
    ensures WellFormed(s[i := d]) && AllDigits(Checked(s)) && AllDigits(Checked(s[i := d]))
    ensures Place(s, i) < |Checked(s)| <= 22 && |Checked(s[i := d])| == |Checked(s)|
  {
    CheckedString(s);
    CheckedUpdate(s, i, d);
    CheckedString(s[i := d]);
  }

  lemma UpdateShifts(s: string, i: nat, d: char)
    requires WellFormed(s) && 2 <= i < 20 && IsDigit(d)
    requires WellFormed(s[i := d]) && AllDigits(Checked(s)) && AllDigits(Checked(s[i := d])) &&
             Place(s, i) < |Checked(s)|
    ensures Val(Checked(s[i := d])) == Val(Checked(s)) + Weighted(d as int - s[i] as int,
            |Checked(s)| - 1 - Place(s, i))
  {
    CheckedUpdate(s, i, d);
    ValUpdate(Checked(s), Place(s, i), d);
  }

  /** Changing one digit of a valid number makes it invalid. */
  lemma SingleErrorCaught(s: string, i: nat, d: char)
    requires WellFormed(s) && IsValidChecksum(s) == Success(true)
    requires 2 <= i < 20 && IsDigit(d) && d != s[i]
    ensures IsValidChecksum(s[i := d]) == Success(false)
  {
    SingleRemainder(s, i, d);
    ValidMeans(s[i := d]);
  }

  lemma SingleRemainder(s: string, i: nat, d: char)
    requires WellFormed(s) && IsValidChecksum(s) == Success(true)
    requires 2 <= i < 20 && IsDigit(d) && d != s[i]
    ensures WellFormed(s[i := d]) && AllDigits(Checked(s[i := d])) && Val(Checked(s[i := d])) % 97 != 1
  {
    ValidMeans(s);
    var a, k := SingleGap(s, i, d);
    OneMoves(Val(Checked(s)), a, k, Val(Checked(s[i := d])));
  }

  /** The difference of the digits and the weight of their place. */
  lemma SingleGap(s: string, i: nat, d: char) returns (a: int, k: nat)
    requires WellFormed(s) && 2 <= i < 20 && IsDigit(d) && d != s[i]
    ensures -9 <= a <= 9 && a != 0 && a == d as int - s[i] as int
    ensures WellFormed(s[i := d]) && AllDigits(Checked(s[i := d])) && AllDigits(Checked(s))
    ensures Place(s, i) < |Checked(s)| <= 22 && k == |Checked(s)| - 1 - Place(s, i)
    ensures Val(Checked(s[i := d])) == Val(Checked(s)) + Weighted(a, k)
  {
    UpdateWellFormed(s, i, d);
    UpdateShifts(s, i, d);
    DigitAt(s, i);
    a, k := d as int - s[i] as int, |Checked(s)| - 1 - Place(s, i);
  }

  lemma OneMoves(v: int, a: int, k: nat, w: int)
    requires v % 97 == 1 && -9 <= a <= 9 && a != 0 && w == v + Weighted(a, k)
    ensures w % 97 != 1
  {
    OneWeight(a, k);
    Shifted(v, Weighted(a, k));
  }

  lemma OneWeight(a: int, k: nat)
    requires -9 <= a <= 9 && a != 0
    ensures Weighted(a, k) % 97 != 0
  {
    if Weighted(a, k) % 97 == 0 {
      WeightCancels(a, k);
      assert false;
    }
  }

  lemma DigitAt(s: string, i: nat)
    requires WellFormed(s) && 2 <= i < 20
    ensures IsDigit(s[i])
  {
    assert s[2..][i - 2] == s[i];
  }

  lemma Shifted(n: int, delta: int)
    requires n % 97 == 1 && delta % 97 != 0
    ensures (n + delta) % 97 != 1
  {
  }

  /** Swapping two unequal digits of a valid number, however far apart, makes it invalid. */
  lemma SwapCaught(s: string, i: nat, j: nat)
    requires WellFormed(s) && IsValidChecksum(s) == Success(true)
    requires 2 <= i < 20 && 2 <= j < 20 && s[i] != s[j]
    ensures IsValidChecksum(s[i := s[j]][j := s[i]]) == Success(false)
  {
    SwapRemainder(s, i, j);
    ValidMeans(s[i := s[j]][j := s[i]]);
  }

  lemma SwapRemainder(s: string, i: nat, j: nat)
    requires WellFormed(s) && IsValidChecksum(s) == Success(true)
    requires 2 <= i < 20 && 2 <= j < 20 && s[i] != s[j]
    ensures var u := s[i := s[j]][j := s[i]];
            WellFormed(u) && AllDigits(Checked(u)) && Val(Checked(u)) % 97 != 1
  {
    ValidMeans(s);
    var a, k, l := SwapGap(s, i, j);
    SwapMoves(Val(Checked(s)), a, k, l, Val(Checked(s[i := s[j]][j := s[i]])));
  }

  /** The difference of the two digits and the weights of their places. */
  lemma SwapGap(s: string, i: nat, j: nat) returns (a: int, k: nat, l: nat)
    requires WellFormed(s) && 2 <= i < 20 && 2 <= j < 20 && s[i] != s[j]
    ensures -9 <= a <= 9 && a != 0 && k != l && k <= 21 && l <= 21
    ensures var u := s[i := s[j]][j := s[i]];
            && WellFormed(u) && AllDigits(Checked(u)) && AllDigits(Checked(s))
            && Val(Checked(u)) == Val(Checked(s)) + Swapped(a, k, l)
  {
    DigitAt(s, i);
    DigitAt(s, j);
    var t := s[i := s[j]];
    var b: int;
    a, k := SingleGap(s, i, s[j]);
    b, l := SingleGap(t, j, s[i]);
    SamePlaces(s, t, i, j);
    Distribute(a, b, k, l);
  }

  lemma SwapMoves(v: int, a: int, i: nat, j: nat, w: int)
    requires v % 97 == 1 && -9 <= a <= 9 && a != 0 && i != j && i <= 21 && j <= 21 && w == v + Swapped(a, i, j)
    ensures w % 97 != 1
  {
    TwoWeights(a, i, j);
    Shifted(v, Swapped(a, i, j));
  }

  lemma TwoWeights(a: int, i: nat, j: nat)
    requires -9 <= a <= 9 && a != 0 && i != j && i <= 21 && j <= 21
    ensures Swapped(a, i, j) % 97 != 0
  {
    if j < i {
      WeightsDiffer(a, i, j);
    } else {
      WeightsDiffer(-a, j, i);
      BothSigns(a, Pow10(i), Pow10(j));
    }
  }

  lemma BothSigns(a: int, p: int, q: int)
    ensures -a * (q - p) == a * (p - q)
  {
  }

  lemma SamePlaces(s: string, t: string, i: nat, j: nat)
    requires |s| == |t| == 20 && 2 <= i < 20 && 2 <= j < 20 && i != j && t == s[i := t[i]]
    ensures Place(t, i) == Place(s, i) && Place(t, j) == Place(s, j) && Place(s, i) != Place(s, j) &&
            |Checked(t)| == |Checked(s)|
  {
    assert t[..2] == s[..2];
  }

  lemma Distribute(a: int, b: int, i: nat, j: nat)
    requires b == -a
    ensures Weighted(a, i) + Weighted(b, j) == Swapped(a, i, j)
  {
  }
}
