/** Decimal strings to and from 64-bit minor units. */
module MoneyCodec {
  import opened Wrappers
  import opened Monetary
  import opened Numerals

  /** unscaled * 10^-scale */
  datatype Decimal = Decimal(unscaled: int, scale: int)

  /** The parts of a decimal numeral; the exponent marker is e or E. */
  datatype Exponent = Exponent(marker: char, sign: string, digits: string)
  datatype Literal = Literal(sign: string, whole: string, fraction: Option<string>, exponent: Option<Exponent>)

  datatype CodecError = UnknownCurrency | NotANumber | Inexact | OutOfRange

  const MIN_INT: int := -0x8000_0000
  const MAX_INT: int := 0x7FFF_FFFF

  // ---- Reading ----

  predicate IsMarker(c: char) {
    c == 'e' || c == 'E'
  }

  /** Where the exponent marker is, or the length. */
  function MarkerAt(s: string): (i: nat)
    ensures i <= |s|
  {
    if s == [] || IsMarker(s[0]) then 0 else 1 + MarkerAt(s[1..])
  }

  /** Where the decimal point is, or the length. */
  function PointAt(s: string): (i: nat)
    ensures i <= |s|
  {
    if s == [] || s[0] == '.' then 0 else 1 + PointAt(s[1..])
  }

  predicate ValidExponent(e: Exponent) {
    (e.marker == 'e' || e.marker == 'E') && IsSign(e.sign) && e.digits != "" && AllDigits(e.digits)
  }

  function FractionText(l: Literal): string {
    if l.fraction.Some? then l.fraction.value else ""
  }

  predicate ValidLiteral(l: Literal) {
    && IsSign(l.sign) && AllDigits(l.whole) && AllDigits(FractionText(l)) && l.whole + FractionText(l) != ""
    && (l.exponent.Some? ==> ValidExponent(l.exponent.value))
  }

  function ExponentText(e: Option<Exponent>): string {
    if e.Some? then [e.value.marker] + (e.value.sign + e.value.digits) else ""
  }

  function PointText(fraction: Option<string>): string {
    if fraction.Some? then "." + fraction.value else ""
  }

  function Text(l: Literal): string {
    l.sign + ((l.whole + PointText(l.fraction)) + ExponentText(l.exponent))
  }

  function SplitPoint(s: string): (string, Option<string>) {
    var p := PointAt(s);
    (s[..p], if p < |s| then Some(s[p + 1..]) else None)
  }

  function SplitExponent(s: string): (string, Option<Exponent>) {
    var e := MarkerAt(s);
    if e == |s| then (s, None)
    else
      var (sign, digits) := SplitSign(s[e + 1..]);
      (s[..e], Some(Exponent(s[e], sign, digits)))
  }

  function ParseLiteral(s: string): Option<Literal> {
    var (sign, body) := SplitSign(s);
    var (mantissa, exponent) := SplitExponent(body);
    var (whole, fraction) := SplitPoint(mantissa);
    var l := Literal(sign, whole, fraction, exponent);
    if ValidLiteral(l) then Some(l) else None
  }

  function ExponentOf(l: Literal): int
    requires ValidLiteral(l)
  {
    if l.exponent.Some? then Negated(l.exponent.value.sign, Val(l.exponent.value.digits)) else 0
  }

  function Meaning(l: Literal): Decimal
    requires ValidLiteral(l)
  {
    AllDigitsJoin(l.whole, FractionText(l));
    Decimal(Negated(l.sign, Val(l.whole + FractionText(l))), |FractionText(l)| - ExponentOf(l))
  }

  /** A numeral whose exponent or scale does not fit an int is refused. */
  function ParseDecimal(s: string): Option<Decimal> {
    match ParseLiteral(s)
    case None => None
    case Some(l) => if MIN_INT <= ExponentOf(l) <= MAX_INT && MIN_INT <= Meaning(l).scale <= MAX_INT
        then Some(Meaning(l)) else None
  }

  predicate Pointless(s: string) {
    forall i :: 0 <= i < |s| ==> s[i] != '.'
  }

  predicate Markerless(s: string) {
    forall i :: 0 <= i < |s| ==> !IsMarker(s[i])
  }

  lemma {:induction false} PointOf(s: string, rest: string)
    requires Pointless(s) && (rest == "" || rest[0] == '.')
    ensures PointAt(s + rest) == |s|
  {
    if s == "" {
      assert s + rest == rest;
    } else {
      assert (s + rest)[1..] == s[1..] + rest;
      PointOf(s[1..], rest);
    }
  }

  lemma {:induction false} MarkerOf(s: string, rest: string)
    requires Markerless(s) && (rest == "" || IsMarker(rest[0]))
    ensures MarkerAt(s + rest) == |s|
  {
    if s == "" {
      assert s + rest == rest;
    } else {
      assert (s + rest)[1..] == s[1..] + rest;
      MarkerOf(s[1..], rest);
    }
  }

  lemma {:induction false} PointFound(s: string)
    ensures PointAt(s) < |s| ==> s[PointAt(s)] == '.'
  {
    if s != "" && s[0] != '.' { PointFound(s[1..]); }
  }

  lemma SplitPointOf(whole: string, fraction: Option<string>)
    requires Pointless(whole)
    ensures SplitPoint(whole + PointText(fraction)) == (whole, fraction)
  {
    var s := whole + PointText(fraction);
    PointOf(whole, PointText(fraction));
    assert s[..|whole|] == whole;
    if fraction.Some? {
      assert s[|whole| + 1..] == fraction.value;
    }
  }

  lemma JoinPoint(s: string)
    ensures SplitPoint(s).0 + PointText(SplitPoint(s).1) == s
  {
    var p := PointAt(s);
    PointFound(s);
    if p < |s| {
      assert s == s[..p] + ([s[p]] + s[p + 1..]);
    }
  }

  lemma SplitExponentOf(mantissa: string, exponent: Option<Exponent>)
    requires Markerless(mantissa) && (exponent.Some? ==> ValidExponent(exponent.value))
    ensures SplitExponent(mantissa + ExponentText(exponent)) == (mantissa, exponent)
  {
    var s := mantissa + ExponentText(exponent);
    MarkerOf(mantissa, ExponentText(exponent));
    assert s[..|mantissa|] == mantissa;
    if exponent == None {
      assert s == mantissa;
    } else {
      var e := exponent.value;
      assert s[|mantissa|] == e.marker && s[|mantissa| + 1..] == e.sign + e.digits;
      assert IsDigit(e.digits[0]);
      SplitSignOf(e.sign, e.digits);
    }
  }

  lemma JoinExponent(s: string)
    ensures SplitExponent(s).0 + ExponentText(SplitExponent(s).1) == s
  {
    var e := MarkerAt(s);
    if e < |s| {
      var rest := s[e + 1..];
      JoinSign(rest);
      SplitAt(s, e);
      assert ExponentText(SplitExponent(s).1) == [s[e]] + rest;
    }
  }

  lemma SplitAt(s: string, i: nat)
    requires i < |s|
    ensures s == s[..i] + ([s[i]] + s[i + 1..])
  {
  }

  /** Every valid literal is read back from its text. */
  lemma ReadsText(l: Literal)
    requires ValidLiteral(l)
    ensures ParseLiteral(Text(l)) == Some(l)
  {
    var mantissa := l.whole + PointText(l.fraction);
    var body := mantissa + ExponentText(l.exponent);
    assert mantissa != "" && (IsDigit(mantissa[0]) || mantissa[0] == '.') by {
      if l.whole != "" {
        assert mantissa[0] == l.whole[0];
      }
    }
    assert body[0] == mantissa[0];
    SplitSignOf(l.sign, body);
    assert Markerless(mantissa) by {
      MantissaMarkerless(l);
    }
    SplitExponentOf(mantissa, l.exponent);
    SplitPointOf(l.whole, l.fraction);
  }

  lemma MantissaMarkerless(l: Literal)
    requires ValidLiteral(l)
    ensures Markerless(l.whole + PointText(l.fraction)) && Pointless(l.whole)
  {
    var m := l.whole + PointText(l.fraction);
    forall i | 0 <= i < |m| ensures !IsMarker(m[i]) {
      if i < |l.whole| {
        assert m[i] == l.whole[i];
      } else if i > |l.whole| {
        assert m[i] == FractionText(l)[i - |l.whole| - 1];
      }
    }
  }

  /** Whatever is read is the text of the literal it was read as. */
  lemma ReadOnlyText(s: string, l: Literal)
    requires ParseLiteral(s) == Some(l)
    ensures ValidLiteral(l) && s == Text(l)
  {
    var (sign, body) := SplitSign(s);
    JoinSign(s);
    JoinExponent(body);
    JoinPoint(SplitExponent(body).0);
  }

  /** A string reads as a literal exactly when it is that literal's text. */
  lemma ParseInvertsText(s: string, l: Literal)
    requires ValidLiteral(l)
    ensures ParseLiteral(s) == Some(l) <==> s == Text(l)
  {
    ReadsText(l);
    if ParseLiteral(s) == Some(l) {
      ReadOnlyText(s, l);
    }
  }

  // ---- Scaling ----

  /** The whole number unscaled * 10^(digits - scale), if it is one. */
  function Rescale(x: Decimal, digits: int): Option<int> {
    if x.scale <= digits then Some(x.unscaled * Pow10(digits - x.scale))
    else
      var p := Pow10(x.scale - digits);
      if x.unscaled % p == 0 then Some(x.unscaled / p) else None
  }

  function MinorUnits(x: Decimal, digits: int): Result<Long, CodecError> {
    match Rescale(x, digits)
    case None => Failure(Inexact)
    case Some(units) => if FitsLong(units) then Success(units) else Failure(OutOfRange)
  }

  /** Amount text to minor units of a currency with `digits` fraction digits (-1 for the currencies that have none). */
  function ToMinorUnits(s: string, digits: int): Result<Long, CodecError> {
    match ParseDecimal(s)
    case None => Failure(NotANumber)
    case Some(x) => MinorUnits(x, digits)
  }

  function ToDomain(fractionDigits: map<Currency, int>, amount: string, currency: Currency): Result<Money, CodecError> {
    if currency !in fractionDigits then Failure(UnknownCurrency)
    else
      var units :- ToMinorUnits(amount, fractionDigits[currency]);
      Success(Money(units, currency))
  }

  function Magnitude(n: int): nat {
    if n < 0 then -n else n
  }

  function SignOf(n: int): string {
    if n < 0 then "-" else ""
  }

  /** unscaled * 10^-scale written without an exponent. */
  function PlainString(unscaled: int, scale: int): string {
    if scale < 0 then SignOf(unscaled) + Digits(Magnitude(unscaled * Pow10(-scale)))
    else
      var s := Digits(Magnitude(unscaled));
      if scale == 0 then SignOf(unscaled) + s
      else if |s| > scale then SignOf(unscaled) + s[..|s| - scale] + "." + s[|s| - scale..]
      else SignOf(unscaled) + "0." + Zeros(scale - |s|) + s
  }

  function ToDto(fractionDigits: map<Currency, int>, money: Money): Result<(string, Currency), CodecError> {
    if money.currency !in fractionDigits then Failure(UnknownCurrency)
    else Success((PlainString(money.minorUnits, fractionDigits[money.currency]), money.currency))
  }

  /** 10^k for any integer k, as a real. */
  function Power(k: int): (p: real)
    ensures p > 0.0
  {
    if k >= 0 then Pow10(k) as real else 1.0 / Pow10(-k) as real
  }

  /** The value of a decimal in minor units. */
  function Worth(x: Decimal, digits: int): real {
    x.unscaled as real * Power(digits - x.scale)
  }

  lemma DivExact(q: int, p: int)
    requires p > 0
    ensures (q * p) % p == 0 && (q * p) / p == q
  {
    var d, r := (q * p) / p, (q * p) % p;
    assert (q - d) * p == r;
    WithinOne(q - d, p);
  }

  lemma WithinOne(a: int, p: int)
    requires p > 0 && 0 <= a * p < p
    ensures a == 0
  {
  }

  lemma MulReal(u: int, p: int)
    ensures u as real * p as real == (u * p) as real
  {
  }

  lemma RealQuotient(u: real, p: real, v: real)
    requires p > 0.0
    ensures u * (1.0 / p) == v <==> u == v * p
  {
    assert u * (1.0 / p) == u / p;
    assert (u / p) * p == u;
  }

  lemma QuotientMeans(u: int, p: int, units: int)
    requires p > 0
    ensures u % p == 0 && u / p == units <==> u as real * (1.0 / p as real) == units as real
  {
    RealQuotient(u as real, p as real, units as real);
    MulReal(units, p);
    ExactQuotient(u, p, units);
  }

  lemma ExactQuotient(u: int, p: int, units: int)
    requires p > 0
    ensures u % p == 0 && u / p == units <==> u == units * p
  {
    if u == units * p {
      DivExact(units, p);
    }
  }

  lemma RescaleMeans(x: Decimal, digits: int, units: int)
    ensures Rescale(x, digits) == Some(units) <==> Worth(x, digits) == units as real
  {
    if x.scale <= digits {
      MulReal(x.unscaled, Pow10(digits - x.scale));
    } else {
      QuotientMeans(x.unscaled, Pow10(x.scale - digits), units);
    }
  }

  lemma MinorUnitsMean(x: Decimal, digits: int, units: Long)
    ensures MinorUnits(x, digits) == Success(units) <==> Worth(x, digits) == units as real
  {
    RescaleMeans(x, digits, units);
  }

  // ---- The value of a numeral ----

  lemma TenthOf(p: real)
    requires p > 0.0
    ensures 10.0 * (1.0 / (10.0 * p)) == 1.0 / p
  {
  }

  lemma PowerStep(k: int)
    ensures Power(k + 1) == 10.0 * Power(k)
  {
    if k >= 0 {
      assert Pow10(k + 1) == 10 * Pow10(k);
    } else if k == -1 {
      assert Pow10(1) == 10 * Pow10(0);
    } else {
      assert Pow10(-k) == 10 * Pow10(-k - 1);
      TenthOf(Pow10(-k - 1) as real);
    }
  }

  lemma {:induction false} PowerAdd(a: int, n: nat)
    ensures Power(a + n) == Product(Power(a), Pow10(n) as real)
  {
    if n > 0 {
      PowerAdd(a, n - 1);
      PowerStep(a + n - 1);
      TenMore(Power(a + n), Power(a + n - 1), Power(a), Pow10(n - 1), Pow10(n));
    }
  }

  function Product(a: real, b: real): real {
    a * b
  }

  lemma TenMore(x: real, y: real, z: real, p: int, q: int)
    requires x == 10.0 * y && y == Product(z, p as real) && q == 10 * p
    ensures x == Product(z, q as real)
  {
    assert q as real == 10.0 * p as real;
  }

  /** The digits before and after the point, as one number. */
  lemma {:induction false} ValJoin(a: string, b: string)
    requires AllDigits(a) && AllDigits(b)
    ensures AllDigits(a + b) && Val(a + b) == Val(a) * Pow10(|b|) + Val(b)
  {
    if b == "" {
      assert a + b == a;
    } else {
      var n := |b| - 1;
      assert (a + b)[..|a + b| - 1] == a + b[..n] && (a + b)[|a + b| - 1] == b[n];
      AllDigitsJoin(a, b);
      ValJoin(a, b[..n]);
      assert Pow10(n + 1) == 10 * Pow10(n);
      TenTimes(Val(a), Pow10(n));
    }
  }

  lemma TenTimes(a: int, p: int)
    ensures a * (10 * p) == 10 * (a * p)
  {
  }

  /** 10 to the exponent, which counts as zero if there is none. */
  function ExponentPower(e: Option<Exponent>): real
    requires e.Some? ==> ValidExponent(e.value)
  {
    if e == None then 1.0
    else if e.value.sign == "-" then 1.0 / Pow10(Val(e.value.digits)) as real
    else Pow10(Val(e.value.digits)) as real
  }

  /** The digits before the point, and those after it divided by the power of ten they are moved by. */
  function Size(whole: string, fraction: string): real
    requires AllDigits(whole) && AllDigits(fraction)
  {
    Val(whole) as real + Val(fraction) as real / Pow10(|fraction|) as real
  }

  /** What a numeral stands for: its digits with their sign, times ten to its exponent. */
  function NumeralValue(l: Literal): real
    requires ValidLiteral(l)
  {
    var size := Size(l.whole, FractionText(l));
    Product(if l.sign == "-" then -size else size, ExponentPower(l.exponent))
  }

  lemma ExponentPowerIs(l: Literal)
    requires ValidLiteral(l)
    ensures Power(ExponentOf(l)) == ExponentPower(l.exponent)
  {
    assert Pow10(0) == 1;
  }

  lemma SizeIs(w: int, f: int, p: int, v: int)
    requires p > 0 && v == w * p + f
    ensures Product(w as real + f as real / p as real, p as real) == v as real
  {
    assert (w * p) as real == w as real * p as real;
    assert (f as real / p as real) * p as real == f as real;
  }

  lemma SizeTimes(whole: string, fraction: string)
    requires AllDigits(whole) && AllDigits(fraction)
    ensures AllDigits(whole + fraction)
    ensures Product(Size(whole, fraction), Pow10(|fraction|) as real) == Val(whole + fraction) as real
  {
    ValJoin(whole, fraction);
    SizeIs(Val(whole), Val(fraction), Pow10(|fraction|), Val(whole + fraction));
  }

  lemma Exchange(u: real, size: real, p: real, e: real, k: real)
    requires u == Product(size, p) && e == Product(k, p)
    ensures Product(u, k) == Product(size, e)
  {
    assert (size * p) * k == size * (k * p);
  }

  lemma NegatedProduct(a: real, b: real)
    ensures Product(-a, b) == -Product(a, b)
  {
  }

  lemma UnsignedValue(l: Literal)
    requires ValidLiteral(l)
    ensures AllDigits(l.whole + FractionText(l))
    ensures Product(Val(l.whole + FractionText(l)) as real, Power(ExponentOf(l) - |FractionText(l)|)) ==
            Product(Size(l.whole, FractionText(l)), ExponentPower(l.exponent))
  {
    var fraction := FractionText(l);
    SizeTimes(l.whole, fraction);
    ExponentPowerIs(l);
    PowerAdd(ExponentOf(l) - |fraction|, |fraction|);
    Exchange(Val(l.whole + fraction) as real, Size(l.whole, fraction), Pow10(|fraction|) as real,
             Power(ExponentOf(l)), Power(ExponentOf(l) - |fraction|));
  }

  lemma SignedMeaning(l: Literal)
    requires ValidLiteral(l)
    ensures AllDigits(l.whole + FractionText(l))
    ensures Meaning(l).scale == |FractionText(l)| - ExponentOf(l)
    ensures var u := Val(l.whole + FractionText(l));
            Meaning(l).unscaled as real == if l.sign == "-" then -(u as real) else u as real
  {
    AllDigitsJoin(l.whole, FractionText(l));
  }

  /** The decimal that is read is worth what the numeral stands for. */
  lemma MeaningIsValue(l: Literal)
    requires ValidLiteral(l)
    ensures Product(Meaning(l).unscaled as real, Power(-Meaning(l).scale)) == NumeralValue(l)
  {
    var u, k := Val(l.whole + FractionText(l)) as real, Power(ExponentOf(l) - |FractionText(l)|);
    UnsignedValue(l);
    SignedMeaning(l);
    NegatedProduct(u, k);
    NegatedProduct(Size(l.whole, FractionText(l)), ExponentPower(l.exponent));
  }

  lemma PowerSum(a: int, b: int)
    ensures Power(a + b) == Product(Power(a), Power(b))
  {
    if b >= 0 {
      PowerAdd(a, b);
    } else {
      PowerAdd(a + b, -b);
      Divided(Power(a), Power(a + b), Pow10(-b) as real);
    }
  }

  lemma Divided(a: real, q: real, p: real)
    requires p > 0.0 && a == Product(q, p)
    ensures q == Product(a, 1.0 / p)
  {
    assert a * (1.0 / p) == a / p;
    assert (q * p) / p == q;
  }

  lemma WorthIs(x: Decimal, digits: int)
    ensures Worth(x, digits) == Product(Product(x.unscaled as real, Power(-x.scale)), Power(digits))
  {
    PowersMeet(x.scale, digits);
    Assoc(x.unscaled as real, Power(-x.scale), Power(digits), Power(digits - x.scale));
    WorthUnfolds(x, digits);
  }

  lemma PowersMeet(scale: int, digits: int)
    ensures Power(digits - scale) == Product(Power(-scale), Power(digits))
  {
    PowerSum(-scale, digits);
    assert -scale + digits == digits - scale;
  }

  lemma WorthUnfolds(x: Decimal, digits: int)
    ensures Worth(x, digits) == Product(x.unscaled as real, Power(digits - x.scale))
  {
  }

  lemma Assoc(a: real, b: real, c: real, bc: real)
    requires bc == Product(b, c)
    ensures Product(a, bc) == Product(Product(a, b), c)
  {
  }

  /** What the numeral stands for, in minor units. */
  function UnitsOf(l: Literal, digits: int): real
    requires ValidLiteral(l)
  {
    Product(NumeralValue(l), Power(digits))
  }

  lemma WorthOfNumeral(l: Literal, digits: int)
    requires ValidLiteral(l)
    ensures Worth(Meaning(l), digits) == UnitsOf(l, digits)
  {
    MeaningIsValue(l);
    WorthIs(Meaning(l), digits);
  }

  /** The string is this numeral, and its exponent and the number of its places fit an int. */
  predicate Reads(s: string, l: Literal) {
    && ValidLiteral(l) && s == Text(l)
    && MIN_INT <= ExponentOf(l) <= MAX_INT && MIN_INT <= |FractionText(l)| - ExponentOf(l) <= MAX_INT
  }

  lemma ParsedIffReads(s: string, l: Literal)
    requires ValidLiteral(l) && s == Text(l)
    ensures ParseDecimal(s) == if Reads(s, l) then Some(Meaning(l)) else None
  {
    ReadsText(l);
  }

  lemma OneReading(s: string, l: Literal, k: Literal)
    requires Reads(s, l) && Reads(s, k)
    ensures k == l
  {
    ReadsText(l);
    ReadsText(k);
  }

  lemma ReadingAnswer(s: string, l: Literal, digits: int, units: Long)
    requires Reads(s, l)
    ensures ToMinorUnits(s, digits) == Success(units) <==> UnitsOf(l, digits) == units as real
  {
    ParsedIffReads(s, l);
    WorthOfNumeral(l, digits);
    MinorUnitsMean(Meaning(l), digits, units);
  }

  /** A string that is no numeral is refused as such. */
  lemma NoReading(s: string, digits: int)
    ensures (exists l :: Reads(s, l)) || ToMinorUnits(s, digits) == Failure(NotANumber)
  {
    if ParseLiteral(s).Some? {
      ReadOnlyText(s, ParseLiteral(s).value);
      ParsedIffReads(s, ParseLiteral(s).value);
    }
  }

  /** Accepted with this result are exactly the decimal numerals whose value times 10^digits is this 64-bit integer. */
  lemma AcceptsExactly(s: string, digits: int, units: Long)
    ensures ToMinorUnits(s, digits) == Success(units) <==>
            exists l :: Reads(s, l) && UnitsOf(l, digits) == units as real
  {
    NoReading(s, digits);
    if l :| Reads(s, l) {
      ReadingAnswer(s, l, digits, units);
      forall k | Reads(s, k) ensures k == l {
        OneReading(s, l, k);
      }
    }
  }

  predicate IsWhole(r: real) {
    r.Floor as real == r
  }

  lemma WholeIs(r: real, n: int)
    requires r == n as real
    ensures IsWhole(r) && r.Floor == n
  {
  }

  /** Why a numeral is refused: it is not whole in minor units, or it does not fit 64 bits. */
  lemma RefusalExactly(s: string, l: Literal, digits: int)
    requires Reads(s, l)
    ensures var r, units := ToMinorUnits(s, digits), UnitsOf(l, digits);
            if !IsWhole(units) then r == Failure(Inexact)
            else if !FitsLong(units.Floor) then r == Failure(OutOfRange)
            else r == Success(units.Floor)
  {
    var units := UnitsOf(l, digits);
    ParsedIffReads(s, l);
    WorthOfNumeral(l, digits);
    RescaleMeans(Meaning(l), digits, units.Floor);
    var scaled := Rescale(Meaning(l), digits);
    if scaled.Some? {
      RescaleMeans(Meaning(l), digits, scaled.value);
      WholeIs(units, scaled.value);
    }
  }

  /** The literal that PlainString prints. */
  function Printed(unscaled: int, scale: nat): Literal {
    var s := Digits(Magnitude(unscaled));
    if scale == 0 then Literal(SignOf(unscaled), s, None, None)
    else if |s| > scale then Literal(SignOf(unscaled), s[..|s| - scale], Some(s[|s| - scale..]), None)
    else Literal(SignOf(unscaled), "0", Some(Zeros(scale - |s|) + s), None)
  }

  lemma PrintedText(unscaled: int, scale: nat)
    ensures Text(Printed(unscaled, scale)) == PlainString(unscaled, scale)
  {
    var s := Digits(Magnitude(unscaled));
    var l := Printed(unscaled, scale);
    if scale == 0 {
      assert s + "" + "" == s;
    } else if |s| > scale {
      Regroup(l.sign, l.whole, ".", l.fraction.value);
    } else {
      Regroup(l.sign, "0", ".", l.fraction.value);
      assert "0" + "." == "0.";
      assert l.sign + "0." + Zeros(scale - |s|) + s == l.sign + "0." + l.fraction.value;
    }
  }

  lemma Regroup(a: string, b: string, c: string, d: string)
    ensures a + ((b + (c + d)) + "") == a + b + c + d == a + (b + c) + d
  {
  }

  lemma PrintedDigits(unscaled: int, scale: nat)
    ensures var l := Printed(unscaled, scale);
            AllDigits(l.whole) && AllDigits(FractionText(l)) && AllDigits(l.whole + FractionText(l)) &&
            Val(l.whole + FractionText(l)) == Magnitude(unscaled) && |FractionText(l)| == scale
  {
    var s := Digits(Magnitude(unscaled));
    DigitsVal(Magnitude(unscaled));
    if scale == 0 {
      assert s + "" == s;
    } else if |s| > scale {
      assert s[..|s| - scale] + s[|s| - scale..] == s;
    } else {
      SmallDigits(s, scale - |s|);
    }
  }

  lemma SmallDigits(s: string, zeros: nat)
    requires AllDigits(s)
    ensures AllDigits(Zeros(zeros) + s) && AllDigits("0" + (Zeros(zeros) + s))
    ensures Val("0" + (Zeros(zeros) + s)) == Val(s)
  {
    assert "0" + (Zeros(zeros) + s) == Zeros(zeros + 1) + s;
    LeadingZeros(zeros, s);
    LeadingZeros(zeros + 1, s);
  }

  lemma {:induction false} NoLeadingZero(n: nat)
    ensures n > 0 ==> Digits(n)[0] != '0'
    ensures n < 10 <==> |Digits(n)| == 1
  {
    if n >= 10 {
      NoLeadingZero(n / 10);
      assert Digits(n)[0] == Digits(n / 10)[0];
    }
  }

  /** Amounts are printed plainly: a minus sign or none, no exponent, no point without fraction digits and else exactly
      that many digits behind it, and no zero in front but a single one. */
  lemma PrintedPlainly(unscaled: int, scale: nat)
    ensures
      var l := Printed(unscaled, scale);
      && PlainString(unscaled, scale) == Text(l) && l.exponent == None
      && l.sign == (if unscaled < 0 then "-" else "")
      && (l.fraction == None <==> scale == 0) && |FractionText(l)| == scale
      && |l.whole| > 0 && (l.whole == "0" || l.whole[0] != '0')
  {
    var s := Digits(Magnitude(unscaled));
    PrintedText(unscaled, scale);
    NoLeadingZero(Magnitude(unscaled));
    if unscaled == 0 {
      assert s == "0";
    }
  }

  /** Which currencies are known decides first; the currency itself is never changed. */
  lemma CurrencyAnswer(fractionDigits: map<Currency, int>, amount: string, money: Money)
    ensures var c := money.currency;
            if c !in fractionDigits then
              && ToDomain(fractionDigits, amount, c) == Failure(UnknownCurrency)
              && ToDto(fractionDigits, money) == Failure(UnknownCurrency)
            else
              && ToDto(fractionDigits, money) == Success((PlainString(money.minorUnits, fractionDigits[c]), c))
              && match ToMinorUnits(amount, fractionDigits[c])
                 case Success(units) => ToDomain(fractionDigits, amount, c) == Success(Money(units, c))
                 case Failure(e) => ToDomain(fractionDigits, amount, c) == Failure(e)
  {
  }

  lemma PrintedMeans(unscaled: int, scale: nat)
    ensures var l := Printed(unscaled, scale);
            ValidLiteral(l) && ExponentOf(l) == 0 && Meaning(l) == Decimal(unscaled, scale)
  {
    PrintedDigits(unscaled, scale);
  }

  /** What is printed is read as the value that was printed. */
  lemma PrintThenParse(unscaled: int, scale: nat)
    requires scale <= MAX_INT
    ensures ParseDecimal(PlainString(unscaled, scale)) == Some(Decimal(unscaled, scale))
  {
    PrintedMeans(unscaled, scale);
    PrintedText(unscaled, scale);
    ReadsText(Printed(unscaled, scale));
  }

  /** Every amount of every currency survives being printed and parsed. */
  lemma RoundTrip(units: Long, digits: int)
    requires digits <= MAX_INT
    ensures ToMinorUnits(PlainString(units, digits), digits) == Success(units)
  {
    if digits >= 0 {
      PrintThenParse(units, digits);
      assert Pow10(0) == 1;
    } else {
      var p := Pow10(-digits);
      DivExact(units, p);
      PrintWhole(units, digits);
    }
  }

  lemma PrintWhole(units: int, digits: int)
    requires digits < 0
    ensures ParseDecimal(PlainString(units, digits)) == Some(Decimal(units * Pow10(-digits), 0))
  {
    var p := Pow10(-digits);
    assert units < 0 <==> units * p < 0;
    PrintThenParse(units * p, 0);
    assert PlainString(units, digits) == PlainString(units * p, 0);
  }

  lemma MoneyRoundTrip(fractionDigits: map<Currency, int>, money: Money)
    requires money.currency in fractionDigits && fractionDigits[money.currency] <= MAX_INT
    ensures var dto := ToDto(fractionDigits, money);
            dto.Success? && ToDomain(fractionDigits, dto.value.0, dto.value.1) == Success(money)
  {
    RoundTrip(money.minorUnits, fractionDigits[money.currency]);
  }
}
