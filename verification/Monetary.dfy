/** Amounts of money: a 64-bit count of minor units and a currency code.
    Every operation is exact; it fails rather than wrap around. */
module Monetary {
  import opened Wrappers

  const MIN_LONG: int := -0x8000_0000_0000_0000
  const MAX_LONG: int := 0x7FFF_FFFF_FFFF_FFFF

  predicate FitsLong(n: int) {
    MIN_LONG <= n <= MAX_LONG
  }

  type Long = n: int | FitsLong(n)

  type Currency = string

  datatype Money = Money(minorUnits: Long, currency: Currency)

  datatype MoneyError = CurrencyMismatch | Overflow

  function Zero(currency: Currency): Money {
    Money(0, currency)
  }

  function Exact(units: int, currency: Currency): Result<Money, MoneyError> {
    if FitsLong(units) then Success(Money(units, currency)) else Failure(Overflow)
  }

  function Add(a: Money, b: Money): Result<Money, MoneyError> {
    if a.currency != b.currency then Failure(CurrencyMismatch)
    else Exact(a.minorUnits + b.minorUnits, a.currency)
  }

  function Subtract(a: Money, b: Money): Result<Money, MoneyError> {
    if a.currency != b.currency then Failure(CurrencyMismatch)
    else Exact(a.minorUnits - b.minorUnits, a.currency)
  }

  function Negate(a: Money): Result<Money, MoneyError> {
    Exact(-(a.minorUnits as int), a.currency)
  }
}
