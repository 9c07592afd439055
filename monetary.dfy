/**
 * Currencies and the Money value object: an amount held at exactly two
 * fractional digits (so as a whole number of cents) tagged with its currency.
 */
module Monetary {
  import opened Decimals
  import opened Results

  datatype Currency = USD | CLP

  /** The fixed number of fractional digits of every Money amount. */
  const Scale: nat := 2

  /** `cents` is the unscaled value of the amount at scale 2. */
  datatype Money = Money(cents: int, currency: Currency)

  /** The amount as a BigDecimal (Money.amount()). */
  function Amount(m: Money): (r: Decimal)
  {
    Decimal(m.cents, Scale)
  }

  /**
   * The Money constructor: the amount is quantised to two digits with HALF_UP.
   * An amount with at most two digits is kept exactly; a longer one becomes
   * the nearest number of cents, a tie going away from zero.
   */
  function MakeMoney(amount: Decimal, currency: Currency): (m: Money)
    ensures m.currency == currency
    ensures amount.scale <= Scale ==> m.cents * Pow10(amount.scale) == amount.unscaled * Pow10(Scale)
    ensures amount.scale > Scale ==> IsHalfUpRounding(amount.unscaled, Pow10(amount.scale - Scale), m.cents)
  {
    Money(SetScale(amount, Scale).unscaled, currency)
  }

  /** Constructing Money from an amount that already has two digits changes nothing. */
  lemma MakeMoneyOfAmount(m: Money)
    ensures MakeMoney(Amount(m), m.currency) == m
  {
  }

  /** The quantisation examples: 10.004 -> 10.00, 10.005 -> 10.01, -10.005 -> -10.01, 0 -> 0.00. */
  lemma MakeMoneyExamples(c: Currency)
    ensures MakeMoney(Decimal(10004, 3), c) == Money(1000, c)
    ensures MakeMoney(Decimal(10005, 3), c) == Money(1001, c)
    ensures MakeMoney(Decimal(-10005, 3), c) == Money(-1001, c)
    ensures MakeMoney(Decimal(0, 0), c) == Money(0, c)
  {
  }

  /** Money.add: defined only between equal currencies, and then exact. */
  function Add(a: Money, b: Money): (r: Result<Money>)
    ensures r.Ok? <==> a.currency == b.currency
    ensures r.Err? ==> r.error == CurrencyMismatch
    ensures r.Ok? ==> r.value == Money(a.cents + b.cents, a.currency)
  {
    if a.currency != b.currency then Err(CurrencyMismatch)
    else Ok(MakeMoney(Decimal(a.cents + b.cents, Scale), a.currency))
  }

  /** Money.subtract: defined only between equal currencies, and then exact. */
  function Subtract(a: Money, b: Money): (r: Result<Money>)
    ensures r.Ok? <==> a.currency == b.currency
    ensures r.Err? ==> r.error == CurrencyMismatch
    ensures r.Ok? ==> r.value == Money(a.cents - b.cents, a.currency)
  {
    if a.currency != b.currency then Err(CurrencyMismatch)
    else Ok(MakeMoney(Decimal(a.cents - b.cents, Scale), a.currency))
  }

  /** Adding and then subtracting the same Money gives back the original. */
  lemma AddSubtractInverse(a: Money, b: Money)
    requires a.currency == b.currency
    ensures Add(a, b).Ok? && Subtract(Add(a, b).value, b) == Ok(a)
  {
  }
}
