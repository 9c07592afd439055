/** SimpleExchangeRateProvider: fixed USD/CLP rates as decimals. */
module Rates {
  import opened Decimals
  import opened Results
  import opened Monetary

  /** BigDecimal.ONE */
  const One: Decimal := Decimal(1, 0)

  /** 1 USD is 900 CLP. */
  const UsdToClp: Decimal := Decimal(900, 0)

  /** 1 / 900 rounded HALF_UP to ten fractional digits. */
  const ClpToUsd: Decimal := Divide(One, UsdToClp, 10)

  lemma ClpToUsdValue()
    ensures ClpToUsd == Decimal(11111111, 10)
  {
  }

  /**
   * The rate of a pair: 1 for equal currencies, the two fixed rates for the
   * two directions, UnsupportedPair for anything else.
   */
  function Rate(from: Currency, to: Currency): (r: Result<Decimal>)
    ensures r.Ok? <==> from == to || (from == USD && to == CLP) || (from == CLP && to == USD)
    ensures r.Err? ==> r.error == UnsupportedPair
    ensures from == to ==> r == Ok(Decimal(1, 0))
    ensures from == USD && to == CLP ==> r == Ok(Decimal(900, 0))
    ensures from == CLP && to == USD ==> r == Ok(Decimal(11111111, 10))
  {
    ClpToUsdValue();
    if from == to then Ok(One)
    else if from == USD && to == CLP then Ok(UsdToClp)
    else if from == CLP && to == USD then Ok(ClpToUsd)
    else Err(UnsupportedPair)
  }

  /** With only USD and CLP, every pair has a rate. */
  lemma RateTotal(from: Currency, to: Currency)
    ensures Rate(from, to).Ok?
  {
  }

  /**
   * The two rates are inverse to within 10^-8: their product differs from 1
   * by at most one part in 10^8.
   */
  lemma RatesInverse()
    ensures var p := Multiply(Rate(USD, CLP).value, Rate(CLP, USD).value);
      p.scale == 10 && -Pow10(2) <= p.unscaled - Pow10(10) <= Pow10(2)
  {
  }
}
