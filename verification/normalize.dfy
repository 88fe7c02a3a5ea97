/**
 Currency normalisation: the value of an amount in the base currency, MMK.
 */
module Normalize {
  import opened Types

  /** The kyat value of one unit of a foreign currency, as the rate table records it. */
  function Rate(rates: MarketRates, c: Currency): real
    requires c != MMK
  {
    match c
    case THB => rates.thb
    case USD => rates.usd
    case SGD => rates.sgd
  }

  /**
   Converts `amount` of currency `c` to kyat: foreign amounts are multiplied by
   their rate, anything else passes through unchanged.
   */
  function ToMMK(amount: real, c: Currency, rates: MarketRates): (r: real)
    ensures c == MMK ==> r == amount
    ensures c != MMK ==> r == amount * Rate(rates, c)
    ensures amount >= 0.0 && NonNegativeRates(rates) ==> r >= 0.0
  {
    if c == THB then amount * rates.thb
    else if c == USD then amount * rates.usd
    else if c == SGD then amount * rates.sgd
    else amount
  }

  /** The gold price is never consulted when normalising a transaction amount. */
  lemma GoldNeverNormalises(amount: real, c: Currency, rates: MarketRates, gold: real)
    ensures ToMMK(amount, c, rates.(gold := gold)) == ToMMK(amount, c, rates)
  {
  }
}
