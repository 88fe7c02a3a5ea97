/**
 The ledger's entities: a transaction with a closed currency set and a closed
 type set, a calendar date, and the market rate table that converts foreign
 amounts into kyat (MMK).
 */
module Types {

  /** The four currencies a transaction may be recorded in; MMK is the base currency. */
  datatype Currency = MMK | THB | USD | SGD

  /** How a transaction's amount enters the totals: each kind feeds exactly one accumulator. */
  datatype TxType = Income | Expense | Saving

  /** A calendar date by its `YYYY-MM-DD` fields. */
  datatype Date = Date(year: int, month: int, day: int)

  predicate IsLeapYear(y: int) {
    y % 4 == 0 && (y % 100 != 0 || y % 400 == 0)
  }

  /** Number of days in month `m` of year `y` (Gregorian calendar). */
  function DaysInMonth(y: int, m: int): (n: int)
    requires 1 <= m <= 12
    ensures 28 <= n <= 31
    ensures m == 2 <==> n < 30
  {
    if m == 2 then (if IsLeapYear(y) then 29 else 28)
    else if m == 4 || m == 6 || m == 9 || m == 11 then 30
    else 31
  }

  /**
   A date that can be written as `YYYY-MM-DD`: a four-digit year (so that the
   year's decimal rendering is exactly the `YYYY` prefix), a month in 1..12 and
   a day that exists in that month.
   */
  predicate ValidDate(d: Date) {
    && 1000 <= d.year <= 9999
    && 1 <= d.month <= 12
    && 1 <= d.day <= DaysInMonth(d.year, d.month)
  }

  type IsoDate = d: Date | ValidDate(d) witness Date(2024, 1, 1)

  /** One ledger entry; `kind` is the `type` field of types.ts. */
  datatype Transaction = Transaction(
    id: string,
    date: IsoDate,
    description: string,
    amount: real,
    kind: TxType,
    category: string,
    currency: Currency)

  /**
   How many kyat one unit of each foreign currency is worth, plus the gold
   reference price (kyat per kyattha), which is not a transaction currency.
   */
  datatype MarketRates = MarketRates(thb: real, usd: real, sgd: real, gold: real)

  /** No conversion factor is negative. */
  predicate NonNegativeRates(rates: MarketRates) {
    rates.thb >= 0.0 && rates.usd >= 0.0 && rates.sgd >= 0.0
  }

  /** Every transaction amount is non-negative. */
  predicate NonNegativeAmounts(ledger: seq<Transaction>) {
    forall i :: 0 <= i < |ledger| ==> ledger[i].amount >= 0.0
  }
}
