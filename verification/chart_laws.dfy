/**
 Properties of the time-series view that relate several calls: agreement
 with the dashboard summary, the effect of one more transaction on Net, and
 a one-salary scenario taken from the seed ledger.
 */
module ChartLaws {
  import opened Types
  import opened Normalize
  import opened Summary
  import opened Ledger
  import opened Chart

  /** When every bucket's Net is Income minus Expense, so is the sum of Net over the buckets. */
  lemma {:induction false} NetSumIsBalance(bs: seq<Bucket>)
    requires forall b :: b in bs ==> b.net == b.income - b.expense
    ensures SumNet(bs) == SumColumn(bs, Income) - SumColumn(bs, Expense)
  {
    if bs != [] {
      assert bs[0] in bs;
      NetSumIsBalance(bs[1..]);
    }
  }

  /**
   The yearly view keeps every transaction, so its columns add up to the
   dashboard's income, expense and saving, and its Net to the balance.
   */
  lemma YearlyMatchesSummary(ledger: seq<Transaction>, selectedYear: int, rates: MarketRates)
    ensures forall kind :: SumColumn(ChartData(ledger, Yearly, selectedYear, rates), kind) == TypeTotal(ledger, kind, rates)
    ensures SumNet(ChartData(ledger, Yearly, selectedYear, rates))
         == TypeTotal(ledger, Income, rates) - TypeTotal(ledger, Expense, rates)
  {
    NetSumIsBalance(ChartData(ledger, Yearly, selectedYear, rates));
  }

  /** A transaction outside the selected year does not enter the view's scope. */
  lemma ScopedIgnores(ledger: seq<Transaction>, t: Transaction, tf: Timeframe, selectedYear: int)
    requires !InScope(t, tf, selectedYear)
    ensures Scoped(ledger + [t], tf, selectedYear) == Scoped(ledger, tf, selectedYear)
  {
    ScopedAppend(ledger, t, tf, selectedYear);
    assert Scoped(ledger, tf, selectedYear) + [] == Scoped(ledger, tf, selectedYear);
  }

  /** A transaction outside the selected year changes nothing in the daily or monthly view. */
  lemma OutOfScopeIgnored(ledger: seq<Transaction>, t: Transaction, tf: Timeframe, selectedYear: int, rates: MarketRates)
    requires !InScope(t, tf, selectedYear)
    ensures ChartData(ledger + [t], tf, selectedYear, rates) == ChartData(ledger, tf, selectedYear, rates)
  {
    ScopedIgnores(ledger, t, tf, selectedYear);
  }

  /**
   One more transaction moves the Net of its own bucket only: up by its kyat
   value for Income, down for Expense, and not at all for Saving.
   */
  lemma NetStep(s: seq<Transaction>, t: Transaction, tf: Timeframe, k: Key, rates: MarketRates)
    ensures Expected(s + [t], tf, k, rates).net
         == Expected(s, tf, k, rates).net
            + if KeyOf(tf, t.date) != k then 0.0
              else match t.kind
                case Income => ToMMK(t.amount, t.currency, rates)
                case Expense => -ToMMK(t.amount, t.currency, rates)
                case Saving => 0.0
  {
    ExpectedStep(s, t, tf, k, rates);
  }

  /** A saving entry raises its bucket's Saving column and leaves every Net unchanged. */
  lemma SavingLeavesNet(s: seq<Transaction>, t: Transaction, tf: Timeframe, k: Key, rates: MarketRates)
    requires t.kind == Saving
    ensures Expected(s + [t], tf, k, rates).net == Expected(s, tf, k, rates).net
    ensures KeyOf(tf, t.date) == k ==>
      Expected(s + [t], tf, k, rates).saving == Expected(s, tf, k, rates).saving + ToMMK(t.amount, t.currency, rates)
  {
    NetStep(s, t, tf, k, rates);
    ExpectedStep(s, t, tf, k, rates);
  }

  /**
   A single 18000 THB salary dated 2024-09-15, at 124 kyat per baht, gives the
   2024 monthly view one bucket, 2024-09, with Income and Net 2,232,000.
   */
  lemma SalaryMonthScenario()
    ensures ChartData([InitialData[0]], Monthly, 2024, InitialRates)
         == [Bucket(Key(2024, 9, 0), 2232000.0, 0.0, 0.0, 2232000.0)]
  {
  }
}
