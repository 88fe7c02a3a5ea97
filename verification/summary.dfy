/**
 The dashboard summary: income, expense and saving totals in kyat, and the
 balance, which is income minus expense. Also the reference totals that the
 analytics views are proved against.
 */
module Summary {
  import opened Types
  import opened Normalize
  import opened Ledger

  /** The four dashboard figures, all in kyat. */
  datatype Totals = Totals(income: real, expense: real, saving: real, balance: real)

  /** What `t` adds to the accumulator for `kind`: its kyat value if it is of that kind, else nothing. */
  function Contribution(t: Transaction, kind: TxType, rates: MarketRates): real {
    if t.kind == kind then ToMMK(t.amount, t.currency, rates) else 0.0
  }

  /** The sum of the kyat values of the transactions of `kind`, in ledger order. */
  function TypeTotal(ledger: seq<Transaction>, kind: TxType, rates: MarketRates): real {
    if ledger == [] then 0.0
    else TypeTotal(ledger[..|ledger| - 1], kind, rates) + Contribution(ledger[|ledger| - 1], kind, rates)
  }

  /** The sum of the kyat values of all transactions, whatever their kind. */
  function GrandTotal(ledger: seq<Transaction>, rates: MarketRates): real {
    if ledger == [] then 0.0
    else
      var t := ledger[|ledger| - 1];
      GrandTotal(ledger[..|ledger| - 1], rates) + ToMMK(t.amount, t.currency, rates)
  }

  /**
   The conversion as the summary loop writes it inline: start from the amount
   and apply three independent currency tests in turn. It agrees with `ToMMK`
   for every currency.
   */
  function InlineValue(t: Transaction, rates: MarketRates): (v: real)
    ensures v == ToMMK(t.amount, t.currency, rates)
  {
    var v0 := t.amount;
    var v1 := if t.currency == THB then t.amount * rates.thb else v0;
    var v2 := if t.currency == USD then t.amount * rates.usd else v1;
    if t.currency == SGD then t.amount * rates.sgd else v2
  }

  /**
   One pass over the ledger with three accumulators; each transaction feeds
   the accumulator of its own kind, and the balance leaves saving out.
   */
  method CalculateSummary(ledger: seq<Transaction>, rates: MarketRates) returns (s: Totals)
    ensures s.income == TypeTotal(ledger, Income, rates)
    ensures s.expense == TypeTotal(ledger, Expense, rates)
    ensures s.saving == TypeTotal(ledger, Saving, rates)
    ensures s.balance == s.income - s.expense
  {
    var income, expense, saving := 0.0, 0.0, 0.0;
    var i := 0;
    while i < |ledger|
      invariant 0 <= i <= |ledger|
      invariant income == TypeTotal(ledger[..i], Income, rates)
      invariant expense == TypeTotal(ledger[..i], Expense, rates)
      invariant saving == TypeTotal(ledger[..i], Saving, rates)
    {
      var t := ledger[i];
      var val := InlineValue(t, rates);
      if t.kind == Income { income := income + val; }
      if t.kind == Expense { expense := expense + val; }
      if t.kind == Saving { saving := saving + val; }
      assert ledger[..i + 1][..i] == ledger[..i];
      i := i + 1;
    }
    assert ledger[..|ledger|] == ledger;
    s := Totals(income, expense, saving, income - expense);
  }

  /** The totals are additive over append: a new entry adds exactly its own contribution. */
  lemma TotalAppend(ledger: seq<Transaction>, t: Transaction, kind: TxType, rates: MarketRates)
    ensures TypeTotal(ledger + [t], kind, rates) == TypeTotal(ledger, kind, rates) + Contribution(t, kind, rates)
  {
    assert (ledger + [t])[..|ledger|] == ledger;
  }

  /** The totals of a concatenation are the sums of the parts' totals. */
  lemma {:induction false} TotalConcat(a: seq<Transaction>, b: seq<Transaction>, kind: TxType, rates: MarketRates)
    ensures TypeTotal(a + b, kind, rates) == TypeTotal(a, kind, rates) + TypeTotal(b, kind, rates)
    decreases |b|
  {
    if b == [] {
      assert a + b == a;
    } else {
      var init := b[..|b| - 1];
      var last := b[|b| - 1];
      assert b == init + [last];
      assert a + b == (a + init) + [last];
      TotalAppend(a + init, last, kind, rates);
      TotalAppend(init, last, kind, rates);
      TotalConcat(a, init, kind, rates);
    }
  }

  /** With non-negative amounts and rates, every total is non-negative. */
  lemma {:induction false} TotalNonNegative(ledger: seq<Transaction>, kind: TxType, rates: MarketRates)
    requires NonNegativeAmounts(ledger)
    requires NonNegativeRates(rates)
    ensures TypeTotal(ledger, kind, rates) >= 0.0
  {
    if ledger != [] {
      var init := ledger[..|ledger| - 1];
      assert forall i :: 0 <= i < |init| ==> init[i] == ledger[i];
      TotalNonNegative(init, kind, rates);
    }
  }

  /**
   Every transaction feeds exactly one of the three accumulators: together
   they add up to the kyat value of the whole ledger.
   */
  lemma {:induction false} KindsPartition(ledger: seq<Transaction>, rates: MarketRates)
    ensures TypeTotal(ledger, Income, rates) + TypeTotal(ledger, Expense, rates) + TypeTotal(ledger, Saving, rates)
         == GrandTotal(ledger, rates)
  {
    if ledger != [] {
      KindsPartition(ledger[..|ledger| - 1], rates);
    }
  }

  /** Saving never enters the balance: a new saving entry raises the saving total only. */
  lemma SavingLeavesBalance(ledger: seq<Transaction>, t: Transaction, rates: MarketRates)
    requires t.kind == Saving
    ensures TypeTotal(ledger + [t], Income, rates) - TypeTotal(ledger + [t], Expense, rates)
         == TypeTotal(ledger, Income, rates) - TypeTotal(ledger, Expense, rates)
    ensures TypeTotal(ledger + [t], Saving, rates) == TypeTotal(ledger, Saving, rates) + ToMMK(t.amount, t.currency, rates)
  {
    TotalAppend(ledger, t, Income, rates);
    TotalAppend(ledger, t, Expense, rates);
    TotalAppend(ledger, t, Saving, rates);
  }

  /** The seed salary of 18000 THB at 124 kyat per baht is 2,232,000 kyat. */
  lemma SeedSalary()
    ensures InlineValue(InitialData[0], InitialRates) == 2232000.0
    ensures ToMMK(InitialData[0].amount, InitialData[0].currency, InitialRates) == 2232000.0
  {
  }

  /** The dashboard figures of the seed ledger at the seed rates. */
  lemma SeedSummary()
    ensures TypeTotal(InitialData, Income, InitialRates) == 4464000.0
    ensures TypeTotal(InitialData, Expense, InitialRates) == 917600.0
    ensures TypeTotal(InitialData, Saving, InitialRates) == 3720000.0
  {
    var d := InitialData;
    forall k, kind | 0 <= k < |d|
      ensures TypeTotal(d[..k + 1], kind, InitialRates) == TypeTotal(d[..k], kind, InitialRates) + Contribution(d[k], kind, InitialRates)
    {
      assert d[..k + 1] == d[..k] + [d[k]];
      TotalAppend(d[..k], d[k], kind, InitialRates);
    }
    assert d[..0] == [];
    assert TypeTotal(d[..1], Income, InitialRates) == 2232000.0;
    assert TypeTotal(d[..2], Income, InitialRates) == 2232000.0;
    assert TypeTotal(d[..3], Income, InitialRates) == 2232000.0;
    assert TypeTotal(d[..4], Income, InitialRates) == 4464000.0;
    assert TypeTotal(d[..5], Income, InitialRates) == 4464000.0;
    assert TypeTotal(d[..6], Income, InitialRates) == 4464000.0;
    assert TypeTotal(d[..1], Expense, InitialRates) == 0.0;
    assert TypeTotal(d[..2], Expense, InitialRates) == 0.0;
    assert TypeTotal(d[..3], Expense, InitialRates) == 458800.0;
    assert TypeTotal(d[..4], Expense, InitialRates) == 458800.0;
    assert TypeTotal(d[..5], Expense, InitialRates) == 458800.0;
    assert TypeTotal(d[..6], Expense, InitialRates) == 917600.0;
    assert TypeTotal(d[..1], Saving, InitialRates) == 0.0;
    assert TypeTotal(d[..2], Saving, InitialRates) == 1860000.0;
    assert TypeTotal(d[..3], Saving, InitialRates) == 1860000.0;
    assert TypeTotal(d[..4], Saving, InitialRates) == 1860000.0;
    assert TypeTotal(d[..5], Saving, InitialRates) == 3720000.0;
    assert TypeTotal(d[..6], Saving, InitialRates) == 3720000.0;
    assert d[..6] == d;
  }
}
