/**
 The ledger store: an ordered sequence of transactions that only grows by
 appending and only shrinks by deleting every entry with a given id. Also the
 seed ledger and rate table used when nothing has been saved yet.
 */
module Ledger {
  import opened Types

  /** Appends `t`: every existing entry keeps its place and `t` comes last. */
  function AddTransaction(ledger: seq<Transaction>, t: Transaction): (r: seq<Transaction>)
    ensures |r| == |ledger| + 1
    ensures r[..|ledger|] == ledger
    ensures r[|ledger|] == t
  {
    ledger + [t]
  }

  /**
   Removes every entry whose id is `id`; the others survive with their
   multiplicity, in their original relative order.
   */
  function DeleteTransaction(ledger: seq<Transaction>, id: string): (r: seq<Transaction>)
    ensures |r| <= |ledger|
    ensures forall t :: t in r <==> t in ledger && t.id != id
    ensures forall t: Transaction :: t.id != id ==> multiset(r)[t] == multiset(ledger)[t]
  {
    if ledger == [] then []
    else
      var rest := DeleteTransaction(ledger[1..], id);
      assert ledger == [ledger[0]] + ledger[1..];
      if ledger[0].id != id then [ledger[0]] + rest else rest
  }

  /** Deleting an id that no entry carries is a no-op, not an error. */
  lemma {:induction false} DeleteAbsentId(ledger: seq<Transaction>, id: string)
    requires forall i :: 0 <= i < |ledger| ==> ledger[i].id != id
    ensures DeleteTransaction(ledger, id) == ledger
  {
    if ledger != [] {
      DeleteAbsentId(ledger[1..], id);
    }
  }

  /** Deleting twice is the same as deleting once. */
  lemma DeleteIdempotent(ledger: seq<Transaction>, id: string)
    ensures DeleteTransaction(DeleteTransaction(ledger, id), id) == DeleteTransaction(ledger, id)
  {
    var once := DeleteTransaction(ledger, id);
    forall i | 0 <= i < |once|
      ensures once[i].id != id
    {
      assert once[i] in once;
    }
    DeleteAbsentId(once, id);
  }

  /** Deletion works entry by entry, so the survivors keep their relative order. */
  lemma {:induction false} DeleteConcat(a: seq<Transaction>, b: seq<Transaction>, id: string)
    ensures DeleteTransaction(a + b, id) == DeleteTransaction(a, id) + DeleteTransaction(b, id)
  {
    if a == [] {
      assert a + b == b;
    } else {
      assert (a + b)[1..] == a[1..] + b;
      DeleteConcat(a[1..], b, id);
    }
  }

  /** Deleting by the id of an entry just added also undoes the addition. */
  lemma DeleteAfterAdd(ledger: seq<Transaction>, t: Transaction)
    ensures DeleteTransaction(AddTransaction(ledger, t), t.id) == DeleteTransaction(ledger, t.id)
  {
    DeleteConcat(ledger, [t], t.id);
    assert DeleteTransaction([t], t.id) == [];
  }

  /** Deletions by two ids may be done in either order. */
  lemma {:induction false} DeleteCommutes(ledger: seq<Transaction>, a: string, b: string)
    ensures DeleteTransaction(DeleteTransaction(ledger, a), b)
         == DeleteTransaction(DeleteTransaction(ledger, b), a)
  {
    if ledger != [] {
      DeleteCommutes(ledger[1..], a, b);
    }
  }

  /** The seed ledger shown before anything has been saved. */
  const InitialData: seq<Transaction> := [
    Transaction("1", Date(2024, 9, 15), "Salary", 18000.0, Income, "Salary", THB),
    Transaction("2", Date(2024, 9, 16), "Housing Savings", 15000.0, Saving, "Investment", THB),
    Transaction("3", Date(2024, 9, 20), "Food & Dining", 3700.0, Expense, "Food", THB),
    Transaction("4", Date(2024, 10, 1), "Salary", 18000.0, Income, "Salary", THB),
    Transaction("5", Date(2024, 10, 5), "Monthly Saving", 15000.0, Saving, "Investment", THB),
    Transaction("6", Date(2024, 10, 12), "Utilities", 3700.0, Expense, "Housing", THB)
  ]

  /** The seed rate table. */
  const InitialRates: MarketRates := MarketRates(124.0, 4500.0, 3300.0, 6500000.0)

  /** The seed ledger has distinct ids and non-negative amounts, and the seed rates are non-negative. */
  lemma SeedWellFormed()
    ensures forall i, j :: 0 <= i < j < |InitialData| ==> InitialData[i].id != InitialData[j].id
    ensures NonNegativeAmounts(InitialData)
    ensures NonNegativeRates(InitialRates)
  {
  }
}
