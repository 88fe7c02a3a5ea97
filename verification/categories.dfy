/**
 The expense breakdown of the analytics screen: the kyat value of the expense
 transactions in scope, summed per category name (compared exactly, with no
 case folding), and the descending-by-value order the category list is shown in.
 */
module Categories {
  import opened Types
  import opened Normalize
  import opened Summary
  import opened Chart

  /** One slice of the breakdown: a category name and its kyat total. */
  datatype CategoryTotal = CategoryTotal(name: string, value: real)

  /** The expense transactions of a ledger, in order. */
  function ExpensesOf(ledger: seq<Transaction>): (r: seq<Transaction>)
    ensures forall t :: t in r <==> t in ledger && t.kind == Expense
  {
    if ledger == [] then []
    else
      var init := ledger[..|ledger| - 1];
      var t := ledger[|ledger| - 1];
      assert ledger == init + [t];
      ExpensesOf(init) + (if t.kind == Expense then [t] else [])
  }

  /** The expenses that take part in the breakdown: expenses first, then the year filter. */
  function ScopedExpenses(ledger: seq<Transaction>, tf: Timeframe, selectedYear: int): (r: seq<Transaction>)
    ensures forall t :: t in r <==> t in ledger && t.kind == Expense && InScope(t, tf, selectedYear)
  {
    Scoped(ExpensesOf(ledger), tf, selectedYear)
  }

  /** The transactions of `s` in category `c`, in order. */
  function WithCategory(s: seq<Transaction>, c: string): (r: seq<Transaction>)
    ensures forall t :: t in r <==> t in s && t.category == c
  {
    if s == [] then []
    else
      var init := s[..|s| - 1];
      var t := s[|s| - 1];
      assert s == init + [t];
      WithCategory(init, c) + (if t.category == c then [t] else [])
  }

  /** The category names used by the transactions of `s`. */
  function CategoriesIn(s: seq<Transaction>): set<string> {
    set t | t in s :: t.category
  }

  /** The names of a breakdown. */
  function NamesOf(cs: seq<CategoryTotal>): (r: set<string>)
    ensures forall n :: n in r <==> exists c :: c in cs && c.name == n
  {
    if cs == [] then {}
    else
      assert forall c :: c in cs <==> c == cs[0] || c in cs[1..];
      {cs[0].name} + NamesOf(cs[1..])
  }

  /** No two entries share a name. */
  predicate UniqueNames(cs: seq<CategoryTotal>) {
    cs == [] || (cs[0].name !in NamesOf(cs[1..]) && UniqueNames(cs[1..]))
  }

  /** The sum of the values of a breakdown. */
  function SumValues(cs: seq<CategoryTotal>): real {
    if cs == [] then 0.0 else cs[0].value + SumValues(cs[1..])
  }

  /**
   Adds the kyat value of `t` to the entry of its category, creating that
   entry at the end the first time the category is seen.
   */
  function AddToCategory(cs: seq<CategoryTotal>, t: Transaction, rates: MarketRates): (r: seq<CategoryTotal>)
    ensures NamesOf(r) == NamesOf(cs) + {t.category}
    ensures SumValues(r) == SumValues(cs) + ToMMK(t.amount, t.currency, rates)
  {
    var v := ToMMK(t.amount, t.currency, rates);
    if cs == [] then [CategoryTotal(t.category, v)]
    else if cs[0].name == t.category then [cs[0].(value := cs[0].value + v)] + cs[1..]
    else [cs[0]] + AddToCategory(cs[1..], t, rates)
  }

  /** Adding to a breakdown with unique names keeps the names unique. */
  lemma {:induction false} AddToCategoryUnique(cs: seq<CategoryTotal>, t: Transaction, rates: MarketRates)
    requires UniqueNames(cs)
    ensures UniqueNames(AddToCategory(cs, t, rates))
  {
    if cs != [] && cs[0].name != t.category {
      AddToCategoryUnique(cs[1..], t, rates);
    }
  }

  /**
   Accumulates the transactions of `s` per category: one entry per category
   used, and the values add up to the kyat value of all of `s`.
   */
  function AccumulateCategories(s: seq<Transaction>, rates: MarketRates): (r: seq<CategoryTotal>)
    ensures UniqueNames(r)
    ensures NamesOf(r) == CategoriesIn(s)
    ensures SumValues(r) == GrandTotal(s, rates)
  {
    if s == [] then []
    else
      var init := s[..|s| - 1];
      var t := s[|s| - 1];
      assert s == init + [t];
      assert forall u :: u in s <==> u in init || u == t;
      assert CategoriesIn(s) == CategoriesIn(init) + {t.category};
      AddToCategoryUnique(AccumulateCategories(init, rates), t, rates);
      AddToCategory(AccumulateCategories(init, rates), t, rates)
  }

  /** Appending `t` extends exactly the group of `t`'s own category. */
  lemma WithCategoryAppend(s: seq<Transaction>, t: Transaction, c: string)
    ensures WithCategory(s + [t], c) == WithCategory(s, c) + (if t.category == c then [t] else [])
  {
    assert (s + [t])[..|s|] == s;
  }

  /** The kyat value of a ledger grows by exactly the value of an appended entry. */
  lemma GrandTotalAppend(s: seq<Transaction>, t: Transaction, rates: MarketRates)
    ensures GrandTotal(s + [t], rates) == GrandTotal(s, rates) + ToMMK(t.amount, t.currency, rates)
  {
    assert (s + [t])[..|s|] == s;
  }

  /** One more transaction raises only its own category's total, by its kyat value. */
  lemma CategoryStep(s: seq<Transaction>, t: Transaction, c: string, rates: MarketRates)
    ensures GrandTotal(WithCategory(s + [t], c), rates)
         == GrandTotal(WithCategory(s, c), rates) + (if t.category == c then ToMMK(t.amount, t.currency, rates) else 0.0)
  {
    WithCategoryAppend(s, t, c);
    GrandTotalStep(WithCategory(s, c), t, t.category == c, rates);
  }

  /** Each entry of `cs` holds the kyat value of its own category's transactions in `s`. */
  predicate EntriesMatch(cs: seq<CategoryTotal>, s: seq<Transaction>, rates: MarketRates) {
    forall i :: 0 <= i < |cs| ==> cs[i].value == GrandTotal(WithCategory(s, cs[i].name), rates)
  }

  /** A correct entry in front of correct entries gives correct entries. */
  lemma MatchCons(c: CategoryTotal, cs: seq<CategoryTotal>, s: seq<Transaction>, rates: MarketRates)
    requires c.value == GrandTotal(WithCategory(s, c.name), rates)
    requires EntriesMatch(cs, s, rates)
    ensures EntriesMatch([c] + cs, s, rates)
  {
    var r := [c] + cs;
    forall i | 1 <= i < |r|
      ensures r[i].value == GrandTotal(WithCategory(s, r[i].name), rates)
    {
      assert r[i] == cs[i - 1];
    }
  }

  /** The tail of correct entries is correct. */
  lemma MatchTail(cs: seq<CategoryTotal>, s: seq<Transaction>, rates: MarketRates)
    requires cs != []
    requires EntriesMatch(cs, s, rates)
    ensures EntriesMatch(cs[1..], s, rates)
  {
    var tail := cs[1..];
    forall i | 0 <= i < |tail|
      ensures tail[i].value == GrandTotal(WithCategory(s, tail[i].name), rates)
    {
      assert tail[i] == cs[i + 1];
    }
  }

  /** Entries for other categories than `t`'s stay correct when `t` is appended. */
  lemma MatchOthers(cs: seq<CategoryTotal>, s: seq<Transaction>, t: Transaction, rates: MarketRates)
    requires t.category !in NamesOf(cs)
    requires EntriesMatch(cs, s, rates)
    ensures EntriesMatch(cs, s + [t], rates)
  {
    forall i | 0 <= i < |cs|
      ensures cs[i].value == GrandTotal(WithCategory(s + [t], cs[i].name), rates)
    {
      assert cs[i] in cs;
      CategoryStep(s, t, cs[i].name, rates);
    }
  }

  /** A first transaction of its category gets a correct new entry. */
  lemma AddNewCorrect(s: seq<Transaction>, t: Transaction, rates: MarketRates)
    requires WithCategory(s, t.category) == []
    ensures EntriesMatch([CategoryTotal(t.category, ToMMK(t.amount, t.currency, rates))], s + [t], rates)
  {
    CategoryStep(s, t, t.category, rates);
  }

  /** Crediting the first entry, which is `t`'s category, keeps every entry correct. */
  lemma AddFirstCorrect(cs: seq<CategoryTotal>, s: seq<Transaction>, t: Transaction, rates: MarketRates)
    requires cs != [] && cs[0].name == t.category
    requires t.category !in NamesOf(cs[1..])
    requires EntriesMatch(cs, s, rates)
    ensures EntriesMatch([cs[0].(value := cs[0].value + ToMMK(t.amount, t.currency, rates))] + cs[1..], s + [t], rates)
  {
    CategoryStep(s, t, t.category, rates);
    MatchTail(cs, s, rates);
    MatchOthers(cs[1..], s, t, rates);
    MatchCons(cs[0].(value := cs[0].value + ToMMK(t.amount, t.currency, rates)), cs[1..], s + [t], rates);
  }

  /** An untouched first entry of another category stays correct in front of correct entries. */
  lemma AddPastFirstCorrect(cs: seq<CategoryTotal>, rest: seq<CategoryTotal>, s: seq<Transaction>, t: Transaction, rates: MarketRates)
    requires cs != [] && cs[0].name != t.category
    requires EntriesMatch(cs, s, rates)
    requires EntriesMatch(rest, s + [t], rates)
    ensures EntriesMatch([cs[0]] + rest, s + [t], rates)
  {
    CategoryStep(s, t, cs[0].name, rates);
    MatchCons(cs[0], rest, s + [t], rates);
  }

  /** Adding `t` to entries correct for `s` gives entries correct for `s + [t]`. */
  lemma {:induction false} AddToCategoryCorrect(cs: seq<CategoryTotal>, s: seq<Transaction>, t: Transaction, rates: MarketRates)
    requires UniqueNames(cs)
    requires EntriesMatch(cs, s, rates)
    requires t.category !in NamesOf(cs) ==> WithCategory(s, t.category) == []
    ensures EntriesMatch(AddToCategory(cs, t, rates), s + [t], rates)
  {
    AddToCategoryShape(cs, t, rates);
    if cs == [] {
      AddNewCorrect(s, t, rates);
    } else if cs[0].name == t.category {
      AddFirstCorrect(cs, s, t, rates);
    } else {
      assert NamesOf(cs) == {cs[0].name} + NamesOf(cs[1..]);
      MatchTail(cs, s, rates);
      AddToCategoryCorrect(cs[1..], s, t, rates);
      AddPastFirstCorrect(cs, AddToCategory(cs[1..], t, rates), s, t, rates);
    }
  }

  /** The three shapes of an addition: a new last entry, an updated first entry, or an untouched first entry. */
  lemma AddToCategoryShape(cs: seq<CategoryTotal>, t: Transaction, rates: MarketRates)
    ensures var r := AddToCategory(cs, t, rates);
      var v := ToMMK(t.amount, t.currency, rates);
      && (cs == [] ==> r == [CategoryTotal(t.category, v)])
      && (cs != [] && cs[0].name == t.category ==> r == [cs[0].(value := cs[0].value + v)] + cs[1..])
      && (cs != [] && cs[0].name != t.category ==> r == [cs[0]] + AddToCategory(cs[1..], t, rates))
  {
  }

  /** One accumulation step keeps every entry correct. */
  lemma AccumulateStep(acc: seq<CategoryTotal>, init: seq<Transaction>, t: Transaction, rates: MarketRates)
    requires UniqueNames(acc)
    requires EntriesMatch(acc, init, rates)
    requires NamesOf(acc) == CategoriesIn(init)
    ensures EntriesMatch(AddToCategory(acc, t, rates), init + [t], rates)
  {
    var g := WithCategory(init, t.category);
    if g != [] {
      assert g[0] in g;
    }
    AddToCategoryCorrect(acc, init, t, rates);
  }

  /** Every accumulated entry holds the kyat value of its own category's transactions. */
  lemma {:induction false} AccumulateCategoriesCorrect(s: seq<Transaction>, rates: MarketRates)
    ensures EntriesMatch(AccumulateCategories(s, rates), s, rates)
  {
    if s != [] {
      var init := s[..|s| - 1];
      var t := s[|s| - 1];
      assert s == init + [t];
      AccumulateCategoriesCorrect(init, rates);
      AccumulateStep(AccumulateCategories(init, rates), init, t, rates);
    }
  }

  /** Appending `t` extends the expenses by `t` exactly when it is an expense. */
  lemma ExpensesAppend(s: seq<Transaction>, t: Transaction)
    ensures ExpensesOf(s + [t]) == ExpensesOf(s) + (if t.kind == Expense then [t] else [])
  {
    assert (s + [t])[..|s|] == s;
  }

  /** The kyat value of `s` extended by `t` when `keep` holds grows by exactly the value of `t`. */
  lemma GrandTotalStep(s: seq<Transaction>, t: Transaction, keep: bool, rates: MarketRates)
    ensures GrandTotal(s + (if keep then [t] else []), rates)
         == GrandTotal(s, rates) + (if keep then ToMMK(t.amount, t.currency, rates) else 0.0)
  {
    if keep {
      GrandTotalAppend(s, t, rates);
    } else {
      assert s + [] == s;
    }
  }

  /** The Expense total of a ledger extended by `t` when `keep` holds. */
  lemma TypeTotalStep(s: seq<Transaction>, t: Transaction, keep: bool, rates: MarketRates)
    ensures TypeTotal(s + (if keep then [t] else []), Expense, rates)
         == TypeTotal(s, Expense, rates) + (if keep then Contribution(t, Expense, rates) else 0.0)
  {
    if keep {
      TotalAppend(s, t, Expense, rates);
    } else {
      assert s + [] == s;
    }
  }

  /** Appending `t` extends the expenses in scope by `t` exactly when it is an expense in scope. */
  lemma ScopedExpensesAppend(ledger: seq<Transaction>, t: Transaction, tf: Timeframe, selectedYear: int)
    ensures ScopedExpenses(ledger + [t], tf, selectedYear)
         == ScopedExpenses(ledger, tf, selectedYear)
            + (if t.kind == Expense && InScope(t, tf, selectedYear) then [t] else [])
  {
    var e := ExpensesOf(ledger);
    ExpensesAppend(ledger, t);
    if t.kind == Expense {
      ScopedAppend(e, t, tf, selectedYear);
    } else {
      assert e + [] == e;
      assert Scoped(e, tf, selectedYear) + [] == Scoped(e, tf, selectedYear);
    }
  }

  /** Summing all expenses in scope gives the Expense total of the transactions in scope. */
  lemma {:induction false} ScopedExpensesTotal(ledger: seq<Transaction>, tf: Timeframe, selectedYear: int, rates: MarketRates)
    ensures GrandTotal(ScopedExpenses(ledger, tf, selectedYear), rates) == TypeTotal(Scoped(ledger, tf, selectedYear), Expense, rates)
  {
    if ledger != [] {
      var init := ledger[..|ledger| - 1];
      var t := ledger[|ledger| - 1];
      assert ledger == init + [t];
      ScopedExpensesTotal(init, tf, selectedYear, rates);
      var inScope := InScope(t, tf, selectedYear);
      var keep := t.kind == Expense && inScope;
      var e, sc := ScopedExpenses(init, tf, selectedYear), Scoped(init, tf, selectedYear);
      ScopedExpensesAppend(init, t, tf, selectedYear);
      GrandTotalStep(e, t, keep, rates);
      ScopedAppend(init, t, tf, selectedYear);
      TypeTotalStep(sc, t, inScope, rates);
      assert GrandTotal(ScopedExpenses(ledger, tf, selectedYear), rates)
          == GrandTotal(e, rates) + (if keep then ToMMK(t.amount, t.currency, rates) else 0.0);
      assert TypeTotal(Scoped(ledger, tf, selectedYear), Expense, rates)
          == TypeTotal(sc, Expense, rates) + (if keep then ToMMK(t.amount, t.currency, rates) else 0.0);
    }
  }

  /**
   The breakdown for the selected timeframe and year: exactly one entry per
   category of an expense in scope, each holding the kyat total of that
   category's expenses in scope; the values add up to the Expense total in scope.
   */
  function CategoryData(ledger: seq<Transaction>, tf: Timeframe, selectedYear: int, rates: MarketRates): (r: seq<CategoryTotal>)
    ensures UniqueNames(r)
    ensures forall n :: n in NamesOf(r) <==>
      exists t :: t in ledger && t.kind == Expense && InScope(t, tf, selectedYear) && t.category == n
    ensures forall c :: c in r ==> c.value == GrandTotal(WithCategory(ScopedExpenses(ledger, tf, selectedYear), c.name), rates)
    ensures SumValues(r) == TypeTotal(Scoped(ledger, tf, selectedYear), Expense, rates)
  {
    var e := ScopedExpenses(ledger, tf, selectedYear);
    AccumulateCategoriesCorrect(e, rates);
    ScopedExpensesTotal(ledger, tf, selectedYear, rates);
    AccumulateCategories(e, rates)
  }

  /** Entries are in non-increasing order of value. */
  predicate Descending(cs: seq<CategoryTotal>) {
    forall i, j :: 0 <= i < j < |cs| ==> cs[i].value >= cs[j].value
  }

  /** Inserts an entry before the first entry whose value it reaches. */
  function InsertByValue(c: CategoryTotal, cs: seq<CategoryTotal>): (r: seq<CategoryTotal>)
    ensures forall x :: x in r <==> x == c || x in cs
    ensures Descending(cs) ==> Descending(r)
  {
    if cs == [] then [c]
    else if c.value >= cs[0].value then [c] + cs
    else
      var rest := InsertByValue(c, cs[1..]);
      assert cs == [cs[0]] + cs[1..];
      assert Descending(cs) ==> forall x :: x in rest ==> x.value <= cs[0].value by {
        if Descending(cs) {
          forall x | x in rest
            ensures x.value <= cs[0].value
          {
            if x != c {
              var i :| 0 <= i < |cs[1..]| && cs[1..][i] == x;
              assert cs[i + 1] == x;
            }
          }
        }
      }
      [cs[0]] + rest
  }

  /** Insertion adds exactly one entry and loses none. */
  lemma {:induction false} InsertByValuePermutes(c: CategoryTotal, cs: seq<CategoryTotal>)
    ensures multiset(InsertByValue(c, cs)) == multiset(cs) + multiset{c}
  {
    if cs != [] {
      assert cs == [cs[0]] + cs[1..];
      if c.value < cs[0].value {
        InsertByValuePermutes(c, cs[1..]);
      }
    }
  }

  /** The order the breakdown is listed in: largest value first, a permutation of the entries. */
  function SortByValue(cs: seq<CategoryTotal>): (r: seq<CategoryTotal>)
    ensures multiset(r) == multiset(cs)
    ensures Descending(r)
  {
    if cs == [] then []
    else
      assert cs == [cs[0]] + cs[1..];
      InsertByValuePermutes(cs[0], SortByValue(cs[1..]));
      InsertByValue(cs[0], SortByValue(cs[1..]))
  }
}
