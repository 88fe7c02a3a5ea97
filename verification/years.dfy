/**
 The year choices of the analytics screen: every year a transaction falls in,
 plus the current year, without repetition and newest first.
 */
module Years {
  import opened Types

  /** No year occurs twice. */
  predicate Distinct(ys: seq<int>) {
    forall i, j :: 0 <= i < j < |ys| ==> ys[i] != ys[j]
  }

  /** Years strictly decrease from left to right. */
  predicate StrictlyDescending(ys: seq<int>) {
    forall i, j :: 0 <= i < j < |ys| ==> ys[i] > ys[j]
  }

  /** Adds a year to a set kept as a duplicate-free sequence in first-seen order, as a JS `Set` does. */
  function AddYear(ys: seq<int>, y: int): (r: seq<int>)
    ensures forall x :: x in r <==> x in ys || x == y
    ensures Distinct(ys) ==> Distinct(r)
  {
    if y in ys then ys else ys + [y]
  }

  /** The set of years of the ledger's transactions, in first-seen order. */
  function YearsOf(ledger: seq<Transaction>): (r: seq<int>)
    ensures Distinct(r)
    ensures forall y :: y in r <==> exists t :: t in ledger && t.date.year == y
  {
    if ledger == [] then []
    else
      var init := ledger[..|ledger| - 1];
      var t := ledger[|ledger| - 1];
      assert ledger == init + [t];
      assert forall u :: u in ledger <==> u in init || u == t;
      AddYear(YearsOf(init), t.date.year)
  }

  /** Inserts a year before the first year it is not below (the comparator `b - a`). */
  function InsertDesc(y: int, ys: seq<int>): (r: seq<int>)
    ensures forall x :: x in r <==> x == y || x in ys
  {
    if ys == [] then [y]
    else if y >= ys[0] then [y] + ys
    else
      assert ys == [ys[0]] + ys[1..];
      [ys[0]] + InsertDesc(y, ys[1..])
  }

  /** Insertion adds exactly one year and loses none. */
  lemma {:induction false} InsertDescPermutes(y: int, ys: seq<int>)
    ensures multiset(InsertDesc(y, ys)) == multiset(ys) + multiset{y}
  {
    if ys != [] {
      assert ys == [ys[0]] + ys[1..];
      if y < ys[0] {
        InsertDescPermutes(y, ys[1..]);
      }
    }
  }

  /** Every year of `ys` is below `y`. */
  predicate Below(ys: seq<int>, y: int) {
    forall j :: 0 <= j < |ys| ==> ys[j] < y
  }

  /** A year above every year of a strictly descending list may lead it. */
  lemma DescendingCons(y: int, ys: seq<int>)
    requires StrictlyDescending(ys)
    requires Below(ys, y)
    ensures StrictlyDescending([y] + ys)
  {
    var r := [y] + ys;
    forall i, j | 0 <= i < j < |r|
      ensures r[i] > r[j]
    {
      assert r[j] == ys[j - 1];
      if i > 0 {
        assert r[i] == ys[i - 1];
      }
    }
  }

  /** Inserting a new year keeps a list strictly descending. */
  lemma {:induction false} InsertDescKeepsOrder(y: int, ys: seq<int>)
    requires StrictlyDescending(ys)
    requires y !in ys
    ensures StrictlyDescending(InsertDesc(y, ys))
  {
    if ys == [] {
    } else if y >= ys[0] {
      DescendingCons(y, ys);
    } else {
      var tail := ys[1..];
      assert ys == [ys[0]] + tail;
      InsertDescKeepsOrder(y, tail);
      var rest := InsertDesc(y, tail);
      forall j | 0 <= j < |rest|
        ensures rest[j] < ys[0]
      {
        assert rest[j] in rest;
        if rest[j] != y {
          var i :| 0 <= i < |tail| && tail[i] == rest[j];
          assert ys[i + 1] == rest[j];
        }
      }
      DescendingCons(ys[0], rest);
    }
  }

  /** The head of a list of distinct years is absent from the tail, which is distinct too. */
  lemma DistinctHead(ys: seq<int>)
    requires ys != [] && Distinct(ys)
    ensures Distinct(ys[1..])
    ensures ys[0] !in multiset(ys[1..])
  {
    forall j | 0 <= j < |ys[1..]|
      ensures ys[1..][j] != ys[0]
    {
      assert ys[1..][j] == ys[j + 1];
    }
  }

  /** Insertion sort, newest first: a permutation, strictly descending when the years are distinct. */
  function SortDesc(ys: seq<int>): (r: seq<int>)
    ensures multiset(r) == multiset(ys)
    ensures Distinct(ys) ==> StrictlyDescending(r)
  {
    if ys == [] then []
    else
      var sorted := SortDesc(ys[1..]);
      assert ys == [ys[0]] + ys[1..];
      InsertDescPermutes(ys[0], sorted);
      assert Distinct(ys) ==> StrictlyDescending(InsertDesc(ys[0], sorted)) by {
        if Distinct(ys) {
          DistinctHead(ys);
          InsertDescKeepsOrder(ys[0], sorted);
        }
      }
      InsertDesc(ys[0], sorted)
  }

  /**
   The year choices: exactly the transaction years and the current year, each
   once, newest first; the current year is there even for an empty ledger.
   */
  function AvailableYears(ledger: seq<Transaction>, currentYear: int): (r: seq<int>)
    ensures currentYear in r
    ensures forall y :: y in r <==> y == currentYear || exists t :: t in ledger && t.date.year == y
    ensures StrictlyDescending(r)
  {
    var ys := AddYear(YearsOf(ledger), currentYear);
    var r := SortDesc(ys);
    forall y
      ensures y in r <==> y == currentYear || exists t :: t in ledger && t.date.year == y
    {
      assert y in r <==> y in multiset(r);
      assert y in ys <==> y in multiset(ys);
    }
    r
  }
}
