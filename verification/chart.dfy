/**
 The time-series view of the analytics screen: transactions are filtered by
 the selected year (except in the yearly view), grouped into day, month or
 year buckets, accumulated into Income, Expense, Saving and Net columns in
 kyat, and emitted in ascending key order.

 The application accumulates into an object keyed by the bucket's key string and
 sorts its values by that string. Here a key is the triple of its date
 components, with 0 for components the timeframe drops, ordered
 lexicographically; the key strings are rendered and compared in module
 `KeyText`.
 */
module Chart {
  import opened Types
  import opened Normalize
  import opened Summary

  datatype Timeframe = Daily | Monthly | Yearly

  /** A bucket key: year, month and day, with 0 for components the timeframe drops. */
  datatype Key = Key(year: int, month: int, day: int)

  /**
   The bucket a date falls in: the full date, its year and month, or its year.
   The key keeps the year always, the month unless the view is yearly, the day
   only in the daily view, and writes 0 for what it drops.
   */
  function KeyOf(tf: Timeframe, d: Date): (r: Key)
    ensures r.year == d.year
    ensures tf != Yearly ==> r.month == d.month
    ensures tf == Daily ==> r.day == d.day
    ensures 1 <= d.month ==> (r.month == 0 <==> tf == Yearly)
    ensures 1 <= d.day ==> (r.day == 0 <==> tf != Daily)
  {
    match tf
    case Daily => Key(d.year, d.month, d.day)
    case Monthly => Key(d.year, d.month, 0)
    case Yearly => Key(d.year, 0, 0)
  }

  /** Lexicographic order on keys. */
  predicate KeyLess(a: Key, b: Key) {
    || a.year < b.year
    || (a.year == b.year && a.month < b.month)
    || (a.year == b.year && a.month == b.month && a.day < b.day)
  }

  /** Two dates share a bucket exactly when they agree on the components the timeframe keeps. */
  lemma SharedBucketIff(tf: Timeframe, d1: Date, d2: Date)
    ensures KeyOf(tf, d1) == KeyOf(tf, d2) <==>
      match tf
      case Daily => d1 == d2
      case Monthly => d1.year == d2.year && d1.month == d2.month
      case Yearly => d1.year == d2.year
  {
  }

  /** Coarsening keeps date order: a date no earlier than another falls in a bucket no earlier than the other's. */
  lemma KeyOfMonotone(tf: Timeframe, d1: Date, d2: Date)
    requires !KeyLess(KeyOf(Daily, d2), KeyOf(Daily, d1))
    ensures !KeyLess(KeyOf(tf, d2), KeyOf(tf, d1))
  {
  }

  /** Outside the yearly view, only transactions of the selected year take part. */
  predicate InScope(t: Transaction, tf: Timeframe, selectedYear: int): (r: bool)
    ensures tf == Yearly ==> r
    ensures tf != Yearly ==> (r <==> t.date.year == selectedYear)
  {
    tf == Yearly || t.date.year == selectedYear
  }

  /** The transactions that take part in the view, in ledger order. */
  function Scoped(ledger: seq<Transaction>, tf: Timeframe, selectedYear: int): (r: seq<Transaction>)
    ensures forall t :: t in r <==> t in ledger && InScope(t, tf, selectedYear)
    ensures tf == Yearly ==> r == ledger
  {
    if ledger == [] then []
    else
      var init := ledger[..|ledger| - 1];
      var t := ledger[|ledger| - 1];
      assert ledger == init + [t];
      Scoped(init, tf, selectedYear) + (if InScope(t, tf, selectedYear) then [t] else [])
  }

  /** Appending `t` extends the scope by `t` exactly when `t` is in scope. */
  lemma ScopedAppend(ledger: seq<Transaction>, t: Transaction, tf: Timeframe, selectedYear: int)
    ensures Scoped(ledger + [t], tf, selectedYear)
         == Scoped(ledger, tf, selectedYear) + (if InScope(t, tf, selectedYear) then [t] else [])
  {
    assert (ledger + [t])[..|ledger|] == ledger;
  }

  /** The transactions of `s` that fall in bucket `k`, in order. */
  function WithKey(s: seq<Transaction>, tf: Timeframe, k: Key): (r: seq<Transaction>)
    ensures forall t :: t in r <==> t in s && KeyOf(tf, t.date) == k
  {
    if s == [] then []
    else
      var init := s[..|s| - 1];
      var t := s[|s| - 1];
      assert s == init + [t];
      WithKey(init, tf, k) + (if KeyOf(tf, t.date) == k then [t] else [])
  }

  /** The keys of the buckets the transactions of `s` fall in. */
  function LedgerKeys(s: seq<Transaction>, tf: Timeframe): set<Key> {
    set t | t in s :: KeyOf(tf, t.date)
  }

  /** One row of the chart: the kyat totals of one bucket. */
  datatype Bucket = Bucket(key: Key, income: real, expense: real, saving: real, net: real)

  /**
   Reference value of bucket `k`: each column is the total of its own kind
   over the transactions in the bucket, and Net is Income minus Expense.
   */
  function Expected(s: seq<Transaction>, tf: Timeframe, k: Key, rates: MarketRates): Bucket {
    BucketOf(WithKey(s, tf, k), k, rates)
  }

  /** The bucket with key `k` holding the per-kind totals of `group`. */
  function BucketOf(group: seq<Transaction>, k: Key, rates: MarketRates): Bucket {
    var income := TypeTotal(group, Income, rates);
    var expense := TypeTotal(group, Expense, rates);
    Bucket(k, income, expense, TypeTotal(group, Saving, rates), income - expense)
  }

  /** The Income, Expense or Saving column of a bucket. */
  function Column(b: Bucket, kind: TxType): real {
    match kind
    case Income => b.income
    case Expense => b.expense
    case Saving => b.saving
  }

  /** The bucket a key gets when it is first seen: all columns zero. */
  function EmptyBucket(k: Key): Bucket {
    Bucket(k, 0.0, 0.0, 0.0, 0.0)
  }

  /**
   Adds one transaction to a bucket: its kyat value goes to the column of its
   kind; Income raises Net, Expense lowers it and Saving leaves it alone.
   */
  function Credit(b: Bucket, t: Transaction, rates: MarketRates): (r: Bucket)
    ensures r.key == b.key
    ensures forall kind :: Column(r, kind) == Column(b, kind) + Contribution(t, kind, rates)
    ensures r.net == b.net + Contribution(t, Income, rates) - Contribution(t, Expense, rates)
  {
    var amount := ToMMK(t.amount, t.currency, rates);
    match t.kind
    case Income => b.(income := b.income + amount, net := b.net + amount)
    case Expense => b.(expense := b.expense + amount, net := b.net - amount)
    case Saving => b.(saving := b.saving + amount)
  }

  /** The keys of a bucket list. */
  function KeysOf(bs: seq<Bucket>): (r: set<Key>)
    ensures forall k :: k in r <==> exists b :: b in bs && b.key == k
  {
    if bs == [] then {}
    else
      assert forall b :: b in bs <==> b == bs[0] || b in bs[1..];
      {bs[0].key} + KeysOf(bs[1..])
  }

  /** No two buckets share a key. */
  predicate UniqueKeys(bs: seq<Bucket>) {
    bs == [] || (bs[0].key !in KeysOf(bs[1..]) && UniqueKeys(bs[1..]))
  }

  /** Keys strictly ascend, hence are also unique. */
  predicate Ascending(bs: seq<Bucket>) {
    forall i, j :: 0 <= i < j < |bs| ==> KeyLess(bs[i].key, bs[j].key)
  }

  /** Sum of one column over a bucket list. */
  function SumColumn(bs: seq<Bucket>, kind: TxType): real {
    if bs == [] then 0.0 else Column(bs[0], kind) + SumColumn(bs[1..], kind)
  }

  /** Sum of Net over a bucket list. */
  function SumNet(bs: seq<Bucket>): real {
    if bs == [] then 0.0 else bs[0].net + SumNet(bs[1..])
  }

  /**
   Credits `t` to the bucket with key `k`, creating that bucket at the end of
   the list the first time `k` is seen (the insertion order of a JS object).
   */
  function Upsert(bs: seq<Bucket>, k: Key, t: Transaction, rates: MarketRates): (r: seq<Bucket>)
    ensures KeysOf(r) == KeysOf(bs) + {k}
    ensures UniqueKeys(bs) ==> UniqueKeys(r)
    ensures forall kind :: SumColumn(r, kind) == SumColumn(bs, kind) + Contribution(t, kind, rates)
  {
    if bs == [] then [Credit(EmptyBucket(k), t, rates)]
    else if bs[0].key == k then [Credit(bs[0], t, rates)] + bs[1..]
    else [bs[0]] + Upsert(bs[1..], k, t, rates)
  }

  /** Appending `t` extends exactly the group of `t`'s own key. */
  lemma WithKeyAppend(s: seq<Transaction>, t: Transaction, tf: Timeframe, k: Key)
    ensures WithKey(s + [t], tf, k) == WithKey(s, tf, k) + (if KeyOf(tf, t.date) == k then [t] else [])
  {
    assert (s + [t])[..|s|] == s;
  }

  /** A new transaction changes only its own bucket's reference value, by crediting it. */
  lemma ExpectedStep(s: seq<Transaction>, t: Transaction, tf: Timeframe, k: Key, rates: MarketRates)
    ensures Expected(s + [t], tf, k, rates)
         == if KeyOf(tf, t.date) == k then Credit(Expected(s, tf, k, rates), t, rates) else Expected(s, tf, k, rates)
  {
    WithKeyAppend(s, t, tf, k);
    var g := WithKey(s, tf, k);
    if KeyOf(tf, t.date) == k {
      GroupCredit(g, t, k, rates);
    } else {
      assert g + [] == g;
    }
  }

  /** The reference bucket of a group extended by `t` is the group's bucket credited with `t`. */
  lemma GroupCredit(g: seq<Transaction>, t: Transaction, k: Key, rates: MarketRates)
    ensures var b := BucketOf(g, k, rates); BucketOf(g + [t], k, rates) == Credit(b, t, rates)
  {
    TotalAppend(g, t, Income, rates);
    TotalAppend(g, t, Expense, rates);
    TotalAppend(g, t, Saving, rates);
    var v := ToMMK(t.amount, t.currency, rates);
    var b := BucketOf(g, k, rates);
    var i, e, sv := TypeTotal(g + [t], Income, rates), TypeTotal(g + [t], Expense, rates), TypeTotal(g + [t], Saving, rates);
    assert BucketOf(g + [t], k, rates) == Bucket(k, i, e, sv, i - e);
    match t.kind
    case Income =>
      assert i == b.income + v && e == b.expense && sv == b.saving;
    case Expense =>
      assert i == b.income && e == b.expense + v && sv == b.saving;
    case Saving =>
      assert i == b.income && e == b.expense && sv == b.saving + v;
  }

  /** Upserting a transaction into correct buckets for `s` gives correct buckets for `s + [t]`. */
  lemma {:induction false} UpsertCorrect(bs: seq<Bucket>, s: seq<Transaction>, t: Transaction, tf: Timeframe, rates: MarketRates)
    requires UniqueKeys(bs)
    requires forall b :: b in bs ==> b == Expected(s, tf, b.key, rates)
    requires KeyOf(tf, t.date) !in KeysOf(bs) ==> WithKey(s, tf, KeyOf(tf, t.date)) == []
    ensures forall b :: b in Upsert(bs, KeyOf(tf, t.date), t, rates) ==> b == Expected(s + [t], tf, b.key, rates)
  {
    var k := KeyOf(tf, t.date);
    var r := Upsert(bs, k, t, rates);
    if bs == [] {
      ExpectedStep(s, t, tf, k, rates);
      assert Expected(s, tf, k, rates) == EmptyBucket(k);
    } else if bs[0].key == k {
      ExpectedStep(s, t, tf, k, rates);
      forall b | b in bs[1..]
        ensures b == Expected(s + [t], tf, b.key, rates)
      {
        assert b.key in KeysOf(bs[1..]);
        ExpectedStep(s, t, tf, b.key, rates);
      }
    } else {
      ExpectedStep(s, t, tf, bs[0].key, rates);
      UpsertCorrect(bs[1..], s, t, tf, rates);
    }
  }

  /** Appending `t` adds exactly the key of `t`'s bucket. */
  lemma LedgerKeysAppend(s: seq<Transaction>, t: Transaction, tf: Timeframe)
    ensures LedgerKeys(s + [t], tf) == LedgerKeys(s, tf) + {KeyOf(tf, t.date)}
  {
    assert forall u :: u in s + [t] <==> u in s || u == t;
  }

  /** A key no transaction of `s` falls in has an empty group. */
  lemma EmptyGroupOutsideKeys(s: seq<Transaction>, tf: Timeframe, k: Key)
    ensures k !in LedgerKeys(s, tf) ==> WithKey(s, tf, k) == []
  {
    var g := WithKey(s, tf, k);
    if g != [] {
      assert g[0] in g;
    }
  }

  /**
   Accumulates the transactions of `s` in order into buckets, one per key
   seen, in first-seen order; the columns add up to the totals over `s`.
   */
  function Accumulate(s: seq<Transaction>, tf: Timeframe, rates: MarketRates): (r: seq<Bucket>)
    ensures UniqueKeys(r)
    ensures KeysOf(r) == LedgerKeys(s, tf)
    ensures forall kind :: SumColumn(r, kind) == TypeTotal(s, kind, rates)
  {
    if s == [] then []
    else
      var init := s[..|s| - 1];
      var t := s[|s| - 1];
      var k := KeyOf(tf, t.date);
      var acc := Accumulate(init, tf, rates);
      assert s == init + [t];
      LedgerKeysAppend(init, t, tf);
      Upsert(acc, k, t, rates)
  }

  /** Every accumulated bucket holds its reference value. */
  lemma {:induction false} AccumulateCorrect(s: seq<Transaction>, tf: Timeframe, rates: MarketRates)
    ensures forall b :: b in Accumulate(s, tf, rates) ==> b == Expected(s, tf, b.key, rates)
  {
    if s != [] {
      var init := s[..|s| - 1];
      var t := s[|s| - 1];
      var k := KeyOf(tf, t.date);
      assert s == init + [t];
      AccumulateCorrect(init, tf, rates);
      EmptyGroupOutsideKeys(init, tf, k);
      UpsertCorrect(Accumulate(init, tf, rates), init, t, tf, rates);
    }
  }

  /** Inserts a bucket before the first bucket with a larger key. */
  function InsertByKey(b: Bucket, bs: seq<Bucket>): (r: seq<Bucket>)
    ensures forall x :: x in r <==> x == b || x in bs
    ensures KeysOf(r) == KeysOf(bs) + {b.key}
    ensures forall kind :: SumColumn(r, kind) == SumColumn(bs, kind) + Column(b, kind)
    ensures SumNet(r) == SumNet(bs) + b.net
  {
    if bs == [] then [b]
    else if KeyLess(b.key, bs[0].key) then
      assert bs == [bs[0]] + bs[1..];
      [b] + bs
    else
      assert bs == [bs[0]] + bs[1..];
      [bs[0]] + InsertByKey(b, bs[1..])
  }

  /** Insertion adds exactly one bucket and loses none. */
  lemma {:induction false} InsertByKeyPermutes(b: Bucket, bs: seq<Bucket>)
    ensures multiset(InsertByKey(b, bs)) == multiset(bs) + multiset{b}
  {
    if bs != [] {
      assert bs == [bs[0]] + bs[1..];
      if !KeyLess(b.key, bs[0].key) {
        InsertByKeyPermutes(b, bs[1..]);
      }
    }
  }

  /** Key order is transitive. */
  lemma KeyLessTransitive(a: Key, b: Key, c: Key)
    requires KeyLess(a, b) && KeyLess(b, c)
    ensures KeyLess(a, c)
  {
  }

  /** Every bucket of `bs` has a key above `k`. */
  predicate Above(k: Key, bs: seq<Bucket>) {
    forall j :: 0 <= j < |bs| ==> KeyLess(k, bs[j].key)
  }

  /** A bucket below every bucket of an ascending list may lead it. */
  lemma AscendingCons(x: Bucket, bs: seq<Bucket>)
    requires Ascending(bs)
    requires Above(x.key, bs)
    ensures Ascending([x] + bs)
  {
    var r := [x] + bs;
    forall i, j | 0 <= i < j < |r|
      ensures KeyLess(r[i].key, r[j].key)
    {
      assert r[j] == bs[j - 1];
      if i > 0 {
        assert r[i] == bs[i - 1];
      }
    }
  }

  /** Inserting a bucket above `k` into a list above `k` leaves it above `k`. */
  lemma {:induction false} InsertKeepsAbove(k: Key, b: Bucket, bs: seq<Bucket>)
    requires Above(k, bs)
    requires KeyLess(k, b.key)
    ensures Above(k, InsertByKey(b, bs))
  {
    if bs != [] && !KeyLess(b.key, bs[0].key) {
      InsertKeepsAbove(k, b, bs[1..]);
    }
  }

  /** A key below the first key of an ascending list is below all of them. */
  lemma BelowFirstBelowAll(k: Key, bs: seq<Bucket>)
    requires Ascending(bs)
    requires bs != [] && KeyLess(k, bs[0].key)
    ensures Above(k, bs)
  {
    forall j | 0 <= j < |bs|
      ensures KeyLess(k, bs[j].key)
    {
      if j > 0 {
        KeyLessTransitive(k, bs[0].key, bs[j].key);
      }
    }
  }

  /** The tail of an ascending list is ascending and lies above its first key. */
  lemma AscendingTail(bs: seq<Bucket>)
    requires Ascending(bs)
    requires bs != []
    ensures Ascending(bs[1..])
    ensures Above(bs[0].key, bs[1..])
  {
    var tail := bs[1..];
    forall j | 0 <= j < |tail|
      ensures KeyLess(bs[0].key, tail[j].key)
    {
      assert tail[j] == bs[j + 1];
    }
  }

  /** Inserting a bucket with a new key keeps the keys strictly ascending. */
  lemma {:induction false} InsertKeepsAscending(b: Bucket, bs: seq<Bucket>)
    requires Ascending(bs)
    requires b.key !in KeysOf(bs)
    ensures Ascending(InsertByKey(b, bs))
  {
    if bs == [] {
    } else if KeyLess(b.key, bs[0].key) {
      BelowFirstBelowAll(b.key, bs);
      AscendingCons(b, bs);
    } else {
      var tail := bs[1..];
      AscendingTail(bs);
      assert b.key != bs[0].key && KeysOf(bs) == {bs[0].key} + KeysOf(tail);
      InsertKeepsAscending(b, tail);
      InsertKeepsAbove(bs[0].key, b, tail);
      AscendingCons(bs[0], InsertByKey(b, tail));
    }
  }

  /** Insertion sort by key: a permutation, and strictly ascending when keys are unique. */
  function SortByKey(bs: seq<Bucket>): (r: seq<Bucket>)
    ensures multiset(r) == multiset(bs)
    ensures KeysOf(r) == KeysOf(bs)
    ensures forall kind :: SumColumn(r, kind) == SumColumn(bs, kind)
    ensures SumNet(r) == SumNet(bs)
    ensures UniqueKeys(bs) ==> Ascending(r)
  {
    if bs == [] then []
    else
      assert bs == [bs[0]] + bs[1..];
      var sorted := SortByKey(bs[1..]);
      InsertByKeyPermutes(bs[0], sorted);
      assert UniqueKeys(bs) ==> Ascending(InsertByKey(bs[0], sorted)) by {
        if UniqueKeys(bs) {
          InsertKeepsAscending(bs[0], sorted);
        }
      }
      InsertByKey(bs[0], sorted)
  }

  /**
   The chart rows for the selected timeframe and year: one bucket per key of a
   transaction in scope and no other (no zero-filling), in strictly ascending
   key order, each holding the totals of its own transactions; the columns add
   up to the totals over the transactions in scope.
   */
  function ChartData(ledger: seq<Transaction>, tf: Timeframe, selectedYear: int, rates: MarketRates): (r: seq<Bucket>)
    ensures Ascending(r)
    ensures forall k :: k in KeysOf(r) <==> exists t :: t in ledger && InScope(t, tf, selectedYear) && KeyOf(tf, t.date) == k
    ensures forall b :: b in r ==> b == Expected(Scoped(ledger, tf, selectedYear), tf, b.key, rates)
    ensures forall b :: b in r ==> b.net == b.income - b.expense
    ensures forall kind :: SumColumn(r, kind) == TypeTotal(Scoped(ledger, tf, selectedYear), kind, rates)
  {
    var s := Scoped(ledger, tf, selectedYear);
    var acc := Accumulate(s, tf, rates);
    AccumulateCorrect(s, tf, rates);
    var r := SortByKey(acc);
    assert forall b :: b in r ==> b in multiset(acc);
    r
  }
}
