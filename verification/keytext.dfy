/**
 The bucket key strings the chart sorts by, and why sorting the strings
 agrees with sorting the key triples: within one timeframe every key has the
 same shape (`YYYY-MM-DD`, `YYYY-MM` or `YYYY`), with zero-padded fixed-width
 numbers, so character-by-character comparison is numeric comparison.
 */
module KeyText {
  import opened Types
  import opened Chart

  function Pow10(w: nat): (r: nat)
    ensures r >= 1
  {
    if w == 0 then 1 else 10 * Pow10(w - 1)
  }

  /** The decimal digit character of 0..9. */
  function Digit(n: int): char
    requires 0 <= n <= 9
  {
    (48 + n) as char
  }

  /** `n` in exactly `w` decimal digits, padded on the left with zeros. */
  function Pad(n: int, w: nat): (r: string)
    requires 0 <= n < Pow10(w)
    ensures |r| == w
  {
    if w == 0 then "" else Pad(n / 10, w - 1) + [Digit(n % 10)]
  }

  /**
   The key string of a date in a timeframe: the stored date string for days,
   the year and the two-digit month for months, the year for years. A
   four-digit year's decimal rendering is its four-digit padding.
   */
  function KeyString(tf: Timeframe, d: IsoDate): (r: string)
    ensures |r| == match tf case Daily => 10 case Monthly => 7 case Yearly => 4
  {
    match tf
    case Daily => Pad(d.year, 4) + "-" + Pad(d.month, 2) + "-" + Pad(d.day, 2)
    case Monthly => Pad(d.year, 4) + "-" + Pad(d.month, 2)
    case Yearly => Pad(d.year, 4)
  }

  /** Character-by-character (code point) order on strings. */
  predicate StrLess(a: string, b: string) {
    if a == [] then b != []
    else if b == [] then false
    else if a[0] == b[0] then StrLess(a[1..], b[1..])
    else a[0] < b[0]
  }

  /** Between equal-length prefixes, the prefixes decide unless they are equal. */
  lemma {:induction false} StrLessConcat(x1: string, y1: string, x2: string, y2: string)
    requires |x1| == |x2|
    ensures StrLess(x1 + y1, x2 + y2) <==> StrLess(x1, x2) || (x1 == x2 && StrLess(y1, y2))
  {
    if x1 == [] {
      assert x1 + y1 == y1 && x2 + y2 == y2;
    } else {
      assert (x1 + y1)[0] == x1[0] && (x2 + y2)[0] == x2[0];
      assert (x1 + y1)[1..] == x1[1..] + y1;
      assert (x2 + y2)[1..] == x2[1..] + y2;
      StrLessConcat(x1[1..], y1, x2[1..], y2);
      if x1[0] == x2[0] {
        assert x1 == x2 <==> x1[1..] == x2[1..] by {
          assert x1 == [x1[0]] + x1[1..] && x2 == [x2[0]] + x2[1..];
        }
      }
    }
  }

  /** Fixed-width padding compares like the numbers it renders, and is injective. */
  lemma {:induction false} PadOrder(a: int, b: int, w: nat)
    requires 0 <= a < Pow10(w) && 0 <= b < Pow10(w)
    ensures StrLess(Pad(a, w), Pad(b, w)) <==> a < b
    ensures Pad(a, w) == Pad(b, w) <==> a == b
  {
    if w > 0 {
      PadOrder(a / 10, b / 10, w - 1);
      var da, db := Digit(a % 10), Digit(b % 10);
      StrLessConcat(Pad(a / 10, w - 1), [da], Pad(b / 10, w - 1), [db]);
      assert StrLess([da], [db]) <==> a % 10 < b % 10 by {
        assert [da][1..] == [] && [db][1..] == [];
      }
      var pa, pb := Pad(a / 10, w - 1), Pad(b / 10, w - 1);
      assert Pad(a, w) == Pad(b, w) <==> pa == pb && da == db by {
        if Pad(a, w) == Pad(b, w) {
          assert Pad(a, w)[..w - 1] == pa && Pad(b, w)[..w - 1] == pb;
          assert Pad(a, w)[w - 1] == da && Pad(b, w)[w - 1] == db;
        }
      }
    } else {
      assert a == 0 && b == 0;
    }
  }

  /** Joining equal-width fields with a dash keeps field-by-field order and equality. */
  lemma Dashed(a1: string, b1: string, a2: string, b2: string)
    requires |a1| == |a2|
    ensures StrLess(a1 + "-" + b1, a2 + "-" + b2) <==> StrLess(a1, a2) || (a1 == a2 && StrLess(b1, b2))
    ensures a1 + "-" + b1 == a2 + "-" + b2 <==> a1 == a2 && b1 == b2
  {
    assert a1 + "-" + b1 == a1 + ("-" + b1) && a2 + "-" + b2 == a2 + ("-" + b2);
    StrLessConcat(a1, "-" + b1, a2, "-" + b2);
    StrLessConcat("-", b1, "-", b2);
    assert !StrLess("-", "-") by {
      assert "-"[1..] == [];
    }
    if a1 + "-" + b1 == a2 + "-" + b2 {
      assert (a1 + "-" + b1)[..|a1|] == a1 && (a2 + "-" + b2)[..|a2|] == a2;
      assert (a1 + "-" + b1)[|a1| + 1..] == b1 && (a2 + "-" + b2)[|a2| + 1..] == b2;
    }
  }

  /** Two dates' key strings are equal exactly when the dates share a bucket. */
  lemma KeyStringInjective(tf: Timeframe, d1: IsoDate, d2: IsoDate)
    ensures KeyString(tf, d1) == KeyString(tf, d2) <==> KeyOf(tf, d1) == KeyOf(tf, d2)
  {
    KeyStringFacts(tf, d1, d2);
  }

  /**
   Sorting by key string is sorting by key: for two dates in the same
   timeframe, one key string precedes the other exactly when its key does.
   */
  lemma KeyStringOrder(tf: Timeframe, d1: IsoDate, d2: IsoDate)
    ensures StrLess(KeyString(tf, d1), KeyString(tf, d2)) <==> KeyLess(KeyOf(tf, d1), KeyOf(tf, d2))
  {
    KeyStringFacts(tf, d1, d2);
  }

  /** Order and equality of key strings, proved together field by field. */
  lemma KeyStringFacts(tf: Timeframe, d1: IsoDate, d2: IsoDate)
    ensures StrLess(KeyString(tf, d1), KeyString(tf, d2)) <==> KeyLess(KeyOf(tf, d1), KeyOf(tf, d2))
    ensures KeyString(tf, d1) == KeyString(tf, d2) <==> KeyOf(tf, d1) == KeyOf(tf, d2)
  {
    PadOrder(d1.year, d2.year, 4);
    match tf
    case Yearly =>
    case Monthly => MonthlyFacts(d1, d2);
    case Daily => DailyFacts(d1, d2);
  }

  /** Monthly key strings compare and coincide as (year, month) pairs do. */
  lemma MonthlyFacts(d1: IsoDate, d2: IsoDate)
    ensures StrLess(KeyString(Monthly, d1), KeyString(Monthly, d2)) <==> KeyLess(KeyOf(Monthly, d1), KeyOf(Monthly, d2))
    ensures KeyString(Monthly, d1) == KeyString(Monthly, d2) <==> KeyOf(Monthly, d1) == KeyOf(Monthly, d2)
  {
    PadOrder(d1.year, d2.year, 4);
    PadOrder(d1.month, d2.month, 2);
    Dashed(Pad(d1.year, 4), Pad(d1.month, 2), Pad(d2.year, 4), Pad(d2.month, 2));
  }

  /** Daily key strings compare and coincide as dates do. */
  lemma DailyFacts(d1: IsoDate, d2: IsoDate)
    ensures StrLess(KeyString(Daily, d1), KeyString(Daily, d2)) <==> KeyLess(KeyOf(Daily, d1), KeyOf(Daily, d2))
    ensures KeyString(Daily, d1) == KeyString(Daily, d2) <==> KeyOf(Daily, d1) == KeyOf(Daily, d2)
  {
    var y1, y2 := Pad(d1.year, 4), Pad(d2.year, 4);
    var m1, m2 := Pad(d1.month, 2), Pad(d2.month, 2);
    var e1, e2 := Pad(d1.day, 2), Pad(d2.day, 2);
    PadOrder(d1.year, d2.year, 4);
    PadOrder(d1.month, d2.month, 2);
    PadOrder(d1.day, d2.day, 2);
    Dashed(m1, e1, m2, e2);
    Dashed(y1, m1 + "-" + e1, y2, m2 + "-" + e2);
    assert KeyString(Daily, d1) == y1 + "-" + (m1 + "-" + e1);
    assert KeyString(Daily, d2) == y2 + "-" + (m2 + "-" + e2);
  }

  /**
   The chart's rows ascend as key strings too: for any dates that fall in an
   earlier and a later row, the earlier row's key string sorts first, as the
   string comparison of the chart's sort requires.
   */
  lemma ChartRowsAscendAsStrings(ledger: seq<Transaction>, tf: Timeframe, selectedYear: int, rates: MarketRates)
    ensures var r := ChartData(ledger, tf, selectedYear, rates);
      forall i, j, d1: IsoDate, d2: IsoDate ::
        0 <= i < j < |r| && KeyOf(tf, d1) == r[i].key && KeyOf(tf, d2) == r[j].key ==>
          StrLess(KeyString(tf, d1), KeyString(tf, d2))
  {
    var r := ChartData(ledger, tf, selectedYear, rates);
    forall i, j, d1: IsoDate, d2: IsoDate |
      0 <= i < j < |r| && KeyOf(tf, d1) == r[i].key && KeyOf(tf, d2) == r[j].key
      ensures StrLess(KeyString(tf, d1), KeyString(tf, d2))
    {
      KeyStringOrder(tf, d1, d2);
    }
  }
}
