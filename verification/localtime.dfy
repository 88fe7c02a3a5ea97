/**
 The year and month the analytics screen reads off a date string. The
 application parses the stored `YYYY-MM-DD` string with `new Date(…)`, which
 takes it as midnight UTC, and then reads `getFullYear()` and `getMonth()`,
 which report the browser's local calendar. West of UTC, midnight UTC is still
 the previous day, so the year filter and the monthly and yearly keys see the
 previous day while the daily key is the stored string itself.

 This module models that as written, exhibits the misfiling it causes on New
 Year's Day and on the first of every other month, and proves that the date-field reading used by the rest of the
 model (`Chart.KeyOf`, `Chart.InScope`) files every bucket of a daily or
 monthly view under the selected year.
 */
module LocalTime {
  import opened Types
  import opened Chart

  /**
   The calendar day before `d`: a real calendar date, earlier than `d`, with no
   valid date strictly between the two.
   */
  function PrevDay(d: IsoDate): (r: Date)
    ensures KeyLess(KeyOf(Daily, r), KeyOf(Daily, d))
    ensures r.year == d.year || (d.month == 1 && d.day == 1 && r == Date(d.year - 1, 12, 31))
    ensures 1 <= r.month <= 12 && 1 <= r.day <= DaysInMonth(r.year, r.month)
    ensures forall e: IsoDate ::
      !(KeyLess(KeyOf(Daily, r), KeyOf(Daily, e)) && KeyLess(KeyOf(Daily, e), KeyOf(Daily, d)))
  {
    if d.day > 1 then Date(d.year, d.month, d.day - 1)
    else if d.month > 1 then Date(d.year, d.month - 1, DaysInMonth(d.year, d.month - 1))
    else Date(d.year - 1, 12, 31)
  }

  /**
   The local calendar date of midnight UTC on `d`: the previous day in a time
   zone west of UTC, the same day otherwise.
   */
  function LocalDate(d: IsoDate, westOfUtc: bool): (r: Date)
    ensures !westOfUtc ==> r == d
    ensures westOfUtc ==> r == PrevDay(d)
    ensures westOfUtc ==> KeyLess(KeyOf(Daily, r), KeyOf(Daily, d))
  {
    if westOfUtc then PrevDay(d) else d
  }

  /**
   The bucket key as written: the daily key is the stored string, the monthly
   and yearly keys use the local year and month. East of UTC (and at UTC) it is
   the model's key.
   */
  function KeyAsWritten(tf: Timeframe, d: IsoDate, westOfUtc: bool): (r: Key)
    ensures !westOfUtc ==> r == KeyOf(tf, d)
    ensures tf == Daily ==> r == KeyOf(Daily, d)
  {
    var local := LocalDate(d, westOfUtc);
    match tf
    case Daily => KeyOf(Daily, d)
    case Monthly => Key(local.year, local.month, 0)
    case Yearly => Key(local.year, 0, 0)
  }

  /** The year filter as written: it compares the local year. East of UTC it is the model's filter. */
  function InScopeAsWritten(t: Transaction, tf: Timeframe, selectedYear: int, westOfUtc: bool): (r: bool)
    ensures !westOfUtc ==> (r <==> InScope(t, tf, selectedYear))
    ensures tf == Yearly ==> r
  {
    tf == Yearly || LocalDate(t.date, westOfUtc).year == selectedYear
  }

  /**
   West of UTC, an entry dated 2024-01-01 passes the 2023 filter and is shown
   in the 2023 daily view under the key 2024-01-01; in the monthly view it is
   filed under December 2023, and the 2024 monthly view leaves it out.
   */
  lemma NewYearMisfiled()
    ensures var t := Transaction("1", Date(2024, 1, 1), "Salary", 1.0, Income, "Salary", MMK);
      && InScopeAsWritten(t, Daily, 2023, true)
      && KeyAsWritten(Daily, t.date, true).year == 2024
      && KeyAsWritten(Monthly, t.date, true) == Key(2023, 12, 0)
      && !InScopeAsWritten(t, Monthly, 2024, true)
  {
  }

  /**
   West of UTC, an entry dated on the first of any month but January is filed
   under the previous month, although its own month is the one it names; the
   first seed salary, dated 2024-10-01, lands in September 2024.
   */
  lemma FirstOfMonthMisfiled(d: IsoDate)
    requires d.day == 1 && d.month > 1
    ensures KeyAsWritten(Monthly, d, true) == Key(d.year, d.month - 1, 0)
    ensures KeyAsWritten(Monthly, d, true) != KeyOf(Monthly, d)
    ensures d == Date(2024, 10, 1) ==> KeyAsWritten(Monthly, d, true) == Key(2024, 9, 0)
  {
  }

  /**
   With the date's own fields, every bucket of a daily or monthly view lies in
   the selected year.
   */
  lemma ChartStaysInYear(ledger: seq<Transaction>, tf: Timeframe, selectedYear: int, rates: MarketRates)
    requires tf != Yearly
    ensures forall b :: b in ChartData(ledger, tf, selectedYear, rates) ==> b.key.year == selectedYear
  {
    var r := ChartData(ledger, tf, selectedYear, rates);
    forall b | b in r
      ensures b.key.year == selectedYear
    {
      assert b.key in KeysOf(r);
      var t :| t in ledger && InScope(t, tf, selectedYear) && KeyOf(tf, t.date) == b.key;
    }
  }
}
