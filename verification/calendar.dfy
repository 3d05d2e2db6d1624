/** Calendar dates, abstracted from pandas Timestamps to (year, month, day)
    triples ordered lexicographically, and the month-start schedule that
    pd.date_range(..., freq='MS') produces. */
module Calendar {

  datatype Date = Date(year: int, month: int, day: int)

  predicate ValidDate(d: Date)
  {
    1 <= d.month <= 12 && 1 <= d.day <= 31
  }

  /** Strict chronological order: a < b. */
  predicate Before(a: Date, b: Date)
  {
    a.year < b.year
    || (a.year == b.year && a.month < b.month)
    || (a.year == b.year && a.month == b.month && a.day < b.day)
  }

  /** Months counted from year 0: January of year y is 12 * y. */
  function MonthIndex(d: Date): int
  {
    12 * d.year + (d.month - 1)
  }

  /** The first day of the month with the given index. */
  function MonthStartOf(k: int): (d: Date)
    ensures ValidDate(d) && d.day == 1 && MonthIndex(d) == k
  {
    Date(k / 12, k % 12 + 1, 1)
  }

  /** month_start + pd.DateOffset(months=1), for a month start. */
  function NextMonthStart(d: Date): (n: Date)
    ensures ValidDate(n) && n.day == 1 && MonthIndex(n) == MonthIndex(d) + 1
  {
    MonthStartOf(MonthIndex(d) + 1)
  }

  /** pd.date_range(start, end, freq='MS') for two month starts: every first
      of the month from start to end, both included. */
  function MonthStarts(start: Date, end: Date): (s: seq<Date>)
    ensures |s| == if MonthIndex(end) < MonthIndex(start) then 0
                   else MonthIndex(end) - MonthIndex(start) + 1
    ensures forall k :: 0 <= k < |s| ==>
              ValidDate(s[k]) && s[k].day == 1 && MonthIndex(s[k]) == MonthIndex(start) + k
  {
    var n := if MonthIndex(end) < MonthIndex(start) then 0
             else MonthIndex(end) - MonthIndex(start) + 1;
    var s := seq(n, k requires 0 <= k < n => MonthStartOf(MonthIndex(start) + k));
    assert forall k :: 0 <= k < n ==> s[k] == MonthStartOf(MonthIndex(start) + k);
    s
  }

  /** The rebalancing schedule of the mean-variance backtest:
      2018-01-01 through 2025-10-01. */
  function Schedule(): seq<Date>
  {
    MonthStarts(Date(2018, 1, 1), Date(2025, 10, 1))
  }

  lemma MonthIndexInjective(a: Date, b: Date)
    requires ValidDate(a) && ValidDate(b) && MonthIndex(a) == MonthIndex(b)
    ensures a.year == b.year && a.month == b.month
  {
  }

  /** The schedule has 94 month starts, from January 2018 to October 2025,
      each followed by the next calendar month. */
  lemma {:induction false} ScheduleShape()
    ensures |Schedule()| == 94
    ensures Schedule()[0] == Date(2018, 1, 1) && Schedule()[93] == Date(2025, 10, 1)
    ensures forall k :: 0 <= k < 93 ==> NextMonthStart(Schedule()[k]) == Schedule()[k + 1]
    ensures forall k :: 0 <= k < 94 ==> Schedule()[k].day == 1 && ValidDate(Schedule()[k])
  {
    var s := Schedule();
    assert MonthIndex(Date(2018, 1, 1)) == 24216;
    assert MonthIndex(Date(2025, 10, 1)) == 24309;
    assert s[0] == MonthStartOf(24216);
    assert s[93] == MonthStartOf(24309);
    forall k | 0 <= k < 93 ensures NextMonthStart(s[k]) == s[k + 1] {
      var a, b := NextMonthStart(s[k]), s[k + 1];
      MonthIndexInjective(a, b);
    }
  }

  /** For a month start m, the replay window [m, next month start) holds exactly
      the valid dates of that calendar month. */
  lemma InMonthWindow(d: Date, m: Date)
    requires ValidDate(d) && ValidDate(m) && m.day == 1
    ensures (!Before(d, m) && Before(d, NextMonthStart(m)))
            <==> (d.year == m.year && d.month == m.month)
  {
    var n := NextMonthStart(m);
    if m.month == 12 {
      assert n.year == m.year + 1 && n.month == 1;
    } else {
      assert n.year == m.year && n.month == m.month + 1;
    }
  }
}
