/**
  The calendar facts the simulator relies on: the Gregorian leap rule, the length
  of a month (Python's `calendar.monthrange(year, month)[1]`), and the ordinal
  that identifies a day or a month when a time series is checked for gaps.
 */
module Calendar {

  /** The two sampling frequencies of a time series: 'D' (daily) and 'M' (monthly). */
  datatype Frequency = Daily | Monthly

  /** A time-index entry. A daily series uses all three fields; a monthly series
      (a pandas period) is identified by year and month alone. */
  datatype Stamp = Stamp(year: int, month: int, day: int)

  predicate IsLeapYear(year: int) {
    year % 4 == 0 && (year % 100 != 0 || year % 400 == 0)
  }

  predicate ValidMonth(month: int) {
    1 <= month <= 12
  }

  function DaysInMonth(year: int, month: int): (days: int)
    requires ValidMonth(month)
    ensures 28 <= days <= 31
    ensures month == 2 ==> (days == 29 <==> IsLeapYear(year))
    ensures month != 2 ==> (days == 31 <==> month in {1, 3, 5, 7, 8, 10, 12})
    ensures month in {4, 6, 9, 11} ==> days == 30
  {
    if month == 2 then (if IsLeapYear(year) then 29 else 28)
    else if month in {4, 6, 9, 11} then 30
    else 31
  }

  /** A stamp that names an existing calendar day. */
  predicate ValidStamp(s: Stamp) {
    ValidMonth(s.month) && 1 <= s.day <= DaysInMonth(s.year, s.month)
  }

  /** Days in the months of `year` that precede `month`. */
  function DaysBeforeMonth(year: int, month: int): int
    requires ValidMonth(month)
    decreases month
  {
    if month == 1 then 0 else DaysBeforeMonth(year, month - 1) + DaysInMonth(year, month - 1)
  }

  /** The proleptic Gregorian ordinal of a day (0001-01-01 is day 1), as Python's `date.toordinal`. */
  function DayNumber(s: Stamp): (n: int)
    requires ValidMonth(s.month)
    ensures s.year == 1 && s.month == 1 ==> n == s.day
  {
    var y := s.year - 1;
    365 * y + y / 4 - y / 100 + y / 400 + DaysBeforeMonth(s.year, s.month) + s.day
  }

  /** The calendar day after a valid day. */
  function NextDay(s: Stamp): (n: Stamp)
    requires ValidStamp(s)
    ensures ValidStamp(n)
  {
    if s.day < DaysInMonth(s.year, s.month) then Stamp(s.year, s.month, s.day + 1)
    else if s.month < 12 then Stamp(s.year, s.month + 1, 1)
    else Stamp(s.year + 1, 1, 1)
  }

  /** A year has 366 days exactly when it is a leap year, and 365 otherwise. */
  lemma DaysInYear(year: int)
    ensures DaysBeforeMonth(year, 12) + DaysInMonth(year, 12)
         == if IsLeapYear(year) then 366 else 365
  {
    var feb := DaysInMonth(year, 2);
    assert DaysBeforeMonth(year, 2) == 31;
    assert DaysBeforeMonth(year, 3) == 31 + feb;
    assert DaysBeforeMonth(year, 4) == 62 + feb;
    assert DaysBeforeMonth(year, 5) == 92 + feb;
    assert DaysBeforeMonth(year, 6) == 123 + feb;
    assert DaysBeforeMonth(year, 7) == 153 + feb;
    assert DaysBeforeMonth(year, 8) == 184 + feb;
    assert DaysBeforeMonth(year, 9) == 215 + feb;
    assert DaysBeforeMonth(year, 10) == 245 + feb;
    assert DaysBeforeMonth(year, 11) == 276 + feb;
    assert DaysBeforeMonth(year, 12) == 306 + feb;
  }

  /** Stepping a year forward adds one to `year / k` exactly when `k` divides it. */
  lemma QuotientStep(y: int, k: int)
    requires k in {4, 100, 400}
    ensures y / k - (y - 1) / k == if y % k == 0 then 1 else 0
  {
    if k == 4 {
      assert y / 4 - (y - 1) / 4 == if y % 4 == 0 then 1 else 0;
    } else if k == 100 {
      assert y / 100 - (y - 1) / 100 == if y % 100 == 0 then 1 else 0;
    } else {
      assert y / 400 - (y - 1) / 400 == if y % 400 == 0 then 1 else 0;
    }
  }

  /** The leap days counted before 1 January grow by one exactly after a leap year. */
  lemma LeapDaysStep(y: int)
    ensures (y / 4 - y / 100 + y / 400) - ((y - 1) / 4 - (y - 1) / 100 + (y - 1) / 400)
         == if IsLeapYear(y) then 1 else 0
  {
    QuotientStep(y, 4);
    QuotientStep(y, 100);
    QuotientStep(y, 400);
    if y % 100 == 0 {
      assert y % 4 == 0;
    }
    if y % 400 == 0 {
      assert y % 100 == 0;
    }
  }

  /** Consecutive calendar days have consecutive ordinals, across month and year ends. */
  lemma DayNumberSuccessor(s: Stamp)
    requires ValidStamp(s)
    ensures DayNumber(NextDay(s)) == DayNumber(s) + 1
  {
    if s.day == DaysInMonth(s.year, s.month) {
      if s.month < 12 {
        assert DaysBeforeMonth(s.year, s.month + 1) == DaysBeforeMonth(s.year, s.month) + DaysInMonth(s.year, s.month);
      } else {
        DaysInYear(s.year);
        LeapDaysStep(s.year);
      }
    }
  }

  /** The month count of a period: consecutive months differ by one. */
  function MonthNumber(s: Stamp): int {
    12 * s.year + s.month - 1
  }

  /** The ordinal by which a series of the given frequency identifies an entry. */
  function Ordinal(freq: Frequency, s: Stamp): int
    requires ValidMonth(s.month)
  {
    match freq
    case Daily => DayNumber(s)
    case Monthly => MonthNumber(s)
  }
}
