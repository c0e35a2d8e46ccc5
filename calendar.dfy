/** Proleptic Gregorian calendar dates as Python's `date` has them (years 1..9999),
    the successor day, calendar-month shifts with day clamping (`relativedelta(months=k)`),
    and a serial day number that turns date order into integer order. */
module Calendar {
  import opened Outcomes

  const MinYear := 1
  const MaxYear := 9999
  /** Microseconds in one day: a time of day lies in [0, MicrosPerDay). */
  const MicrosPerDay := 86_400_000_000

  predicate IsLeap(y: int)
  {
    y % 4 == 0 && (y % 100 != 0 || y % 400 == 0)
  }

  function DaysInMonth(y: int, m: int): (n: int)
    requires 1 <= m <= 12
    ensures 28 <= n <= 31
  {
    if m == 2 then (if IsLeap(y) then 29 else 28)
    else if m == 4 || m == 6 || m == 9 || m == 11 then 30
    else 31
  }

  function YearLength(y: int): int
  {
    if IsLeap(y) then 366 else 365
  }

  datatype YMD = YMD(year: int, month: int, day: int)

  predicate ValidYMD(d: YMD)
  {
    MinYear <= d.year <= MaxYear && 1 <= d.month <= 12 && 1 <= d.day <= DaysInMonth(d.year, d.month)
  }

  /** A calendar date that Python's `date` can hold. */
  type Date = d: YMD | ValidYMD(d) witness YMD(1, 1, 1)

  const FirstDate: Date := YMD(MinYear, 1, 1)
  const LastDate: Date := YMD(MaxYear, 12, 31)

  /** Python's date order: lexicographic on (year, month, day). */
  predicate DateLt(a: Date, b: Date)
  {
    a.year < b.year || (a.year == b.year && (a.month < b.month || (a.month == b.month && a.day < b.day)))
  }

  predicate DateLe(a: Date, b: Date)
  {
    a == b || DateLt(a, b)
  }

  /** `d + timedelta(days=1)`; Python raises OverflowError past LastDate. */
  function NextDay(d: Date): Date
    requires d != LastDate
  {
    if d.day < DaysInMonth(d.year, d.month) then YMD(d.year, d.month, d.day + 1)
    else if d.month < 12 then YMD(d.year, d.month + 1, 1)
    else YMD(d.year + 1, 1, 1)
  }

  /** `d - timedelta(days=1)`; Python raises OverflowError before FirstDate. */
  function PrevDay(d: Date): Date
    requires d != FirstDate
  {
    if d.day > 1 then YMD(d.year, d.month, d.day - 1)
    else if d.month > 1 then YMD(d.year, d.month - 1, DaysInMonth(d.year, d.month - 1))
    else YMD(d.year - 1, 12, 31)
  }

  // ---------------------------------------------------------------------------
  // Serial day numbers: 0001-01-01 is day 1.

  function DaysBeforeYear(y: int): int
    requires y >= MinYear
    decreases y
  {
    if y == MinYear then 0 else DaysBeforeYear(y - 1) + YearLength(y - 1)
  }

  function DaysBeforeMonth(y: int, m: int): int
    requires 1 <= m <= 12
  {
    [0, 31, 59, 90, 120, 151, 181, 212, 243, 273, 304, 334][m - 1] + (if m > 2 && IsLeap(y) then 1 else 0)
  }

  function Serial(d: Date): int
  {
    DaysBeforeYear(d.year) + DaysBeforeMonth(d.year, d.month) + d.day
  }

  lemma DaysBeforeMonthStep(y: int, m: int)
    requires 1 <= m < 12
    ensures DaysBeforeMonth(y, m + 1) == DaysBeforeMonth(y, m) + DaysInMonth(y, m)
  {
  }

  lemma {:induction false} DaysBeforeMonthGrows(y: int, m: int, n: int)
    requires 1 <= m < n <= 12
    ensures DaysBeforeMonth(y, m) + DaysInMonth(y, m) <= DaysBeforeMonth(y, n)
    decreases n - m
  {
    DaysBeforeMonthStep(y, m);
    if m + 1 < n {
      DaysBeforeMonthGrows(y, m + 1, n);
    }
  }

  /** A date's day of the year never exceeds the length of its year. */
  lemma DayOfYearBound(d: Date)
    ensures DaysBeforeMonth(d.year, d.month) + d.day <= YearLength(d.year)
  {
    if d.month < 12 {
      DaysBeforeMonthGrows(d.year, d.month, 12);
    }
  }

  lemma {:induction false} DaysBeforeYearGrows(y: int, z: int)
    requires MinYear <= y <= z
    ensures DaysBeforeYear(y) <= DaysBeforeYear(z)
    decreases z - y
  {
    if y < z {
      DaysBeforeYearGrows(y, z - 1);
    }
  }

  /** The successor day is exactly one day later on the serial count. */
  lemma NextDayIsSuccessor(d: Date)
    requires d != LastDate
    ensures Serial(NextDay(d)) == Serial(d) + 1
    ensures DateLt(d, NextDay(d))
  {
    if d.day == DaysInMonth(d.year, d.month) {
      if d.month < 12 {
        DaysBeforeMonthStep(d.year, d.month);
      } else {
        assert DaysBeforeYear(d.year + 1) == DaysBeforeYear(d.year) + YearLength(d.year);
      }
    }
  }

  lemma PrevDayIsPredecessor(d: Date)
    requires d != FirstDate
    ensures PrevDay(d) != LastDate && NextDay(PrevDay(d)) == d
  {
  }

  /** Lexicographic order is serial-number order. */
  lemma SerialStrictlyMonotone(a: Date, b: Date)
    requires DateLt(a, b)
    ensures Serial(a) < Serial(b)
  {
    if a.year < b.year {
      DayOfYearBound(a);
      DaysBeforeYearGrows(a.year + 1, b.year);
      assert DaysBeforeYear(a.year + 1) == DaysBeforeYear(a.year) + YearLength(a.year);
    } else if a.month < b.month {
      DaysBeforeMonthGrows(a.year, a.month, b.month);
    }
  }

  lemma SerialOrder(a: Date, b: Date)
    ensures DateLe(a, b) <==> Serial(a) <= Serial(b)
    ensures DateLt(a, b) <==> Serial(a) < Serial(b)
    ensures Serial(a) == Serial(b) <==> a == b
  {
    if DateLt(a, b) {
      SerialStrictlyMonotone(a, b);
    } else if a != b {
      assert DateLt(b, a);
      SerialStrictlyMonotone(b, a);
    }
  }

  /** A date at or after `a` is either `a` itself or at or after the next day. */
  lemma StepOrder(a: Date, x: Date)
    requires a != LastDate
    ensures DateLe(a, x) <==> x == a || DateLe(NextDay(a), x)
  {
    NextDayIsSuccessor(a);
    SerialOrder(a, x);
    SerialOrder(NextDay(a), x);
  }

  // ---------------------------------------------------------------------------
  // Month arithmetic.

  /** Months since year 0: the month of `(y, m)` counted as one integer. */
  function MonthIndex(y: int, m: int): int
  {
    y * 12 + (m - 1)
  }

  /** Month indexes whose year lies in 1..9999. */
  predicate IndexInRange(i: int)
  {
    MonthIndex(MinYear, 1) <= i <= MonthIndex(MaxYear, 12)
  }

  /** The date with day `day` in the month with index `i`. */
  function DateAt(i: int, day: int): (d: Date)
    requires IndexInRange(i) && 1 <= day <= 28
    ensures MonthIndex(d.year, d.month) == i && d.day == day
  {
    YMD(i / 12, i % 12 + 1, day)
  }

  /** `d + relativedelta(months=k)`: the same day `k` months later, clamped to the
      target month's length; None where Python raises (year outside 1..9999). */
  function AddMonths(d: Date, k: int): (r: Option<Date>)
    ensures r.Some? <==> IndexInRange(MonthIndex(d.year, d.month) + k)
    ensures r.Some? ==> MonthIndex(r.value.year, r.value.month) == MonthIndex(d.year, d.month) + k
    ensures r.Some? && d.day <= 28 ==> r.value.day == d.day
    ensures r.Some? ==> r.value.day <= d.day && (r.value.day == d.day || r.value.day == DaysInMonth(r.value.year, r.value.month))
  {
    var i := MonthIndex(d.year, d.month) + k;
    if !IndexInRange(i) then None
    else
      var y, m := i / 12, i % 12 + 1;
      var days := DaysInMonth(y, m);
      Some(YMD(y, m, if d.day <= days then d.day else days))
  }

  /** `d.replace(day=day)` for a day every month has. */
  function WithDay(d: Date, day: int): (r: Date)
    requires 1 <= day <= 28
    ensures r.year == d.year && r.month == d.month && r.day == day
  {
    YMD(d.year, d.month, day)
  }

  /** Two dates in one month index with one day are the same date. */
  lemma DateAtUnique(d: Date, i: int, day: int)
    requires IndexInRange(i) && 1 <= day <= 28
    requires MonthIndex(d.year, d.month) == i && d.day == day
    ensures d == DateAt(i, day)
  {
  }

  /** The 25th of a month is followed by the 26th of the same month. */
  lemma DayAfter25th(i: int)
    requires IndexInRange(i)
    ensures DateAt(i, 25) != LastDate && NextDay(DateAt(i, 25)) == DateAt(i, 26)
  {
  }

  /** The 26th of month i to the 25th of month i + 1 spans exactly as many days
      as month i has. */
  lemma {:induction false} TwentySixthToTwentyFifth(i: int)
    requires IndexInRange(i) && IndexInRange(i + 1)
    ensures Serial(DateAt(i + 1, 25)) - Serial(DateAt(i, 26)) + 1
         == DaysInMonth(DateAt(i, 26).year, DateAt(i, 26).month)
  {
    var s, e := DateAt(i, 26), DateAt(i + 1, 25);
    if s.month < 12 {
      assert e.year == s.year && e.month == s.month + 1;
      DaysBeforeMonthStep(s.year, s.month);
    } else {
      assert e.year == s.year + 1 && e.month == 1;
      assert DaysBeforeYear(e.year) == DaysBeforeYear(s.year) + YearLength(s.year);
    }
  }

  // ---------------------------------------------------------------------------
  // Timestamps.

  type TimeOfDay = t: int | 0 <= t < MicrosPerDay

  /** A timestamp read in UTC: a date and the microseconds since its midnight. */
  datatype Stamp = Stamp(date: Date, micros: TimeOfDay)

  /** `datetime.fromisoformat("YYYY-MM-DD")`: midnight of a date. */
  function Midnight(d: Date): Stamp
  {
    Stamp(d, 0)
  }

  /** Python's datetime order. */
  predicate StampLe(a: Stamp, b: Stamp)
  {
    DateLt(a.date, b.date) || (a.date == b.date && a.micros <= b.micros)
  }
}
