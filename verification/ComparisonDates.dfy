/** The dates that a value is compared with (crates/calce-core/src/calc/value_change.rs:96-106 and
    156-163), on the calendar of `chrono`: proleptic Gregorian, with a first and a last year. */
module ComparisonDates {
  import opened Prelude

  const MIN_YEAR := -262_143
  const MAX_YEAR := 262_142

  datatype Date = Date(year: int, month: int, day: int)

  datatype DateError = InsufficientData

  predicate IsLeap(y: int) { y % 4 == 0 && (y % 100 != 0 || y % 400 == 0) }

  function LeapDay(y: int): int { if IsLeap(y) then 1 else 0 }

  const DAYS_IN_MONTH := [31, 28, 31, 30, 31, 30, 31, 31, 30, 31, 30, 31]

  const DAYS_BEFORE_MONTH := [0, 31, 59, 90, 120, 151, 181, 212, 243, 273, 304, 334]

  function DaysInMonth(y: int, m: int): int
    requires 1 <= m <= 12
  {
    DAYS_IN_MONTH[m - 1] + if m == 2 then LeapDay(y) else 0
  }

  function DaysBeforeMonth(y: int, m: int): int
    requires 1 <= m <= 12
  {
    DAYS_BEFORE_MONTH[m - 1] + if m > 2 then LeapDay(y) else 0
  }

  predicate IsDate(d: Date) {
    MIN_YEAR <= d.year <= MAX_YEAR && 1 <= d.month <= 12 && 1 <= d.day <= DaysInMonth(d.year, d.month)
  }

  function FromYmd(y: int, m: int, d: int): Option<Date> {
    if IsDate(Date(y, m, d)) then Some(Date(y, m, d)) else None
  }

  function PrevYear(d: Date): Result<Date, DateError> {
    match FromYmd(d.year - 1, d.month, d.day)
    case Some(r) => Ok(r)
    case None =>
      match FromYmd(d.year - 1, d.month, d.day - 1)
      case Some(r) => Ok(r)
      case None => Err(InsufficientData)
  }

  /** A fourth year is a leap year, a hundredth is not unless it is a four hundredth. */
  lemma LeapYearIs(y: int)
    ensures LeapDay(y) == if y % 400 == 0 || (y % 4 == 0 && y % 100 != 0) then 1 else 0
  {
  }

  /** The calendar: thirty days have April, June, September and November; February has 28 or, in a leap year
      as `LeapYearIs` says, 29. */
  lemma CalendarIs(y: int, m: int)
    requires 1 <= m <= 12
    ensures DaysInMonth(y, m) == if m in {4, 6, 9, 11} then 30 else if m != 2 then 31 else 28 + LeapDay(y)
    ensures DaysBeforeMonth(y, 1) == 0
    ensures m < 12 ==> DaysBeforeMonth(y, m + 1) == DaysBeforeMonth(y, m) + DaysInMonth(y, m)
  {
    MonthsAre(m);
  }

  lemma MonthsAre(m: int)
    requires 1 <= m <= 12
    ensures DAYS_IN_MONTH[m - 1] == if m in {4, 6, 9, 11} then 30 else if m != 2 then 31 else 28
    ensures m < 12 ==> DAYS_BEFORE_MONTH[m] == DAYS_BEFORE_MONTH[m - 1] + DAYS_IN_MONTH[m - 1]
  {
  }

  /** The first and the last day. */
  lemma YearsAre(y: int, m: int, d: int)
    requires 1 <= m <= 12 && 1 <= d <= 28
    ensures FromYmd(y, m, d) == if -262_143 <= y <= 262_142 then Some(Date(y, m, d)) else None
  {
    CalendarIs(y, m);
  }

  /** The days before a year, counted from the common era. */
  function DaysBeforeYear(y: int): int { 365 * (y - 1) + (y - 1) / 4 - (y - 1) / 100 + (y - 1) / 400 }

  function DayNumber(d: Date): int
    requires 1 <= d.month <= 12
  {
    DaysBeforeYear(d.year) + DaysBeforeMonth(d.year, d.month) + d.day
  }

  lemma YearLength(y: int)
    ensures DaysBeforeYear(y + 1) == DaysBeforeYear(y) + 365 + LeapDay(y)
  {
    assert y / 4 == (y - 1) / 4 + if y % 4 == 0 then 1 else 0;
    assert y / 100 == (y - 1) / 100 + if y % 100 == 0 then 1 else 0;
    assert y / 400 == (y - 1) / 400 + if y % 400 == 0 then 1 else 0;
  }

  lemma LeapYearsApart(y: int)
    ensures IsLeap(y) ==> !IsLeap(y - 1)
  {
  }

  lemma {:induction false} YearsAreOrdered(y: int, z: int)
    requires y <= z
    ensures DaysBeforeYear(y) <= DaysBeforeYear(z)
    decreases z - y
  {
    if y < z {
      YearsAreOrdered(y, z - 1);
      YearLength(z - 1);
    }
  }

  lemma InYear(d: Date)
    requires IsDate(d)
    ensures DaysBeforeYear(d.year) < DayNumber(d) <= DaysBeforeYear(d.year + 1)
  {
    YearLength(d.year);
  }

  /** By year, then month, then day. */
  predicate Earlier(a: Date, b: Date) {
    a.year < b.year || (a.year == b.year && (a.month < b.month || (a.month == b.month && a.day < b.day)))
  }

  lemma MonthsAreOrdered(y: int, m: int, n: int)
    requires 1 <= m < n <= 12
    ensures DaysBeforeMonth(y, m) + DaysInMonth(y, m) <= DaysBeforeMonth(y, n)
  {
  }

  /** Day numbers are in the order of the dates. */
  lemma EarlierIff(a: Date, b: Date)
    requires IsDate(a) && IsDate(b)
    ensures Earlier(a, b) <==> DayNumber(a) < DayNumber(b)
  {
    InYear(a);
    InYear(b);
    if a.year < b.year {
      YearsAreOrdered(a.year + 1, b.year);
    } else if b.year < a.year {
      YearsAreOrdered(b.year + 1, a.year);
    } else if a.month < b.month {
      MonthsAreOrdered(a.year, a.month, b.month);
    } else if b.month < a.month {
      MonthsAreOrdered(a.year, b.month, a.month);
    }
  }

  // ---- A year earlier ----

  /** There is a date a year earlier unless the year is the first one; it keeps month and day, but for
      the 29th of February, which becomes the 28th. */
  lemma PrevYearIs(d: Date)
    requires IsDate(d)
    ensures PrevYear(d).Ok? <==> d.year > MIN_YEAR
    ensures PrevYear(d).Ok? ==> IsDate(PrevYear(d).value)
    ensures PrevYear(d).Ok?
            ==> PrevYear(d).value == Date(d.year - 1, d.month, if d.month == 2 && d.day == 29 then 28 else d.day)
  {
    if d.month == 2 && d.day == 29 {
      assert IsLeap(d.year) && !IsLeap(d.year - 1);
    }
  }

  /** It lies 366 days back if a 29th of February was passed or left, and 365 days otherwise. */
  lemma PrevYearIsAYearBack(d: Date)
    requires IsDate(d) && d.year > MIN_YEAR
    ensures PrevYear(d).Ok?
    ensures DayNumber(d) - DayNumber(PrevYear(d).value)
            == if (d.month > 2 && IsLeap(d.year)) || (d.month <= 2 && IsLeap(d.year - 1))
                  || (d.month == 2 && d.day == 29)
               then 366 else 365
  {
    PrevYearIs(d);
    var r := PrevYear(d).value;
    YearLength(d.year - 1);
    LeapYearsApart(d.year);
    MonthsShift(d.year, d.month);
    assert DayNumber(d) - DayNumber(r)
        == 365 + LeapDay(d.year - 1) + (DaysBeforeMonth(d.year, d.month) - DaysBeforeMonth(d.year - 1, d.month))
           + (d.day - r.day);
  }

  lemma MonthsShift(y: int, m: int)
    requires 1 <= m <= 12
    ensures DaysBeforeMonth(y, m) - DaysBeforeMonth(y - 1, m) == if m > 2 then LeapDay(y) - LeapDay(y - 1) else 0
  {
  }

  /** Going a year back never reverses the order of two dates. */
  lemma PrevYearKeepsOrder(a: Date, b: Date)
    requires IsDate(a) && IsDate(b) && a.year > MIN_YEAR && b.year > MIN_YEAR
    requires DayNumber(a) <= DayNumber(b)
    ensures PrevYear(a).Ok? && PrevYear(b).Ok? && DayNumber(PrevYear(a).value) <= DayNumber(PrevYear(b).value)
  {
    PrevYearIs(a);
    PrevYearIs(b);
    EarlierIff(b, a);
    var x, y := PrevYear(a).value, PrevYear(b).value;
    EarlierIff(y, x);
    assert !Earlier(y, x);
  }

  // ---- The four dates ----

  /** As day numbers; `asOf - Days(n)` is `n` days back. */
  datatype Comparisons = Comparisons(dayAgo: int, weekAgo: int, yearAgo: int, yearStart: int)

  function ComparisonDays(asOf: Date): Result<Comparisons, DateError>
    requires IsDate(asOf)
  {
    var yearAgo := PrevYear(asOf);
    var yearStart := FromYmd(asOf.year - 1, 12, 31);
    if yearAgo.Err? || yearStart.None? then Err(InsufficientData)
    else
      PrevYearIs(asOf);
      Ok(Comparisons(DayNumber(asOf) - 1, DayNumber(asOf) - 7, DayNumber(yearAgo.value), DayNumber(yearStart.value)))
  }

  /** Unless the year is the first one there are four comparison dates, each strictly before the date itself:
      one day, seven days and a year back, and the last day of the year before, which is no later than a day
      ago. */
  lemma ComparedWithThePast(asOf: Date)
    requires IsDate(asOf)
    ensures ComparisonDays(asOf).Ok? <==> asOf.year > MIN_YEAR
    ensures ComparisonDays(asOf).Ok?
            ==> var c := ComparisonDays(asOf).value;
                && c.dayAgo == DayNumber(asOf) - 1 && c.weekAgo == DayNumber(asOf) - 7
                && c.yearAgo == DayNumber(PrevYear(asOf).value) && c.yearStart == DayNumber(Date(asOf.year - 1, 12, 31))
                && c.yearStart == DaysBeforeYear(asOf.year) && c.yearAgo <= c.yearStart <= c.dayAgo
                && c.yearAgo < c.weekAgo
  {
    PrevYearIs(asOf);
    if asOf.year > MIN_YEAR {
      LastDayOfYear(asOf.year - 1);
      YearAgoIsBack(asOf);
    }
  }

  lemma LastDayOfYear(y: int)
    requires MIN_YEAR <= y <= MAX_YEAR
    ensures IsDate(Date(y, 12, 31)) && DayNumber(Date(y, 12, 31)) == DaysBeforeYear(y + 1)
  {
    YearLength(y);
  }

  lemma YearAgoIsBack(d: Date)
    requires IsDate(d) && d.year > MIN_YEAR
    ensures PrevYear(d).Ok? && DayNumber(PrevYear(d).value) <= DaysBeforeYear(d.year) < DayNumber(d)
    ensures DayNumber(PrevYear(d).value) <= DayNumber(d) - 365
  {
    PrevYearIs(d);
    PrevYearIsAYearBack(d);
    InYear(d);
    InYear(PrevYear(d).value);
  }
}
