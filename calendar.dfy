/** The proleptic Gregorian calendar of Python's `datetime.date`: years 1 to
    9999, leap years, month lengths, day ordinals (day 1 is 0001-01-01),
    Monday-indexed weekdays, `date + timedelta(days=n)` and `date(y, m, d)`. */
module Calendar {
  import opened Base

  datatype Date = Date(year: int, month: int, day: int)

  const MinYear: int := 1
  const MaxYear: int := 9999
  /** The largest value a C `int` argument of `date(...)` or `replace(...)` may take. */
  const CIntMax: int := 0x7fff_ffff

  predicate IsLeap(y: int) {
    y % 4 == 0 && (y % 100 != 0 || y % 400 == 0)
  }

  function DaysInMonth(y: int, m: int): (n: int)
    requires 1 <= m <= 12
    ensures 28 <= n <= 31
    ensures m == 2 ==> (n == 29 <==> IsLeap(y))
    ensures m != 2 ==> (n == 31 <==> m in {1, 3, 5, 7, 8, 10, 12})
  {
    if m == 2 then (if IsLeap(y) then 29 else 28)
    else if m in {4, 6, 9, 11} then 30
    else 31
  }

  predicate Valid(d: Date) {
    && MinYear <= d.year <= MaxYear
    && 1 <= d.month <= 12
    && 1 <= d.day <= DaysInMonth(d.year, d.month)
  }

  type ValidDate = d: Date | Valid(d) witness Date(1, 1, 1)

  /** Days in all years before year y. */
  function DaysBeforeYear(y: int): int {
    var p := y - 1;
    365 * p + p / 4 - p / 100 + p / 400
  }

  /** Days in the months of year y before month m. */
  function DaysBeforeMonth(y: int, m: int): int
    requires 1 <= m <= 12
  {
    [0, 31, 59, 90, 120, 151, 181, 212, 243, 273, 304, 334][m - 1]
      + (if m > 2 && IsLeap(y) then 1 else 0)
  }

  /** Python's `date.toordinal()`. */
  function Ordinal(d: Date): int
    requires Valid(d)
  {
    DaysBeforeYear(d.year) + DaysBeforeMonth(d.year, d.month) + d.day
  }

  const Last: Date := Date(MaxYear, 12, 31)

  /** Python's `date.weekday()`: Monday is 0, Sunday is 6. */
  function Weekday(d: Date): (w: int)
    requires Valid(d)
    ensures 0 <= w < 7
    ensures w == (Ordinal(d) + 6) % 7
  {
    (Ordinal(d) + 6) % 7
  }

  lemma MonthStep(y: int, m: int)
    requires 1 <= m < 12
    ensures DaysBeforeMonth(y, m + 1) == DaysBeforeMonth(y, m) + DaysInMonth(y, m)
  {
  }

  lemma YearStep(y: int)
    requires y >= 1
    ensures DaysBeforeYear(y + 1) == DaysBeforeYear(y) + DaysBeforeMonth(y, 12) + 31
  {
    QuotientStep4(y);
    QuotientStep100(y);
    QuotientStep400(y);
    DivisibilityChain(y);
    assert DaysBeforeMonth(y, 12) == 334 + (if IsLeap(y) then 1 else 0);
  }

  /** A multiple of 400 is a multiple of 100, and one of 100 a multiple of 4. */
  lemma DivisibilityChain(y: int)
    ensures y % 400 == 0 ==> y % 100 == 0
    ensures y % 100 == 0 ==> y % 4 == 0
  {
    if y % 400 == 0 {
      HundredsOfMultiple(y / 400);
    }
    if y % 100 == 0 {
      FoursOfMultiple(y / 100);
    }
  }

  lemma HundredsOfMultiple(k: int)
    ensures (400 * k) % 100 == 0
  {
    assert 400 * k == 100 * (4 * k);
  }

  lemma FoursOfMultiple(k: int)
    ensures (100 * k) % 4 == 0
  {
    assert 100 * k == 4 * (25 * k);
  }

  lemma QuotientStep4(y: int)
    ensures y / 4 == (y - 1) / 4 + (if y % 4 == 0 then 1 else 0)
  {
  }

  lemma QuotientStep100(y: int)
    ensures y / 100 == (y - 1) / 100 + (if y % 100 == 0 then 1 else 0)
  {
  }

  lemma QuotientStep400(y: int)
    ensures y / 400 == (y - 1) / 400 + (if y % 400 == 0 then 1 else 0)
  {
  }

  /** The day after d, or None past 9999-12-31. */
  function NextDay(d: Date): (r: Option<Date>)
    requires Valid(d)
    ensures r.None? <==> d == Last
    ensures r.Some? ==> Valid(r.value) && Ordinal(r.value) == Ordinal(d) + 1
  {
    if d.day < DaysInMonth(d.year, d.month) then Some(Date(d.year, d.month, d.day + 1))
    else if d.month < 12 then
      NextMonthStart(d);
      Some(Date(d.year, d.month + 1, 1))
    else if d.year < MaxYear then
      NextYearStart(d);
      Some(Date(d.year + 1, 1, 1))
    else None
  }

  lemma NextMonthStart(d: Date)
    requires Valid(d) && d.day == DaysInMonth(d.year, d.month) && d.month < 12
    ensures Valid(Date(d.year, d.month + 1, 1)) && Ordinal(Date(d.year, d.month + 1, 1)) == Ordinal(d) + 1
  {
    MonthStep(d.year, d.month);
  }

  lemma NextYearStart(d: Date)
    requires Valid(d) && d.month == 12 && d.day == 31 && d.year < MaxYear
    ensures Valid(Date(d.year + 1, 1, 1)) && Ordinal(Date(d.year + 1, 1, 1)) == Ordinal(d) + 1
  {
    YearStep(d.year);
  }

  /** The day before d, or None before 0001-01-01. */
  function PrevDay(d: Date): (r: Option<Date>)
    requires Valid(d)
    ensures r.None? <==> d == Date(1, 1, 1)
    ensures r.Some? ==> Valid(r.value) && Ordinal(r.value) + 1 == Ordinal(d)
  {
    if d.day > 1 then Some(Date(d.year, d.month, d.day - 1))
    else if d.month > 1 then
      PrevMonthEnd(d);
      Some(Date(d.year, d.month - 1, DaysInMonth(d.year, d.month - 1)))
    else if d.year > MinYear then
      PrevYearEnd(d);
      Some(Date(d.year - 1, 12, 31))
    else None
  }

  lemma PrevMonthEnd(d: Date)
    requires Valid(d) && d.day == 1 && d.month > 1
    ensures var e := Date(d.year, d.month - 1, DaysInMonth(d.year, d.month - 1));
            Valid(e) && Ordinal(e) + 1 == Ordinal(d)
  {
    MonthStep(d.year, d.month - 1);
  }

  lemma PrevYearEnd(d: Date)
    requires Valid(d) && d.day == 1 && d.month == 1 && d.year > MinYear
    ensures Valid(Date(d.year - 1, 12, 31)) && Ordinal(Date(d.year - 1, 12, 31)) + 1 == Ordinal(d)
  {
    YearStep(d.year - 1);
  }

  /** Every valid date has an ordinal between that of 0001-01-01 and 9999-12-31. */
  lemma OrdinalRange(d: Date)
    requires Valid(d)
    ensures 1 <= Ordinal(d) <= Ordinal(Last)
  {
    var y := d.year;
    assert DaysBeforeMonth(y, d.month) + d.day <= DaysBeforeMonth(y, 12) + 31 by {
      if d.month < 12 {
        assert DaysBeforeMonth(y, d.month) + DaysInMonth(y, d.month) <= DaysBeforeMonth(y, 12);
      }
    }
    YearStep(y);
    assert DaysBeforeYear(y + 1) <= DaysBeforeYear(MaxYear + 1) by {
      assert (y / 4) <= (MaxYear / 4) && y / 100 <= MaxYear / 100;
      assert y / 4 - y / 100 >= 0;
      assert (MaxYear / 4 - MaxYear / 100) - (y / 4 - y / 100) <= 365 * (MaxYear - y);
    }
    YearStep(MaxYear);
  }

  /** Python's `d + timedelta(days=n)`: None when the result leaves the range
      0001-01-01 .. 9999-12-31 (Python raises OverflowError there). */
  function AddDays(d: Date, n: int): (r: Option<Date>)
    requires Valid(d)
    ensures r.Some? ==> Valid(r.value)
    decreases if n >= 0 then n else -n
  {
    if n == 0 then Some(d)
    else if n > 0 then
      var e := NextDay(d);
      if e.None? then None else AddDays(e.value, n - 1)
    else
      var e := PrevDay(d);
      if e.None? then None else AddDays(e.value, n + 1)
  }

  /** Adding n days moves the ordinal by exactly n, and fails exactly when the
      target ordinal lies outside the supported range. */
  lemma AddDaysOrdinal(d: Date, n: int)
    requires Valid(d)
    ensures AddDays(d, n).Some? <==> 1 <= Ordinal(d) + n <= Ordinal(Last)
    ensures AddDays(d, n).Some? ==> Ordinal(AddDays(d, n).value) == Ordinal(d) + n
  {
    OrdinalRange(d);
    if n >= 0 {
      AddDaysForward(d, n);
    } else {
      AddDaysBackward(d, n);
    }
  }

  lemma {:induction false} AddDaysForward(d: Date, n: nat)
    requires Valid(d)
    ensures AddDays(d, n).Some? <==> Ordinal(d) + n <= Ordinal(Last)
    ensures AddDays(d, n).Some? ==> Ordinal(AddDays(d, n).value) == Ordinal(d) + n
    decreases n
  {
    if n > 0 {
      var e := NextDay(d);
      if e.Some? {
        AddDaysForward(e.value, n - 1);
      }
    }
  }

  lemma {:induction false} AddDaysBackward(d: Date, n: int)
    requires Valid(d) && n <= 0
    ensures AddDays(d, n).Some? <==> 1 <= Ordinal(d) + n
    ensures AddDays(d, n).Some? ==> Ordinal(AddDays(d, n).value) == Ordinal(d) + n
    decreases -n
  {
    if n < 0 {
      var e := PrevDay(d);
      if e.Some? {
        AddDaysBackward(e.value, n + 1);
      }
    }
  }

  /** Adding n days shifts the weekday by n modulo 7. */
  lemma AddDaysWeekday(d: Date, n: int)
    requires Valid(d) && AddDays(d, n).Some?
    ensures Weekday(AddDays(d, n).value) == (Weekday(d) + n) % 7
  {
    AddDaysOrdinal(d, n);
    WeekdayShift(d, AddDays(d, n).value, n);
  }

  /** Two dates n days apart have weekdays n apart modulo 7. */
  lemma WeekdayShift(d: Date, e: Date, n: int)
    requires Valid(d) && Valid(e) && Ordinal(e) == Ordinal(d) + n
    ensures Weekday(e) == (Weekday(d) + n) % 7
  {
    var o := Ordinal(d) + 6;
    ModShift(o, n);
  }

  lemma ModShift(a: int, n: int)
    ensures (a + n) % 7 == (a % 7 + n) % 7
  {
    var q := a / 7;
    assert a == 7 * q + a % 7;
    assert (a + n) == 7 * q + (a % 7 + n);
  }

  /** Python's `date(y, m, d)`: arguments beyond a C int raise OverflowError,
      an out-of-range year, month or day raises ValueError. */
  datatype Built = Made(date: Date) | ValueFault | OverflowFault

  function MakeDate(y: int, m: int, d: int): (r: Built)
    ensures r.Made? <==> Valid(Date(y, m, d))
    ensures r.Made? ==> r.date == Date(y, m, d)
    ensures r.OverflowFault? <==> !(-CIntMax - 1 <= y <= CIntMax && -CIntMax - 1 <= m <= CIntMax && -CIntMax - 1 <= d <= CIntMax)
  {
    if !(-CIntMax - 1 <= y <= CIntMax && -CIntMax - 1 <= m <= CIntMax && -CIntMax - 1 <= d <= CIntMax) then OverflowFault
    else if Valid(Date(y, m, d)) then Made(Date(y, m, d))
    else ValueFault
  }

  /** Python's `d.replace(day=n)`. */
  function ReplaceDay(d: Date, n: int): Built
    requires Valid(d)
  {
    MakeDate(d.year, d.month, n)
  }

  /** `d.replace(day=1)`, which is always valid. */
  function FirstOfMonth(d: Date): (r: Date)
    requires Valid(d)
    ensures Valid(r) && r.year == d.year && r.month == d.month && r.day == 1
  {
    Date(d.year, d.month, 1)
  }

  /** Index of the month counting from January of year 0, used to state
      month arithmetic independently of day stepping. */
  function MonthIndex(d: Date): int {
    d.year * 12 + d.month - 1
  }

  /** More days lie before a later year. */
  lemma {:induction false} DaysBeforeYearGrows(y: int, z: int)
    requires 1 <= y <= z
    ensures DaysBeforeYear(y) + 365 * (z - y) <= DaysBeforeYear(z)
    decreases z - y
  {
    if y < z {
      DaysBeforeYearGrows(y, z - 1);
      YearStep(z - 1);
    }
  }

  /** The first of a month is not after any day of that month or a later one. */
  lemma FirstNotAfter(a: Date, b: Date)
    requires Valid(a) && Valid(b) && a.day == 1 && MonthIndex(a) <= MonthIndex(b)
    ensures Ordinal(a) <= Ordinal(b)
  {
    if a.year < b.year {
      DaysBeforeYearGrows(a.year, b.year);
      assert DaysBeforeMonth(a.year, a.month) <= 335;
    } else {
      assert a.year == b.year && a.month <= b.month;
      assert DaysBeforeMonth(a.year, a.month) <= DaysBeforeMonth(b.year, b.month);
    }
  }

  /** The month before d's month, as a date on its last day (`first - 1 day`). */
  lemma PrevDayOfFirst(d: Date)
    requires Valid(d) && d.day == 1
    ensures PrevDay(d).Some? <==> d.year > MinYear || d.month > 1
    ensures PrevDay(d).Some? ==>
              var e := PrevDay(d).value;
              MonthIndex(e) == MonthIndex(d) - 1 && e.day == DaysInMonth(e.year, e.month)
  {
  }
}
