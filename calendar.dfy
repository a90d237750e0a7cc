/** Proleptic Gregorian dates as Python's datetime.date handles them: ordinals count days from
    0001-01-01 (ordinal 1, a Monday), weekday() is 0 for Monday, dates compare field by field. */
module Calendar {

  datatype Date = Date(year: int, month: int, day: int)

  predicate IsLeap(y: int) {
    y % 4 == 0 && (y % 100 != 0 || y % 400 == 0)
  }

  /** The number of days in month m of year y (calendar.monthrange(y, m)[1]). */
  function DaysInMonth(y: int, m: int): (n: int)
    requires 1 <= m <= 12
    ensures 28 <= n <= 31
    ensures n == 29 <==> m == 2 && IsLeap(y)
  {
    if m == 2 then (if IsLeap(y) then 29 else 28)
    else if m == 4 || m == 6 || m == 9 || m == 11 then 30
    else 31
  }

  predicate Valid(d: Date) {
    1 <= d.year && 1 <= d.month <= 12 && 1 <= d.day <= DaysInMonth(d.year, d.month)
  }

  /** Days in the years before year y. */
  function DaysBeforeYear(y: int): int
    requires y >= 1
  {
    var n := y - 1;
    n * 365 + n / 4 - n / 100 + n / 400
  }

  /** Days in the months of year y before month m. */
  function DaysBeforeMonth(y: int, m: int): int
    requires 1 <= m <= 12
  {
    [0, 31, 59, 90, 120, 151, 181, 212, 243, 273, 304, 334][m - 1] + (if m > 2 && IsLeap(y) then 1 else 0)
  }

  function Ordinal(d: Date): int
    requires Valid(d)
  {
    DaysBeforeYear(d.year) + DaysBeforeMonth(d.year, d.month) + d.day
  }

  /** Monday is 0, Sunday is 6. */
  function Weekday(d: Date): (w: int)
    requires Valid(d)
    ensures 0 <= w < 7
  {
    (Ordinal(d) + 6) % 7
  }

  /** Monday is 0 and Sunday is 6: 1 January of year 1 and 29 January 2024 were Mondays, and
      4 February 2024 was a Sunday. */
  lemma WeekdayExamples()
    ensures Weekday(Date(1, 1, 1)) == 0
    ensures Weekday(Date(2024, 1, 29)) == 0
    ensures Weekday(Date(2024, 2, 4)) == 6
  {
  }

  /** Python's date ordering: by year, then month, then day. */
  predicate DateLe(a: Date, b: Date) {
    a.year < b.year || (a.year == b.year && (a.month < b.month || (a.month == b.month && a.day <= b.day)))
  }

  lemma YearStep(y: int)
    requires y >= 1
    ensures DaysBeforeYear(y + 1) == DaysBeforeYear(y) + (if IsLeap(y) then 366 else 365)
  {
    DivStep4(y);
    DivStep100(y);
    DivStep400(y);
  }

  /** Going from y - 1 to y crosses a multiple of 4, 100 or 400 exactly when it divides y. */
  lemma DivStep4(y: int)
    ensures y / 4 - (y - 1) / 4 == (if y % 4 == 0 then 1 else 0)
  {
  }

  lemma DivStep100(y: int)
    ensures y / 100 - (y - 1) / 100 == (if y % 100 == 0 then 1 else 0)
  {
  }

  lemma DivStep400(y: int)
    ensures y / 400 - (y - 1) / 400 == (if y % 400 == 0 then 1 else 0)
  {
  }

  lemma MonthStep(y: int, m: int)
    requires 1 <= m < 12
    ensures DaysBeforeMonth(y, m + 1) == DaysBeforeMonth(y, m) + DaysInMonth(y, m)
  {
  }

  lemma OrdinalPositive(d: Date)
    requires Valid(d)
    ensures Ordinal(d) >= 1
    ensures Ordinal(d) == 1 <==> d == Date(1, 1, 1)
  {
  }

  /** The day after d (date + timedelta(days=1)). */
  function NextDay(d: Date): (r: Date)
    requires Valid(d)
    ensures Valid(r)
  {
    if d.day < DaysInMonth(d.year, d.month) then Date(d.year, d.month, d.day + 1)
    else if d.month < 12 then Date(d.year, d.month + 1, 1)
    else Date(d.year + 1, 1, 1)
  }

  /** The day before d (date - timedelta(days=1)); there is none before 0001-01-01. */
  function PrevDay(d: Date): (r: Date)
    requires Valid(d) && d != Date(1, 1, 1)
    ensures Valid(r)
  {
    if d.day > 1 then Date(d.year, d.month, d.day - 1)
    else if d.month > 1 then Date(d.year, d.month - 1, DaysInMonth(d.year, d.month - 1))
    else Date(d.year - 1, 12, 31)
  }

  lemma NextDayOrdinal(d: Date)
    requires Valid(d)
    ensures Ordinal(NextDay(d)) == Ordinal(d) + 1
  {
    if d.day == DaysInMonth(d.year, d.month) {
      if d.month < 12 {
        MonthStep(d.year, d.month);
      } else {
        YearStep(d.year);
      }
    }
  }

  lemma PrevDayOrdinal(d: Date)
    requires Valid(d) && d != Date(1, 1, 1)
    ensures Ordinal(PrevDay(d)) + 1 == Ordinal(d)
  {
    if d.day == 1 {
      if d.month > 1 {
        MonthStep(d.year, d.month - 1);
      } else {
        YearStep(d.year - 1);
      }
    }
  }

  /** d + timedelta(days=k). */
  function AddDays(d: Date, k: nat): (r: Date)
    requires Valid(d)
    ensures Valid(r)
    decreases k
  {
    if k == 0 then d else AddDays(NextDay(d), k - 1)
  }

  lemma {:induction false} AddDaysOrdinal(d: Date, k: nat)
    requires Valid(d)
    ensures Ordinal(AddDays(d, k)) == Ordinal(d) + k
    decreases k
  {
    if k > 0 {
      NextDayOrdinal(d);
      AddDaysOrdinal(NextDay(d), k - 1);
    }
  }

  /** d - timedelta(days=k), for a result not before 0001-01-01. */
  function SubDays(d: Date, k: nat): (r: Date)
    requires Valid(d) && k < Ordinal(d)
    ensures Valid(r)
    decreases k
  {
    if k == 0 then d
    else
      OrdinalPositive(d);
      PrevDayOrdinal(d);
      SubDays(PrevDay(d), k - 1)
  }

  lemma {:induction false} SubDaysOrdinal(d: Date, k: nat)
    requires Valid(d) && k < Ordinal(d)
    ensures Ordinal(SubDays(d, k)) + k == Ordinal(d)
    decreases k
  {
    if k > 0 {
      OrdinalPositive(d);
      PrevDayOrdinal(d);
      SubDaysOrdinal(PrevDay(d), k - 1);
    }
  }

  /** Stepping back weekday() days from ordinal o lands on a Monday, and a Monday's Sunday
      is six days later. */
  lemma WeekArithmetic(o: int)
    requires o >= 1
    ensures (o + 6) % 7 < o
    ensures (o - (o + 6) % 7 + 6) % 7 == 0
    ensures (o - (o + 6) % 7 + 12) % 7 == 6
  {
    var q, w := (o + 6) / 7, (o + 6) % 7;
    assert o + 6 == 7 * q + w;
    assert o - w + 6 == 7 * q;
    assert o - w + 12 == 7 * q + 6;
  }

  /** week_start_end_for_date: the Monday and the Sunday of the week holding d. */
  function WeekStartEnd(d: Date): (w: (Date, Date))
    requires Valid(d)
    ensures Valid(w.0) && Valid(w.1) && w.1 == AddDays(w.0, 6)
    ensures Weekday(w.0) == 0 && Weekday(w.1) == 6 && Ordinal(w.1) == Ordinal(w.0) + 6
    ensures Ordinal(w.0) <= Ordinal(d) <= Ordinal(w.1)
  {
    var o, w := Ordinal(d), Weekday(d);
    OrdinalPositive(d);
    WeekArithmetic(o);
    assert w == (o + 6) % 7 < o;
    var monday := SubDays(d, w);
    SubDaysOrdinal(d, w);
    assert Ordinal(monday) == o - w;
    AddDaysOrdinal(monday, 6);
    assert Ordinal(AddDays(monday, 6)) == o - w + 6;
    (monday, AddDays(monday, 6))
  }

  /** The last calendar day of the month that d lies in. */
  function LastDayOfMonth(d: Date): Date
    requires Valid(d)
  {
    Date(d.year, d.month, DaysInMonth(d.year, d.month))
  }

  /** is_last_week_of_month: the week from weekStart to weekEnd holds the last day of weekStart's month. */
  predicate IsLastWeekOfMonth(weekStart: Date, weekEnd: Date)
    requires Valid(weekStart)
  {
    var last := LastDayOfMonth(weekStart);
    DateLe(weekStart, last) && DateLe(last, weekEnd)
  }

  // ---- Properties ----

  /** Python's field-by-field date ordering agrees with the ordinal (day-count) ordering. */
  lemma {:induction false} DateLeIsOrdinalOrder(a: Date, b: Date)
    requires Valid(a) && Valid(b)
    ensures DateLe(a, b) <==> Ordinal(a) <= Ordinal(b)
  {
    if a != b {
      if DateLe(a, b) {
        OrdinalStrictlyIncreasing(a, b);
      } else {
        OrdinalStrictlyIncreasing(b, a);
      }
    }
  }

  lemma {:induction false} OrdinalStrictlyIncreasing(a: Date, b: Date)
    requires Valid(a) && Valid(b) && DateLe(a, b) && a != b
    ensures Ordinal(a) < Ordinal(b)
  {
    if a.year < b.year {
      EndOfYear(a);
      YearsIncrease(a.year + 1, b.year);
    } else if a.month < b.month {
      MonthsIncrease(a.year, a.month, b.month);
    }
  }

  lemma EndOfYear(d: Date)
    requires Valid(d)
    ensures Ordinal(d) <= DaysBeforeYear(d.year + 1)
  {
    YearStep(d.year);
  }

  lemma {:induction false} YearsIncrease(y1: int, y2: int)
    requires 1 <= y1 <= y2
    ensures DaysBeforeYear(y1) <= DaysBeforeYear(y2)
    decreases y2 - y1
  {
    if y1 < y2 {
      YearStep(y1);
      YearsIncrease(y1 + 1, y2);
    }
  }

  lemma {:induction false} MonthsIncrease(y: int, m1: int, m2: int)
    requires 1 <= m1 < m2 <= 12
    ensures DaysBeforeMonth(y, m1) + DaysInMonth(y, m1) <= DaysBeforeMonth(y, m2)
    decreases m2 - m1
  {
    MonthStep(y, m1);
    if m1 + 1 < m2 {
      MonthsIncrease(y, m1 + 1, m2);
    }
  }

  /** The week of d runs from a Monday to the Sunday six days later and holds d, in Python's
      date ordering. */
  lemma {:induction false} WeekHoldsDate(d: Date)
    requires Valid(d)
    ensures var (m, s) := WeekStartEnd(d);
      Weekday(m) == 0 && Weekday(s) == 6 && DateLe(m, d) && DateLe(d, s) && s == AddDays(m, 6)
  {
    var w := WeekStartEnd(d);
    var m, s := w.0, w.1;
    assert DateLe(m, d) by {
      DateLeIsOrdinalOrder(m, d);
    }
    assert DateLe(d, s) by {
      DateLeIsOrdinalOrder(d, s);
    }
  }

  /** Adding days that stay inside the month only moves the day of the month. */
  lemma {:induction false} AddDaysWithinMonth(d: Date, k: nat)
    requires Valid(d) && d.day + k <= DaysInMonth(d.year, d.month)
    ensures AddDays(d, k) == Date(d.year, d.month, d.day + k)
    decreases k
  {
    if k > 0 {
      AddDaysWithinMonth(NextDay(d), k - 1);
    }
  }

  lemma {:induction false} AddDaysSplit(d: Date, j: nat, k: nat)
    requires Valid(d)
    ensures AddDays(d, j + k) == AddDays(AddDays(d, j), k)
    decreases j
  {
    if j > 0 {
      AddDaysSplit(NextDay(d), j - 1, k);
    }
  }

  /** Adding at most 28 days that leave the month lands in another month. */
  lemma {:induction false} AddDaysLeavesMonth(d: Date, k: nat)
    requires Valid(d) && d.day + k > DaysInMonth(d.year, d.month) && k <= 28
    ensures AddDays(d, k).month != d.month
  {
    var dim := DaysInMonth(d.year, d.month);
    var j: nat := dim - d.day;
    AddDaysWithinMonth(d, j);
    AddDaysSplit(d, j, 1);
    var first := AddDays(d, j + 1);
    assert first.day == 1 && first.month != d.month;
    AddDaysWithinMonth(first, k - j - 1);
    AddDaysSplit(d, j + 1, k - j - 1);
  }

  /** For a Monday-to-Sunday week, rent and milk are due exactly when the following Monday
      falls in a different month from the week's Monday. */
  lemma {:induction false} LastWeekMeansNextMondayInNewMonth(d: Date)
    requires Valid(d)
    ensures var (m, s) := WeekStartEnd(d);
      IsLastWeekOfMonth(m, s) <==> AddDays(m, 7).month != m.month
  {
    var (m, s) := WeekStartEnd(d);
    WeekHoldsDate(d);
    var dim := DaysInMonth(m.year, m.month);
    if m.day + 6 <= dim {
      AddDaysWithinMonth(m, 6);
    } else {
      AddDaysLeavesMonth(m, 6);
      assert s.year > m.year || (s.year == m.year && s.month > m.month) by {
        DateLeIsOrdinalOrder(m, s);
      }
    }
    if m.day + 7 <= dim {
      AddDaysWithinMonth(m, 7);
    } else {
      AddDaysLeavesMonth(m, 7);
    }
  }

  /** 2024-01-31 is a Wednesday; its week is 2024-01-29 .. 2024-02-04, which holds January's
      last day. */
  lemma MonthEndWeekExample()
    ensures WeekStartEnd(Date(2024, 1, 31)) == (Date(2024, 1, 29), Date(2024, 2, 4))
    ensures IsLastWeekOfMonth(Date(2024, 1, 29), Date(2024, 2, 4))
    ensures !IsLastWeekOfMonth(Date(2024, 1, 8), Date(2024, 1, 14))
  {
    var d := Date(2024, 1, 31);
    assert Weekday(d) == 2;
    assert SubDays(d, 2) == Date(2024, 1, 29) by {
      assert SubDays(d, 2) == SubDays(Date(2024, 1, 30), 1);
    }
    AddDaysSplit(Date(2024, 1, 29), 2, 4);
    AddDaysWithinMonth(Date(2024, 1, 29), 2);
    AddDaysWithinMonth(Date(2024, 2, 1), 3);
    assert AddDays(Date(2024, 1, 29), 3) == AddDays(Date(2024, 1, 31), 1) by {
      AddDaysSplit(Date(2024, 1, 29), 2, 1);
    }
    assert AddDays(Date(2024, 1, 29), 6) == Date(2024, 2, 4) by {
      AddDaysSplit(Date(2024, 1, 29), 3, 3);
      AddDaysWithinMonth(Date(2024, 2, 1), 2);
    }
  }
}
