/** The Gregorian calendar, as `chrono::NaiveDate` has it. */
module Calendar {

  datatype Date = Date(year: int, month: nat, day: nat)

  predicate Leap(y: int) { y % 4 == 0 && (y % 100 != 0 || y % 400 == 0) }

  function MonthLen(y: int, m: nat): nat {
    if m == 2 then (if Leap(y) then 29 else 28)
    else if m in {4, 6, 9, 11} then 30
    else 31
  }

  predicate Valid(d: Date) { 1 <= d.month <= 12 && 1 <= d.day <= MonthLen(d.year, d.month) }

  /** The order of dates: `NaiveDate`'s comparison. */
  predicate Before(a: Date, b: Date) {
    a.year < b.year || (a.year == b.year && (a.month < b.month || (a.month == b.month && a.day < b.day)))
  }

  function Next(d: Date): (r: Date)
    requires Valid(d)
    ensures Valid(r)
  {
    if d.day < MonthLen(d.year, d.month) then d.(day := d.day + 1)
    else if d.month < 12 then Date(d.year, d.month + 1, 1)
    else Date(d.year + 1, 1, 1)
  }

  function Prev(d: Date): (r: Date)
    requires Valid(d)
    ensures Valid(r)
  {
    if d.day > 1 then d.(day := d.day - 1)
    else if d.month > 1 then Date(d.year, d.month - 1, MonthLen(d.year, d.month - 1))
    else Date(d.year - 1, 12, 31)
  }

  /** Subtracting a number of days. */
  function Minus(d: Date, n: nat): (r: Date)
    requires Valid(d)
    ensures Valid(r)
  {
    if n == 0 then d else Prev(Minus(d, n - 1))
  }

  // ---- Day numbers: an independent count --------------------------------------------------

  function DaysBeforeYear(y: int): int {
    365 * (y - 1) + (y - 1) / 4 - (y - 1) / 100 + (y - 1) / 400
  }

  function DaysBeforeMonth(y: int, m: nat): nat
    requires 1 <= m
  {
    if m == 1 then 0 else DaysBeforeMonth(y, m - 1) + MonthLen(y, m - 1)
  }

  function DayNumber(d: Date): int
    requires 1 <= d.month
  {
    DaysBeforeYear(d.year) + DaysBeforeMonth(d.year, d.month) + d.day
  }

  lemma YearLength(y: int)
    ensures DaysBeforeYear(y + 1) == DaysBeforeYear(y) + if Leap(y) then 366 else 365
  {
    StepDiv(y, 4);
    StepDiv(y, 100);
    StepDiv(y, 400);
    Centuries(y);
  }

  lemma Centuries(y: int)
    ensures (y % 400 == 0 ==> y % 100 == 0) && (y % 100 == 0 ==> y % 4 == 0)
  {
    if y % 400 == 0 {
      Hundredfold(y, 4 * (y / 400));
    }
    if y % 100 == 0 {
      Fourfold(y, 25 * (y / 100));
    }
  }

  lemma Hundredfold(y: int, q: int)
    requires y == 100 * q
    ensures y % 100 == 0
  {
  }

  lemma Fourfold(y: int, q: int)
    requires y == 4 * q
    ensures y % 4 == 0
  {
  }

  lemma StepDiv(y: int, k: int)
    requires k in {4, 100, 400}
    ensures y / k == (y - 1) / k + if y % k == 0 then 1 else 0
  {
  }

  lemma TwelveMonths(y: int)
    ensures DaysBeforeMonth(y, 12) + 31 == if Leap(y) then 366 else 365
  {
    assert DaysBeforeMonth(y, 2) == 31 && DaysBeforeMonth(y, 3) == 31 + MonthLen(y, 2);
    assert DaysBeforeMonth(y, 4) == DaysBeforeMonth(y, 3) + 31 && DaysBeforeMonth(y, 5) == DaysBeforeMonth(y, 4) + 30;
    assert DaysBeforeMonth(y, 6) == DaysBeforeMonth(y, 5) + 31 && DaysBeforeMonth(y, 7) == DaysBeforeMonth(y, 6) + 30;
    assert DaysBeforeMonth(y, 8) == DaysBeforeMonth(y, 7) + 31 && DaysBeforeMonth(y, 9) == DaysBeforeMonth(y, 8) + 31;
    assert DaysBeforeMonth(y, 10) == DaysBeforeMonth(y, 9) + 30 && DaysBeforeMonth(y, 11) == DaysBeforeMonth(y, 10) + 31;
  }

  /** The successor date has the successor number, across month ends and leap years. */
  lemma NextCounts(d: Date)
    requires Valid(d)
    ensures DayNumber(Next(d)) == DayNumber(d) + 1
  {
    YearLength(d.year);
    TwelveMonths(d.year);
  }

  lemma PrevUndoesNext(d: Date)
    requires Valid(d)
    ensures Prev(Next(d)) == d && Next(Prev(d)) == d
  {
  }

  lemma {:induction false} MinusCounts(d: Date, n: nat)
    requires Valid(d)
    ensures DayNumber(Minus(d, n)) == DayNumber(d) - n
  {
    if n > 0 {
      MinusCounts(d, n - 1);
      NextCounts(Minus(d, n));
      PrevUndoesNext(Minus(d, n - 1));
    }
  }

  lemma {:induction false} MonthsGrow(y: int, m: nat, n: nat)
    requires 1 <= m < n <= 12
    ensures DaysBeforeMonth(y, m) + MonthLen(y, m) <= DaysBeforeMonth(y, n)
    decreases n
  {
    if m < n - 1 {
      MonthsGrow(y, m, n - 1);
    }
  }

  lemma {:induction false} YearsGrow(y: int, z: int)
    requires y < z
    ensures DaysBeforeYear(y + 1) <= DaysBeforeYear(z)
    decreases z - y
  {
    if y + 1 < z {
      YearsGrow(y, z - 1);
      YearLength(z - 1);
    }
  }

  lemma InYear(d: Date)
    requires Valid(d)
    ensures DaysBeforeYear(d.year) < DayNumber(d) <= DaysBeforeYear(d.year + 1)
  {
    YearLength(d.year);
    TwelveMonths(d.year);
    if d.month < 12 {
      MonthsGrow(d.year, d.month, 12);
    }
  }

  lemma BeforeCounts(a: Date, b: Date)
    requires Valid(a) && Valid(b) && Before(a, b)
    ensures DayNumber(a) < DayNumber(b)
  {
    if a.year < b.year {
      InYear(a);
      InYear(b);
      YearsGrow(a.year, b.year);
    } else if a.month < b.month {
      MonthsGrow(a.year, a.month, b.month);
    }
  }

  /** The order of dates is the order of their numbers. */
  lemma BeforeIff(a: Date, b: Date)
    requires Valid(a) && Valid(b)
    ensures Before(a, b) <==> DayNumber(a) < DayNumber(b)
  {
    if Before(a, b) {
      BeforeCounts(a, b);
    } else if Before(b, a) {
      BeforeCounts(b, a);
    } else {
      assert a == b;
    }
  }
}
