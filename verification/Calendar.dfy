/** The proleptic Gregorian calendar behind `std::chrono`: day numbers from 0000-01-01 and back. */
module Calendar {
  datatype Date = Date(year: int, month: int, day: int)

  predicate Leap(y: int) { y % 4 == 0 && (y % 100 != 0 || y % 400 == 0) }

  function MonthLength(y: int, m: int): (n: int)
    requires 1 <= m <= 12
    ensures 28 <= n <= 31
  {
    if m == 2 then (if Leap(y) then 29 else 28)
    else if m == 4 || m == 6 || m == 9 || m == 11 then 30
    else 31
  }

  predicate Valid(d: Date) {
    1 <= d.month <= 12 && 1 <= d.day <= MonthLength(d.year, d.month)
  }

  function YearLength(y: int): int { if Leap(y) then 366 else 365 }

  /** Days from the start of year 0 to the start of year `y`. */
  function YearStart(y: int): int {
    365 * y + (y + 3) / 4 - (y + 99) / 100 + (y + 399) / 400
  }

  /** Days from the start of the year to the start of a month. */
  function MonthStart(y: int, m: int): int
    requires 1 <= m <= 13
  {
    if m == 1 then 0 else MonthStart(y, m - 1) + MonthLength(y, m - 1)
  }

  function DayNumber(d: Date): int
    requires Valid(d)
  {
    YearStart(d.year) + MonthStart(d.year, d.month) + d.day - 1
  }

  lemma YearStep(y: int)
    ensures YearStart(y + 1) == YearStart(y) + YearLength(y)
  {
    Quarters(y);
    Centuries(y);
    FourCenturies(y);
    if y % 400 == 0 {
      FourCenturyIsCentury(y);
    }
    if y % 100 == 0 {
      CenturyIsQuarter(y);
    }
  }

  lemma Quarters(y: int)
    ensures (y + 4) / 4 == (y + 3) / 4 + if y % 4 == 0 then 1 else 0
  {
  }

  lemma Centuries(y: int)
    ensures (y + 100) / 100 == (y + 99) / 100 + if y % 100 == 0 then 1 else 0
  {
  }

  lemma FourCenturies(y: int)
    ensures (y + 400) / 400 == (y + 399) / 400 + if y % 400 == 0 then 1 else 0
  {
    var q, r := y / 400, y % 400;
    assert y == 400 * q + r;
    assert y + 400 == 400 * (q + 1) + r;
    if r > 0 {
      assert y + 399 == 400 * (q + 1) + (r - 1);
    } else {
      assert y + 399 == 400 * q + 399;
    }
  }

  lemma CenturyIsQuarter(y: int)
    requires y % 100 == 0
    ensures y % 4 == 0
  {
    assert y == 4 * (25 * (y / 100));
  }

  lemma FourCenturyIsCentury(y: int)
    requires y % 400 == 0
    ensures y % 100 == 0
  {
    assert y == 100 * (4 * (y / 400));
  }

  lemma MonthsFillTheYear(y: int)
    ensures MonthStart(y, 13) == YearLength(y)
  {
    var february := MonthLength(y, 2);
    assert MonthStart(y, 2) == 31;
    assert MonthStart(y, 3) == 31 + february;
    assert MonthStart(y, 5) == 31 + february + 61;
    assert MonthStart(y, 7) == 31 + february + 122;
    assert MonthStart(y, 9) == 31 + february + 184;
    assert MonthStart(y, 11) == 31 + february + 245;
  }

  lemma {:induction false} MonthsBefore(y: int, m: int, k: int)
    requires 1 <= m < k <= 13
    ensures MonthStart(y, m) + MonthLength(y, m) <= MonthStart(y, k)
    decreases k
  {
    if m < k - 1 {
      MonthsBefore(y, m, k - 1);
    }
  }

  lemma {:induction false} YearsBefore(y: int, z: int)
    requires y < z
    ensures YearStart(y) + YearLength(y) <= YearStart(z)
    decreases z - y
  {
    if y + 1 == z {
      YearStep(y);
    } else {
      YearsBefore(y, z - 1);
      YearStep(z - 1);
    }
  }

  predicate Before(a: Date, b: Date) {
    a.year < b.year || (a.year == b.year && (a.month < b.month || (a.month == b.month && a.day < b.day)))
  }

  /** Earlier dates have smaller day numbers. */
  lemma DayNumberOrders(a: Date, b: Date)
    requires Valid(a) && Valid(b)
    ensures Before(a, b) <==> DayNumber(a) < DayNumber(b)
    ensures a == b <==> DayNumber(a) == DayNumber(b)
  {
    if Before(a, b) {
      EarlierIsSmaller(a, b);
    } else if Before(b, a) {
      EarlierIsSmaller(b, a);
    }
  }

  lemma EarlierIsSmaller(a: Date, b: Date)
    requires Valid(a) && Valid(b) && Before(a, b)
    ensures DayNumber(a) < DayNumber(b)
  {
    hide YearStart, YearLength, MonthLength, MonthStart;
    if a.year < b.year {
      YearsBefore(a.year, b.year);
      MonthsBefore(a.year, a.month, 13);
      MonthsFillTheYear(a.year);
      MonthStartPositive(b.year, b.month);
    } else if a.month < b.month {
      MonthsBefore(a.year, a.month, b.month);
    }
  }

  /** The year of a date, seen from its day number. */
  lemma YearOfDay(d: Date, y: int)
    requires Valid(d)
    ensures YearStart(y) <= DayNumber(d) <==> y <= d.year
  {
    hide YearStart;
    var first := Date(y, 1, 1);
    assert DayNumber(first) == YearStart(y);
    DayNumberOrders(d, first);
  }

  lemma {:induction false} MonthStartPositive(y: int, m: int)
    requires 1 <= m <= 13
    ensures MonthStart(y, m) >= 0
  {
    if m > 1 {
      MonthStartPositive(y, m - 1);
    }
  }

  function Next(d: Date): (e: Date)
    requires Valid(d)
    ensures Valid(e)
  {
    if d.day < MonthLength(d.year, d.month) then Date(d.year, d.month, d.day + 1)
    else if d.month < 12 then Date(d.year, d.month + 1, 1)
    else Date(d.year + 1, 1, 1)
  }

  function Previous(d: Date): (e: Date)
    requires Valid(d)
    ensures Valid(e)
  {
    if d.day > 1 then Date(d.year, d.month, d.day - 1)
    else if d.month > 1 then Date(d.year, d.month - 1, MonthLength(d.year, d.month - 1))
    else Date(d.year - 1, 12, 31)
  }

  lemma NextDay(d: Date)
    requires Valid(d)
    ensures DayNumber(Next(d)) == DayNumber(d) + 1
  {
    hide YearStart, YearLength;
    if d.day == MonthLength(d.year, d.month) && d.month == 12 {
      MonthsFillTheYear(d.year);
      YearStep(d.year);
    }
  }

  lemma PreviousDay(d: Date)
    requires Valid(d)
    ensures DayNumber(Previous(d)) == DayNumber(d) - 1
  {
    hide YearStart, YearLength;
    if d.day == 1 && d.month == 1 {
      MonthsFillTheYear(d.year - 1);
      YearStep(d.year - 1);
    }
  }

  /** The date of a day number: the conversion back, for every integer. */
  function Civil(n: int): (d: Date)
    ensures Valid(d) && DayNumber(d) == n
    decreases if n < 0 then -n else n
  {
    if n == 0 then Date(0, 1, 1)
    else if n > 0 then
      NextDay(Civil(n - 1));
      Next(Civil(n - 1))
    else
      PreviousDay(Civil(n + 1));
      Previous(Civil(n + 1))
  }

  lemma CivilOfDate(d: Date)
    requires Valid(d)
    ensures Civil(DayNumber(d)) == d
  {
    DayNumberOrders(Civil(DayNumber(d)), d);
  }

  /** The first day, and the day before it. */
  lemma Epoch(d: Date)
    requires d.year == 0 && d.month == 1 && d.day == 1
    ensures DayNumber(d) == 0 && Civil(0) == d
    ensures DayNumber(Previous(d)) == -1 && Civil(-1) == Previous(d) && Previous(d).year == -1
  {
    hide Civil, DayNumber, MonthLength;
    EpochNumber(d);
    PreviousDay(d);
    CivilOfDate(d);
    CivilOfDate(Previous(d));
  }

  lemma EpochNumber(d: Date)
    requires d.year == 0 && d.month == 1 && d.day == 1
    ensures DayNumber(d) == 0
  {
    hide MonthLength;
    assert YearStart(d.year) == 0;
  }

  /** Four hundred years of the Gregorian calendar have 146097 days, and 1970 begins 719528 days after
      the year 0; every fourth year has a leap day but three centuries out of four. */
  lemma Gregorian(y: int)
    ensures YearStart(y + 400) == YearStart(y) + 146097
    ensures DayNumber(Date(1970, 1, 1)) == 719528
    ensures MonthLength(y, 2) == (if (y % 4 == 0 && y % 100 != 0) || y % 400 == 0 then 29 else 28)
  {
  }
}
