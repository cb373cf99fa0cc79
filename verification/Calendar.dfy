/**
 * The proleptic Gregorian calendar as section 21.4.1 of ECMA-262 lays it
 * out: days are counted from 1 January 1970, months from 0, and a month or a
 * date out of range carries over.
 */
module Calendar {

  predicate Leap(y: int) { y % 4 == 0 && (y % 100 != 0 || y % 400 == 0) }

  function YearLength(y: int): int { if Leap(y) then 366 else 365 }

  /** The day a year starts on. */
  function YearStart(y: int): int { 365 * (y - 1970) + (y - 1969) / 4 - (y - 1901) / 100 + (y - 1601) / 400 }

  const MONTH_STARTS: seq<int> := [0, 31, 59, 90, 120, 151, 181, 212, 243, 273, 304, 334, 365]

  /** Days of the year before a month; month 12 stands for the year's end. */
  function MonthStart(leap: bool, month: int): int
    requires 0 <= month <= 12
  {
    MONTH_STARTS[month] + if leap && month >= 2 then 1 else 0
  }

  function MonthLength(y: int, month: int): int
    requires 0 <= month <= 11
  {
    MonthStart(Leap(y), month + 1) - MonthStart(Leap(y), month)
  }

  datatype Civil = Civil(year: int, month: int, date: int)

  /** A day that is in the calendar; its month counts from 0. */
  predicate Real(c: Civil) { 0 <= c.month <= 11 && 1 <= c.date <= MonthLength(c.year, c.month) }

  /** MakeDay: the month carries into the year, and the date carries on from the month's first. */
  function MakeDay(year: int, month: int, date: int): int {
    var y := year + month / 12;
    YearStart(y) + MonthStart(Leap(y), month % 12) + date - 1
  }

  function DayOf(c: Civil): int { MakeDay(c.year, c.month, c.date) }

  lemma YearsFollow(y: int)
    ensures YearStart(y + 1) == YearStart(y) + YearLength(y)
  {
    FourthYears(y);
    HundredthYears(y);
    FourHundredthYears(y);
    CenturiesAreFourthYears(y);
  }

  lemma CenturiesAreFourthYears(y: int)
    ensures (y % 400 == 0 ==> y % 100 == 0) && (y % 100 == 0 ==> y % 4 == 0)
  {
    if y % 100 == 0 {
      var q := y / 100;
      assert y == 4 * (25 * q);
    }
    if y % 400 == 0 {
      var q := y / 400;
      assert y == 100 * (4 * q);
    }
  }

  lemma FourthYears(y: int)
    ensures (y + 1 - 1969) / 4 == (y - 1969) / 4 + if y % 4 == 0 then 1 else 0
  {
  }

  lemma HundredthYears(y: int)
    ensures (y + 1 - 1901) / 100 == (y - 1901) / 100 + if y % 100 == 0 then 1 else 0
  {
  }

  lemma FourHundredthYears(y: int)
    ensures (y + 1 - 1601) / 400 == (y - 1601) / 400 + if y % 400 == 0 then 1 else 0
  {
  }

  lemma {:induction false} YearsGrow(y: int, z: int)
    requires y < z
    ensures YearStart(y) + YearLength(y) <= YearStart(z)
    decreases z - y
  {
    YearsFollow(y);
    if y + 1 < z {
      YearsGrow(y + 1, z);
    }
  }

  // ---------------------------------------------------------------------------
  // From a day back to its date
  // ---------------------------------------------------------------------------

  function YearFrom(y: int, day: int): int
    requires YearStart(y) <= day
    decreases day - YearStart(y)
  {
    YearsFollow(y);
    if YearStart(y + 1) <= day then YearFrom(y + 1, day) else y
  }

  function YearBack(y: int, day: int): int
    requires day < YearStart(y)
    decreases YearStart(y) - day
  {
    YearsFollow(y - 1);
    if day < YearStart(y - 1) then YearBack(y - 1, day) else y - 1
  }

  /** YearFromTime. */
  function YearOf(day: int): int { if day >= 0 then YearFrom(1970, day) else YearBack(1970, day) }

  lemma {:induction false} YearFromHolds(y: int, day: int)
    requires YearStart(y) <= day
    ensures var z := YearFrom(y, day); YearStart(z) <= day < YearStart(z + 1)
    decreases day - YearStart(y)
  {
    YearsFollow(y);
    if YearStart(y + 1) <= day {
      YearFromHolds(y + 1, day);
    }
  }

  lemma {:induction false} YearBackHolds(y: int, day: int)
    requires day < YearStart(y)
    ensures var z := YearBack(y, day); YearStart(z) <= day < YearStart(z + 1)
    decreases YearStart(y) - day
  {
    YearsFollow(y - 1);
    if day < YearStart(y - 1) {
      YearBackHolds(y - 1, day);
    }
  }

  /** The year of a day is the one that contains it. */
  lemma YearOfIs(day: int, y: int)
    ensures YearOf(day) == y <==> YearStart(y) <= day < YearStart(y + 1)
  {
    if day >= 0 {
      YearFromHolds(1970, day);
    } else {
      YearBackHolds(1970, day);
    }
    var z := YearOf(day);
    if z < y {
      YearsGrow(z, y);
      YearsFollow(z);
    } else if y < z {
      YearsGrow(y, z);
      YearsFollow(y);
    }
  }

  /** MonthFromTime, given the day of the year. */
  function MonthIn(leap: bool, day: int): int {
    if day < MonthStart(leap, 1) then 0
    else if day < MonthStart(leap, 2) then 1
    else if day < MonthStart(leap, 3) then 2
    else if day < MonthStart(leap, 4) then 3
    else if day < MonthStart(leap, 5) then 4
    else if day < MonthStart(leap, 6) then 5
    else if day < MonthStart(leap, 7) then 6
    else if day < MonthStart(leap, 8) then 7
    else if day < MonthStart(leap, 9) then 8
    else if day < MonthStart(leap, 10) then 9
    else if day < MonthStart(leap, 11) then 10
    else 11
  }

  lemma MonthInIs(leap: bool, day: int, month: int)
    requires 0 <= day < MonthStart(leap, 12) && 0 <= month <= 11
    ensures 0 <= MonthIn(leap, day) <= 11
    ensures MonthIn(leap, day) == month <==> MonthStart(leap, month) <= day < MonthStart(leap, month + 1)
  {
  }

  function CivilOf(day: int): Civil {
    var y := YearOf(day);
    var inYear := day - YearStart(y);
    var m := MonthIn(Leap(y), inYear);
    Civil(y, m, inYear - MonthStart(Leap(y), m) + 1)
  }

  lemma MakeDayInRange(year: int, month: int, date: int)
    requires 0 <= month <= 11
    ensures MakeDay(year, month, date) == YearStart(year) + MonthStart(Leap(year), month) + date - 1
  {
    assert month / 12 == 0 && month % 12 == month;
  }

  /** The date a day has in the year that contains it. */
  lemma CivilIn(day: int, year: int, month: int)
    requires YearStart(year) <= day < YearStart(year + 1) && 0 <= month <= 11
    requires var inYear := day - YearStart(year);
             MonthStart(Leap(year), month) <= inYear < MonthStart(Leap(year), month + 1)
    ensures CivilOf(day) == Civil(year, month, day - YearStart(year) - MonthStart(Leap(year), month) + 1)
  {
    YearOfIs(day, year);
    YearsFollow(year);
    MonthInIs(Leap(year), day - YearStart(year), month);
  }

  /** A day's date is in the calendar, and is that day's. */
  lemma CivilOfIsReal(day: int)
    ensures Real(CivilOf(day)) && DayOf(CivilOf(day)) == day
  {
    var y := YearOf(day);
    YearOfIs(day, y);
    YearsFollow(y);
    var inYear := day - YearStart(y);
    var m := MonthIn(Leap(y), inYear);
    MonthInIs(Leap(y), inYear, m);
    CivilIn(day, y, m);
    MakeDayInRange(y, m, inYear - MonthStart(Leap(y), m) + 1);
  }

  /** A date in the calendar is the date of its day. */
  lemma CivilOfDayOf(c: Civil)
    requires Real(c)
    ensures CivilOf(DayOf(c)) == c
  {
    YearsFollow(c.year);
    MakeDayInRange(c.year, c.month, c.date);
    MonthsFill(Leap(c.year), c.month);
    CivilIn(DayOf(c), c.year, c.month);
  }

  lemma MonthsFill(leap: bool, month: int)
    requires 0 <= month <= 11
    ensures 0 <= MonthStart(leap, month) < MonthStart(leap, month + 1) <= MonthStart(leap, 12)
  {
  }

  /**
   * A month or date out of range never comes back as itself: the day made
   * from them has that month and date exactly when they are in the calendar.
   */
  lemma ComesBackWhenReal(year: int, month: int, date: int)
    ensures Real(Civil(year, month, date)) <==>
            var c := CivilOf(MakeDay(year, month, date)); c.month == month && c.date == date
  {
    var day := MakeDay(year, month, date);
    CivilOfIsReal(day);
    var c := CivilOf(day);
    if Real(Civil(year, month, date)) {
      CivilOfDayOf(Civil(year, month, date));
    }
    if c.month == month && c.date == date {
      if c.year < year {
        YearsGrow(c.year, year);
        LeapShift(c.year, year, month);
      } else if year < c.year {
        YearsGrow(year, c.year);
        LeapShift(year, c.year, month);
      }
    }
  }

  lemma LeapShift(y: int, z: int, month: int)
    requires YearStart(y) + YearLength(y) <= YearStart(z) && 0 <= month <= 11
    ensures YearStart(y) + MonthStart(Leap(y), month) < YearStart(z) + MonthStart(Leap(z), month)
  {
  }

  // ---------------------------------------------------------------------------
  // The calendar by its own rules
  // ---------------------------------------------------------------------------

  /** Thirty days has September. */
  function DaysIn(year: int, month: int): int {
    if month in {3, 5, 8, 10} then 30
    else if month != 1 then 31
    else if year % 4 == 0 && (year % 100 != 0 || year % 400 == 0) then 29
    else 28
  }

  function Tomorrow(c: Civil): Civil {
    if c.date < DaysIn(c.year, c.month) then c.(date := c.date + 1)
    else if c.month < 11 then Civil(c.year, c.month + 1, 1)
    else Civil(c.year + 1, 0, 1)
  }

  /** Months have the lengths they are taught with. */
  lemma RealWhen(c: Civil)
    ensures Real(c) <==> 0 <= c.month <= 11 && 1 <= c.date <= DaysIn(c.year, c.month)
  {
    if 0 <= c.month <= 11 {
      MonthLengths(c.year, c.month);
    }
  }

  lemma DayZero()
    ensures DayOf(Civil(1970, 0, 1)) == 0
  {
    MakeDayInRange(1970, 0, 1);
  }

  /** Days are counted one by one: with day zero, this is all there is to say of the count. */
  lemma NextDay(c: Civil)
    requires Real(c)
    ensures DayOf(Tomorrow(c)) == DayOf(c) + 1
  {
    MonthLengths(c.year, c.month);
    MakeDayInRange(c.year, c.month, c.date);
    if c.date < DaysIn(c.year, c.month) {
      MakeDayInRange(c.year, c.month, c.date + 1);
    } else if c.month < 11 {
      MakeDayInRange(c.year, c.month + 1, 1);
    } else {
      YearsFollow(c.year);
      MakeDayInRange(c.year + 1, 0, 1);
      WholeYear(Leap(c.year));
    }
  }

  lemma WholeYear(leap: bool)
    ensures MonthStart(leap, 0) == 0 && MonthStart(leap, 12) == if leap then 366 else 365
  {
  }

  lemma MonthLengths(year: int, month: int)
    requires 0 <= month <= 11
    ensures MonthLength(year, month) == DaysIn(year, month)
  {
  }

  /** Twelve months too many are a year, and a date too many is a day. */
  lemma MonthsCarry(year: int, month: int, date: int)
    ensures MakeDay(year, month + 12, date) == MakeDay(year + 1, month, date)
    ensures MakeDay(year, month, date + 1) == MakeDay(year, month, date) + 1
  {
    assert (month + 12) / 12 == month / 12 + 1 && (month + 12) % 12 == month % 12;
  }
}
