/**
 * The end of a calendar day in London, whose clocks are an hour ahead of UTC
 * from 01:00 UTC on the last Sunday of March to 01:00 UTC on the last Sunday
 * of October.
 */
module London {
  import opened Wrappers
  import opened Calendar

  /** Milliseconds since the start of 1970, UTC. */
  type Instant = int

  const MINUTE := 60_000
  const HOUR := 3_600_000
  const DAY := 86_400_000

  // ---------------------------------------------------------------------------
  // London's clocks
  // ---------------------------------------------------------------------------

  /** Days since the last Sunday. */
  function Weekday(day: int): int { (day + 4) % 7 }

  function LastSunday(year: int, month: int): int
    requires 0 <= month <= 11
  {
    var last := DayOf(Civil(year, month, MonthLength(year, month)));
    last - Weekday(last)
  }

  const MARCH := 2
  const OCTOBER := 9

  predicate SummerTime(at: Instant) {
    var year := YearOf(at / DAY);
    LastSunday(year, MARCH) * DAY + HOUR <= at < LastSunday(year, OCTOBER) * DAY + HOUR
  }

  /** Minutes London is ahead of UTC. */
  function OffsetMinutes(at: Instant): int { if SummerTime(at) then 60 else 0 }

  /** How far a place's clocks are ahead of UTC, in minutes. */
  type Clock = Instant -> int

  /** The calendar day it is somewhere. */
  function DayThere(clock: Clock, at: Instant): int { (at + clock(at) * MINUTE) / DAY }

  /** The last millisecond of a day there, by the rule the code uses. */
  function EndThere(clock: Clock, day: int): Instant {
    var nextMidnight := (day + 1) * DAY;
    nextMidnight - clock(nextMidnight) * MINUTE - 1
  }

  function LocalDay(at: Instant): int { DayThere(OffsetMinutes, at) }

  function End(day: int): Instant { EndThere(OffsetMinutes, day) }

  // ---------------------------------------------------------------------------
  // The end of a day
  // ---------------------------------------------------------------------------

  predicate Digit(c: char) { '0' <= c <= '9' }

  function Value(c: char): int
    requires Digit(c)
  {
    c as int - '0' as int
  }

  /** Four digits, two and two, with hyphens between. */
  predicate LooksLikeADay(s: string) {
    |s| == 10 && s[4] == '-' && s[7] == '-' && forall i :: 0 <= i < 10 && i != 4 && i != 7 ==> Digit(s[i])
  }

  /** The numbers as written; months count from 0. */
  function Written(s: string): Civil
    requires LooksLikeADay(s)
  {
    Civil(1000 * Value(s[0]) + 100 * Value(s[1]) + 10 * Value(s[2]) + Value(s[3]),
          10 * Value(s[5]) + Value(s[6]) - 1,
          10 * Value(s[8]) + Value(s[9]))
  }

  /** `Date.UTC` takes a year of at most two digits to be in the twentieth century. */
  function FullYear(year: int): int { if 0 <= year <= 99 then 1900 + year else year }

  function UtcMidnight(c: Civil): Instant { MakeDay(FullYear(c.year), c.month, c.date) * DAY }

  /** The end of the day that starts at `midnight`, in a time zone; `next` starts the day after. */
  function EndBetween(clock: Clock, c: Civil, midnight: Instant, next: Instant): Option<Instant> {
    var check := CivilOf(midnight / DAY);
    if check.month != c.month || check.date != c.date then None else Some(next - clock(next) * MINUTE - 1)
  }

  function EndWritten(clock: Clock, c: Civil): Option<Instant> {
    EndBetween(clock, c, UtcMidnight(c), UtcMidnight(c.(date := c.date + 1)))
  }

  function EndOfWritten(c: Civil): Option<Instant> { EndWritten(OffsetMinutes, c) }

  function EndOfDayInLondon(s: string): Option<Instant> {
    if LooksLikeADay(s) then EndOfWritten(Written(s)) else None
  }

  // ---------------------------------------------------------------------------
  // Clocks change between whole days
  // ---------------------------------------------------------------------------

  lemma SundaysInYear(year: int)
    ensures YearStart(year) + 82 <= LastSunday(year, MARCH) <= YearStart(year) + 90
    ensures YearStart(year) + 295 <= LastSunday(year, OCTOBER) <= YearStart(year) + 304
  {
    MakeDayInRange(year, MARCH, MonthLength(year, MARCH));
    MakeDayInRange(year, OCTOBER, MonthLength(year, OCTOBER));
  }

  /** Sundays are whole weeks from 29 March 2026, and the last of a month is in its last week. */
  lemma LastSundayIs(year: int, month: int, day: int)
    requires 0 <= month <= 11
    ensures var last := DayOf(Civil(year, month, DaysIn(year, month)));
            day == LastSunday(year, month) <==>
              last - 7 < day <= last && (day - DayOf(Civil(2026, 2, 29))) % 7 == 0
  {
    MonthLengths(year, month);
    March2026(29);
    LastOfItsWeek(DayOf(Civil(year, month, DaysIn(year, month))), day, DayOf(Civil(2026, 2, 29)));
  }

  lemma LastOfItsWeek(last: int, day: int, sunday: int)
    requires sunday == 20_541
    ensures day == last - Weekday(last) <==> last - 7 < day <= last && (day - sunday) % 7 == 0
  {
    var d := last - Weekday(last);
    assert (d + 4) % 7 == 0 && (d - sunday) % 7 == 0;
    if last - 7 < day <= last && (day - sunday) % 7 == 0 {
      assert (day - d) % 7 == 0;
    }
  }

  lemma March2026(date: int)
    ensures DayOf(Civil(2026, 2, date)) == 20_512 + date
  {
    MakeDayInRange(2026, 2, date);
  }

  /** Whether the clocks are ahead on the UTC day that starts at 01:00. */
  predicate Ahead(day: int) {
    LastSunday(YearOf(day), MARCH) <= day < LastSunday(YearOf(day), OCTOBER)
  }

  lemma ShiftedDay(at: Instant)
    ensures var day := (at - HOUR) / DAY; at / DAY == day || at / DAY == day + 1
  {
  }

  /** Between one 01:00 UTC and the next the clocks do not change. */
  lemma SteadyBetweenSwitches(at: Instant)
    ensures OffsetMinutes(at) == if Ahead((at - HOUR) / DAY) then 60 else 0
  {
    var day := (at - HOUR) / DAY;
    var today := at / DAY;
    var y, z := YearOf(day), YearOf(today);
    ShiftedDay(at);
    YearOfIs(day, y);
    YearOfIs(today, z);
    SundaysInYear(y);
    SundaysInYear(z);
    if y == z {
      SameSide(at, LastSunday(y, MARCH));
      SameSide(at, LastSunday(y, OCTOBER));
    } else {
      YearsFollow(y);
      NewYear(day, y, z);
    }
  }

  lemma NewYear(day: int, y: int, z: int)
    requires YearStart(y) <= day < YearStart(y + 1) && YearStart(z) <= day + 1 < YearStart(z + 1) && y != z
    ensures day + 1 == YearStart(z) && z == y + 1
  {
    YearOfIs(day + 1, z);
    YearOfIs(day + 1, y);
    YearOfIs(day + 1, y + 1);
    YearsFollow(y);
    YearsFollow(y + 1);
  }

  lemma SameSide(at: Instant, day: int)
    ensures day * DAY + HOUR <= at <==> day <= (at - HOUR) / DAY
  {
  }

  // ---------------------------------------------------------------------------
  // Days under clocks that change at 01:00 UTC
  // ---------------------------------------------------------------------------

  ghost predicate Steady(clock: Clock) {
    && (forall at :: clock(at) == 0 || clock(at) == 60)
    && (forall at, bt :: (at - HOUR) / DAY == (bt - HOUR) / DAY ==> clock(at) == clock(bt))
  }

  lemma LondonIsSteady()
    ensures Steady(OffsetMinutes)
  {
    forall at, bt | (at - HOUR) / DAY == (bt - HOUR) / DAY
      ensures OffsetMinutes(at) == OffsetMinutes(bt)
    {
      SteadyBetweenSwitches(at);
      SteadyBetweenSwitches(bt);
    }
  }

  /** The end of a day is exactly where the day ends: the instants up to it are those of this day or an earlier one. */
  lemma EndIsTheLastInstant(clock: Clock, day: int, at: Instant)
    requires Steady(clock)
    ensures DayThere(clock, at) <= day <==> at <= EndThere(clock, day)
  {
    var midnight := (day + 1) * DAY;
    assert (midnight - HOUR) / DAY == day;
    if midnight - HOUR <= at < midnight {
      assert (at - HOUR) / DAY == day;
      assert clock(at) == clock(midnight);
    }
  }

  lemma EndIsThatDay(clock: Clock, day: int)
    requires Steady(clock)
    ensures DayThere(clock, EndThere(clock, day)) == day
    ensures DayThere(clock, EndThere(clock, day) + 1) == day + 1
  {
    var end := EndThere(clock, day);
    EndsRise(clock, day - 1, day);
    EndsRise(clock, day, day + 1);
    EndIsTheLastInstant(clock, day, end);
    EndIsTheLastInstant(clock, day - 1, end);
    EndIsTheLastInstant(clock, day, end + 1);
    EndIsTheLastInstant(clock, day + 1, end + 1);
  }

  /** Later days end later. */
  lemma EndsRise(clock: Clock, a: int, b: int)
    requires Steady(clock) && a < b
    ensures EndThere(clock, a) < EndThere(clock, b)
  {
  }

  /**
   * A day is an hour short when the clocks go forward in it, an hour long when they go
   * back, and 24 hours otherwise.
   */
  lemma LengthOfADay(day: int)
    ensures End(day) - End(day - 1) ==
            if day == LastSunday(YearOf(day), MARCH) then 23 * HOUR
            else if day == LastSunday(YearOf(day), OCTOBER) then 25 * HOUR
            else 24 * HOUR
  {
    LengthThere(OffsetMinutes, day);
    AtMidnight(day);
    AtMidnight(day + 1);
    AheadChanges(day);
  }

  lemma LengthThere(clock: Clock, day: int)
    ensures EndThere(clock, day) - EndThere(clock, day - 1) ==
            DAY + (clock(day * DAY) - clock((day + 1) * DAY)) * MINUTE
  {
  }

  /** At midnight the clocks stand as on the day before. */
  lemma AtMidnight(day: int)
    ensures OffsetMinutes(day * DAY) == if Ahead(day - 1) then 60 else 0
  {
    JustAfterMidnight(day);
    OffsetAt(day * DAY, day - 1);
  }

  lemma OffsetAt(at: Instant, day: int)
    requires (at - HOUR) / DAY == day
    ensures OffsetMinutes(at) == if Ahead(day) then 60 else 0
  {
    SteadyBetweenSwitches(at);
  }

  lemma JustAfterMidnight(day: int)
    ensures (day * DAY - HOUR) / DAY == day - 1
  {
  }

  lemma AheadChanges(day: int)
    ensures var y := YearOf(day);
            && LastSunday(y, MARCH) < LastSunday(y, OCTOBER)
            && (Ahead(day) && !Ahead(day - 1) <==> day == LastSunday(y, MARCH))
            && (!Ahead(day) && Ahead(day - 1) <==> day == LastSunday(y, OCTOBER))
  {
    var y, x := YearOf(day), YearOf(day - 1);
    YearOfIs(day, y);
    YearOfIs(day - 1, x);
    SundaysInYear(y);
    SundaysInYear(x);
    YearsFollow(x);
    if x != y {
      NewYear(day - 1, x, y);
    }
  }

  // ---------------------------------------------------------------------------
  // The code
  // ---------------------------------------------------------------------------

  function Full(c: Civil): Civil { c.(year := FullYear(c.year)) }

  lemma NextMidnight(c: Civil)
    ensures UtcMidnight(c) == DayOf(Full(c)) * DAY
    ensures UtcMidnight(c.(date := c.date + 1)) == (DayOf(Full(c)) + 1) * DAY
    ensures UtcMidnight(c) / DAY == DayOf(Full(c))
  {
  }

  lemma TakesRealDatesThere(clock: Clock, c: Civil)
    ensures EndWritten(clock, c) == if Real(Full(c)) then Some(EndThere(clock, DayOf(Full(c)))) else None
  {
    var day := DayOf(Full(c));
    NextMidnight(c);
    EndOfDayNumber(clock, c, day, UtcMidnight(c), UtcMidnight(c.(date := c.date + 1)));
    ReadsBackWhenReal(Full(c), day);
  }

  lemma EndOfDayNumber(clock: Clock, c: Civil, day: int, midnight: Instant, next: Instant)
    requires midnight / DAY == day && next == (day + 1) * DAY
    ensures EndBetween(clock, c, midnight, next) ==
            if CivilOf(day).month == c.month && CivilOf(day).date == c.date then Some(EndThere(clock, day)) else None
  {
  }

  lemma ReadsBackWhenReal(c: Civil, day: int)
    requires day == DayOf(c)
    ensures Real(c) <==> CivilOf(day).month == c.month && CivilOf(day).date == c.date
  {
    ComesBackWhenReal(c.year, c.month, c.date);
  }

  /** Real dates and only they are taken, the year that counts being the full one. */
  lemma TakesRealDates(c: Civil)
    ensures EndOfWritten(c) == if Real(Full(c)) then Some(End(DayOf(Full(c)))) else None
  {
    TakesRealDatesThere(OffsetMinutes, c);
  }

  /** The result is the last millisecond in London of the day as written. */
  ghost predicate EndsTheDay(c: Civil, result: Option<Instant>) {
    && result.Some? && Real(c)
    && forall at :: LocalDay(at) <= DayOf(c) <==> at <= result.value
  }

  lemma EndEndsTheDay(c: Civil)
    requires Real(c)
    ensures EndsTheDay(c, Some(End(DayOf(c))))
  {
    LondonIsSteady();
    forall at
      ensures LocalDay(at) <= DayOf(c) <==> at <= End(DayOf(c))
    {
      EndIsTheLastInstant(OffsetMinutes, DayOf(c), at);
    }
  }

  /** A day does not end where a later one does. */
  lemma EndsOneDay(c: Civil, at: Instant)
    requires LocalDay(at) > DayOf(c)
    ensures !EndsTheDay(c, Some(at))
  {
  }

  lemma EndIsOnItsDay(day: int)
    ensures LocalDay(End(day)) == day
  {
    LondonIsSteady();
    EndIsThatDay(OffsetMinutes, day);
  }

  lemma EarlyYearsAreEarlier(c: Civil)
    requires 0 <= c.year < 100 && Real(c) && Real(Full(c))
    ensures DayOf(c) < DayOf(Full(c))
  {
    YearsGrow(c.year, c.year + 1900);
    MakeDayInRange(c.year, c.month, c.date);
    MakeDayInRange(c.year + 1900, c.month, c.date);
    MonthsFill(Leap(c.year), c.month);
    MonthsFill(Leap(c.year + 1900), c.month);
  }

  /** A text gives the end of its day exactly when it is a real date of the year 100 or later. */
  lemma RightFromYear100(c: Civil)
    requires c.year >= 0
    ensures EndsTheDay(c, EndOfWritten(c)) <==> Real(c) && c.year >= 100
  {
    TakesRealDates(c);
    if Real(c) {
      if c.year >= 100 {
        EndEndsTheDay(c);
      } else if Real(Full(c)) {
        EarlyYearsAreEarlier(c);
        EndIsOnItsDay(DayOf(Full(c)));
        EndsOneDay(c, End(DayOf(Full(c))));
      }
    }
  }

  /** Over texts: those not of the form of a date are refused, and from the year 100 on so are those of no real date. */
  lemma RefusesNonDates(s: string)
    ensures EndOfDayInLondon(s).Some? <==> LooksLikeADay(s) && Real(Full(Written(s)))
    ensures LooksLikeADay(s) ==>
              (EndsTheDay(Written(s), EndOfDayInLondon(s)) <==> Real(Written(s)) && Written(s).year >= 100)
  {
    if LooksLikeADay(s) {
      TakesRealDates(Written(s));
      RightFromYear100(Written(s));
    }
  }

  /** 15 June of the year 50 is taken for that of 1950. */
  lemma YearFiftyIsNineteenFifty()
    ensures EndOfWritten(Civil(50, 5, 15)) == Some(End(DayOf(Civil(1950, 5, 15))))
  {
    TakesRealDates(Civil(50, 5, 15));
    assert Full(Civil(50, 5, 15)) == Civil(1950, 5, 15);
  }

  lemma YearFiftyIsWritten()
    ensures LooksLikeADay("0050-06-15") && Written("0050-06-15") == Civil(50, 5, 15)
  {
  }

  // ---------------------------------------------------------------------------
  // Dates as written
  // ---------------------------------------------------------------------------

  function DigitText(d: int): char
    requires 0 <= d <= 9
  {
    "0123456789"[d]
  }

  function TwoDigits(n: int): string
    requires 0 <= n <= 99
  {
    [DigitText(n / 10), DigitText(n % 10)]
  }

  /** A year, a month from 1 and a date, written out. */
  function DateText(year: int, month: int, date: int): string
    requires 0 <= year <= 9999 && 0 <= month <= 99 && 0 <= date <= 99
  {
    TwoDigits(year / 100) + TwoDigits(year % 100) + "-" + TwoDigits(month) + "-" + TwoDigits(date)
  }

  lemma DigitsRead(d: int)
    requires 0 <= d <= 9
    ensures Digit(DigitText(d)) && Value(DigitText(d)) == d
  {
  }

  /** What is written is what is read. */
  lemma WrittenIsRead(year: int, month: int, date: int)
    requires 0 <= year <= 9999 && 0 <= month <= 99 && 0 <= date <= 99
    ensures var s := DateText(year, month, date);
            LooksLikeADay(s) && Written(s) == Civil(year, month - 1, date)
  {
    var s := DateText(year, month, date);
    DigitsRead(year / 100 / 10);
    DigitsRead(year / 100 % 10);
    DigitsRead(year % 100 / 10);
    DigitsRead(year % 100 % 10);
    DigitsRead(month / 10);
    DigitsRead(month % 10);
    DigitsRead(date / 10);
    DigitsRead(date % 10);
  }

  /** And nothing else is read. */
  lemma ReadIsWritten(s: string) returns (year: int, month: int, date: int)
    requires LooksLikeADay(s)
    ensures 0 <= year <= 9999 && 0 <= month <= 99 && 0 <= date <= 99 && s == DateText(year, month, date)
  {
    var a := TwoRead(s[..2]);
    var b := TwoRead(s[2..4]);
    month := TwoRead(s[5..7]);
    date := TwoRead(s[8..10]);
    year := 100 * a + b;
    TextOfCenturies(a, b, month, date);
    InParts(s);
  }

  lemma InParts(s: string)
    requires |s| == 10 && s[4] == '-' && s[7] == '-'
    ensures s == s[..2] + s[2..4] + "-" + s[5..7] + "-" + s[8..10]
  {
  }

  lemma TextOfCenturies(a: int, b: int, month: int, date: int)
    requires 0 <= a <= 99 && 0 <= b <= 99 && 0 <= month <= 99 && 0 <= date <= 99
    ensures 0 <= 100 * a + b <= 9999
    ensures DateText(100 * a + b, month, date)
         == TwoDigits(a) + TwoDigits(b) + "-" + TwoDigits(month) + "-" + TwoDigits(date)
  {
    Hundreds(a, b);
  }

  lemma Hundreds(high: int, low: int)
    requires 0 <= high <= 99 && 0 <= low <= 99
    ensures var n := 100 * high + low; 0 <= n <= 9999 && n / 100 == high && n % 100 == low
  {
  }

  lemma TwoRead(s: string) returns (n: int)
    requires |s| == 2 && Digit(s[0]) && Digit(s[1])
    ensures 0 <= n <= 99 && TwoDigits(n) == s
  {
    n := 10 * Value(s[0]) + Value(s[1]);
    DigitIsWritten(s[0]);
    DigitIsWritten(s[1]);
  }

  lemma DigitIsWritten(c: char)
    requires Digit(c)
    ensures 0 <= Value(c) <= 9 && DigitText(Value(c)) == c
  {
  }

  /** The day the clocks went forward in 2026 ends an hour early by UTC, the day before at midnight. */
  lemma SpringForward2026()
    ensures EndOfDayInLondon("2026-03-29") == Some(1_774_825_199_999)
    ensures EndOfDayInLondon("2026-03-28") == Some(1_774_742_399_999)
  {
    WrittenIsRead(2026, 3, 29);
    WrittenIsRead(2026, 3, 28);
    assert DateText(2026, 3, 29) == "2026-03-29" && DateText(2026, 3, 28) == "2026-03-28";
    RealMarch(28);
    RealMarch(29);
    March2026(28);
    March2026(29);
    EndsIn2026(20_540);
    EndsIn2026(20_541);
    EndOfText("2026-03-28", Civil(2026, 2, 28), 20_540, 1_774_742_399_999);
    EndOfText("2026-03-29", Civil(2026, 2, 29), 20_541, 1_774_825_199_999);
  }

  lemma EndOfText(s: string, c: Civil, day: int, end: Instant)
    requires LooksLikeADay(s) && Written(s) == c && Real(c) && c.year >= 100 && DayOf(c) == day && End(day) == end
    ensures EndOfDayInLondon(s) == Some(end)
  {
    TakesRealDates(c);
    assert Full(c) == c;
  }

  lemma RealMarch(date: int)
    requires 1 <= date <= 31
    ensures Real(Civil(2026, 2, date))
  {
    RealWhen(Civil(2026, 2, date));
  }

  lemma EndsIn2026(day: int)
    requires 20_540 <= day <= 20_541
    ensures End(day) == (day + 1) * DAY - (if day == 20_541 then HOUR else 0) - 1
  {
    Late2026(day);
    AtMidnight(day + 1);
    EndBy(OffsetMinutes, day);
  }

  lemma EndBy(clock: Clock, day: int)
    ensures EndThere(clock, day) == (day + 1) * DAY - clock((day + 1) * DAY) * MINUTE - 1
  {
  }

  lemma Late2026(day: int)
    requires 20_540 <= day <= 20_541
    ensures Ahead(day) <==> day == 20_541
  {
    MakeDayInRange(2026, 0, 1);
    MakeDayInRange(2027, 0, 1);
    YearOfIs(day, 2026);
    SundaysInYear(2026);
    March2026(29);
    March2026(31);
    LastSundayIs(2026, 2, 20_541);
  }
}
