/**
 Gregorian dates and day numbers. The original computes with doubles that hold exact quarter
 integers; here every quantity is scaled to an integer, so `floor(x / 36524.25)` of `x = z - 0.25`
 is written `(4 * z - 1) / 146097`. Julian dates are kept as the whole days after 1721118.5.
 */
module Calendar {

  datatype Date = Date(year: int, month: int, day: int)

  predicate IsLeapYear(year: int) {
    year % 4 == 0 && (year % 100 != 0 || year % 400 == 0)
  }

  function DaysOfMonth(year: int, month: int): (n: int)
    requires 1 <= month <= 12
    ensures 28 <= n <= 31
  {
    if month == 2 && IsLeapYear(year) then 29
    else [0, 31, 28, 31, 30, 31, 30, 31, 31, 30, 31, 30, 31][month]
  }

  predicate ValidDate(d: Date) {
    1 <= d.month <= 12 && 1 <= d.day <= DaysOfMonth(d.year, d.month)
  }

  /** The calendar's own successor: the day after `d`. */
  function NextDay(d: Date): (r: Date)
    requires ValidDate(d)
    ensures ValidDate(r)
  {
    if d.day < DaysOfMonth(d.year, d.month) then d.(day := d.day + 1)
    else if d.month < 12 then Date(d.year, d.month + 1, 1)
    else Date(d.year + 1, 1, 1)
  }

  // ---------------------------------------------------------------- from dates to day numbers

  const LOOKUP: seq<int> := [-91, -60, -30, 0, 31, 61, 92, 122, 153, 184, 214, 245, 275, 306, 337]

  /** Days before 1 March of `year`, up to a constant. */
  function MarchStart(year: int): int {
    365 * year + year / 4 - year / 100 + year / 400
  }

  /** `ToJulianDay` at midnight, less 1721118.5. */
  function DayNumber(d: Date): int
    requires 1 <= d.month <= 12
  {
    if d.month < 3 then d.day + LOOKUP[d.month + 12] + MarchStart(d.year - 1)
    else d.day + LOOKUP[d.month] + MarchStart(d.year)
  }

  lemma {:induction false} LeapStep(y: int)
    ensures MarchStart(y) - MarchStart(y - 1) == if IsLeapYear(y) then 366 else 365
  {
    DivStep(y, 4);
    DivStep(y, 100);
    DivStep(y, 400);
    Multiples(y);
  }

  lemma {:induction false} Multiples(y: int)
    ensures (y % 400 == 0 ==> y % 100 == 0) && (y % 100 == 0 ==> y % 4 == 0)
  {}

  lemma {:induction false} DivStep(y: int, n: int)
    requires n == 4 || n == 100 || n == 400
    ensures y / n - (y - 1) / n == if y % n == 0 then 1 else 0
  {}

  /** The formula counts days: the next day has the next number. */
  lemma {:induction false} NextDayIsNextNumber(d: Date)
    requires ValidDate(d)
    ensures DayNumber(NextDay(d)) == DayNumber(d) + 1
  {
    hide MarchStart;
    LeapStep(d.year);
  }

  // ---------------------------------------------------------------- and back

  /** The locals `_year`, `c` and `_month` of `ToTm`. */
  function Century(z: int): int { (4 * z - 1) / 146097 }

  function Skipped(a: int): int { a - a / 4 }

  function MarchYear(z: int): int { (4 * (Skipped(Century(z)) + z) - 1) / 1461 }

  function DayOfMarchYear(z: int): int { Skipped(Century(z)) + z - 1461 * MarchYear(z) / 4 }

  function MarchMonth(c: int): int { (5 * c + 456) / 153 }

  /** The date before the month-overflow correction. */
  function FromDayNumber(z: int): Date {
    var c := DayOfMarchYear(z);
    var m := MarchMonth(c);
    var d := c - (153 * m - 457) / 5;
    if m > 12 then Date(MarchYear(z) + 1, m - 12, d) else Date(MarchYear(z), m, d)
  }

  /** Day numbers of century `k` lie between its March starts, and `a` finds it. */
  lemma {:induction false} CenturyOf(z: int, k: int)
    ensures Century(z) == k <==> MarchStart(100 * k) < z <= MarchStart(100 * k + 100)
  {
    CenturyStart(k);
    CenturyStart(k + 1);
  }

  lemma {:induction false} CenturyStart(k: int)
    ensures 4 * MarchStart(100 * k) == 146097 * k - k % 4
    ensures MarchStart(100 * k) + Skipped(k) == 36525 * k
  {
    assert 100 * k / 4 == 25 * k && 100 * k / 100 == k && 100 * k / 400 == k / 4;
  }

  /** Within a century, adding the skipped leap days turns day numbers into Julian-calendar ones. */
  lemma {:induction false} JulianStart(y: int)
    ensures MarchStart(y) + Skipped(y / 100) == 1461 * y / 4
    ensures 4 * (1461 * y / 4) == 1461 * y - y % 4
  {
    assert y / 400 == y / 100 / 4;
    assert 1461 * y / 4 == 365 * y + y / 4;
  }

  lemma {:induction false} MarchYearOf(z: int)
    ensures var y := MarchYear(z);
            && MarchStart(y) < z <= MarchStart(y + 1) && DayOfMarchYear(z) == z - MarchStart(y)
  {
    var k := Century(z);
    CenturyOf(z, k);
    CenturyStart(k);
    CenturyStart(k + 1);
    var y := MarchYear(z);
    JulianStart(y);
    JulianStart(y + 1);
    assert 1461 * y / 4 < Skipped(k) + z <= 1461 * (y + 1) / 4;
    assert 100 * k <= y < 100 * k + 100;
    assert y / 100 == k;
    if y + 1 == 100 * k + 100 {
      assert (y + 1) / 100 == k + 1;
    } else {
      assert (y + 1) / 100 == k;
    }
  }

  /** The month formula, over the days 1 to 366 of a year that starts in March. */
  lemma {:induction false} MonthOf(c: int)
    requires 1 <= c <= 366
    ensures var m := MarchMonth(c);
            && 3 <= m <= 14 && (153 * m - 457) / 5 == LOOKUP[m]
            && LOOKUP[m] < c && (m < 14 ==> c <= LOOKUP[m + 1])
  {}

  /** No other month can hold day `c`. */
  lemma {:induction false} MonthIs(c: int, m: int)
    requires 1 <= c <= 366 && 3 <= m <= 14 && LOOKUP[m] < c && (m < 14 ==> c <= LOOKUP[m + 1])
    ensures MarchMonth(c) == m
  {}

  lemma {:induction false} StartsIncrease(x: int, y: int)
    requires x < y
    ensures MarchStart(x) < MarchStart(y)
    decreases y - x
  {
    LeapStep(y);
    if x < y - 1 {
      StartsIncrease(x, y - 1);
    }
  }

  /** Every day number is the number of a valid date, so the month-overflow correction has nothing to do. */
  lemma {:induction false} NumberToDateAndBack(z: int)
    ensures ValidDate(FromDayNumber(z)) && DayNumber(FromDayNumber(z)) == z
  {
    hide MarchStart, MarchYear, DayOfMarchYear, MarchMonth;
    MarchYearOf(z);
    var y := MarchYear(z);
    LeapStep(y + 1);
    MonthOf(DayOfMarchYear(z));
  }

  /** Every valid date is restored from its number. */
  lemma {:induction false} DateToNumberAndBack(d: Date)
    requires ValidDate(d)
    ensures FromDayNumber(DayNumber(d)) == d
  {
    hide MarchStart, MarchYear, DayOfMarchYear, MarchMonth;
    var y, m := if d.month < 3 then d.year - 1 else d.year, if d.month < 3 then d.month + 12 else d.month;
    var z := DayNumber(d);
    LeapStep(y + 1);
    var c := d.day + LOOKUP[m];
    assert MarchStart(y) < z <= MarchStart(y + 1) && z == MarchStart(y) + c;
    MarchYearOf(z);
    var x := MarchYear(z);
    if x + 1 < y { StartsIncrease(x + 1, y); }
    if y + 1 < x { StartsIncrease(y + 1, x); }
    MonthIs(c, m);
    MonthOf(c);
  }

  // ---------------------------------------------------------------- weekdays and days of the year

  /** `int(floor(julianDate + 1.5)) % 7`, with the original's truncating remainder. */
  function Weekday(z: int): int {
    TruncMod(z + 1721120, 7)
  }

  function TruncDiv(x: int, y: int): int
    requires y > 0
  {
    if x >= 0 then x / y else -(-x / y)
  }

  function TruncMod(x: int, y: int): int
    requires y > 0
  {
    x - y * TruncDiv(x, y)
  }

  lemma {:induction false} WeekdayStep(z: int)
    requires -1721120 <= z
    ensures 0 <= Weekday(z) < 7 && Weekday(z + 1) == (Weekday(z) + 1) % 7
  {}

  lemma {:induction false} EpochNumber()
    ensures DayNumber(Date(2000, 1, 1)) == 730426 && DayNumber(Date(1999, 12, 31)) == 730425
  {}

  /** Weekdays advance by one, and 1 January 2000 is a Saturday. */
  lemma {:induction false} WeekdaysAdvance(d: Date)
    requires ValidDate(d) && -1721120 <= DayNumber(d)
    ensures Weekday(DayNumber(NextDay(d))) == (Weekday(DayNumber(d)) + 1) % 7
    ensures Weekday(DayNumber(Date(2000, 1, 1))) == 6
  {
    hide DayNumber, NextDay, DaysOfMonth;
    EpochNumber();
    NextDayIsNextNumber(d);
    WeekdayStep(DayNumber(d));
  }

  /** Days from 1 January up to the start of `month`. */
  function DaysBefore(year: int, month: int): int
    requires 1 <= month <= 12
    decreases month
  {
    if month == 1 then 0 else DaysBefore(year, month - 1) + DaysOfMonth(year, month - 1)
  }

  lemma {:induction false} MonthStarts(year: int, month: int)
    requires 1 <= month <= 12
    ensures DayNumber(Date(year, month, 1)) == DayNumber(Date(year, 1, 1)) + DaysBefore(year, month)
  {
    if month > 1 {
      MonthStarts(year, month - 1);
      var last := Date(year, month - 1, DaysOfMonth(year, month - 1));
      NextDayIsNextNumber(last);
    }
  }

  // ---------------------------------------------------------------- ticks

  const DAY_TICKS: int := 86400000000000
  const HOUR_TICKS: int := 3600000000000
  const MINUTE_TICKS: int := 60000000000
  const SECOND_TICKS: int := 1000000000

  datatype Time = Time(hour: int, minute: int, second: int, milli: int, micro: int, nano: int)

  predicate ValidTime(t: Time) {
    && 0 <= t.hour < 24 && 0 <= t.minute < 60 && 0 <= t.second < 60
    && 0 <= t.milli < 1000 && 0 <= t.micro < 1000 && 0 <= t.nano < 1000
  }

  function Nanos(t: Time): int {
    t.milli * 1000000 + t.micro * 1000 + t.nano
  }

  function TimeTicks(t: Time): int {
    t.hour * HOUR_TICKS + t.minute * MINUTE_TICKS + t.second * SECOND_TICKS + Nanos(t)
  }

  /** The nine-argument constructor: nanoseconds since 1 January 2000. */
  function Ticks(d: Date, t: Time): int
    requires 1 <= d.month <= 12
  {
    (DayNumber(d) - 730426) * DAY_TICKS + TimeTicks(t)
  }

  datatype Tm = Tm(second: int, minute: int, hour: int, mday: int, mon: int, year: int, wday: int, yday: int)

  /** `ToJulianDate`, less 1721118.5. */
  function TickDay(ticks: int): int {
    TruncDiv(ticks, DAY_TICKS) + 730426
  }

  /** The locals of `ToTm` up to the first month adjustment. */
  method SplitDays(z: int) returns (year: int, month: int, day: int)
    ensures Date(year, month, day) == FromDayNumber(z)
  {
    var a := (4 * z - 1) / 146097;
    var b := a - a / 4;
    year := (4 * (b + z) - 1) / 1461;
    var c := b + z - 1461 * year / 4;
    month := (5 * c + 456) / 153;
    day := c - (153 * month - 457) / 5;
    if month > 12 {
      year := year + 1;
      month := month - 12;
    }
  }

  /** The loop over the months. */
  method DayOfYear(year: int, month: int, day: int) returns (doy: int)
    requires 1 <= month <= 12
    ensures doy == DayNumber(Date(year, month, day)) - DayNumber(Date(year, 1, 1)) + 1
  {
    hide DayNumber, DaysOfMonth;
    doy := 0;
    var m := 1;
    while m < month
      invariant 1 <= m <= month && doy == DaysBefore(year, m)
    {
      doy := doy + DaysOfMonth(year, m);
      m := m + 1;
    }
    doy := doy + day;
    MonthStarts(year, month);
    FirstOfMonth(Date(year, month, day));
  }

  method ToTm(ticks: int) returns (tm: Tm)
    ensures var d := FromDayNumber(TickDay(ticks));
            && ValidDate(d) && DayNumber(d) == TickDay(ticks)
            && tm.mday == d.day && tm.mon == d.month - 1 && tm.year == d.year - 1900
            && tm.yday == DayNumber(d) - DayNumber(Date(d.year, 1, 1))
            && tm.wday == Weekday(DayNumber(d))
    ensures tm.hour == TruncDiv(TruncMod(ticks, DAY_TICKS), HOUR_TICKS)
    ensures tm.minute == TruncDiv(TruncMod(ticks, HOUR_TICKS), MINUTE_TICKS)
    ensures tm.second == TruncDiv(TruncMod(ticks, MINUTE_TICKS), SECOND_TICKS)
  {
    hide FromDayNumber, DayNumber, TruncDiv, TruncMod;
    var z := TruncDiv(ticks, DAY_TICKS) + 730426;
    var year, month, day := SplitDays(z);
    ghost var d := Date(year, month, day);
    MonthInRange(z);
    if day > DaysOfMonth(year, month) {
      day := day - DaysOfMonth(year, month);
      month := month + 1;
      if month > 12 {
        year := year + 1;
        month := month - 12;
      }
    }
    NumberToDateAndBack(z);
    assert Date(year, month, day) == d;
    var doy := DayOfYear(year, month, day);
    tm := Tm(TruncDiv(TruncMod(ticks, MINUTE_TICKS), SECOND_TICKS), TruncDiv(TruncMod(ticks, HOUR_TICKS), MINUTE_TICKS),
             TruncDiv(TruncMod(ticks, DAY_TICKS), HOUR_TICKS), day, month - 1, year - 1900,
             TruncMod(z + 1721120, 7), doy - 1);
  }

  lemma {:induction false} MonthInRange(z: int)
    ensures 1 <= FromDayNumber(z).month <= 12
  {
    hide MarchStart, MarchYear, DayOfMarchYear, MarchMonth;
    MarchYearOf(z);
    LeapStep(MarchYear(z) + 1);
    MonthOf(DayOfMarchYear(z));
  }

  lemma {:induction false} FirstOfMonth(d: Date)
    requires 1 <= d.month <= 12
    ensures DayNumber(d) == DayNumber(Date(d.year, d.month, 1)) + d.day - 1
  {}

  /**
   Converting back restores the date exactly when the instant is not before 2000 or it is a midnight,
   and then the time of day too: the original's division truncates toward zero.
   */
  lemma {:induction false} InstantRoundTrip(d: Date, t: Time)
    requires ValidDate(d) && ValidTime(t)
    ensures FromDayNumber(TickDay(Ticks(d, t))) == d <==> DayNumber(d) >= 730426 || TimeTicks(t) == 0
    ensures var x := Ticks(d, t);
            DayNumber(d) >= 730426 || TimeTicks(t) == 0 ==>
              && TruncDiv(TruncMod(x, DAY_TICKS), HOUR_TICKS) == t.hour
              && TruncDiv(TruncMod(x, HOUR_TICKS), MINUTE_TICKS) == t.minute
              && TruncDiv(TruncMod(x, MINUTE_TICKS), SECOND_TICKS) == t.second
              && TruncMod(x, SECOND_TICKS) == t.milli * 1000000 + t.micro * 1000 + t.nano
  {
    hide DayNumber, FromDayNumber, TruncDiv, TruncMod, TimeTicks, Nanos;
    var days := DayNumber(d) - 730426;
    DateToNumberAndBack(d);
    NumberToDateAndBack(TickDay(Ticks(d, t)));
    TickFields(days, t);
    NanosAre(t);
  }

  lemma {:induction false} NanosAre(t: Time)
    ensures Nanos(t) == t.milli * 1000000 + t.micro * 1000 + t.nano
  {}

  lemma {:induction false} TickFields(days: int, t: Time)
    requires ValidTime(t)
    ensures var x := days * DAY_TICKS + TimeTicks(t);
            if days >= 0 || TimeTicks(t) == 0 then
              && TruncDiv(x, DAY_TICKS) == days && TruncMod(x, DAY_TICKS) == TimeTicks(t)
              && TruncDiv(TruncMod(x, DAY_TICKS), HOUR_TICKS) == t.hour
              && TruncDiv(TruncMod(x, HOUR_TICKS), MINUTE_TICKS) == t.minute
              && TruncDiv(TruncMod(x, MINUTE_TICKS), SECOND_TICKS) == t.second
              && TruncMod(x, SECOND_TICKS) == Nanos(t)
            else TruncDiv(x, DAY_TICKS) == days + 1
  {
    hide TruncDiv, TruncMod;
    var x := days * DAY_TICKS + TimeTicks(t);
    var inHour := t.minute * MINUTE_TICKS + t.second * SECOND_TICKS + Nanos(t);
    var inMinute := t.second * SECOND_TICKS + Nanos(t);
    Truncates(x, DAY_TICKS, days, TimeTicks(t));
    Truncates(TimeTicks(t), HOUR_TICKS, t.hour, inHour);
    if days >= 0 || TimeTicks(t) == 0 {
      Truncates(x, HOUR_TICKS, days * 24 + t.hour, inHour);
      Truncates(inHour, MINUTE_TICKS, t.minute, inMinute);
      Truncates(x, MINUTE_TICKS, days * 1440 + t.hour * 60 + t.minute, inMinute);
      Truncates(inMinute, SECOND_TICKS, t.second, Nanos(t));
      Truncates(x, SECOND_TICKS, days * 86400 + t.hour * 3600 + t.minute * 60 + t.second, Nanos(t));
    }
  }

  /** Truncating division of `q * y + r`. */
  lemma {:induction false} Truncates(x: int, y: int, q: int, r: int)
    requires y == DAY_TICKS || y == HOUR_TICKS || y == MINUTE_TICKS || y == SECOND_TICKS
    requires x == q * y + r && 0 <= r < y
    ensures q >= 0 || r == 0 ==> TruncDiv(x, y) == q && TruncMod(x, y) == r
    ensures q < 0 && r > 0 ==> TruncDiv(x, y) == q + 1
  {}

  /** Noon of the last day of 1999 comes back as a different day. */
  lemma {:induction false} BeforeTheEpochTimesShift()
    ensures FromDayNumber(TickDay(Ticks(Date(1999, 12, 31), Time(12, 0, 0, 0, 0, 0)))) == Date(2000, 1, 1)
  {
    hide FromDayNumber, DayNumber, TruncDiv, TruncMod, TimeTicks;
    EpochNumber();
    HourTicks(12);
    TickFields(-1, Time(12, 0, 0, 0, 0, 0));
    DateToNumberAndBack(Date(2000, 1, 1));
  }

  lemma {:induction false} HourTicks(h: int)
    ensures TimeTicks(Time(h, 0, 0, 0, 0, 0)) == h * HOUR_TICKS
  {}

  /** `Date()`: the midnight of the same converted date. */
  function MidnightOf(ticks: int): int {
    ticks - TruncMod(ticks, DAY_TICKS)
  }

  lemma {:induction false} MidnightKeepsDate(ticks: int)
    ensures MidnightOf(ticks) % DAY_TICKS == 0 && TickDay(MidnightOf(ticks)) == TickDay(ticks)
  {}

  /** In the range of years the constructor accepts, the ticks fit 64 bits. */
  lemma {:induction false} TicksFit(d: Date, t: Time)
    requires ValidDate(d) && ValidTime(t) && 1708 < d.year < 2292
    ensures -0x8000_0000_0000_0000 <= Ticks(d, t) < 0x8000_0000_0000_0000
  {
    if d.year - 1 > 1708 { StartsIncrease(1708, d.year - 1); }
    if d.year < 2291 { StartsIncrease(d.year, 2291); }
  }

  // ---------------------------------------------------------------- the printed form

  /** The fields that `ToString` prints, the date's first. */
  datatype Printed = Printed(date: Date, hour: int, minute: int, second: int, milli: int)

  function Abs(x: int): int {
    if x < 0 then -x else x
  }

  function Print(ticks: int): Printed {
    Printed(FromDayNumber(TickDay(ticks)), TruncDiv(TruncMod(ticks, DAY_TICKS), HOUR_TICKS),
            TruncDiv(TruncMod(ticks, HOUR_TICKS), MINUTE_TICKS), TruncDiv(TruncMod(ticks, MINUTE_TICKS), SECOND_TICKS),
            Abs(ticks) % SECOND_TICKS / 1000000)
  }

  /** `Parse` of the printed fields. */
  function Reread(p: Printed): int
    requires 1 <= p.date.month <= 12
  {
    Ticks(p.date, Time(p.hour, p.minute, p.second, p.milli, 0, 0))
  }

  /**
   Printing and parsing again keeps the instant to the millisecond exactly when it is not before 2000
   or has no milliseconds: they are printed without a sign, while the other fields keep theirs.
   */
  lemma {:induction false} PrintedFormKeeps(ticks: int)
    ensures ValidDate(Print(ticks).date)
    ensures Reread(Print(ticks)) == ticks - TruncMod(ticks, 1000000)
       <==> ticks >= 0 || Print(ticks).milli == 0
  {
    hide DayNumber, FromDayNumber;
    NumberToDateAndBack(TickDay(ticks));
    FieldsAddUp(ticks);
  }

  lemma {:induction false} FieldsAddUp(ticks: int)
    ensures var whole := TruncDiv(ticks, DAY_TICKS) * DAY_TICKS
                         + TruncDiv(TruncMod(ticks, DAY_TICKS), HOUR_TICKS) * HOUR_TICKS
                         + TruncDiv(TruncMod(ticks, HOUR_TICKS), MINUTE_TICKS) * MINUTE_TICKS
                         + TruncDiv(TruncMod(ticks, MINUTE_TICKS), SECOND_TICKS) * SECOND_TICKS;
            var milli := Abs(ticks) % SECOND_TICKS / 1000000 * 1000000;
            ticks - TruncMod(ticks, 1000000) == if ticks < 0 then whole - milli else whole + milli
  {
    hide TruncDiv, TruncMod;
    Field(ticks, 24, HOUR_TICKS);
    Field(ticks, 60, MINUTE_TICKS);
    Field(ticks, 60, SECOND_TICKS);
    Nested(Abs(ticks), 1000, 1000000);
    Signed(ticks, DAY_TICKS);
    Signed(ticks, SECOND_TICKS);
    Signed(ticks, 1000000);
  }

  /** Truncation keeps the sign and divides what is under it. */
  lemma {:induction false} Signed(x: int, y: nat)
    requires y > 0
    ensures TruncMod(x, y) == if x < 0 then -(Abs(x) % y) else Abs(x) % y
    ensures TruncDiv(x, y) * y == x - TruncMod(x, y)
  {}

  lemma {:induction false} Field(x: int, k: nat, y: nat)
    requires k > 0 && y > 0 && k * y > 0
    ensures TruncDiv(TruncMod(x, k * y), y) * y == TruncMod(x, k * y) - TruncMod(x, y)
  {
    var r := TruncMod(x, k * y);
    Signed(x, k * y);
    Signed(x, y);
    Signed(r, y);
    Nested(Abs(x), k, y);
    hide TruncDiv, TruncMod;
    assert Abs(r) == Abs(x) % (k * y);
    assert r == 0 ==> Abs(x) % y == 0 by { if r == 0 { assert 0 % y == 0; } }
  }

  lemma {:induction false} Nested(x: nat, k: nat, y: nat)
    requires k > 0 && y > 0 && k * y > 0
    ensures x % (k * y) % y == x % y
  {
    var q, z := x / (k * y), x % (k * y);
    assert x == (q * k + z / y) * y + z % y;
    Quotient(x, y, q * k + z / y, z % y);
  }

  lemma {:induction false} Quotient(x: nat, y: nat, q: int, r: nat)
    requires x == q * y + r && r < y
    ensures x % y == r
  {
    var d := x / y - q;
    assert d * y == r - x % y;
  }
}
