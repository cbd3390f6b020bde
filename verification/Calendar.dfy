/** The Gregorian calendar, counted in days and minutes from 1970, for all years. */
module Calendar {
  const DAY: int := 1440

  predicate IsLeap(y: int) {
    y % 4 == 0 && (y % 100 != 0 || y % 400 == 0)
  }

  function DaysIn(y: int): nat {
    if IsLeap(y) then 366 else 365
  }

  /** Day number of 1 January. */
  function DaysBeforeYear(y: int): int
    decreases if y > 1970 then y - 1970 else 1970 - y
  {
    if y == 1970 then 0
    else if y > 1970 then DaysBeforeYear(y - 1) + DaysIn(y - 1)
    else DaysBeforeYear(y + 1) - DaysIn(y)
  }

  lemma {:induction false} YearsGrow(a: int, b: int)
    requires a <= b
    ensures DaysBeforeYear(a) + 365 * (b - a) <= DaysBeforeYear(b)
    decreases b - a
  {
    if a < b {
      YearsGrow(a, b - 1);
    }
  }

  predicate InYear(day: int, y: int) {
    DaysBeforeYear(y) <= day < DaysBeforeYear(y + 1)
  }

  function YearUp(y: int, day: int): (r: int)
    requires DaysBeforeYear(y) <= day
    ensures InYear(day, r)
    decreases day - DaysBeforeYear(y)
  {
    if day < DaysBeforeYear(y + 1) then y else YearUp(y + 1, day)
  }

  function YearDown(y: int, day: int): (r: int)
    requires day < DaysBeforeYear(y + 1)
    ensures InYear(day, r)
    decreases DaysBeforeYear(y + 1) - day
  {
    if DaysBeforeYear(y) <= day then y else YearDown(y - 1, day)
  }

  function YearOf(day: int): (y: int)
    ensures InYear(day, y)
  {
    if DaysBeforeYear(1970) <= day then YearUp(1970, day) else YearDown(1969, day)
  }

  /** Days of the year before month `m`, counted from 0; the whole year for 12. */
  function DaysBeforeMonth(m: nat, leap: bool): nat
    requires m <= 12
  {
    var extra := if leap && m >= 2 then 1 else 0;
    extra + (if m == 0 then 0 else if m == 1 then 31 else if m == 2 then 59 else if m == 3 then 90
             else if m == 4 then 120 else if m == 5 then 151 else if m == 6 then 181 else if m == 7 then 212
             else if m == 8 then 243 else if m == 9 then 273 else if m == 10 then 304 else if m == 11 then 334 else 365)
  }

  function MonthFrom(m: nat, day: nat, leap: bool): (r: nat)
    requires m <= 11 && day < DaysBeforeMonth(m + 1, leap)
    ensures r <= 11 && DaysBeforeMonth(r, leap) <= day < DaysBeforeMonth(r + 1, leap)
  {
    if DaysBeforeMonth(m, leap) <= day then m else MonthFrom(m - 1, day, leap)
  }

  /** A date and time of day as its parts are written: months and days from 1. */
  datatype Fields = Fields(year: int, month: nat, day: nat, hour: nat, minute: nat)

  /** The parts of a minute counted from 1970. */
  function FieldsOf(minutes: int): (f: Fields)
    ensures 1 <= f.month <= 12 && 1 <= f.day <= 31 && f.hour < 24 && f.minute < 60
    ensures InYear(minutes / DAY, f.year)
  {
    var day, rest := minutes / DAY, minutes % DAY;
    var year := YearOf(day);
    var inYear := day - DaysBeforeYear(year);
    var month := MonthFrom(11, inYear, IsLeap(year));
    Fields(year, month + 1, inYear - DaysBeforeMonth(month, IsLeap(year)) + 1, rest / 60, rest % 60)
  }

  /** `Date.UTC`, in minutes: parts out of range carry over, and years 0 to 99 mean 1900 to 1999. */
  function DateUtc(f: Fields): int {
    var y := if 0 <= f.year <= 99 then 1900 + f.year else f.year;
    var year, month := y + (f.month - 1) / 12, (f.month - 1) % 12;
    DAY * (DaysBeforeYear(year) + DaysBeforeMonth(month, IsLeap(year)) + f.day - 1) + 60 * f.hour + f.minute
  }

  /** `Date.UTC` undoes the reading of a calendar, but for those hundred years. */
  lemma DateUtcReads(minutes: int)
    requires !(0 <= FieldsOf(minutes).year <= 99)
    ensures DateUtc(FieldsOf(minutes)) == minutes
  {
    var f := FieldsOf(minutes);
    assert (f.month - 1) / 12 == 0 && (f.month - 1) % 12 == f.month - 1;
    assert DaysBeforeYear(f.year) + DaysBeforeMonth(f.month - 1, IsLeap(f.year)) + f.day - 1 == minutes / DAY;
    assert 60 * f.hour + f.minute == minutes % DAY;
  }

  /** Days, hours and minutes out of range carry over, and a year of two digits is one of the twentieth century ... */
  lemma DateUtcCarries(f: Fields)
    requires f.month >= 1
    ensures DateUtc(f.(day := f.day + 1)) == DateUtc(f) + 1440
    ensures DateUtc(f.(hour := f.hour + 1)) == DateUtc(f) + 60
    ensures DateUtc(f.(minute := f.minute + 1)) == DateUtc(f) + 1
    ensures 0 <= f.year <= 99 ==> DateUtc(f) == DateUtc(f.(year := f.year + 1900))
  {}

  /** ... and so do months. */
  lemma MonthsOfYear(f: Fields)
    requires f.month >= 1 && f.year >= 100
    ensures DateUtc(f.(month := f.month + 12)) == DateUtc(f.(year := f.year + 1))
  {
    MonthsCarry(f.month);
  }

  lemma MonthsCarry(month: nat)
    requires month >= 1
    ensures (month + 11) / 12 == (month - 1) / 12 + 1 && (month + 11) % 12 == (month - 1) % 12
  {}

  /** The days of month `m`, counted from 1. */
  function MonthLength(y: int, m: nat): nat {
    if m == 2 then (if y % 400 == 0 || (y % 4 == 0 && y % 100 != 0) then 29 else 28)
    else if m == 4 || m == 6 || m == 9 || m == 11 then 30 else 31
  }

  /** The minute after a minute. */
  function Next(f: Fields): Fields {
    if f.minute < 59 then f.(minute := f.minute + 1)
    else if f.hour < 23 then f.(hour := f.hour + 1, minute := 0)
    else if f.day < MonthLength(f.year, f.month) then Fields(f.year, f.month, f.day + 1, 0, 0)
    else if f.month < 12 then Fields(f.year, f.month + 1, 1, 0, 0)
    else Fields(f.year + 1, 1, 1, 0, 0)
  }

  lemma MonthsGrow(m: nat, n: nat, leap: bool)
    requires m <= n <= 12
    ensures DaysBeforeMonth(m, leap) <= DaysBeforeMonth(n, leap)
  {}

  lemma YearIsOnly(day: int, y: int, r: int)
    requires InYear(day, y) && InYear(day, r)
    ensures y == r
  {
    if y < r { YearsGrow(y + 1, r); }
    if r < y { YearsGrow(r + 1, y); }
  }

  predicate InMonth(inYear: int, m: nat, leap: bool)
    requires m <= 11
  {
    DaysBeforeMonth(m, leap) <= inYear < DaysBeforeMonth(m + 1, leap)
  }

  lemma MonthIsOnly(inYear: nat, m: nat, leap: bool)
    requires m <= 11 && inYear < DaysBeforeMonth(12, leap) && InMonth(inYear, m, leap)
    ensures MonthFrom(11, inYear, leap) == m
  {
    var r := MonthFrom(11, inYear, leap);
    if r < m { MonthsGrow(r + 1, m, leap); }
    if m < r { MonthsGrow(m + 1, r, leap); }
  }

  lemma DayOf(day: int, rest: nat)
    requires rest < DAY
    ensures (DAY * day + rest) / DAY == day && (DAY * day + rest) % DAY == rest
  {}

  /** The parts of a day are told by the year, the month and the day within it that it lies in. */
  lemma FieldsAre(day: int, rest: nat, y: int, m: nat)
    requires rest < DAY && m <= 11 && InYear(day, y) && InMonth(day - DaysBeforeYear(y), m, IsLeap(y))
    ensures FieldsOf(DAY * day + rest)
         == Fields(y, m + 1, day - DaysBeforeYear(y) - DaysBeforeMonth(m, IsLeap(y)) + 1, rest / 60, rest % 60)
  {
    DayOf(day, rest);
    YearIsOnly(day, y, YearOf(day));
    MonthIsOnly(day - DaysBeforeYear(y), m, IsLeap(y));
  }

  lemma MonthsAre(y: int, m: nat)
    requires m <= 11
    ensures DaysBeforeMonth(m + 1, IsLeap(y)) == DaysBeforeMonth(m, IsLeap(y)) + MonthLength(y, m + 1)
    ensures DaysBeforeMonth(0, IsLeap(y)) == 0 && DaysBeforeYear(y + 1) == DaysBeforeYear(y) + DaysBeforeMonth(12, IsLeap(y))
  {}

  /** The day after one is in the same month, in the next, or in the next year. */
  lemma DayAfter(day: int, y: int, m: nat)
    requires m <= 11 && InYear(day, y) && InMonth(day - DaysBeforeYear(y), m, IsLeap(y))
    ensures var d := day - DaysBeforeYear(y) - DaysBeforeMonth(m, IsLeap(y)) + 1;
      if d < MonthLength(y, m + 1) then InYear(day + 1, y) && InMonth(day + 1 - DaysBeforeYear(y), m, IsLeap(y))
      else if m < 11 then
        && InYear(day + 1, y) && InMonth(day + 1 - DaysBeforeYear(y), m + 1, IsLeap(y))
        && day + 1 - DaysBeforeYear(y) == DaysBeforeMonth(m + 1, IsLeap(y))
      else InYear(day + 1, y + 1) && InMonth(0, 0, IsLeap(y + 1)) && day + 1 == DaysBeforeYear(y + 1)
  {
    MonthsAre(y, m);
    MonthsAre(y, 0);
    MonthsGrow(m + 1, 12, IsLeap(y));
    if m < 11 {
      MonthsAre(y, m + 1);
      MonthsGrow(m + 2, 12, IsLeap(y));
    } else {
      MonthsAre(y + 1, 0);
      YearsGrow(y + 1, y + 2);
    }
  }

  lemma InYearIs(day: int, y: int)
    requires InYear(day, y)
    ensures 0 <= day - DaysBeforeYear(y) < DaysBeforeMonth(12, IsLeap(y))
  {
    MonthsAre(y, 0);
  }

  lemma MonthBegins(y: int)
    ensures DaysBeforeMonth(0, IsLeap(y)) == 0
  {}

  /** A reading of minutes that tells the parts of a day from the year, month and day within it that it lies in. */
  ghost predicate TellsDay(fieldsOf: int -> Fields, day: int, rest: nat, y: int, m: nat) {
    rest < DAY && m <= 11 && InYear(day, y) && InMonth(day - DaysBeforeYear(y), m, IsLeap(y)) ==>
      fieldsOf(DAY * day + rest) == Fields(y, m + 1, day - DaysBeforeYear(y) - DaysBeforeMonth(m, IsLeap(y)) + 1, rest / 60, rest % 60)
  }

  ghost predicate TellsDays(fieldsOf: int -> Fields) {
    forall day: int, rest: nat, y: int, m: nat :: TellsDay(fieldsOf, day, rest, y, m)
  }

  /** The parts of the first minute of the day after one. */
  lemma FirstMinute(fieldsOf: int -> Fields, day: int, y: int, m: nat, d: int)
    requires TellsDays(fieldsOf)
    requires m <= 11 && InYear(day, y) && InMonth(day - DaysBeforeYear(y), m, IsLeap(y))
    requires d == day - DaysBeforeYear(y) - DaysBeforeMonth(m, IsLeap(y)) + 1
    ensures fieldsOf(DAY * (day + 1) + 0) == if d < MonthLength(y, m + 1) then Fields(y, m + 1, d + 1, 0, 0)
                                             else if m < 11 then Fields(y, m + 2, 1, 0, 0) else Fields(y + 1, 1, 1, 0, 0)
  {
    DayAfter(day, y, m);
    MonthBegins(y + 1);
    assert TellsDay(fieldsOf, day + 1, 0, y, m) && TellsDay(fieldsOf, day + 1, 0, y, m + 1)
        && TellsDay(fieldsOf, day + 1, 0, y + 1, 0);
  }

  lemma NextOfLast(y: int, m: nat, d: nat)
    requires m <= 11
    ensures Next(Fields(y, m + 1, d, 23, 59))
         == if d < MonthLength(y, m + 1) then Fields(y, m + 1, d + 1, 0, 0)
            else if m < 11 then Fields(y, m + 2, 1, 0, 0) else Fields(y + 1, 1, 1, 0, 0)
  {}

  lemma NextMinuteOf(fieldsOf: int -> Fields, day: int, rest: nat, y: int, m: nat)
    requires TellsDays(fieldsOf) && rest < DAY
    requires m <= 11 && InYear(day, y) && InMonth(day - DaysBeforeYear(y), m, IsLeap(y))
    ensures fieldsOf(DAY * day + rest + 1) == Next(fieldsOf(DAY * day + rest))
  {
    var d := day - DaysBeforeYear(y) - DaysBeforeMonth(m, IsLeap(y)) + 1;
    assert TellsDay(fieldsOf, day, rest, y, m);
    if rest < 1439 {
      assert TellsDay(fieldsOf, day, rest + 1, y, m);
      assert DAY * day + rest + 1 == DAY * day + (rest + 1);
      NextInDay(rest);
    } else {
      FirstMinute(fieldsOf, day, y, m, d);
      assert DAY * day + rest + 1 == DAY * (day + 1) + 0;
      NextOfLast(y, m, d);
    }
  }

  lemma NextInDay(rest: nat)
    requires rest < 1439
    ensures if rest % 60 < 59 then (rest + 1) / 60 == rest / 60 && (rest + 1) % 60 == rest % 60 + 1
            else (rest + 1) / 60 == rest / 60 + 1 && (rest + 1) % 60 == 0 && rest / 60 < 23
  {}

  /** The calendar begins with minute 0 at the first minute of 1970 ... */
  lemma Epoch()
    ensures FieldsOf(0) == Fields(1970, 1, 1, 0, 0)
  {
    FieldsAre(0, 0, 1970, 0);
  }

  /**
   ... and every minute, before and after it, is followed by the next: so it is the Gregorian calendar, for all years.
   */
  lemma NextMinute(minutes: int)
    ensures FieldsOf(minutes + 1) == Next(FieldsOf(minutes))
  {
    FieldsTellDays();
    NextIsTold(FieldsOf, minutes);
  }

  lemma NextIsTold(fieldsOf: int -> Fields, minutes: int)
    requires TellsDays(fieldsOf)
    ensures fieldsOf(minutes + 1) == Next(fieldsOf(minutes))
  {
    var day, rest := minutes / DAY, minutes % DAY;
    var y, m := LiesIn(day);
    assert minutes == DAY * day + rest;
    NextMinuteOf(fieldsOf, day, rest, y, m);
  }

  lemma LiesIn(day: int) returns (y: int, m: nat)
    ensures m <= 11 && InYear(day, y) && InMonth(day - DaysBeforeYear(y), m, IsLeap(y))
  {
    y := YearOf(day);
    InYearIs(day, y);
    m := MonthFrom(11, day - DaysBeforeYear(y), IsLeap(y));
  }

  lemma FieldsTellDays()
    ensures TellsDays(FieldsOf)
  {
    forall day: int, rest: nat, y: int, m: nat
      ensures TellsDay(FieldsOf, day, rest, y, m)
    {
      if rest < DAY && m <= 11 && InYear(day, y) && InMonth(day - DaysBeforeYear(y), m, IsLeap(y)) { FieldsAre(day, rest, y, m); }
    }
  }

  lemma Quotient4(y: int)
    ensures y / 4 == (y - 1) / 4 + if y % 4 == 0 then 1 else 0
  {}

  lemma Quotient100(y: int)
    ensures y / 100 == (y - 1) / 100 + if y % 100 == 0 then 1 else 0
    ensures y % 100 == 0 ==> y % 4 == 0
  {}

  lemma Quotient400(y: int)
    ensures y / 400 == (y - 1) / 400 + if y % 400 == 0 then 1 else 0
    ensures y % 400 == 0 ==> y % 100 == 0
  {}

  /** Years before `y` that a fourth, a hundredth and a four hundredth year make leap years, counted from year 1. */
  function LeapYears(y: int): int {
    (y - 1) / 4 - (y - 1) / 100 + (y - 1) / 400
  }

  lemma OneYear(y: int)
    ensures LeapYears(y + 1) == LeapYears(y) + (if IsLeap(y) then 1 else 0)
  {
    Quotient4(y);
    Quotient100(y);
    Quotient400(y);
  }

  /** The day number of a year: every fourth year is a leap year, but for three in four hundred. */
  lemma {:induction false} YearFormula(y: int)
    ensures DaysBeforeYear(y) == 365 * (y - 1970) + LeapYears(y) - 477
    decreases if y > 1970 then y - 1970 else 1970 - y
  {
    if y > 1970 {
      YearFormula(y - 1);
      OneYear(y - 1);
    } else if y < 1970 {
      YearFormula(y + 1);
      OneYear(y);
    } else {
      assert LeapYears(1970) == 477;
    }
  }

  /** The first minute of a year is of that year. */
  lemma YearStarts(y: int)
    ensures FieldsOf(DAY * DaysBeforeYear(y)).year == y
  {
    FieldsTellDays();
    StartIsTold(FieldsOf, y);
  }

  lemma StartIsTold(fieldsOf: int -> Fields, y: int)
    requires TellsDays(fieldsOf)
    ensures fieldsOf(DAY * DaysBeforeYear(y)).year == y
  {
    YearsGrow(y, y + 1);
    MonthBegins(y);
    assert TellsDay(fieldsOf, DaysBeforeYear(y), 0, y, 0);
  }

  /** Within two days of a date the year is at most one less. */
  lemma YearNearby(minutes: int, earlier: int)
    requires minutes - 2 * DAY <= earlier
    ensures FieldsOf(earlier).year >= FieldsOf(minutes).year - 1
  {
    var y, e := FieldsOf(minutes).year, FieldsOf(earlier).year;
    assert earlier / DAY >= minutes / DAY - 2;
    if e < y - 1 { YearsGrow(e + 1, y - 1); }
  }

  /** Whatever its parts, a date is not read as more than a year before the year it names. */
  lemma DateUtcNear(f: Fields)
    requires f.year >= 100
    ensures FieldsOf(DateUtc(f)).year >= f.year - 1
  {
    var minutes, first := DateUtc(f), DaysBeforeYear(f.year - 1);
    YearsGrow(f.year - 1, f.year + (f.month - 1) / 12);
    assert minutes >= DAY * first;
    assert minutes / DAY >= first;
    var y := FieldsOf(minutes).year;
    if y < f.year - 1 { YearsGrow(y + 1, f.year - 1); }
  }

  /** How a run-time reads dates: the parts of a minute, and `Date.UTC`. */
  datatype Dates = Dates(fieldsOf: int -> Fields, utc: Fields -> int)

  const GREGORIAN: Dates := Dates(FieldsOf, DateUtc)

  predicate InRange(f: Fields) {
    f.month < 100 && f.day < 100 && f.hour < 100 && f.minute < 100
  }

  ghost predicate ReadsMinute(dates: Dates, m: int) {
    var f := dates.fieldsOf(m);
    InRange(f) && (f.year >= 100 ==> dates.utc(f) == m)
  }

  ghost predicate StaysNear(dates: Dates, m: int, earlier: int) {
    m - 2 * DAY <= earlier ==> dates.fieldsOf(m).year - 1 <= dates.fieldsOf(earlier).year
  }

  ghost predicate NamesYear(dates: Dates, f: Fields) {
    f.year >= 100 ==> f.year - 1 <= dates.fieldsOf(dates.utc(f)).year
  }

  /** What is used of a calendar: parts that fit their columns, a `Date.UTC` that reads them back, years in order. */
  ghost predicate Lawful(dates: Dates) {
    && (forall f :: NamesYear(dates, f))
    && (forall m :: ReadsMinute(dates, m))
    && (forall m, earlier :: StaysNear(dates, m, earlier))
  }

  lemma GregorianIsLawful()
    ensures Lawful(GREGORIAN)
  {
    forall f
      ensures NamesYear(GREGORIAN, f)
    {
      assert GREGORIAN.utc(f) == DateUtc(f) && GREGORIAN.fieldsOf(DateUtc(f)) == FieldsOf(DateUtc(f));
      if f.year >= 100 { DateUtcNear(f); }
    }
    forall m
      ensures ReadsMinute(GREGORIAN, m)
    {
      assert GREGORIAN.fieldsOf(m) == FieldsOf(m);
      if FieldsOf(m).year >= 100 { DateUtcReads(m); }
    }
    forall m, earlier
      ensures StaysNear(GREGORIAN, m, earlier)
    {
      assert GREGORIAN.fieldsOf(m) == FieldsOf(m) && GREGORIAN.fieldsOf(earlier) == FieldsOf(earlier);
      if m - 2 * DAY <= earlier { YearNearby(m, earlier); }
    }
  }
}
