/** UTC dates as section 21.4.1 of ECMA-262 defines them, and the dates on a certificate. A
    date is its day number; the time of day never moves. */
module Calendar {
  predicate Leap(year: int) {
    year % 4 == 0 && (year % 100 != 0 || year % 400 == 0)
  }

  function LeapDay(year: int): nat {
    if Leap(year) then 1 else 0
  }

  /** The day number of 1 January, counting year lengths from 1970. */
  function DayFromYear(year: int): int
    decreases if year < 1970 then 1970 - year else year - 1970
  {
    if year == 1970 then 0
    else if year > 1970 then DayFromYear(year - 1) + 365 + LeapDay(year - 1)
    else DayFromYear(year + 1) - 365 - LeapDay(year)
  }

  function MonthDays(m: nat, leapDay: nat): nat {
    if m == 1 then 28 + leapDay else if m == 3 || m == 5 || m == 8 || m == 10 then 30 else 31
  }

  /** Days of a year before month `m`, counting from 0; month 12 is the next year. */
  function BeforeMonth(m: nat, leapDay: nat): nat {
    if m == 0 then 0 else BeforeMonth(m - 1, leapDay) + MonthDays(m - 1, leapDay)
  }

  function MonthLength(year: int, m: nat): nat {
    MonthDays(m, LeapDay(year))
  }

  lemma {:induction false} YearLength(year: int)
    ensures DayFromYear(year + 1) == DayFromYear(year) + 365 + LeapDay(year)
  {
  }

  lemma {:induction false} MonthTable(l: nat)
    ensures BeforeMonth(0, l) == 0 && BeforeMonth(1, l) == 31 && BeforeMonth(2, l) == 59 + l
    ensures BeforeMonth(3, l) == 90 + l && BeforeMonth(4, l) == 120 + l && BeforeMonth(5, l) == 151 + l
    ensures BeforeMonth(6, l) == 181 + l && BeforeMonth(7, l) == 212 + l && BeforeMonth(8, l) == 243 + l
    ensures BeforeMonth(9, l) == 273 + l && BeforeMonth(10, l) == 304 + l && BeforeMonth(11, l) == 334 + l
    ensures BeforeMonth(12, l) == 365 + l
  {
    assert BeforeMonth(1, l) == 31;
    assert BeforeMonth(2, l) == 59 + l;
    assert BeforeMonth(3, l) == 90 + l;
    assert BeforeMonth(4, l) == 120 + l;
    assert BeforeMonth(5, l) == 151 + l;
    assert BeforeMonth(6, l) == 181 + l;
    assert BeforeMonth(7, l) == 212 + l;
    assert BeforeMonth(8, l) == 243 + l;
    assert BeforeMonth(9, l) == 273 + l;
    assert BeforeMonth(10, l) == 304 + l;
    assert BeforeMonth(11, l) == 334 + l;
  }

  lemma {:induction false} EveryFourth(year: int)
    ensures (year - 1968) / 4 - (year - 1969) / 4 == if year % 4 == 0 then 1 else 0
  {
  }

  lemma {:induction false} EveryHundredth(year: int)
    ensures (year - 1900) / 100 - (year - 1901) / 100 == if year % 100 == 0 then 1 else 0
    ensures year % 100 == 0 ==> year % 4 == 0
  {
  }

  lemma {:induction false} EveryFourHundredth(year: int)
    ensures (year - 1600) / 400 - (year - 1601) / 400 == if year % 400 == 0 then 1 else 0
    ensures year % 400 == 0 ==> year % 100 == 0
  {
  }

  /** The closed form of ECMA-262 for the day number of 1 January. */
  function ClosedForm(year: int): int {
    365 * (year - 1970) + (year - 1969) / 4 - (year - 1901) / 100 + (year - 1601) / 400
  }

  lemma {:induction false} ClosedFormSteps(year: int)
    ensures ClosedForm(year + 1) == ClosedForm(year) + 365 + LeapDay(year)
  {
    EveryFourth(year);
    EveryHundredth(year);
    EveryFourHundredth(year);
  }

  /** The standard's formula counts the days of whole Gregorian years. */
  lemma {:induction false} DayFromYearIsClosedForm(year: int)
    ensures DayFromYear(year) == ClosedForm(year)
    decreases if year < 1970 then 1970 - year else year - 1970
  {
    if year > 1970 {
      DayFromYearIsClosedForm(year - 1);
      ClosedFormSteps(year - 1);
    } else if year < 1970 {
      DayFromYearIsClosedForm(year + 1);
      ClosedFormSteps(year);
    }
  }

  /** The year a day falls in, searched from a year not after it, or not before it. */
  function YearUp(day: int, year: int): (y: int)
    requires DayFromYear(year) <= day
    ensures DayFromYear(y) <= day < DayFromYear(y + 1)
    decreases day - DayFromYear(year)
  {
    YearLength(year);
    if day < DayFromYear(year + 1) then year else YearUp(day, year + 1)
  }

  function YearDown(day: int, year: int): (y: int)
    requires day < DayFromYear(year + 1)
    ensures DayFromYear(y) <= day < DayFromYear(y + 1)
    decreases DayFromYear(year + 1) - day
  {
    YearLength(year);
    if DayFromYear(year) <= day then year else YearDown(day, year - 1)
  }

  function YearOf(day: int): (y: int)
    ensures DayFromYear(y) <= day < DayFromYear(y + 1)
  {
    if day >= DayFromYear(1970) then YearUp(day, 1970) else YearDown(day, 1969)
  }

  function DayInYear(day: int): (d: nat)
    ensures d < 365 + LeapDay(YearOf(day))
  {
    YearLength(YearOf(day));
    day - DayFromYear(YearOf(day))
  }

  function MonthFrom(dayInYear: nat, leapDay: nat, m: nat): (month: nat)
    requires m < 12 && BeforeMonth(m, leapDay) <= dayInYear < 365 + leapDay
    ensures month < 12 && BeforeMonth(month, leapDay) <= dayInYear < BeforeMonth(month + 1, leapDay)
    decreases 12 - m
  {
    MonthTable(leapDay);
    if dayInYear < BeforeMonth(m + 1, leapDay) then m else MonthFrom(dayInYear, leapDay, m + 1)
  }

  function MonthOf(day: int): (m: nat)
    ensures m < 12
  {
    MonthFrom(DayInYear(day), LeapDay(YearOf(day)), 0)
  }

  /** Day of the month, from 1. */
  function DateOf(day: int): (d: nat)
    ensures 1 <= d <= MonthLength(YearOf(day), MonthOf(day))
  {
    DayInYear(day) - BeforeMonth(MonthOf(day), LeapDay(YearOf(day))) + 1
  }

  /** The day of a month, whatever the date. */
  function DayOf(year: int, m: nat, date: int): int {
    DayFromYear(year) + BeforeMonth(m, LeapDay(year)) + date - 1
  }

  /** The year and month that a month counted from January of a year falls in. */
  function YearIn(year: int, month: int): int {
    year + month / 12
  }

  function MonthIn(month: int): (m: nat)
    ensures m < 12
  {
    month % 12
  }

  /** `MakeDay`: a month past the end of the year carries into it, and a date past
      the end of the month into the next. */
  function MakeDay(year: int, month: int, date: int): int {
    DayOf(YearIn(year, month), MonthIn(month), date)
  }

  function WithMonth(day: int, month: int): int {
    MakeDay(YearOf(day), month, DateOf(day))
  }

  function WithDate(day: int, date: int): int {
    MakeDay(YearOf(day), MonthOf(day), date)
  }

  lemma {:induction false} CarriedOnce(year: int, month: int, date: int)
    requires 12 <= month < 24
    ensures MakeDay(year, month, date) == DayOf(year + 1, month - 12, date)
  {
  }

  lemma {:induction false} NotCarried(year: int, m: nat, date: int)
    requires m < 12
    ensures MakeDay(year, m, date) == DayOf(year, m, date)
  {
  }

  lemma {:induction false} DayParts(day: int)
    ensures day == DayOf(YearOf(day), MonthOf(day), DateOf(day))
    ensures DateOf(day) <= 31 && (MonthOf(day) == 1 ==> DateOf(day) <= 28 + LeapDay(YearOf(day)))
  {
  }

  lemma {:induction false} LaterDate(year: int, m: nat, date: int, days: int)
    ensures DayOf(year, m, date + days) == DayOf(year, m, date) + days
  {
  }

  /** Changing the date of the month moves the day by as much, across any boundary. */
  lemma {:induction false} MovedDate(day: int, days: int)
    ensures WithDate(day, DateOf(day) + days) == day + days
  {
    NotCarried(YearOf(day), MonthOf(day), DateOf(day) + days);
    LaterDate(YearOf(day), MonthOf(day), DateOf(day), days);
    DayParts(day);
  }

  class UtcDate {
    var day: int

    constructor (day: int)
      ensures this.day == day
    {
      this.day := day;
    }

    method SetUTCMonth(month: int)
      modifies this
      ensures day == WithMonth(old(day), month)
    {
      day := WithMonth(day, month);
    }

    method SetUTCDate(date: int)
      modifies this
      ensures day == WithDate(old(day), date)
    {
      day := WithDate(day, date);
    }
  }

  /** The same date of the month, so many months on. */
  function MonthsAfter(day: int, months: int): int {
    WithMonth(day, MonthOf(day) + months)
  }

  method AddMonths(d: UtcDate, months: int, days: int) returns (out: UtcDate)
    ensures fresh(out) && d.day == old(d.day)
    ensures out.day == MonthsAfter(d.day, months) + days
  {
    out := new UtcDate(d.day);
    out.SetUTCMonth(MonthOf(out.day) + months);
    ghost var moved := out.day;
    assert moved == MonthsAfter(d.day, months);
    out.SetUTCDate(DateOf(out.day) + days);
    MovedDate(moved, days);
  }

  // ------------------------------------------------------- round trip

  lemma {:induction false} YearsIncrease(a: int, b: int)
    requires a < b
    ensures DayFromYear(a) < DayFromYear(b)
    decreases b - a
  {
    YearLength(a);
    if a + 1 < b {
      YearsIncrease(a + 1, b);
    }
  }

  lemma {:induction false} OneYear(day: int, year: int)
    requires DayFromYear(year) <= day < DayFromYear(year + 1)
    ensures YearOf(day) == year
  {
    if YearOf(day) < year {
      if YearOf(day) + 1 < year {
        YearsIncrease(YearOf(day) + 1, year);
      }
    } else if YearOf(day) > year && year + 1 < YearOf(day) {
      YearsIncrease(year + 1, YearOf(day));
    }
  }

  lemma {:induction false} OneMonth(leapDay: nat, d: nat, a: nat, b: nat)
    requires a < 12 && b < 12
    requires BeforeMonth(a, leapDay) <= d < BeforeMonth(a + 1, leapDay)
    requires BeforeMonth(b, leapDay) <= d < BeforeMonth(b + 1, leapDay)
    ensures a == b
  {
    if a < b {
      MonthsIncrease(leapDay, a + 1, b);
    } else if b < a {
      MonthsIncrease(leapDay, b + 1, a);
    }
  }

  lemma {:induction false} MonthsIncrease(leapDay: nat, a: nat, b: nat)
    requires a <= b
    ensures BeforeMonth(a, leapDay) <= BeforeMonth(b, leapDay)
  {
    if a < b {
      MonthsIncrease(leapDay, a, b - 1);
    }
  }

  predicate IsCivil(year: int, m: nat, date: nat) {
    m < 12 && 1 <= date <= MonthLength(year, m)
  }

  /** Year, month and date of a day. */
  function CivilOf(day: int): (int, nat, nat) {
    (YearOf(day), MonthOf(day), DateOf(day))
  }

  /** A calendar date is the date of the day it makes. */
  lemma {:induction false} CivilRoundTrip(year: int, m: nat, date: nat)
    requires IsCivil(year, m, date)
    ensures CivilOf(DayOf(year, m, date)) == (year, m, date)
  {
    var day := DayOf(year, m, date);
    MonthsIncrease(LeapDay(year), m + 1, 12);
    MonthTable(LeapDay(year));
    YearLength(year);
    OneYear(day, year);
    OneMonth(LeapDay(year), DayInYear(day), m, MonthOf(day));
  }

  lemma {:induction false} NextMonth(year: int, m: nat, date: int)
    ensures DayOf(year, m, date) == DayOf(year, m + 1, date - MonthLength(year, m))
  {
  }

  /** Where a date of a month falls: in it, or as many days into the month after as it
      is past the end. */
  function Rolled(year: int, m: nat, date: nat): (int, nat, nat) {
    if date <= MonthLength(year, m) then (year, m, date) else (year, m + 1, date - MonthLength(year, m))
  }

  lemma {:induction false} Overflow(leapDay: nat, m: nat, date: nat)
    requires m < 12 && MonthDays(m, leapDay) < date <= 31
    ensures m < 11 && date - MonthDays(m, leapDay) <= 3 < MonthDays(m + 1, leapDay)
  {
  }

  lemma {:induction false} OverflowLands(year: int, m: nat, date: nat)
    requires m < 12 && MonthLength(year, m) < date <= 31
    ensures CivilOf(DayOf(year, m, date)) == (year, m + 1, date - MonthLength(year, m))
  {
    var over := date - MonthLength(year, m);
    assert IsCivil(year, m + 1, over) by {
      Overflow(LeapDay(year), m, date);
    }
    assert DayOf(year, m, date) == DayOf(year, m + 1, over) by {
      NextMonth(year, m, date);
    }
    CivilRoundTrip(year, m + 1, over);
  }

  lemma {:induction false} DatesLand(year: int, m: nat, date: nat)
    requires m < 12 && 1 <= date <= 31
    ensures CivilOf(DayOf(year, m, date)) == Rolled(year, m, date)
  {
    if date <= MonthLength(year, m) {
      CivilRoundTrip(year, m, date);
    } else {
      OverflowLands(year, m, date);
    }
  }

  lemma {:induction false} DateIsShort(day: int)
    ensures 1 <= DateOf(day) <= 31
  {
  }

  /** What adding months means: the date of the target month where it has one, and
      otherwise as many days into the month after as it falls short. */
  lemma {:induction false} MonthsAfterMeans(day: int, months: int)
    ensures CivilOf(MonthsAfter(day, months))
         == Rolled(YearIn(YearOf(day), MonthOf(day) + months), MonthIn(MonthOf(day) + months), DateOf(day))
  {
    DateIsShort(day);
    MonthsAfterLands(YearOf(day), MonthOf(day), DateOf(day), months, MonthsAfter(day, months));
  }

  lemma {:induction false} MonthsAfterLands(year: int, m: nat, date: nat, months: int, moved: int)
    requires 1 <= date <= 31 && moved == MakeDay(year, m + months, date)
    ensures CivilOf(moved) == Rolled(YearIn(year, m + months), MonthIn(m + months), date)
  {
    DatesLand(YearIn(year, m + months), MonthIn(m + months), date);
  }

  // ------------------------------------------------------- certificates

  const VALIDITY_MONTHS: int := 12
  const NEXT_DUE_MONTHS: int := 6

  function ValidTo(issued: int): int {
    MonthsAfter(issued, VALIDITY_MONTHS) - 1
  }

  function NextDue(issued: int): int {
    MonthsAfter(issued, NEXT_DUE_MONTHS)
  }

  function LeapDayOf(year: int): int {
    DayFromYear(year) + 59
  }

  /** A 29 February falls in the period. */
  ghost predicate HoldsLeapDay(from: int, to: int) {
    exists year: int :: Leap(year) && from <= LeapDayOf(year) <= to
  }

  lemma {:induction false} LeapEffect(m: nat, leapDay: nat)
    ensures BeforeMonth(m, leapDay) == BeforeMonth(m, 0) + (if m < 2 then 0 else leapDay)
  {
    if m > 0 {
      LeapEffect(m - 1, leapDay);
    }
  }

  /** Twelve months on from any date of any month. */
  lemma {:induction false} TwelveMonthsOn(year: int, m: nat, date: int)
    requires m < 12
    ensures MakeDay(year, m + 12, date) - DayOf(year, m, date)
         == 365 + (if m < 2 then LeapDay(year) else LeapDay(year + 1))
  {
    CarriedOnce(year, m + 12, date);
    YearLength(year);
    LeapEffect(m, LeapDay(year));
    LeapEffect(m, LeapDay(year + 1));
  }

  lemma {:induction false} ManyYears(a: int, b: int)
    requires a <= b
    ensures DayFromYear(b) >= DayFromYear(a) + 365 * (b - a)
    decreases b - a
  {
    if a < b {
      YearLength(a);
      ManyYears(a + 1, b);
    }
  }

  /** A day and its calendar date, and the last day of the year that starts on it. */
  predicate YearFrom(issued: int, to: int, year: int, m: nat, date: nat) {
    && m < 12 && 1 <= date <= 31 && (m == 1 ==> date <= 28 + LeapDay(year))
    && issued == DayOf(year, m, date) && to == MakeDay(year, m + 12, date) - 1
  }

  lemma {:induction false} YearFromIssue(issued: int)
    ensures YearFrom(issued, ValidTo(issued), YearOf(issued), MonthOf(issued), DateOf(issued))
  {
    DayParts(issued);
  }

  /** A certificate runs 364 days, and one more exactly when a 29 February falls in it. */
  lemma {:induction false} ValidForAYear(issued: int)
    ensures ValidTo(issued) - issued == if HoldsLeapDay(issued, ValidTo(issued)) then 365 else 364
  {
    YearFromIssue(issued);
    YearHoldsLeapDay(issued, ValidTo(issued), YearOf(issued), MonthOf(issued), DateOf(issued));
  }

  lemma {:induction false} YearHoldsLeapDay(issued: int, to: int, year: int, m: nat, date: nat)
    requires YearFrom(issued, to, year, m, date)
    ensures to - issued == if HoldsLeapDay(issued, to) then 365 else 364
  {
    TwelveMonthsOn(year, m, date);
    LeapDayOfItsYear(issued, to, year, m, date);
    if HoldsLeapDay(issued, to) {
      var y: int :| Leap(y) && issued <= LeapDayOf(y) <= to;
      LeapYearInPeriod(issued, to, year, m, date, y);
    }
  }

  /** In the year that matters, a leap day falls in the period. */
  lemma {:induction false} LeapDayOfItsYear(issued: int, to: int, year: int, m: nat, date: nat)
    requires YearFrom(issued, to, year, m, date)
    ensures m < 2 ==> (Leap(year) ==> issued <= LeapDayOf(year) <= to)
    ensures m >= 2 ==> (Leap(year + 1) ==> issued <= LeapDayOf(year + 1) <= to)
  {
    TwelveMonthsOn(year, m, date);
    MonthTable(LeapDay(year));
    YearLength(year);
    MonthsIncrease(LeapDay(year), 2, if m < 2 then 2 else m);
  }

  lemma {:induction false} EarlierLeapDay(issued: int, to: int, year: int, m: nat, date: nat, y: int)
    requires YearFrom(issued, to, year, m, date) && y < year
    ensures LeapDayOf(y) < issued
  {
    MonthTable(LeapDay(year));
    ManyYears(y + 1, year);
    YearLength(y);
    MonthsIncrease(LeapDay(year), 0, m);
  }

  lemma {:induction false} LaterLeapDay(issued: int, to: int, year: int, m: nat, date: nat, y: int)
    requires YearFrom(issued, to, year, m, date) && y > year + 1
    ensures to < LeapDayOf(y)
  {
    TwelveMonthsOn(year, m, date);
    MonthTable(LeapDay(year));
    YearLength(year);
    YearLength(year + 1);
    ManyYears(year + 2, y);
    MonthsIncrease(LeapDay(year), m, 11);
  }

  lemma {:induction false} OtherLeapDay(issued: int, to: int, year: int, m: nat, date: nat)
    requires YearFrom(issued, to, year, m, date)
    ensures m >= 2 && Leap(year) ==> LeapDayOf(year) < issued
    ensures m < 2 && Leap(year + 1) ==> to < LeapDayOf(year + 1)
  {
    TwelveMonthsOn(year, m, date);
    MonthTable(LeapDay(year));
    YearLength(year);
    MonthsIncrease(LeapDay(year), 2, if m < 2 then 2 else m);
  }

  /** The only leap day a year's validity can reach. */
  lemma {:induction false} LeapYearInPeriod(issued: int, to: int, year: int, m: nat, date: nat, y: int)
    requires YearFrom(issued, to, year, m, date) && Leap(y) && issued <= LeapDayOf(y) <= to
    ensures y == if m < 2 then year else year + 1
  {
    if y < year {
      EarlierLeapDay(issued, to, year, m, date, y);
    } else if y > year + 1 {
      LaterLeapDay(issued, to, year, m, date, y);
    } else {
      OtherLeapDay(issued, to, year, m, date);
    }
  }

  /** Days in the six months from month `m`, when the next year may be a leap year. */
  function SixMonths(m: nat, leapDay: nat, nextLeapDay: nat): int
    requires m < 12
  {
    if m < 6 then BeforeMonth(m + 6, leapDay) - BeforeMonth(m, leapDay)
    else 365 + leapDay + BeforeMonth(m - 6, nextLeapDay) - BeforeMonth(m, leapDay)
  }

  lemma {:induction false} SixMonthsRange(m: nat, leapDay: nat, nextLeapDay: nat)
    requires m < 12 && leapDay + nextLeapDay <= 1
    ensures 181 <= SixMonths(m, leapDay, nextLeapDay) <= 184
  {
    MonthTable(leapDay);
    MonthTable(nextLeapDay);
    if m < 6 {
      assert m == 0 || m == 1 || m == 2 || m == 3 || m == 4 || m == 5;
    } else {
      assert m == 6 || m == 7 || m == 8 || m == 9 || m == 10 || m == 11;
    }
  }

  lemma {:induction false} YearBetween(year: int, from: nat, to: nat, date: int)
    ensures DayOf(year + 1, to, date) - DayOf(year, from, date)
         == 365 + LeapDay(year) + BeforeMonth(to, LeapDay(year + 1)) - BeforeMonth(from, LeapDay(year))
  {
    YearLength(year);
  }

  /** Six months on from any date of any month. */
  lemma {:induction false} SixMonthsOn(year: int, m: nat, date: int)
    requires m < 12
    ensures MakeDay(year, m + 6, date) - DayOf(year, m, date) == SixMonths(m, LeapDay(year), LeapDay(year + 1))
  {
    if m < 6 {
      NotCarried(year, m + 6, date);
    } else {
      CarriedOnce(year, m + 6, date);
      YearBetween(year, m, m - 6, date);
    }
  }

  lemma {:induction false} DueFrom(year: int, m: nat, date: int)
    requires m < 12
    ensures 181 <= MakeDay(year, m + 6, date) - DayOf(year, m, date) <= 184
  {
    SixMonthsOn(year, m, date);
    LeapYearsApart(year);
    SixMonthsRange(m, LeapDay(year), LeapDay(year + 1));
  }

  /** The next visit falls due 181 to 184 days on. */
  lemma {:induction false} DueInHalfAYear(issued: int)
    ensures 181 <= NextDue(issued) - issued <= 184
  {
    DayParts(issued);
    DueFrom(YearOf(issued), MonthOf(issued), DateOf(issued));
  }

  lemma {:induction false} LeapYearsApart(year: int)
    ensures LeapDay(year) + LeapDay(year + 1) <= 1
  {
  }

  /** The dates printed on a certificate, for every day of the calendar. */
  method CertificateDates(issued: UtcDate) returns (validTo: UtcDate, nextDue: UtcDate)
    ensures issued.day == old(issued.day)
    ensures validTo.day == ValidTo(issued.day) && nextDue.day == NextDue(issued.day)
    ensures issued.day < nextDue.day < validTo.day
    ensures validTo.day - issued.day == if HoldsLeapDay(issued.day, validTo.day) then 365 else 364
    ensures 181 <= nextDue.day - issued.day <= 184
  {
    validTo := AddMonths(issued, VALIDITY_MONTHS, -1);
    nextDue := AddMonths(issued, NEXT_DUE_MONTHS, 0);
    ValidForAYear(issued.day);
    DueInHalfAYear(issued.day);
  }
}