/** Calendar arithmetic of src/time_darwin.c: seconds since 1970 to broken-down
    fields and back, against the closed form of section 4.16, "Seconds Since the
    Epoch", of the Base Definitions volume of POSIX.1-2017. */
module Calendar {

  const SEC_IN_MINUTE: int := 60
  const SEC_IN_HOUR: int := 3600
  const SEC_IN_DAY: int := 86400
  const TWO_32: int := 0x1_0000_0000

  const DAYS_BEFORE_MONTH: seq<int> := [0, 31, 59, 90, 120, 151, 181, 212, 243, 273, 304, 334]

  // ---------- Years, months and days ----------

  /** Years count from 1900. A remainder is only ever compared with zero, so the
      sign convention of the remainder operator does not matter. */
  predicate IsLeap(year: int) {
    year % 4 == 0 && (year % 100 != 0 || (year + 1900) % 400 == 0)
  }

  function DaysInYear(year: int): int {
    if IsLeap(year) then 366 else 365
  }

  /** Length of a month, from the calendar and not from the cumulative table. */
  function DaysInMonth(year: int, mon: int): int {
    if mon == 1 then (if IsLeap(year) then 29 else 28)
    else if mon == 3 || mon == 5 || mon == 8 || mon == 10 then 30
    else 31
  }

  /** Days of the year before the given month. */
  function MonthStart(year: int, mon: int): int
    requires 0 <= mon < 12
  {
    DAYS_BEFORE_MONTH[mon] + if mon > 1 && IsLeap(year) then 1 else 0
  }

  datatype Fields = Fields(year: int, mon: int, mday: int, hour: int, min: int, sec: int)

  /** A Gregorian date and time of day from 1970 on. */
  predicate Valid(f: Fields) {
    && 70 <= f.year
    && 0 <= f.mon < 12
    && 1 <= f.mday <= DaysInMonth(f.year, f.mon)
    && 0 <= f.hour < 24
    && 0 <= f.min < 60
    && 0 <= f.sec < 60
  }

  function YearDay(f: Fields): int
    requires 0 <= f.mon < 12
  {
    f.mday - 1 + MonthStart(f.year, f.mon)
  }

  function SecondOfDay(f: Fields): int {
    f.sec + f.min * SEC_IN_MINUTE + f.hour * SEC_IN_HOUR
  }

  /** Days from 1 January 1970 to 1 January of a year, year by year. */
  function DaysBefore(year: int): int
    decreases year - 70
  {
    if year <= 70 then 0 else DaysBefore(year - 1) + DaysInYear(year - 1)
  }

  /** Seconds from the start of 1970 to a date. */
  function EpochSeconds(f: Fields): int
    requires 0 <= f.mon < 12
  {
    SecondOfDay(f) + (YearDay(f) + DaysBefore(f.year)) * SEC_IN_DAY
  }

  /** Days before 1 January of a year, by the closed form of POSIX. */
  function PosixDaysBefore(year: int): int {
    (year - 70) * 365 + (year - 69) / 4 - (year - 1) / 100 + (year + 299) / 400
  }

  /** Seconds since the Epoch, by the closed form of POSIX. */
  function PosixSeconds(f: Fields): int
    requires 0 <= f.mon < 12
  {
    SecondOfDay(f) + (YearDay(f) + PosixDaysBefore(f.year)) * SEC_IN_DAY
  }

  /** Lexicographic order of dates. */
  predicate Before(a: Fields, b: Fields) {
    || a.year < b.year
    || (a.year == b.year &&
       (|| a.mon < b.mon
        || (a.mon == b.mon &&
           (|| a.mday < b.mday
            || (a.mday == b.mday &&
               (|| a.hour < b.hour
                || (a.hour == b.hour &&
                   (|| a.min < b.min
                    || (a.min == b.min && a.sec < b.sec)))))))))
  }

  /** One second later, with carries through minute, hour, day, month and year. */
  function Tick(f: Fields): Fields {
    if f.sec < 59 then f.(sec := f.sec + 1)
    else if f.min < 59 then f.(sec := 0, min := f.min + 1)
    else if f.hour < 23 then f.(sec := 0, min := 0, hour := f.hour + 1)
    else if f.mday < DaysInMonth(f.year, f.mon) then f.(sec := 0, min := 0, hour := 0, mday := f.mday + 1)
    else if f.mon < 11 then f.(sec := 0, min := 0, hour := 0, mday := 1, mon := f.mon + 1)
    else Fields(f.year + 1, 0, 1, 0, 0, 0)
  }

  // ---------- The closed form ----------

  lemma Step4(x: int)
    ensures (x + 1) / 4 == x / 4 + if (x + 1) % 4 == 0 then 1 else 0
  {
  }

  lemma Step100(x: int)
    ensures (x + 1) / 100 == x / 100 + if (x + 1) % 100 == 0 then 1 else 0
  {
  }

  lemma Step400(x: int)
    ensures (x + 1) / 400 == x / 400 + if (x + 1) % 400 == 0 then 1 else 0
  {
  }

  lemma Shift4(x: int)
    ensures (x + 400) / 4 == x / 4 + 100 && (x + 400) % 4 == x % 4
  {
  }

  lemma Shift100(x: int)
    ensures (x + 400) / 100 == x / 100 + 4 && (x + 400) % 100 == x % 100
  {
  }

  lemma Shift400(x: int)
    ensures (x + 400) / 400 == x / 400 + 1 && (x + 400) % 400 == x % 400
  {
  }

  lemma Same4(year: int)
    ensures (year - 68) % 4 == 0 <==> year % 4 == 0
  {
    assert year - 68 == 4 * (year / 4 - 17) + year % 4;
  }

  lemma Same400(year: int)
    ensures (year + 300) % 400 == 0 <==> (year + 1900) % 400 == 0
  {
    assert year + 1900 == 400 * ((year + 300) / 400 + 4) + (year + 300) % 400;
  }

  lemma CenturyIsFourth(year: int)
    ensures year % 100 == 0 ==> year % 4 == 0
  {
    assert year == 4 * (25 * (year / 100)) + year % 100;
  }

  lemma FourthCenturyIsCentury(year: int)
    ensures (year + 1900) % 400 == 0 ==> year % 100 == 0
  {
    assert year == 100 * (4 * ((year + 1900) / 400) - 19) + (year + 1900) % 400;
  }

  /** One year of the closed form is one year of the leap rule. */
  lemma PosixYearStep(year: int)
    ensures PosixDaysBefore(year + 1) == PosixDaysBefore(year) + DaysInYear(year)
  {
    Step4(year - 69);
    Step100(year - 1);
    Step400(year + 299);
    Same4(year);
    Same400(year);
    CenturyIsFourth(year);
    FourthCenturyIsCentury(year);
  }

  /** Counting year by year refines the closed form of POSIX, before any truncation. */
  lemma {:induction false} LoopIsClosedForm(year: int)
    requires 70 <= year
    ensures DaysBefore(year) == PosixDaysBefore(year)
    decreases year
  {
    if year > 70 {
      LoopIsClosedForm(year - 1);
      PosixYearStep(year - 1);
    }
  }

  /** So the second count of every date from 1970 on is the closed form's. */
  lemma SecondsAreClosedForm(f: Fields)
    requires 70 <= f.year && 0 <= f.mon < 12
    ensures EpochSeconds(f) == PosixSeconds(f)
  {
    LoopIsClosedForm(f.year);
  }

  /** Shifting by 400 years adds 146097 days and changes no leap year. */
  lemma Period400(year: int)
    requires 70 <= year
    ensures DaysBefore(year + 400) == DaysBefore(year) + 146097
    ensures IsLeap(year + 400) == IsLeap(year)
  {
    LoopIsClosedForm(year);
    LoopIsClosedForm(year + 400);
    Shift4(year - 69);
    Shift100(year - 1);
    Shift400(year + 299);
    Shift4(year);
    Shift100(year);
    Shift400(year + 1900);
  }

  predicate GregorianLeap(printed: int) {
    printed % 4 == 0 && (printed % 100 != 0 || printed % 400 == 0)
  }

  function MonthLengths(printed: int): seq<int> {
    [31, if GregorianLeap(printed) then 29 else 28, 31, 30, 31, 30, 31, 31, 30, 31, 30, 31]
  }

  function Sum(s: seq<int>): int {
    if s == [] then 0 else Sum(s[..|s| - 1]) + s[|s| - 1]
  }

  lemma LeapAsPrinted(year: int)
    ensures IsLeap(year) <==> GregorianLeap(year + 1900)
  {
    assert year + 1900 == 4 * (year / 4 + 475) + year % 4;
    assert year + 1900 == 100 * (year / 100 + 19) + year % 100;
  }

  /** Months have their Gregorian lengths by the printed year, and the cumulative
      table with its leap correction is their running sum. */
  lemma {:induction false} MonthsAddUp(year: int, mon: int)
    requires 0 <= mon < 12
    ensures DaysInMonth(year, mon) == MonthLengths(year + 1900)[mon]
    ensures MonthStart(year, mon) == Sum(MonthLengths(year + 1900)[..mon])
    decreases mon
  {
    LeapAsPrinted(year);
    if mon > 0 {
      MonthsAddUp(year, mon - 1);
      MonthsInOrder(year, mon - 1, mon);
      var lengths := MonthLengths(year + 1900);
      assert lengths[..mon][..mon - 1] == lengths[..mon - 1];
    }
  }

  // ---------- Order of dates ----------

  lemma {:induction false} YearsMonotone(a: int, b: int)
    requires 70 <= a < b
    ensures DaysBefore(a) + DaysInYear(a) <= DaysBefore(b)
    decreases b
  {
    if a + 1 < b {
      YearsMonotone(a, b - 1);
    }
  }

  lemma MonthsInOrder(year: int, a: int, b: int)
    requires 0 <= a < b < 12
    ensures MonthStart(year, a) + DaysInMonth(year, a) <= MonthStart(year, b)
    ensures b == a + 1 ==> MonthStart(year, a) + DaysInMonth(year, a) == MonthStart(year, b)
  {
  }

  lemma YearDayBounds(f: Fields)
    requires Valid(f)
    ensures 0 <= YearDay(f) < DaysInYear(f.year)
    ensures 0 <= SecondOfDay(f) < SEC_IN_DAY
  {
    if f.mon < 11 {
      MonthsInOrder(f.year, f.mon, 11);
    }
  }

  /** The second count orders dates as the fields do. */
  lemma SecondsMonotone(a: Fields, b: Fields)
    requires Valid(a) && Valid(b) && Before(a, b)
    ensures EpochSeconds(a) < EpochSeconds(b)
  {
    YearDayBounds(a);
    YearDayBounds(b);
    if a.year < b.year {
      YearsMonotone(a.year, b.year);
    } else if a.mon < b.mon {
      MonthsInOrder(a.year, a.mon, b.mon);
    }
  }

  /** A second count names at most one valid date. */
  lemma SecondsInjective(a: Fields, b: Fields)
    requires Valid(a) && Valid(b) && EpochSeconds(a) == EpochSeconds(b)
    ensures a == b
  {
    if Before(a, b) {
      SecondsMonotone(a, b);
    } else if Before(b, a) {
      SecondsMonotone(b, a);
    }
  }

  /** One tick of the odometer is one second more. */
  lemma TickAddsOne(f: Fields)
    requires Valid(f)
    ensures Valid(Tick(f)) && EpochSeconds(Tick(f)) == EpochSeconds(f) + 1
  {
    if f.sec == 59 && f.min == 59 && f.hour == 23 && f.mday == DaysInMonth(f.year, f.mon) {
      if f.mon < 11 {
        MonthsInOrder(f.year, f.mon, f.mon + 1);
      }
    }
  }

  lemma {:induction false} DateExists(t: nat)
    ensures exists f :: Valid(f) && EpochSeconds(f) == t
  {
    if t == 0 {
      assert Valid(Fields(70, 0, 1, 0, 0, 0)) && EpochSeconds(Fields(70, 0, 1, 0, 0, 0)) == 0;
    } else {
      DateExists(t - 1);
      var f :| Valid(f) && EpochSeconds(f) == t - 1;
      TickAddsOne(f);
    }
  }

  /** The date of second t: the one valid date whose count is t. */
  ghost function FieldsAt(t: nat): (f: Fields)
    ensures Valid(f) && EpochSeconds(f) == t
  {
    DateExists(t);
    var f :| Valid(f) && EpochSeconds(f) == t;
    f
  }

  // ---------- The source's two conversions ----------

  /** struct tm: the fields this code reads and writes. */
  class Tm {
    var year: int
    var mon: int
    var mday: int
    var hour: int
    var min: int
    var sec: int

    constructor (f: Fields)
      ensures Get() == f
    {
      year, mon, mday, hour, min, sec := f.year, f.mon, f.mday, f.hour, f.min, f.sec;
    }

    function Get(): Fields
      reads this
    {
      Fields(year, mon, mday, hour, min, sec)
    }
  }

  /** The result is 32 bits wide and both additions wrap. The source indexes its
      month table with tm_mon and accepts any other value in any other field. */
  method MakeTime(tm: Tm) returns (tim: int)
    requires 0 <= tm.mon < 12
    ensures 0 <= tim < TWO_32
    ensures 70 <= tm.year ==> tim == PosixSeconds(tm.Get()) % TWO_32 == EpochSeconds(tm.Get()) % TWO_32
    ensures tm.year < 70 ==> tim == (SecondOfDay(tm.Get()) + YearDay(tm.Get()) * SEC_IN_DAY) % TWO_32
  {
    var inDay := tm.sec + tm.min * SEC_IN_MINUTE + tm.hour * SEC_IN_HOUR;
    tim := inDay % TWO_32;
    var days := tm.mday - 1 + DAYS_BEFORE_MONTH[tm.mon];
    if tm.mon > 1 && DaysInYear(tm.year) == 366 {
      days := days + 1;
    }
    ghost var inYear := days;
    if tm.year > 70 {
      var year := 70;
      while year < tm.year
        invariant 70 <= year <= tm.year
        invariant days == inYear + DaysBefore(year)
      {
        days := days + DaysInYear(year);
        year := year + 1;
      }
    }
    if 70 <= tm.year {
      SecondsAreClosedForm(tm.Get());
    }
    WrappedSum(inDay, days * SEC_IN_DAY);
    tim := (tim + days * SEC_IN_DAY) % TWO_32;
  }

  lemma WrappedSum(a: int, b: int)
    ensures (a % TWO_32 + b) % TWO_32 == (a + b) % TWO_32
  {
  }

  /** The month of a day of a year that has no leap day: the last month starting
      on or before it. */
  method FindMonth(day: int) returns (mon: int)
    requires 0 <= day < 365
    ensures 0 <= mon < 12
    ensures DAYS_BEFORE_MONTH[mon] <= day
    ensures mon < 11 ==> day < DAYS_BEFORE_MONTH[mon + 1]
  {
    mon := 0;
    while mon < 11 && day >= DAYS_BEFORE_MONTH[mon + 1]
      invariant 0 <= mon < 12 && DAYS_BEFORE_MONTH[mon] <= day
    {
      mon := mon + 1;
    }
  }

  /** Month and day of the month, pretending that the leap day is not there. */
  method FindDay(year: int, yday: int) returns (mon: int, mday: int)
    requires 0 <= yday < DaysInYear(year)
    ensures 0 <= mon < 12 && 1 <= mday <= DaysInMonth(year, mon)
    ensures mday - 1 + MonthStart(year, mon) == yday
  {
    var daysInYear := yday;
    if DaysInYear(year) == 366 {
      if daysInYear == DAYS_BEFORE_MONTH[2] {
        mon := 1;
      } else {
        if daysInYear > DAYS_BEFORE_MONTH[2] {
          daysInYear := daysInYear - 1;
        }
        mon := FindMonth(daysInYear);
      }
    } else {
      mon := FindMonth(daysInYear);
    }
    mday := daysInYear - DAYS_BEFORE_MONTH[mon] + 1;
  }

  method LocalTime(time: nat, tm: Tm)
    modifies tm
    ensures tm.Get() == FieldsAt(time) && PosixSeconds(tm.Get()) == time
  {
    var ticksInDay := time % SEC_IN_DAY;
    tm.year := 70;
    var daysInYear := time / SEC_IN_DAY;
    while daysInYear >= DaysInYear(tm.year)
      invariant 70 <= tm.year && 0 <= daysInYear
      invariant daysInYear + DaysBefore(tm.year) == time / SEC_IN_DAY
      decreases daysInYear
    {
      daysInYear := daysInYear - DaysInYear(tm.year);
      tm.year := tm.year + 1;
    }
    var mon, mday := FindDay(tm.year, daysInYear);
    tm.mon, tm.mday := mon, mday;
    tm.hour := ticksInDay / SEC_IN_HOUR;
    var ticksInHour := ticksInDay % SEC_IN_HOUR;
    tm.min := ticksInHour / SEC_IN_MINUTE;
    tm.sec := ticksInHour % SEC_IN_MINUTE;
    DateOfParts(time, tm.Get());
    SecondsAreClosedForm(tm.Get());
  }

  /** A valid date with the right day number and time of day is the date of t. */
  lemma DateOfParts(t: nat, f: Fields)
    requires Valid(f)
    requires YearDay(f) + DaysBefore(f.year) == t / SEC_IN_DAY
    requires SecondOfDay(f) == t % SEC_IN_DAY
    ensures f == FieldsAt(t)
  {
    SecondsInjective(f, FieldsAt(t));
  }

  // ---------- Laws of the conversions ----------

  /** Odometer: the next second is one tick of the fields. */
  lemma Odometer(t: nat)
    ensures FieldsAt(t + 1) == Tick(FieldsAt(t))
  {
    TickAddsOne(FieldsAt(t));
    SecondsInjective(FieldsAt(t + 1), Tick(FieldsAt(t)));
  }

  /** Later seconds are later dates, and conversely. */
  lemma OrderPreserved(t: nat, u: nat)
    ensures t < u <==> Before(FieldsAt(t), FieldsAt(u))
  {
    if Before(FieldsAt(t), FieldsAt(u)) {
      SecondsMonotone(FieldsAt(t), FieldsAt(u));
    } else if Before(FieldsAt(u), FieldsAt(t)) {
      SecondsMonotone(FieldsAt(u), FieldsAt(t));
    }
  }

  lemma ShiftedYear(f: Fields)
    requires Valid(f)
    ensures var g := f.(year := f.year + 400);
      Valid(g) && EpochSeconds(g) == EpochSeconds(f) + 146097 * SEC_IN_DAY
  {
    Period400(f.year);
  }

  /** Gregorian period: 146097 days later only the year differs, by 400. */
  lemma GregorianPeriod(t: nat)
    ensures FieldsAt(t + 146097 * SEC_IN_DAY) == FieldsAt(t).(year := FieldsAt(t).year + 400)
  {
    ShiftedYear(FieldsAt(t));
    var f := FieldsAt(t);
    SecondsInjective(FieldsAt(t + 146097 * SEC_IN_DAY), f.(year := f.year + 400));
  }

  /** The last second a 32-bit count can name. */
  const LAST: Fields := Fields(206, 1, 7, 6, 28, 15)

  const END_OF_2107: Fields := Fields(207, 11, 31, 23, 59, 59)

  lemma Landmarks()
    ensures Valid(LAST) && EpochSeconds(LAST) == TWO_32 - 1
    ensures Valid(END_OF_2107) && EpochSeconds(END_OF_2107) < 2 * TWO_32
  {
    SecondsAreClosedForm(LAST);
    SecondsAreClosedForm(END_OF_2107);
  }

  lemma SecondsNotNegative(f: Fields)
    requires Valid(f)
    ensures 0 <= EpochSeconds(f)
  {
    YearDayBounds(f);
    if 70 < f.year {
      YearsMonotone(70, f.year);
    }
  }

  /** The count survives truncation exactly up to 2106-02-07 06:28:15, and every
      later date through the end of 2107 comes out smaller by exactly 2^32. */
  lemma ExactBound(f: Fields)
    requires Valid(f)
    ensures EpochSeconds(f) % TWO_32 == EpochSeconds(f) <==> !Before(LAST, f)
    ensures Before(LAST, f) && f.year <= 207 ==> EpochSeconds(f) % TWO_32 == EpochSeconds(f) - TWO_32
  {
    Landmarks();
    SecondsNotNegative(f);
    if Before(LAST, f) {
      SecondsMonotone(LAST, f);
      if Before(f, END_OF_2107) {
        SecondsMonotone(f, END_OF_2107);
      }
    } else if f != LAST {
      SecondsMonotone(f, LAST);
    }
  }

  /** Every valid date is the date of its own second: with the two laws above, the
      seconds from 0 on and the dates from 1970 on are in order-preserving
      one-to-one correspondence. */
  lemma EveryDateHasItsSecond(f: Fields)
    requires Valid(f)
    ensures 0 <= EpochSeconds(f) && FieldsAt(EpochSeconds(f)) == f
  {
    SecondsNotNegative(f);
    SecondsInjective(FieldsAt(EpochSeconds(f)), f);
  }

  /** Fields to seconds to fields returns the same fields exactly when the date is
      not past the last 32-bit second. */
  lemma FieldsRoundTrip(f: Fields)
    requires Valid(f)
    ensures FieldsAt(EpochSeconds(f) % TWO_32) == f <==> !Before(LAST, f)
  {
    ExactBound(f);
    EveryDateHasItsSecond(f);
  }

  /** ofc_time_local_time followed by ofc_time_make_time. */
  method ThroughFields(t: nat) returns (u: int)
    ensures u == t % TWO_32
  {
    var tm := new Tm(Fields(0, 0, 0, 0, 0, 0));
    LocalTime(t, tm);
    u := MakeTime(tm);
  }

  /** ofc_time_make_time followed by ofc_time_local_time. */
  method ThroughSeconds(f: Fields) returns (g: Fields)
    requires Valid(f)
    ensures g == f <==> !Before(LAST, f)
  {
    var tm := new Tm(f);
    var t := MakeTime(tm);
    FieldsRoundTrip(f);
    LocalTime(t, tm);
    g := tm.Get();
  }

  // ---------- DOS dates ----------

  /** The elements of a FAT date and time: month from 1, year as printed. */
  datatype DosElements = DosElements(mon: int, day: int, year: int, hour: int, min: int, sec: int)

  function ToDos(f: Fields): DosElements {
    DosElements(f.mon + 1, f.mday, f.year + 1900, f.hour, f.min, f.sec)
  }

  function FromDos(e: DosElements): Fields {
    Fields(e.year - 1900, e.mon - 1, e.day, e.hour, e.min, e.sec)
  }

  /** The calendar part of ofc_dos_date_time_to_file_time_impl. */
  method DosToSeconds(e: DosElements) returns (seconds: int)
    requires 1 <= e.mon <= 12
    ensures 0 <= seconds < TWO_32
    ensures 1970 <= e.year ==> seconds == EpochSeconds(FromDos(e)) % TWO_32
    ensures
      var inDay := e.sec + e.min * 60 + e.hour * 3600;
      var inYear := e.day - 1 + MonthStart(e.year - 1900, e.mon - 1);
      var before := if e.year < 1970 then 0
        else (e.year - 1970) * 365 + (e.year - 1969) / 4 - (e.year - 1901) / 100 + (e.year - 1601) / 400;
      seconds == (inDay + (inYear + before) * 86400) % 0x1_0000_0000
  {
    var tm := new Tm(FromDos(e));
    seconds := MakeTime(tm);
  }

  /** The calendar part of ofc_file_time_to_dos_date_time_impl. */
  method SecondsToDos(seconds: nat) returns (e: DosElements)
    ensures FromDos(e) == FieldsAt(seconds)
    ensures 1970 <= e.year && 1 <= e.mon <= 12 && 1 <= e.day <= DaysInMonth(e.year - 1900, e.mon - 1)
    ensures 0 <= e.hour < 24 && 0 <= e.min < 60 && 0 <= e.sec < 60
    ensures
      var inDay := e.sec + e.min * 60 + e.hour * 3600;
      var inYear := e.day - 1 + MonthStart(e.year - 1900, e.mon - 1);
      var before := (e.year - 1970) * 365 + (e.year - 1969) / 4 - (e.year - 1901) / 100 + (e.year - 1601) / 400;
      seconds == inDay + (inYear + before) * 86400
  {
    var tm := new Tm(Fields(0, 0, 0, 0, 0, 0));
    LocalTime(seconds, tm);
    e := ToDos(tm.Get());
  }

  /** A FAT date, 1980 through 2107, survives the trip to seconds and back exactly up
      to 2106-02-07 06:28:15; a later one comes back as the date 2^32 seconds before. */
  method DosRoundTrip(e: DosElements) returns (back: DosElements)
    requires Valid(FromDos(e)) && 1980 <= e.year <= 2107
    ensures back == e <==> !Before(LAST, FromDos(e))
    ensures Before(LAST, FromDos(e)) ==> Valid(FromDos(back)) && EpochSeconds(FromDos(back)) == EpochSeconds(FromDos(e)) - TWO_32
  {
    var seconds := DosToSeconds(e);
    back := SecondsToDos(seconds);
    FieldsRoundTrip(FromDos(e));
    ExactBound(FromDos(e));
    assert back == e <==> FromDos(back) == FromDos(e);
  }
}
