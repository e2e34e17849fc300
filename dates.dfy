/**
 * The part of System.DateTime the core uses, at the granularity of days: the proleptic
 * Gregorian calendar from 0001-01-01 to 9999-12-31, DateTime.AddDays for whole days, and the
 * custom formats "yyyyMMdd" and "yyyy-MM-dd".
 */
module Dates {
  import opened Wrappers
  import opened Text

  datatype Date = Date(year: int, month: int, day: int)

  predicate IsLeapYear(y: int) { y % 4 == 0 && (y % 100 != 0 || y % 400 == 0) }

  function DaysInMonth(y: int, m: int): int
    requires 1 <= m <= 12
  {
    if m == 2 then (if IsLeapYear(y) then 29 else 28)
    else if m == 4 || m == 6 || m == 9 || m == 11 then 30
    else 31
  }

  /** The arguments for which `new DateTime(year, month, day)` does not throw. */
  predicate ValidDate(d: Date) {
    1 <= d.year <= 9999 && 1 <= d.month <= 12 && 1 <= d.day <= DaysInMonth(d.year, d.month)
  }

  /** A DateTime at midnight. */
  type Day = d: Date | ValidDate(d) witness Date(1, 1, 1)

  const MinDay: Day := Date(1, 1, 1)
  const MaxDay: Day := Date(9999, 12, 31)

  /** Calendar order: year, then month, then day. */
  predicate DayLe(a: Date, b: Date) {
    a.year < b.year || (a.year == b.year && (a.month < b.month || (a.month == b.month && a.day <= b.day)))
  }

  // ----- day numbers -----

  /** The days of the year before the first of month m. */
  function DaysBeforeMonth(y: int, m: int): int
    requires 1 <= m <= 12
  {
    var common :=
      if m == 1 then 0 else if m == 2 then 31 else if m == 3 then 59 else if m == 4 then 90
      else if m == 5 then 120 else if m == 6 then 151 else if m == 7 then 181 else if m == 8 then 212
      else if m == 9 then 243 else if m == 10 then 273 else if m == 11 then 304 else 334;
    common + (if m > 2 && IsLeapYear(y) then 1 else 0)
  }

  /** The day number of January 1 of year y. */
  function YearStart(y: int): int {
    var p := y - 1;
    365 * p + p / 4 - p / 100 + p / 400
  }

  /** Days since 0001-01-01, that is DateTime.Ticks divided by TimeSpan.TicksPerDay. */
  function DayNumber(d: Date): int
    requires 1 <= d.month <= 12
  {
    YearStart(d.year) + DaysBeforeMonth(d.year, d.month) + d.day - 1
  }

  /** The day number of 9999-12-31, DateTime.MaxValue's day: 3652059 days in all. */
  const MaxDayNumber: int := 3652058

  lemma MaxDayNumberValue()
    ensures DayNumber(MaxDay) == MaxDayNumber
  {
  }

  lemma DivStep(y: int)
    requires y >= 1
    ensures y / 4 - (y - 1) / 4 == (if y % 4 == 0 then 1 else 0)
    ensures y / 100 - (y - 1) / 100 == (if y % 100 == 0 then 1 else 0)
    ensures y / 400 - (y - 1) / 400 == (if y % 400 == 0 then 1 else 0)
  {
  }

  /** A multiple of 400 is one of 100, and a multiple of 100 one of 4. */
  lemma DivisorChain(y: int)
    ensures y % 400 == 0 ==> y % 100 == 0
    ensures y % 100 == 0 ==> y % 4 == 0
  {
    var a, b, c := y / 400, y / 100, y / 4;
    assert y == 400 * a + y % 400 && y == 100 * b + y % 100 && y == 4 * c + y % 4;
    if y % 400 == 0 {
      assert y % 100 == 100 * (4 * a - b);
    }
    if y % 100 == 0 {
      assert y % 4 == 4 * (25 * b - c);
    }
  }

  /** A year has 365 days, or 366 in a leap year. */
  lemma YearStartStep(y: int)
    requires y >= 1
    ensures YearStart(y + 1) == YearStart(y) + 365 + (if IsLeapYear(y) then 1 else 0)
  {
    DivStep(y);
    DivisorChain(y);
    var p := y - 1;
    assert YearStart(y) == 365 * p + p / 4 - p / 100 + p / 400;
    assert YearStart(y + 1) == 365 * y + y / 4 - y / 100 + y / 400;
  }

  lemma {:induction false} YearStartMonotone(y: int, z: int)
    requires 1 <= y <= z
    ensures YearStart(y) + 365 * (z - y) <= YearStart(z)
    decreases z - y
  {
    if y < z {
      YearStartStep(y);
      YearStartMonotone(y + 1, z);
    }
  }

  /** The days of the year before d. */
  function DayOfYear(d: Date): int
    requires 1 <= d.month <= 12
  {
    DaysBeforeMonth(d.year, d.month) + d.day - 1
  }

  /** A month ends no later than any later month starts. */
  lemma MonthsInOrder(y: int, m: int, n: int)
    requires 1 <= m < n <= 12
    ensures DaysBeforeMonth(y, m) + DaysInMonth(y, m) <= DaysBeforeMonth(y, n)
  {
  }

  /** A day of the year lies in 0 .. 364, or 365 in a leap year, with the ends at January 1 and December 31. */
  lemma DayOfYearRange(d: Day)
    ensures 0 <= DayOfYear(d) < 365 + (if IsLeapYear(d.year) then 1 else 0)
    ensures DayOfYear(d) == 0 <==> d.month == 1 && d.day == 1
    ensures DayOfYear(d) == 364 + (if IsLeapYear(d.year) then 1 else 0) <==> d.month == 12 && d.day == 31
  {
    if d.month < 12 { MonthsInOrder(d.year, d.month, 12); }
  }

  /** The day numbers of DateTime's range are 0 .. MaxDayNumber, with the ends at the end days. */
  lemma DayNumberRange(d: Day)
    ensures 0 <= DayNumber(d) <= MaxDayNumber
    ensures DayNumber(d) == 0 <==> d == MinDay
    ensures DayNumber(d) == MaxDayNumber <==> d == MaxDay
  {
    DayOfYearRange(d);
    assert DayNumber(d) == YearStart(d.year) + DayOfYear(d);
    assert MaxDayNumber == YearStart(9999) + 364;
    if d.year >= 2 {
      YearStartStep(1);
      YearStartMonotone(2, d.year);
    }
    if d.year < 9999 {
      YearStartStep(d.year);
      YearStartMonotone(d.year + 1, 9999);
    }
  }

  /** Every day of an earlier year comes before every day of a later one. */
  lemma DayNumberYearOrder(x: Day, z: Day)
    requires x.year < z.year
    ensures DayNumber(x) < DayNumber(z)
  {
    DayOfYearRange(x);
    DayOfYearRange(z);
    assert DayNumber(x) == YearStart(x.year) + DayOfYear(x);
    assert DayNumber(z) == YearStart(z.year) + DayOfYear(z);
    YearStartStep(x.year);
    YearStartMonotone(x.year + 1, z.year);
  }

  // ----- stepping and AddDays -----

  function NextDay(d: Day): (e: Day)
    requires d != MaxDay
  {
    if d.day < DaysInMonth(d.year, d.month) then Date(d.year, d.month, d.day + 1)
    else if d.month < 12 then Date(d.year, d.month + 1, 1)
    else Date(d.year + 1, 1, 1)
  }

  function PrevDay(d: Day): (e: Day)
    requires d != MinDay
  {
    if d.day > 1 then Date(d.year, d.month, d.day - 1)
    else if d.month > 1 then Date(d.year, d.month - 1, DaysInMonth(d.year, d.month - 1))
    else Date(d.year - 1, 12, 31)
  }

  lemma NextDayNumber(d: Day)
    requires d != MaxDay
    ensures DayNumber(NextDay(d)) == DayNumber(d) + 1
  {
    if d.day == DaysInMonth(d.year, d.month) && d.month == 12 {
      YearStartStep(d.year);
    }
  }

  lemma PrevDayNumber(d: Day)
    requires d != MinDay
    ensures DayNumber(PrevDay(d)) == DayNumber(d) - 1
  {
    var e := PrevDay(d);
    if e == MaxDay {
      DayNumberRange(d);
    } else {
      assert NextDay(e) == d;
      NextDayNumber(e);
    }
  }

  /** The day with day number k: the k-th day after 0001-01-01. */
  function FromDayNumber(k: int): (d: Day)
    requires 0 <= k <= MaxDayNumber
    ensures DayNumber(d) == k
    decreases k
  {
    if k == 0 then MinDay
    else
      var p := FromDayNumber(k - 1);
      DayNumberRange(p);
      NextDayNumber(p);
      NextDay(p)
  }

  /** Two days with the same day number are the same day. */
  lemma DayNumberInjective(a: Day, b: Day)
    requires DayNumber(a) == DayNumber(b)
    ensures a == b
  {
    if a.year < b.year {
      DayNumberYearOrder(a, b);
    } else if b.year < a.year {
      DayNumberYearOrder(b, a);
    } else if a.month < b.month {
      MonthsInOrder(a.year, a.month, b.month);
    } else if b.month < a.month {
      MonthsInOrder(a.year, b.month, a.month);
    }
  }

  /** Day numbers and days are in one-to-one correspondence. */
  lemma FromDayNumberRoundTrip(d: Day)
    ensures 0 <= DayNumber(d) <= MaxDayNumber && FromDayNumber(DayNumber(d)) == d
  {
    DayNumberRange(d);
    DayNumberInjective(FromDayNumber(DayNumber(d)), d);
  }

  /**
   * DateTime.AddDays(n) for a whole number of days n: the ticks move by n days, and the result
   * is None where it would leave the DateTime range, where DateTime throws
   * ArgumentOutOfRangeException.
   */
  function AddDays(d: Day, n: int): Option<Day> {
    var k := DayNumber(d) + n;
    if 0 <= k <= MaxDayNumber then Some(FromDayNumber(k)) else None
  }

  /** AddDays moves the day number by exactly n, and fails exactly when that leaves the range. */
  lemma AddDaysNumber(d: Day, n: int)
    ensures AddDays(d, n).Some? <==> 0 <= DayNumber(d) + n <= MaxDayNumber
    ensures AddDays(d, n).Some? ==> DayNumber(AddDays(d, n).value) == DayNumber(d) + n
  {
  }

  /** AddDays gives the day whose number is n more, and that is the only day it can give. */
  lemma AddDaysTo(d: Day, n: int, e: Day)
    requires DayNumber(e) == DayNumber(d) + n
    ensures AddDays(d, n) == Some(e)
  {
    DayNumberRange(e);
    AddDaysNumber(d, n);
    DayNumberInjective(AddDays(d, n).value, e);
  }

  /** Adding one day is the calendar's next day, and fails only on the last day. */
  lemma AddOneDay(d: Day)
    ensures d != MaxDay ==> AddDays(d, 1) == Some(NextDay(d))
    ensures AddDays(d, 1).None? <==> d == MaxDay
  {
    DayNumberRange(d);
    if d != MaxDay {
      NextDayNumber(d);
      AddDaysTo(d, 1, NextDay(d));
    }
  }

  /** Taking one day away is the calendar's previous day, and fails only on the first day. */
  lemma SubtractOneDay(d: Day)
    ensures d != MinDay ==> AddDays(d, -1) == Some(PrevDay(d))
    ensures AddDays(d, -1).None? <==> d == MinDay
  {
    DayNumberRange(d);
    if d != MinDay {
      PrevDayNumber(d);
      AddDaysTo(d, -1, PrevDay(d));
    }
  }

  /** Moving by m days and then by n days is moving by m + n days, when the first move stays in range. */
  lemma AddDaysCompose(d: Day, m: int, n: int)
    requires AddDays(d, m).Some?
    ensures AddDays(AddDays(d, m).value, n) == AddDays(d, m + n)
  {
    var e := AddDays(d, m).value;
    AddDaysNumber(d, m);
    AddDaysNumber(e, n);
    AddDaysNumber(d, m + n);
    if AddDays(d, m + n).Some? {
      AddDaysTo(e, n, AddDays(d, m + n).value);
    }
  }

  /** DateTime's ArgumentOutOfRangeException, the one way the date code of the core can throw. */
  datatype DateError = ArgumentOutOfRange

  /** The fields of an 8-character string at offsets 0, 4 and 6, each read with int.TryParse. */
  function DateFields(s: string): Option<Date>
    requires |s| == 8
  {
    var y, m, d := TryParseInteger(s[..4]), TryParseInteger(s[4..6]), TryParseInteger(s[6..]);
    if y.Some? && m.Some? && d.Some? then Some(Date(y.value, m.value, d.value)) else None
  }

  /** `new DateTime(year, month, day)` inside a try/catch that turns the exception into null; see ToDaySpec. */
  function ToDay(d: Date): Option<Day> {
    if ValidDate(d) then Some(d) else None
  }

  /**
   * Which dates the constructor accepts, by the month table: every month has days 1..28, all
   * but February have 29 and 30, the seven long months have 31, and February 29 exists in
   * the Gregorian leap years only.
   */
  lemma ToDaySpec(y: int, m: int, d: int)
    ensures ToDay(Date(y, m, d)).Some? <==>
      1 <= y <= 9999 && 1 <= m <= 12 && 1 <= d
      && (d <= 28
          || (d <= 30 && m != 2)
          || (d == 31 && (m == 1 || m == 3 || m == 5 || m == 7 || m == 8 || m == 10 || m == 12))
          || (d == 29 && m == 2 && ((y % 4 == 0 && y % 100 != 0) || y % 400 == 0)))
    ensures ToDay(Date(y, m, d)).Some? ==> ToDay(Date(y, m, d)).value == Date(y, m, d)
  {
  }

  // ----- formatting -----

  /** A number below 100 as two digits, zero-padded. */
  function Pad2(n: int): (s: string)
    requires 0 <= n < 100
    ensures |s| == 2 && AllDigits(s)
  {
    [DigitChar(n / 10), DigitChar(n % 10)]
  }

  /** A number below 10000 as four digits, zero-padded. */
  function Pad4(n: int): (s: string)
    requires 0 <= n < 10000
    ensures |s| == 4 && AllDigits(s)
  {
    Pad2(n / 100) + Pad2(n % 100)
  }

  /** date.ToString("yyyyMMdd") in the Gregorian calendar. */
  function CompactDate(d: Day): (s: string)
    ensures |s| == 8 && AllDigits(s)
  {
    Pad4(d.year) + Pad2(d.month) + Pad2(d.day)
  }

  /** date.ToString("yyyy-MM-dd") in the Gregorian calendar. */
  function IsoDate(d: Day): string {
    Pad4(d.year) + "-" + Pad2(d.month) + "-" + Pad2(d.day)
  }

  lemma Pad2Value(n: int)
    requires 0 <= n < 100
    ensures DigitsValue(Pad2(n)) == n
  {
    var s := Pad2(n);
    assert s == [s[0]] + [s[1]];
    DigitsValueSnoc([], s[0]);
    DigitsValueSnoc([s[0]], s[1]);
  }

  lemma Pad4Value(n: int)
    requires 0 <= n < 10000
    ensures DigitsValue(Pad4(n)) == n
  {
    var hi, lo := Pad2(n / 100), Pad2(n % 100);
    Pad2Value(n / 100);
    DigitsValueSnoc(hi, lo[0]);
    assert hi + lo == (hi + [lo[0]]) + [lo[1]];
    DigitsValueSnoc(hi + [lo[0]], lo[1]);
    Pad2Value(n % 100);
    assert lo[..1] == [lo[0]];
    assert [lo[0]][..0] == [];
  }

  /** The fields of "yyyyMMdd" read back as the year, the month and the day. */
  lemma CompactDateFields(d: Day)
    ensures var s := CompactDate(d);
      DigitsValue(s[..4]) == d.year && DigitsValue(s[4..6]) == d.month && DigitsValue(s[6..]) == d.day
  {
    var s := CompactDate(d);
    assert s[..4] == Pad4(d.year);
    assert s[4..6] == Pad2(d.month);
    assert s[6..] == Pad2(d.day);
    Pad4Value(d.year);
    Pad2Value(d.month);
    Pad2Value(d.day);
  }

  /** "yyyy-MM-dd" is ten characters: zero-padded digit fields separated by dashes. */
  lemma IsoDateShape(d: Day)
    ensures var s := IsoDate(d);
      |s| == 10 && s[4] == '-' && s[7] == '-'
      && AllDigits(s[..4]) && AllDigits(s[5..7]) && AllDigits(s[8..])
      && DigitsValue(s[..4]) == d.year && DigitsValue(s[5..7]) == d.month && DigitsValue(s[8..]) == d.day
  {
    var s := IsoDate(d);
    assert s[..4] == Pad4(d.year);
    assert s[5..7] == Pad2(d.month);
    assert s[8..] == Pad2(d.day);
    Pad4Value(d.year);
    Pad2Value(d.month);
    Pad2Value(d.day);
  }

  lemma Pad2Order(a: int, b: int)
    requires 0 <= a < 100 && 0 <= b < 100
    ensures OrdinalLe(Pad2(a), Pad2(b)) <==> a <= b
    ensures Pad2(a) == Pad2(b) <==> a == b
  {
    var x, y := Pad2(a), Pad2(b);
    assert x == [x[0]] + [x[1]] && y == [y[0]] + [y[1]];
    OrdinalLeConcat([x[0]], [x[1]], [y[0]], [y[1]]);
    assert OrdinalLe([x[1]], [y[1]]) <==> x[1] <= y[1] by {
      assert [x[1]][1..] == [] && [y[1]][1..] == [];
    }
    assert OrdinalLe([x[0]], [y[0]]) <==> x[0] <= y[0] by {
      assert [x[0]][1..] == [] && [y[0]][1..] == [];
    }
  }

  lemma Pad4Order(a: int, b: int)
    requires 0 <= a < 10000 && 0 <= b < 10000
    ensures OrdinalLe(Pad4(a), Pad4(b)) <==> a <= b
    ensures Pad4(a) == Pad4(b) <==> a == b
  {
    OrdinalLeConcat(Pad2(a / 100), Pad2(a % 100), Pad2(b / 100), Pad2(b % 100));
    Pad2Order(a / 100, b / 100);
    Pad2Order(a % 100, b % 100);
    if Pad4(a) == Pad4(b) {
      assert Pad4(a)[..2] == Pad2(a / 100) && Pad4(b)[..2] == Pad2(b / 100);
      assert Pad4(a)[2..] == Pad2(a % 100) && Pad4(b)[2..] == Pad2(b % 100);
    }
  }

  /**
   * Ordinal order of the "yyyyMMdd" strings is calendar order. Every DateTime year has four
   * digits, so this holds for every pair of days.
   */
  lemma CompactDateOrder(a: Day, b: Day)
    ensures OrdinalLe(CompactDate(a), CompactDate(b)) <==> DayLe(a, b)
  {
    assert CompactDate(a) == Pad4(a.year) + (Pad2(a.month) + Pad2(a.day));
    assert CompactDate(b) == Pad4(b.year) + (Pad2(b.month) + Pad2(b.day));
    OrdinalLeConcat(Pad4(a.year), Pad2(a.month) + Pad2(a.day), Pad4(b.year), Pad2(b.month) + Pad2(b.day));
    OrdinalLeConcat(Pad2(a.month), Pad2(a.day), Pad2(b.month), Pad2(b.day));
    Pad4Order(a.year, b.year);
    Pad2Order(a.month, b.month);
    Pad2Order(a.day, b.day);
  }

  /** Distinct days have distinct "yyyyMMdd" strings. */
  lemma CompactDateInjective(a: Day, b: Day)
    requires CompactDate(a) == CompactDate(b)
    ensures a == b
  {
    CompactDateFields(a);
    CompactDateFields(b);
  }

  /** Eight digits read field by field: int.TryParse never fails on them. */
  lemma DateFieldsOfDigits(s: string)
    requires |s| == 8 && AllDigits(s)
    ensures DateFields(s) == Some(Date(DigitsValue(s[..4]), DigitsValue(s[4..6]), DigitsValue(s[6..])))
  {
    TryParseDigits(s[..4]);
    TryParseDigits(s[4..6]);
    TryParseDigits(s[6..]);
  }

  /** Reading the fields of "yyyyMMdd" gives back the day that was written. */
  lemma CompactDateRoundTrip(d: Day)
    ensures DateFields(CompactDate(d)) == Some(d)
    ensures ToDay(DateFields(CompactDate(d)).value) == Some(d)
  {
    DateFieldsOfDigits(CompactDate(d));
    CompactDateFields(d);
  }
}
