// Proleptic Gregorian calendar dates, their day numbers and the textual forms
// the client writes (`YYYYMMDD` for iCalendar, `YYYY-MM-DD` for date keys).
module Dates {
  import opened Text

  datatype Date = Date(year: int, month: int, day: int)

  predicate IsLeap(y: int)
  {
    y % 4 == 0 && (y % 100 != 0 || y % 400 == 0)
  }

  function DaysInMonth(y: int, m: int): (n: int)
    requires 1 <= m <= 12
    ensures 28 <= n <= 31
  {
    if m == 2 then (if IsLeap(y) then 29 else 28)
    else if m == 4 || m == 6 || m == 9 || m == 11 then 30
    else 31
  }

  /** A calendar date: a month of the year and a day of that month. */
  predicate Valid(d: Date)
  {
    d.year >= 1 && 1 <= d.month <= 12 && 1 <= d.day <= DaysInMonth(d.year, d.month)
  }

  /** A date that exists on the calendar, as every Python `date` does. */
  type CalendarDate = d: Date | Valid(d) witness Date(1, 1, 1)

  function YearLength(y: int): int
  {
    if IsLeap(y) then 366 else 365
  }

  /** Days in the months of year `y` before month `m`. */
  function DaysBeforeMonth(y: int, m: int): (n: int)
    requires 1 <= m <= 12
    ensures n >= 0
  {
    if m == 1 then 0 else DaysBeforeMonth(y, m - 1) + DaysInMonth(y, m - 1)
  }

  /** Days from 0001-01-01 to the first of January of year `y`. */
  function DaysBeforeYear(y: int): int
    requires y >= 1
  {
    365 * (y - 1) + (y - 1) / 4 - (y - 1) / 100 + (y - 1) / 400
  }

  /** The number of days since 0001-01-01; consecutive dates differ by one. */
  function DayNumber(d: Date): int
    requires Valid(d)
  {
    DaysBeforeYear(d.year) + DaysBeforeMonth(d.year, d.month) + d.day - 1
  }

  lemma DaysBeforeYearStep(y: int)
    requires y >= 1
    ensures DaysBeforeYear(y + 1) == DaysBeforeYear(y) + YearLength(y)
  {
    LeapStep(y);
    CenturyStep(y);
    QuadricentennialStep(y);
  }

  /** The count of multiples of 4 up to `y` grows exactly at a multiple of 4. */
  lemma LeapStep(y: int)
    ensures y / 4 - (y - 1) / 4 == (if y % 4 == 0 then 1 else 0)
  {
    var q, r := (y - 1) / 4, (y - 1) % 4;
    if r == 3 {
      assert y == 4 * (q + 1);
      assert y / 4 == q + 1 && y % 4 == 0;
    } else {
      assert y == 4 * q + (r + 1);
      assert y / 4 == q && y % 4 == r + 1;
    }
  }

  /** The same for 100, and every multiple of 100 is one of 4. */
  lemma CenturyStep(y: int)
    ensures y / 100 - (y - 1) / 100 == (if y % 100 == 0 then 1 else 0)
    ensures y % 100 == 0 ==> y % 4 == 0
  {
    var q, r := (y - 1) / 100, (y - 1) % 100;
    if r == 99 {
      assert y == 100 * (q + 1);
      assert y / 100 == q + 1 && y % 100 == 0;
    } else {
      assert y == 100 * q + (r + 1);
      assert y / 100 == q && y % 100 == r + 1;
    }
    MultipleOf100(y);
  }

  lemma MultipleOf100(y: int)
    ensures y % 100 == 0 ==> y % 4 == 0
  {
    if y % 100 == 0 { assert y == 4 * (25 * (y / 100)); }
  }

  /** The same for 400, and every multiple of 400 is one of 100. */
  lemma QuadricentennialStep(y: int)
    ensures y / 400 - (y - 1) / 400 == (if y % 400 == 0 then 1 else 0)
    ensures y % 400 == 0 ==> y % 100 == 0
  {
    var q, r := (y - 1) / 400, (y - 1) % 400;
    if r == 399 {
      assert y == 400 * (q + 1);
      assert y / 400 == q + 1 && y % 400 == 0;
    } else {
      assert y == 400 * q + (r + 1);
      assert y / 400 == q && y % 400 == r + 1;
    }
    MultipleOf400(y);
  }

  lemma MultipleOf400(y: int)
    ensures y % 400 == 0 ==> y % 100 == 0
  {
    if y % 400 == 0 { assert y == 100 * (4 * (y / 400)); }
  }

  lemma DaysBeforeDecember(y: int)
    ensures DaysBeforeMonth(y, 12) + DaysInMonth(y, 12) == YearLength(y)
  {
    var feb := DaysInMonth(y, 2);
    assert DaysBeforeMonth(y, 2) == 31;
    assert DaysBeforeMonth(y, 3) == 31 + feb;
    assert DaysBeforeMonth(y, 4) == 62 + feb;
    assert DaysBeforeMonth(y, 5) == 92 + feb;
    assert DaysBeforeMonth(y, 6) == 123 + feb;
    assert DaysBeforeMonth(y, 7) == 153 + feb;
    assert DaysBeforeMonth(y, 8) == 184 + feb;
    assert DaysBeforeMonth(y, 9) == 215 + feb;
    assert DaysBeforeMonth(y, 10) == 245 + feb;
    assert DaysBeforeMonth(y, 11) == 276 + feb;
    assert DaysBeforeMonth(y, 12) == 306 + feb;
  }

  /** The year `new Date(y, ...)` uses: 0..99 stand for 1900..1999. */
  function JsYear(y: int): int
  {
    if 0 <= y <= 99 then 1900 + y else y
  }

  /**
   * `new Date(y, m - 1, d)` for positive arguments: months past December roll
   * into later years and days past the end of a month into later months.
   */
  function Normalize(y: int, m: int, d: int): (r: Date)
    requires y >= 1 && m >= 1 && d >= 1
    ensures Valid(r) && r.year >= y
    decreases d, m
  {
    if m > 12 then Normalize(y + (m - 1) / 12, (m - 1) % 12 + 1, d)
    else if d > DaysInMonth(y, m) then
      (if m == 12 then Normalize(y + 1, 1, d - DaysInMonth(y, m))
       else Normalize(y, m + 1, d - DaysInMonth(y, m)))
    else Date(y, m, d)
  }

  lemma NormalizeValid(dt: Date)
    requires Valid(dt)
    ensures Normalize(dt.year, dt.month, dt.day) == dt
  {
  }

  /** The day after a date, as `new Date(y, m, d + 1)` computes it. */
  function NextDay(dt: Date): (r: Date)
    requires Valid(dt)
    ensures Valid(r)
  {
    Normalize(dt.year, dt.month, dt.day + 1)
  }

  /** The day before a date: `new Date(y, m, 0)` is the last day of the previous month. */
  function PrevDay(dt: Date): (r: Date)
    requires Valid(dt) && dt.year >= 2
    ensures Valid(r)
  {
    if dt.day > 1 then Date(dt.year, dt.month, dt.day - 1)
    else if dt.month > 1 then Date(dt.year, dt.month - 1, DaysInMonth(dt.year, dt.month - 1))
    else Date(dt.year - 1, 12, 31)
  }

  /** The day before is the one whose next day is the given date, one day number earlier. */
  lemma PrevDayNext(dt: Date)
    requires Valid(dt) && dt.year >= 2
    ensures NextDay(PrevDay(dt)) == dt
    ensures DayNumber(PrevDay(dt)) == DayNumber(dt) - 1
  {
    NextDayCases(PrevDay(dt));
    NextDayNumber(PrevDay(dt));
  }

  /** The next day: the following day of the month, else the first of the next month or year. */
  lemma NextDayCases(dt: Date)
    requires Valid(dt)
    ensures NextDay(dt) == if dt.day < DaysInMonth(dt.year, dt.month) then Date(dt.year, dt.month, dt.day + 1)
                           else if dt.month < 12 then Date(dt.year, dt.month + 1, 1)
                           else Date(dt.year + 1, 1, 1)
  {
    var y, m, d := dt.year, dt.month, dt.day;
    if d == DaysInMonth(y, m) {
      if m == 12 {
        assert Normalize(y + 1, 1, 1) == Date(y + 1, 1, 1);
      } else {
        assert Normalize(y, m + 1, 1) == Date(y, m + 1, 1);
      }
    }
  }

  /** The next day is exactly one day later. */
  lemma NextDayNumber(dt: Date)
    requires Valid(dt)
    ensures DayNumber(NextDay(dt)) == DayNumber(dt) + 1
  {
    var y, m, d := dt.year, dt.month, dt.day;
    if d == DaysInMonth(y, m) {
      if m == 12 {
        DaysBeforeYearStep(y);
        DaysBeforeDecember(y);
        assert Normalize(y + 1, 1, 1) == Date(y + 1, 1, 1);
      } else {
        assert Normalize(y, m + 1, 1) == Date(y, m + 1, 1);
      }
    }
  }

  /** Later dates have larger day numbers. */
  lemma DayNumberMonotone(a: Date, b: Date)
    requires Valid(a) && Valid(b)
    requires a.year < b.year || (a.year == b.year && (a.month < b.month || (a.month == b.month && a.day < b.day)))
    ensures DayNumber(a) < DayNumber(b)
  {
    if a.year < b.year {
      DaysBeforeMonthBound(a.year, a.month);
      DaysBeforeYearGrows(a.year, b.year);
    } else if a.month < b.month {
      DaysBeforeMonthGrows(a.year, a.month, b.month);
    }
  }

  lemma DaysBeforeMonthBound(y: int, m: int)
    requires 1 <= m <= 12
    ensures DaysBeforeMonth(y, m) + DaysInMonth(y, m) <= YearLength(y)
  {
    DaysBeforeDecember(y);
    if m < 12 {
      DaysBeforeMonthGrows(y, m, 12);
    }
  }

  lemma {:induction false} DaysBeforeMonthGrows(y: int, m: int, n: int)
    requires 1 <= m < n <= 12
    ensures DaysBeforeMonth(y, m) + DaysInMonth(y, m) <= DaysBeforeMonth(y, n)
    decreases n - m
  {
    if m + 1 < n {
      DaysBeforeMonthGrows(y, m + 1, n);
    }
  }

  lemma {:induction false} DaysBeforeYearGrows(y: int, z: int)
    requires 1 <= y < z
    ensures DaysBeforeYear(y) + YearLength(y) <= DaysBeforeYear(z)
    decreases z - y
  {
    DaysBeforeYearStep(y);
    if y + 1 < z {
      DaysBeforeYearGrows(y + 1, z);
    }
  }

  /** `YYYYMMDD`, the basic form of an iCalendar DATE value. */
  function BasicForm(dt: Date): string
    requires Valid(dt)
  {
    NatToString(dt.year) + Pad2(dt.month) + Pad2(dt.day)
  }

  /** `YYYY-MM-DD`, the key the timeline compares deadlines with. */
  function IsoForm(dt: Date): string
    requires Valid(dt)
  {
    NatToString(dt.year) + "-" + Pad2(dt.month) + "-" + Pad2(dt.day)
  }

  lemma NatToStringFourDigits(n: nat)
    requires 1000 <= n <= 9999
    ensures |NatToString(n)| == 4
  {
    assert NatToString(n) == NatToString(n / 10) + [DigitChar(n % 10)];
    assert NatToString(n / 10) == NatToString(n / 100) + [DigitChar(n / 10 % 10)];
    assert NatToString(n / 100) == NatToString(n / 1000) + [DigitChar(n / 100 % 10)];
  }

  /** For four-digit years the basic form is eight digits. */
  lemma BasicFormEightDigits(dt: Date)
    requires Valid(dt) && dt.year <= 9999 && dt.year >= 1000
    ensures |BasicForm(dt)| == 8
    ensures AllDigits(BasicForm(dt))
  {
    NatToStringFourDigits(dt.year);
    var s := BasicForm(dt);
    assert s == NatToString(dt.year) + Pad2(dt.month) + Pad2(dt.day);
  }

  /** The basic form of a four-digit-year date reads back as its year, month and day. */
  lemma BasicFormReads(dt: Date)
    requires Valid(dt) && 1000 <= dt.year <= 9999
    ensures |BasicForm(dt)| == 8 && AllDigits(BasicForm(dt))
    ensures DigitsValue(BasicForm(dt)[..4]) == dt.year
    ensures DigitsValue(BasicForm(dt)[4..6]) == dt.month
    ensures DigitsValue(BasicForm(dt)[6..8]) == dt.day
  {
    BasicFormEightDigits(dt);
    NatToStringFourDigits(dt.year);
    DigitsValueOfNatToString(dt.year);
    Pad2Value(dt.month);
    Pad2Value(dt.day);
    var s := BasicForm(dt);
    assert s[..4] == NatToString(dt.year);
    assert s[4..6] == Pad2(dt.month);
    assert s[6..8] == Pad2(dt.day);
  }

  /** Different dates have different basic forms. */
  lemma BasicFormInjective(d: Date, e: Date)
    requires Valid(d) && 1000 <= d.year <= 9999
    requires Valid(e) && 1000 <= e.year <= 9999
    requires BasicForm(d) == BasicForm(e)
    ensures d == e
  {
    BasicFormReads(d);
    BasicFormReads(e);
  }
}
