/** Naive calendar timestamps as Python's `datetime` has them (no time zone,
    whole seconds), the day arithmetic the engine does with `timedelta`, and
    the three fixed text formats it reads and writes. */
module Dates {
  import opened Wrappers
  import opened Text

  const MinYear := 1
  const MaxYear := 9999
  const SecondsPerDay := 86400

  predicate IsLeapYear(y: int) {
    y % 4 == 0 && (y % 100 != 0 || y % 400 == 0)
  }

  function DaysInMonth(y: int, m: int): (n: int)
    ensures 28 <= n <= 31
  {
    if m == 2 then (if IsLeapYear(y) then 29 else 28)
    else if m == 4 || m == 6 || m == 9 || m == 11 then 30
    else 31
  }

  function YearLength(y: int): int {
    if IsLeapYear(y) then 366 else 365
  }

  datatype DateTime = DateTime(year: int, month: int, day: int, hour: int, minute: int, second: int)

  /** The values Python's `datetime` constructor accepts. */
  predicate Valid(t: DateTime) {
    && MinYear <= t.year <= MaxYear
    && 1 <= t.month <= 12
    && 1 <= t.day <= DaysInMonth(t.year, t.month)
    && 0 <= t.hour < 24
    && 0 <= t.minute < 60
    && 0 <= t.second < 60
  }

  /** Python's comparison of two naive datetimes: field by field, year first. */
  predicate LessEq(a: DateTime, b: DateTime) {
    if a.year != b.year then a.year < b.year
    else if a.month != b.month then a.month < b.month
    else if a.day != b.day then a.day < b.day
    else if a.hour != b.hour then a.hour < b.hour
    else if a.minute != b.minute then a.minute < b.minute
    else a.second <= b.second
  }

  /** Midnight at the start of the first day of `t`'s month. */
  function MonthStart(t: DateTime): (r: DateTime)
    requires Valid(t)
    ensures Valid(r) && LessEq(r, t)
    ensures r.year == t.year && r.month == t.month && r.day == 1
    ensures r.hour == 0 && r.minute == 0 && r.second == 0
  {
    DateTime(t.year, t.month, 1, 0, 0, 0)
  }

  // ---------------------------------------------------------------------
  // Day ordinal and absolute instant (the arithmetic behind `timedelta`)

  function DaysBeforeYear(y: int): nat
    decreases y
  {
    if y <= MinYear then 0 else DaysBeforeYear(y - 1) + YearLength(y - 1)
  }

  function DaysBeforeMonth(y: int, m: int): nat
    decreases m
  {
    if m <= 1 then 0 else DaysBeforeMonth(y, m - 1) + DaysInMonth(y, m - 1)
  }

  /** Proleptic Gregorian ordinal: 0001-01-01 is day 1 (Python's `toordinal`). */
  function DayNumber(t: DateTime): int {
    DaysBeforeYear(t.year) + DaysBeforeMonth(t.year, t.month) + t.day
  }

  function TimeOfDay(t: DateTime): int {
    t.hour * 3600 + t.minute * 60 + t.second
  }

  /** Seconds since the start of day 0. */
  function Instant(t: DateTime): int {
    DayNumber(t) * SecondsPerDay + TimeOfDay(t)
  }

  lemma DaysBeforeMonthTotal(y: int)
    ensures DaysBeforeMonth(y, 13) == YearLength(y)
  {
    var feb := DaysInMonth(y, 2);
    assert DaysBeforeMonth(y, 2) == 31;
    assert DaysBeforeMonth(y, 3) == 31 + feb;
    assert DaysBeforeMonth(y, 4) == 62 + feb;
    assert DaysBeforeMonth(y, 5) == 92 + feb;
    assert DaysBeforeMonth(y, 6) == 123 + feb;
    assert DaysBeforeMonth(y, 7) == 153 + feb;
    assert DaysBeforeMonth(y, 8) == 184 + feb;
    assert DaysBeforeMonth(y, 9) == 215 + feb;
    assert DaysBeforeMonth(y, 10) == 245 + feb;
    assert DaysBeforeMonth(y, 11) == 276 + feb;
    assert DaysBeforeMonth(y, 12) == 306 + feb;
    assert DaysBeforeMonth(y, 13) == 337 + feb;
  }

  lemma {:induction false} DaysBeforeMonthGrows(y: int, m: int, m': int)
    requires m < m'
    ensures DaysBeforeMonth(y, m) + (if m >= 1 then DaysInMonth(y, m) else 0) <= DaysBeforeMonth(y, m')
    decreases m' - m
  {
    if m' > m + 1 {
      DaysBeforeMonthGrows(y, m, m' - 1);
    }
  }

  lemma {:induction false} DaysBeforeYearGrows(y: int, y': int)
    requires MinYear <= y < y'
    ensures DaysBeforeYear(y) + YearLength(y) <= DaysBeforeYear(y')
    decreases y' - y
  {
    if y' > y + 1 {
      DaysBeforeYearGrows(y, y' - 1);
    }
  }

  /** An earlier calendar day has a smaller ordinal. */
  lemma DayNumberOrder(a: DateTime, b: DateTime)
    requires Valid(a) && Valid(b)
    requires (a.year, a.month) == (b.year, b.month) ==> a.day < b.day
    requires a.year == b.year ==> a.month <= b.month
    requires a.year <= b.year
    ensures DayNumber(a) < DayNumber(b)
  {
    if a.year < b.year {
      DaysBeforeMonthGrows(a.year, a.month, 13);
      DaysBeforeMonthTotal(a.year);
      DaysBeforeYearGrows(a.year, b.year);
    } else if a.month < b.month {
      DaysBeforeMonthGrows(a.year, a.month, b.month);
    }
  }

  /** Python's field-by-field comparison is the order of instants. */
  lemma LessEqIsInstantOrder(a: DateTime, b: DateTime)
    requires Valid(a) && Valid(b)
    ensures LessEq(a, b) <==> Instant(a) <= Instant(b)
  {
    if (a.year, a.month, a.day) == (b.year, b.month, b.day) {
    } else if LessEq(a, b) {
      DayNumberOrder(a, b);
    } else {
      DayNumberOrder(b, a);
    }
  }

  /** Two valid moments at the same instant are the same moment, so a
      statement about an instant names one calendar day and time. */
  lemma InstantInjective(a: DateTime, b: DateTime)
    requires Valid(a) && Valid(b) && Instant(a) == Instant(b)
    ensures a == b
  {
    SameQuotient(DayNumber(a), DayNumber(b), SecondsPerDay, TimeOfDay(a), TimeOfDay(b));
    DayNumberInjective(a, b);
    SameQuotient(a.hour, b.hour, 3600, a.minute * 60 + a.second, b.minute * 60 + b.second);
    SameQuotient(a.minute, b.minute, 60, a.second, b.second);
  }

  /** A quotient and remainder by `k` are determined by the value. */
  lemma SameQuotient(x: int, y: int, k: int, r1: int, r2: int)
    requires k > 0 && 0 <= r1 < k && 0 <= r2 < k && x * k + r1 == y * k + r2
    ensures x == y && r1 == r2
  {
    if x > y {
      MulAtLeast(x - y, k);
      assert false;
    } else if y > x {
      MulAtLeast(y - x, k);
      assert false;
    }
  }

  lemma {:induction false} MulAtLeast(d: int, k: int)
    requires d >= 1 && k > 0
    ensures d * k >= k
    decreases d
  {
    if d > 1 {
      MulAtLeast(d - 1, k);
      assert d * k == (d - 1) * k + k;
    }
  }

  /** Two valid days with the same ordinal are the same calendar day. */
  lemma DayNumberInjective(a: DateTime, b: DateTime)
    requires Valid(a) && Valid(b) && DayNumber(a) == DayNumber(b)
    ensures (a.year, a.month, a.day) == (b.year, b.month, b.day)
  {
    if (a.year, a.month, a.day) != (b.year, b.month, b.day) {
      if LessEq(a, b) {
        DayNumberOrder(a, b);
      } else {
        DayNumberOrder(b, a);
      }
    }
  }

  lemma DayNumberAtLeastOne(t: DateTime)
    requires Valid(t)
    ensures DayNumber(t) >= 1
    ensures DayNumber(t) == 1 <==> (t.year, t.month, t.day) == (MinYear, 1, 1)
  {
    if t.year > MinYear {
      DaysBeforeYearGrows(MinYear, t.year);
    } else if t.month > 1 {
      DaysBeforeMonthGrows(t.year, 1, t.month);
    }
  }

  // ---------------------------------------------------------------------
  // Adding and subtracting whole days, with Python's overflow at the ends
  // of the years 1..9999

  /** `t + timedelta(days=1)`; `None` where Python raises OverflowError. */
  function AddOneDay(t: DateTime): (r: Option<DateTime>)
    requires Valid(t)
    ensures r.None? <==> (t.year, t.month, t.day) == (MaxYear, 12, 31)
    ensures r.Some? ==> Valid(r.value) && TimeOfDay(r.value) == TimeOfDay(t)
  {
    if t.day < DaysInMonth(t.year, t.month) then Some(t.(day := t.day + 1))
    else if t.month < 12 then Some(t.(month := t.month + 1, day := 1))
    else if t.year < MaxYear then Some(t.(year := t.year + 1, month := 1, day := 1))
    else None
  }

  /** The next day is exactly one day of seconds later. */
  lemma AddOneDayInstant(t: DateTime)
    requires Valid(t) && AddOneDay(t).Some?
    ensures DayNumber(AddOneDay(t).value) == DayNumber(t) + 1
    ensures Instant(AddOneDay(t).value) == Instant(t) + SecondsPerDay
  {
    if t.day == DaysInMonth(t.year, t.month) && t.month == 12 {
      DaysBeforeMonthTotal(t.year);
    }
  }

  /** `t - timedelta(days=1)`; `None` where Python raises OverflowError. */
  function SubOneDay(t: DateTime): (r: Option<DateTime>)
    requires Valid(t)
    ensures r.None? <==> (t.year, t.month, t.day) == (MinYear, 1, 1)
    ensures r.Some? ==> Valid(r.value) && TimeOfDay(r.value) == TimeOfDay(t)
  {
    if t.day > 1 then Some(t.(day := t.day - 1))
    else if t.month > 1 then Some(t.(month := t.month - 1, day := DaysInMonth(t.year, t.month - 1)))
    else if t.year > MinYear then Some(t.(year := t.year - 1, month := 12, day := 31))
    else None
  }

  lemma SubOneDayInstant(t: DateTime)
    requires Valid(t) && SubOneDay(t).Some?
    ensures DayNumber(SubOneDay(t).value) == DayNumber(t) - 1
  {
    var p := SubOneDay(t).value;
    if t.day > 1 {
      assert p == t.(day := t.day - 1);
    } else if t.month > 1 {
      assert p == t.(month := t.month - 1, day := DaysInMonth(t.year, t.month - 1));
      assert DaysBeforeMonth(t.year, t.month) == DaysBeforeMonth(t.year, t.month - 1) + DaysInMonth(t.year, t.month - 1);
    } else {
      assert p == t.(year := t.year - 1, month := 12, day := 31);
      DaysBeforeMonthTotal(t.year - 1);
      assert DaysBeforeMonth(t.year - 1, 13) == DaysBeforeMonth(t.year - 1, 12) + 31;
      assert DaysBeforeYear(t.year) == DaysBeforeYear(t.year - 1) + YearLength(t.year - 1);
    }
  }

  /** `t - timedelta(days=n)`, one day at a time. */
  function SubtractDays(t: DateTime, n: nat): (r: Option<DateTime>)
    requires Valid(t)
    ensures r.Some? ==> Valid(r.value)
    decreases n
  {
    if n == 0 then Some(t)
    else match SubOneDay(t)
      case None => None
      case Some(p) => SubtractDays(p, n - 1)
  }

  /** Subtracting `n` days fails exactly when it would pass 0001-01-01, and
      otherwise moves the instant back by `n` whole days, keeping the time. */
  lemma {:induction false} SubtractDaysInstant(t: DateTime, n: nat)
    requires Valid(t)
    ensures SubtractDays(t, n).Some? <==> DayNumber(t) > n
    ensures SubtractDays(t, n).Some? ==>
              && TimeOfDay(SubtractDays(t, n).value) == TimeOfDay(t)
              && Instant(SubtractDays(t, n).value) == Instant(t) - n * SecondsPerDay
    decreases n
  {
    DayNumberAtLeastOne(t);
    if n > 0 {
      match SubOneDay(t)
      case None =>
      case Some(p) =>
        SubOneDayInstant(t);
        SubtractDaysInstant(p, n - 1);
    }
  }

  /** Going back `day - 1` days lands on the first of the same month, at the same time. */
  lemma {:induction false} SubtractDaysWithinMonth(t: DateTime, n: nat)
    requires Valid(t) && n < t.day
    ensures SubtractDays(t, n) == Some(t.(day := t.day - n))
    decreases n
  {
    if n > 0 {
      SubtractDaysWithinMonth(t.(day := t.day - 1), n - 1);
    }
  }

  // ---------------------------------------------------------------------
  // Fixed-width text formats

  /** The datetime the parsed fields denote, when Python accepts them. */
  function Checked(year: Option<nat>, month: Option<nat>, day: Option<nat>,
                   hour: Option<nat>, minute: Option<nat>, second: Option<nat>): (r: Option<DateTime>)
    ensures r.Some? ==> Valid(r.value)
    ensures r.Some? <==>
              && year.Some? && month.Some? && day.Some? && hour.Some? && minute.Some? && second.Some?
              && Valid(DateTime(year.value, month.value, day.value, hour.value, minute.value, second.value))
    ensures r.Some? ==> r.value == DateTime(year.value, month.value, day.value, hour.value, minute.value, second.value)
  {
    if year.Some? && month.Some? && day.Some? && hour.Some? && minute.Some? && second.Some? then
      var t := DateTime(year.value, month.value, day.value, hour.value, minute.value, second.value);
      if Valid(t) then Some(t) else None
    else None
  }

  /** `strptime(s, "%d.%m.%Y %H:%M:%S")`, the format of a transaction's timestamp. */
  function ParseDateTime(s: string): (r: Option<DateTime>)
    ensures r.Some? ==> Valid(r.value) && |s| == 19
  {
    if |s| == 19 && s[2] == '.' && s[5] == '.' && s[10] == ' ' && s[13] == ':' && s[16] == ':' then
      Checked(ParseNat(s[6..10]), ParseNat(s[3..5]), ParseNat(s[0..2]),
              ParseNat(s[11..13]), ParseNat(s[14..16]), ParseNat(s[17..19]))
    else None
  }

  /** `strptime(s, "%d.%m.%Y")`: a day, at midnight. */
  function ParseDayMonthYear(s: string): (r: Option<DateTime>)
    ensures r.Some? ==> Valid(r.value) && TimeOfDay(r.value) == 0
  {
    if |s| == 10 && s[2] == '.' && s[5] == '.' then
      Checked(ParseNat(s[6..10]), ParseNat(s[3..5]), ParseNat(s[0..2]), Some(0), Some(0), Some(0))
    else None
  }

  /** `strptime(s, "%Y.%m.%d")`: a day, at midnight. */
  function ParseYearMonthDay(s: string): (r: Option<DateTime>)
    ensures r.Some? ==> Valid(r.value) && TimeOfDay(r.value) == 0
  {
    if |s| == 10 && s[4] == '.' && s[7] == '.' then
      Checked(ParseNat(s[0..4]), ParseNat(s[5..7]), ParseNat(s[8..10]), Some(0), Some(0), Some(0))
    else None
  }

  /** `t.strftime("%d.%m.%Y")`. */
  function FormatDayMonthYear(t: DateTime): (s: string)
    requires Valid(t)
    ensures |s| == 10
  {
    Padded(t.day, 2) + "." + Padded(t.month, 2) + "." + Padded(t.year, 4)
  }

  /** `t.strftime("%d.%m.%Y %H:%M:%S")`. */
  function FormatDateTime(t: DateTime): (s: string)
    requires Valid(t)
    ensures |s| == 19
  {
    FormatDayMonthYear(t) + " " + FormatClock(t)
  }

  /** `t.strftime("%H:%M:%S")`, the time-of-day half of a timestamp. */
  function FormatClock(t: DateTime): (s: string)
    requires Valid(t)
    ensures |s| == 8
  {
    Padded(t.hour, 2) + ":" + Padded(t.minute, 2) + ":" + Padded(t.second, 2)
  }

  /** Formatting then parsing a timestamp gives it back. */
  lemma ParseFormatDateTime(t: DateTime)
    requires Valid(t)
    ensures ParseDateTime(FormatDateTime(t)) == Some(t)
  {
    var s := FormatDateTime(t);
    assert s[0..2] == Padded(t.day, 2);
    assert s[3..5] == Padded(t.month, 2);
    assert s[6..10] == Padded(t.year, 4);
    assert s[11..13] == Padded(t.hour, 2);
    assert s[14..16] == Padded(t.minute, 2);
    assert s[17..19] == Padded(t.second, 2);
    ParsePadded(t.day, 2);
    ParsePadded(t.month, 2);
    ParsePadded(t.year, 4);
    ParsePadded(t.hour, 2);
    ParsePadded(t.minute, 2);
    ParsePadded(t.second, 2);
  }

  /** Every text the timestamp parser accepts is the canonical rendering of
      what it parsed to. */
  lemma FormatParsedDateTime(s: string)
    requires ParseDateTime(s).Some?
    ensures FormatDateTime(ParseDateTime(s).value) == s
  {
    FormatParsedDate(s);
    FormatParsedClock(s);
    assert s == s[..10] + [s[10]] + s[11..19];
  }

  /** The day half of `FormatParsedDateTime`. */
  lemma FormatParsedDate(s: string)
    requires ParseDateTime(s).Some?
    ensures FormatDayMonthYear(ParseDateTime(s).value) == s[..10]
  {
    var t := ParseDateTime(s).value;
    var date := s[..10];
    assert date[0..2] == s[0..2] && date[3..5] == s[3..5] && date[6..10] == s[6..10];
    assert ParseDayMonthYear(date) == Some(t.(hour := 0, minute := 0, second := 0));
    FormatParsedDayMonthYear(date);
  }

  /** The time-of-day half of `FormatParsedDateTime`. */
  lemma FormatParsedClock(s: string)
    requires ParseDateTime(s).Some?
    ensures FormatClock(ParseDateTime(s).value) == s[11..19]
  {
    PaddedDigits(s[11..13]);
    PaddedDigits(s[14..16]);
    PaddedDigits(s[17..19]);
    assert s[11..19] == s[11..13] + [s[13]] + s[14..16] + [s[16]] + s[17..19];
  }

  /** Formatting a day then parsing it gives back that day at midnight. */
  lemma ParseFormatDayMonthYear(t: DateTime)
    requires Valid(t)
    ensures ParseDayMonthYear(FormatDayMonthYear(t)) == Some(t.(hour := 0, minute := 0, second := 0))
  {
    var s := FormatDayMonthYear(t);
    assert s[0..2] == Padded(t.day, 2);
    assert s[3..5] == Padded(t.month, 2);
    assert s[6..10] == Padded(t.year, 4);
    ParsePadded(t.day, 2);
    ParsePadded(t.month, 2);
    ParsePadded(t.year, 4);
  }

  /** Every text the day-first parser accepts is the zero-padded rendering of
      the day it parsed to; no other text is accepted. */
  lemma FormatParsedDayMonthYear(s: string)
    requires ParseDayMonthYear(s).Some?
    ensures FormatDayMonthYear(ParseDayMonthYear(s).value) == s
  {
    PaddedDigits(s[0..2]);
    PaddedDigits(s[3..5]);
    PaddedDigits(s[6..10]);
    assert s == s[0..2] + [s[2]] + s[3..5] + [s[5]] + s[6..10];
  }

  /** The day a timestamp text renders to is its first ten characters. */
  lemma DayOfParsedDateTime(s: string)
    requires ParseDateTime(s).Some?
    ensures FormatDayMonthYear(ParseDateTime(s).value) == s[..10]
  {
    FormatParsedDateTime(s);
    assert FormatDateTime(ParseDateTime(s).value)[..10] == FormatDayMonthYear(ParseDateTime(s).value);
  }

  /** `t.strftime("%Y.%m.%d")`. */
  function FormatYearMonthDay(t: DateTime): (s: string)
    requires Valid(t)
    ensures |s| == 10
  {
    Padded(t.year, 4) + "." + Padded(t.month, 2) + "." + Padded(t.day, 2)
  }

  /** Formatting a day year first then parsing it gives back that day at midnight. */
  lemma ParseFormatYearMonthDay(t: DateTime)
    requires Valid(t)
    ensures ParseYearMonthDay(FormatYearMonthDay(t)) == Some(t.(hour := 0, minute := 0, second := 0))
  {
    var s := FormatYearMonthDay(t);
    assert s[0..4] == Padded(t.year, 4);
    assert s[5..7] == Padded(t.month, 2);
    assert s[8..10] == Padded(t.day, 2);
    ParsePadded(t.year, 4);
    ParsePadded(t.month, 2);
    ParsePadded(t.day, 2);
  }

  /** Every text the year-first parser accepts is the canonical rendering of
      the day it parsed to. */
  lemma FormatParsedYearMonthDay(s: string)
    requires ParseYearMonthDay(s).Some?
    ensures FormatYearMonthDay(ParseYearMonthDay(s).value) == s
  {
    PaddedDigits(s[0..4]);
    PaddedDigits(s[5..7]);
    PaddedDigits(s[8..10]);
    assert s == s[0..4] + [s[4]] + s[5..7] + [s[7]] + s[8..10];
  }

  /** A reference date must be written year first: the day-first text
      "20.05.2020" is refused, "2020.05.20" is 20 May 2020. */
  lemma YearFirstReferenceDate()
    ensures ParseYearMonthDay("20.05.2020") == None
    ensures ParseYearMonthDay("2020.05.20") == Some(DateTime(2020, 5, 20, 0, 0, 0))
  {
    var s := "2020.05.20";
    assert "20.05.2020"[4] == '5';
    assert s[0..4] == "2020" && s[5..7] == "05" && s[8..10] == "20";
    assert ParseNat("2020") == Some(2020) by {
      assert AllDigits("2020");
      assert "2020"[..3] == "202" && "202"[..2] == "20" && "20"[..1] == "2";
    }
    assert ParseNat("05") == Some(5) by {
      assert AllDigits("05");
      assert "05"[..1] == "0";
    }
    assert ParseNat("20") == Some(20) by {
      assert AllDigits("20");
      assert "20"[..1] == "2";
    }
    assert Valid(DateTime(2020, 5, 20, 0, 0, 0));
  }
}
