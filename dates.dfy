/**
 * JavaScript `Date` values as the filters use them: the calendar arithmetic of the
 * ECMAScript specification (section 21.4.1 of ECMA-262: DayFromYear, MakeDay, TimeClip),
 * local time with one fixed offset from UTC, `setHours(0, 0, 0, 0)`, the views' own
 * `parseLocalDate`, and `new Date("YYYY-MM-DD")`.
 */
module Dates {
  import opened Options

  const MsPerDay: int := 86400000
  /** The largest magnitude a time value may have (section 21.4.1.31 of ECMA-262). */
  const MaxTimeValue: int := 8640000000000000

  /** The time value of a `Date`: NaN (an "Invalid Date") or milliseconds since the epoch. */
  datatype Instant = Invalid | At(ms: int)

  function TimeClip(t: int): Instant {
    if -MaxTimeValue <= t <= MaxTimeValue then At(t) else Invalid
  }

  /** `a < b` on two dates: false as soon as either one is NaN. */
  predicate Before(a: Instant, b: Instant) {
    a.At? && b.At? && a.ms < b.ms
  }

  // ---------------------------------------------------------------------------------------
  // Proleptic Gregorian calendar

  predicate IsLeapYear(y: int) {
    y % 4 == 0 && (y % 100 != 0 || y % 400 == 0)
  }

  function DaysInYear(y: int): int {
    if IsLeapYear(y) then 366 else 365
  }

  /** Day number of 1 January of year `y`, counted from 1 January 1970. */
  function DayFromYear(y: int): int {
    365 * (y - 1970) + (y - 1969) / 4 - (y - 1901) / 100 + (y - 1601) / 400
  }

  function DaysInMonth(y: int, m: int): (n: int)
    requires 1 <= m <= 12
    ensures 28 <= n <= 31
  {
    if m == 2 then (if IsLeapYear(y) then 29 else 28)
    else [31, 28, 31, 30, 31, 30, 31, 31, 30, 31, 30, 31][m - 1]
  }

  /** Days of year `y` before the first of month `m`. */
  function DaysBeforeMonth(y: int, m: int): int
    requires 1 <= m <= 12
  {
    [0, 31, 59, 90, 120, 151, 181, 212, 243, 273, 304, 334][m - 1]
      + (if m > 2 && IsLeapYear(y) then 1 else 0)
  }

  predicate ValidDate(y: int, m: int, d: int) {
    1 <= m <= 12 && 1 <= d <= DaysInMonth(y, m)
  }

  /** Day number (days since 1970-01-01) of year `y`, month `m` (1-based), day `d`. */
  function DayNumber(y: int, m: int, d: int): int
    requires 1 <= m <= 12
  {
    DayFromYear(y) + DaysBeforeMonth(y, m) + d - 1
  }

  /**
   * MakeDay(year, month, date) of section 21.4.1.28 of ECMA-262: the month is 0-based and
   * may lie outside 0..11, carrying into the year; the date may run past the month's end.
   */
  function MakeDay(year: int, month: int, date: int): int {
    var ym := year + month / 12;
    var mn := month % 12;
    DayFromYear(ym) + DaysBeforeMonth(ym, mn + 1) + date - 1
  }

  /** The date that follows a valid date. */
  function NextDate(y: int, m: int, d: int): (int, int, int)
    requires ValidDate(y, m, d)
  {
    if d < DaysInMonth(y, m) then (y, m, d + 1)
    else if m < 12 then (y, m + 1, 1)
    else (y + 1, 1, 1)
  }

  /** `a` comes before `b` in calendar order. */
  predicate DateLess(a: (int, int, int), b: (int, int, int)) {
    a.0 < b.0 || (a.0 == b.0 && (a.1 < b.1 || (a.1 == b.1 && a.2 < b.2)))
  }

  lemma FloorStep4(a: int)
    ensures (a + 1) / 4 - a / 4 == if (a + 1) % 4 == 0 then 1 else 0
  {
  }

  lemma FloorStep100(a: int)
    ensures (a + 1) / 100 - a / 100 == if (a + 1) % 100 == 0 then 1 else 0
  {
  }

  lemma FloorStep400(a: int)
    ensures (a + 1) / 400 - a / 400 == if (a + 1) % 400 == 0 then 1 else 0
  {
  }

  lemma ModShift4(y: int)
    ensures (y - 1968) % 4 == y % 4
  {
    var q, r := y / 4, y % 4;
    assert y - 1968 == 4 * (q - 492) + r;
  }

  lemma ModShift100(y: int)
    ensures (y - 1900) % 100 == y % 100
  {
    var q, r := y / 100, y % 100;
    assert y - 1900 == 100 * (q - 19) + r;
  }

  lemma ModShift400(y: int)
    ensures (y - 1600) % 400 == y % 400
  {
    var q, r := y / 400, y % 400;
    assert y - 1600 == 400 * (q - 4) + r;
  }

  lemma DayFromYearStep(y: int)
    ensures DayFromYear(y + 1) == DayFromYear(y) + DaysInYear(y)
  {
    var a, b, c := y - 1969, y - 1901, y - 1601;
    assert DayFromYear(y + 1) - DayFromYear(y)
      == 365 + ((a + 1) / 4 - a / 4) - ((b + 1) / 100 - b / 100) + ((c + 1) / 400 - c / 400);
    assert (a + 1) / 4 - a / 4 == if y % 4 == 0 then 1 else 0 by {
      FloorStep4(a);
      ModShift4(y);
    }
    assert (b + 1) / 100 - b / 100 == if y % 100 == 0 then 1 else 0 by {
      FloorStep100(b);
      ModShift100(y);
    }
    assert (c + 1) / 400 - c / 400 == if y % 400 == 0 then 1 else 0 by {
      FloorStep400(c);
      ModShift400(y);
    }
    if y % 400 == 0 {
      CenturyDivides(y);
    } else if y % 100 == 0 {
      LeapDivides(y);
    }
  }

  lemma CenturyDivides(y: int)
    requires y % 400 == 0
    ensures y % 100 == 0 && y % 4 == 0
  {
    var q := y / 400;
    assert y == 100 * (4 * q);
    assert y == 4 * (100 * q);
  }

  lemma LeapDivides(y: int)
    requires y % 100 == 0
    ensures y % 4 == 0
  {
    var q := y / 100;
    assert y == 4 * (25 * q);
  }

  lemma {:induction false} DayFromYearGrows(a: int, b: int)
    requires a <= b
    ensures DayFromYear(a) + 365 * (b - a) <= DayFromYear(b)
    decreases b - a
  {
    if a < b {
      DayFromYearGrows(a, b - 1);
      DayFromYearStep(b - 1);
    }
  }

  lemma DaysBeforeMonthStep(y: int, m: int)
    requires 1 <= m < 12
    ensures DaysBeforeMonth(y, m + 1) == DaysBeforeMonth(y, m) + DaysInMonth(y, m)
  {
  }

  lemma DaysBeforeDecember(y: int)
    ensures DaysBeforeMonth(y, 12) + DaysInMonth(y, 12) == DaysInYear(y)
  {
  }

  lemma {:induction false} DaysBeforeMonthGrows(y: int, m: int, m': int)
    requires 1 <= m < m' <= 12
    ensures DaysBeforeMonth(y, m) + DaysInMonth(y, m) <= DaysBeforeMonth(y, m')
    decreases m' - m
  {
    DaysBeforeMonthStep(y, m);
    if m + 1 < m' {
      DaysBeforeMonthGrows(y, m + 1, m');
    }
  }

  /** The day of the year of a valid date lies within its year. */
  lemma DayOfYearBounds(y: int, m: int, d: int)
    requires ValidDate(y, m, d)
    ensures 0 <= DaysBeforeMonth(y, m) + d - 1 < DaysInYear(y)
  {
    if m < 12 {
      DaysBeforeMonthGrows(y, m, 12);
    }
    DaysBeforeDecember(y);
  }

  lemma DayNumberOfEpoch()
    ensures DayNumber(1970, 1, 1) == 0
  {
  }

  /** Consecutive dates have consecutive day numbers. */
  lemma DayNumberNext(y: int, m: int, d: int)
    requires ValidDate(y, m, d)
    ensures var (y', m', d') := NextDate(y, m, d);
      ValidDate(y', m', d') && DayNumber(y', m', d') == DayNumber(y, m, d) + 1
  {
    if d == DaysInMonth(y, m) {
      if m < 12 {
        DaysBeforeMonthStep(y, m);
      } else {
        DaysBeforeDecember(y);
        DayFromYearStep(y);
      }
    }
  }

  lemma DayNumberLess(a: (int, int, int), b: (int, int, int))
    requires ValidDate(a.0, a.1, a.2) && ValidDate(b.0, b.1, b.2)
    requires DateLess(a, b)
    ensures DayNumber(a.0, a.1, a.2) < DayNumber(b.0, b.1, b.2)
  {
    DayOfYearBounds(a.0, a.1, a.2);
    DayOfYearBounds(b.0, b.1, b.2);
    if a.0 < b.0 {
      DayFromYearStep(a.0);
      DayFromYearGrows(a.0 + 1, b.0);
    } else if a.1 < b.1 {
      DaysBeforeMonthGrows(a.0, a.1, b.1);
    }
  }

  /**
   * Calendar order and day-number order agree on valid dates, so distinct dates have
   * distinct day numbers.
   */
  lemma DayNumberOrder(a: (int, int, int), b: (int, int, int))
    requires ValidDate(a.0, a.1, a.2) && ValidDate(b.0, b.1, b.2)
    ensures DateLess(a, b) <==> DayNumber(a.0, a.1, a.2) < DayNumber(b.0, b.1, b.2)
    ensures a == b <==> DayNumber(a.0, a.1, a.2) == DayNumber(b.0, b.1, b.2)
  {
    if DateLess(a, b) {
      DayNumberLess(a, b);
    } else if DateLess(b, a) {
      DayNumberLess(b, a);
    }
  }

  /** With a 0-based month inside 0..11, MakeDay is the calendar's day number. */
  lemma MakeDayInRange(y: int, m: int, d: int)
    requires 1 <= m <= 12
    ensures MakeDay(y, m - 1, d) == DayNumber(y, m, d)
  {
  }

  // ---------------------------------------------------------------------------------------
  // Local time with a fixed offset `tz` (milliseconds east of UTC)

  /** Day number of the local calendar day that contains the instant `t`. */
  function LocalDay(t: int, tz: int): int {
    (t + tz) / MsPerDay
  }

  /** Local midnight starting the day that contains `t`. */
  function DayStart(t: int, tz: int): (r: int)
    ensures r <= t < r + MsPerDay
    ensures LocalDay(r, tz) == LocalDay(t, tz)
    ensures (r + tz) % MsPerDay == 0
  {
    LocalDay(t, tz) * MsPerDay - tz
  }

  /** `d.setHours(0, 0, 0, 0)` on a date whose time value is `d`. */
  function SetMidnight(d: Instant, tz: int): (r: Instant)
    ensures r.At? ==> d.At? && r.ms <= d.ms && LocalDay(r.ms, tz) == LocalDay(d.ms, tz)
  {
    if d.Invalid? then Invalid else TimeClip(DayStart(d.ms, tz))
  }

  lemma DayStartIdempotent(t: int, tz: int)
    ensures DayStart(DayStart(t, tz), tz) == DayStart(t, tz)
  {
  }

  /** Setting a date to midnight twice is setting it once. */
  lemma SetMidnightIdempotent(d: Instant, tz: int)
    ensures SetMidnight(SetMidnight(d, tz), tz) == SetMidnight(d, tz)
  {
    if d.At? {
      DayStartIdempotent(d.ms, tz);
    }
  }

  lemma DayStartMonotone(t: int, u: int, tz: int)
    requires t <= u
    ensures DayStart(t, tz) <= DayStart(u, tz)
  {
  }

  /** The midnight of a local day number `n`. */
  lemma DayStartOfMidnight(n: int, tz: int)
    ensures DayStart(n * MsPerDay - tz, tz) == n * MsPerDay - tz
    ensures LocalDay(n * MsPerDay - tz, tz) == n
  {
  }

  /** Comparing midnights compares local days. */
  lemma MidnightsCompare(t: int, n: int, tz: int)
    ensures DayStart(t, tz) < n * MsPerDay - tz <==> LocalDay(t, tz) < n
    ensures n * MsPerDay - tz < DayStart(t, tz) <==> n < LocalDay(t, tz)
  {
  }

  // ---------------------------------------------------------------------------------------
  // Parsing the `YYYY-MM-DD` strings of `<input type="date">`

  /** `s.split(sep)`: always at least one part; adjacent separators give empty parts. */
  function Split(s: string, sep: char): (parts: seq<string>)
    ensures |parts| >= 1
    decreases |s|
  {
    if s == [] then [""]
    else
      var rest := Split(s[1..], sep);
      if s[0] == sep then [""] + rest else [[s[0]] + rest[0]] + rest[1..]
  }

  /** Splitting a separator-free prefix glues it to the first part. */
  lemma {:induction false} SplitAppend(a: string, sep: char, t: string)
    requires sep !in a
    ensures Split(a + t, sep) == [a + Split(t, sep)[0]] + Split(t, sep)[1..]
    decreases |a|
  {
    if a == [] {
      var parts := Split(t, sep);
      assert a + t == t;
      assert a + parts[0] == parts[0];
      assert [parts[0]] + parts[1..] == parts;
    } else {
      var parts := Split(t, sep);
      SplitAppend(a[1..], sep, t);
      var rest := Split(a[1..] + t, sep);
      assert rest == [a[1..] + parts[0]] + parts[1..];
      assert rest[0] == a[1..] + parts[0] && rest[1..] == parts[1..];
      assert (a + t)[0] == a[0] != sep;
      assert (a + t)[1..] == a[1..] + t;
      assert Split(a + t, sep) == [[a[0]] + rest[0]] + rest[1..];
      assert [a[0]] + (a[1..] + parts[0]) == a + parts[0];
    }
  }

  lemma SplitAfterSeparator(sep: char, t: string)
    ensures Split([sep] + t, sep) == [""] + Split(t, sep)
  {
    assert ([sep] + t)[1..] == t;
  }

  predicate IsDigit(c: char) {
    '0' <= c <= '9'
  }

  predicate AllDigits(s: string) {
    forall i :: 0 <= i < |s| ==> IsDigit(s[i])
  }

  /** Decimal value of a string of digits. */
  function DigitsValue(s: string): nat
    requires AllDigits(s)
    decreases |s|
  {
    if s == [] then 0 else DigitsValue(s[..|s| - 1]) * 10 + (s[|s| - 1] as int - '0' as int)
  }

  /**
   * `Number(s)` for the strings a date input can hand over: a run of ASCII digits, the
   * empty run being 0. Every other spelling is NaN here.
   */
  function NumberOf(s: string): Option<int> {
    if AllDigits(s) then Some(DigitsValue(s)) else None
  }

  /**
   * `parseLocalDate(s)`: `const [year, month, day] = s.split('-').map(Number)` and then
   * `new Date(year, month - 1, day, 0, 0, 0, 0)`, which reads a year 0..99 as 1900..1999,
   * counts the date in local time and clips it (section 21.4.2.1 of ECMA-262).
   */
  function ParseLocalDate(s: string, tz: int): Instant {
    var parts := Split(s, '-');
    var year := NumberOf(parts[0]);
    var month := if |parts| > 1 then NumberOf(parts[1]) else None;
    var day := if |parts| > 2 then NumberOf(parts[2]) else None;
    if year.None? || month.None? || day.None? then Invalid
    else
      var yr := if 0 <= year.value <= 99 then 1900 + year.value else year.value;
      LocalMidnight(MakeDay(yr, month.value - 1, day.value), tz)
  }

  /** The time value of local midnight starting day number `n`, clipped. */
  function LocalMidnight(n: int, tz: int): Instant {
    TimeClip(n * MsPerDay - tz)
  }

  /**
   * `new Date(s)` on a date-only ISO-8601 string `YYYY-MM-DD`: UTC midnight of that date
   * (section 21.4.3.2 of ECMA-262). A month outside 01..12 or a day outside 01..31 makes
   * an Invalid Date; a day past the end of its month carries into the next one.
   */
  function ParseIsoDate(s: string): Instant {
    if |s| == 10 && s[4] == '-' && s[7] == '-'
       && AllDigits(s[..4]) && AllDigits(s[5..7]) && AllDigits(s[8..])
    then
      var y, m, d := DigitsValue(s[..4]), DigitsValue(s[5..7]), DigitsValue(s[8..]);
      if 1 <= m <= 12 && 1 <= d <= 31 then At(MakeDay(y, m - 1, d) * MsPerDay) else Invalid
    else Invalid
  }

  function DigitChar(n: int): char
    requires 0 <= n <= 9
  {
    ('0' as int + n) as char
  }

  /** A number below 10^width written with exactly `width` digits. */
  function Pad(n: nat, width: nat): (s: string)
    ensures |s| == width
    decreases width
  {
    if width == 0 then "" else Pad(n / 10, width - 1) + [DigitChar(n % 10)]
  }

  /** The valid date string `YYYY-MM-DD` of a date whose year has at most four digits. */
  function FormatDate(y: int, m: int, d: int): (s: string)
    requires 0 <= y <= 9999 && ValidDate(y, m, d)
    ensures |s| == 10
  {
    Pad(y, 4) + "-" + Pad(m, 2) + "-" + Pad(d, 2)
  }

  lemma {:induction false} PadDigits(n: nat, width: nat)
    ensures AllDigits(Pad(n, width))
    ensures '-' !in Pad(n, width)
    decreases width
  {
    if width > 0 {
      PadDigits(n / 10, width - 1);
    }
  }

  lemma DigitsValueSnoc(s: string, c: char)
    requires AllDigits(s) && IsDigit(c)
    ensures AllDigits(s + [c]) && DigitsValue(s + [c]) == DigitsValue(s) * 10 + (c as int - '0' as int)
  {
    assert (s + [c])[..|s|] == s;
  }

  lemma PadValue2(n: nat)
    requires n < 100
    ensures AllDigits(Pad(n, 2)) && DigitsValue(Pad(n, 2)) == n
  {
    PadDigits(n / 10, 1);
    DigitsValueSnoc(Pad(n / 10, 1), DigitChar(n % 10));
    DigitsValueSnoc(Pad(n / 100, 0), DigitChar(n / 10 % 10));
  }

  lemma PadValue4(n: nat)
    requires n < 10000
    ensures AllDigits(Pad(n, 4)) && DigitsValue(Pad(n, 4)) == n
  {
    var q1 := n / 10;
    var q2 := q1 / 10;
    var q3 := q2 / 10;
    PadDigits(q1, 3);
    PadDigits(q2, 2);
    PadDigits(q3, 1);
    DigitsValueSnoc(Pad(q3 / 10, 0), DigitChar(q3 % 10));
    DigitsValueSnoc(Pad(q3, 1), DigitChar(q2 % 10));
    DigitsValueSnoc(Pad(q2, 2), DigitChar(q1 % 10));
    DigitsValueSnoc(Pad(q1, 3), DigitChar(n % 10));
  }

  lemma SplitFormatted(y: int, m: int, d: int)
    requires 0 <= y <= 9999 && ValidDate(y, m, d)
    ensures Split(FormatDate(y, m, d), '-') == [Pad(y, 4), Pad(m, 2), Pad(d, 2)]
  {
    var py, pm, pd := Pad(y, 4), Pad(m, 2), Pad(d, 2);
    PadDigits(y, 4);
    PadDigits(m, 2);
    PadDigits(d, 2);
    var t1 := ['-'] + pd;
    var t2 := pm + t1;
    var t3 := ['-'] + t2;
    assert Split(pd, '-') == [pd] by {
      SplitAppend(pd, '-', "");
      assert pd + "" == pd;
    }
    assert Split(t1, '-') == ["", pd] by { SplitAfterSeparator('-', pd); }
    assert Split(t2, '-') == [pm, pd] by {
      SplitAppend(pm, '-', t1);
      assert pm + "" == pm;
    }
    assert Split(t3, '-') == ["", pm, pd] by { SplitAfterSeparator('-', t2); }
    assert Split(py + t3, '-') == [py, pm, pd] by {
      SplitAppend(py, '-', t3);
      assert py + "" == py;
    }
    assert FormatDate(y, m, d) == py + t3;
  }

  lemma DayNumberRange(y: int, m: int, d: int)
    requires 0 <= y <= 9999 && ValidDate(y, m, d)
    ensures -800000 <= DayNumber(y, m, d) <= 3000000
  {
  }

  /** The three parts of a formatted date read back as its year, month and day. */
  lemma NumbersOfFormatted(y: int, m: int, d: int)
    requires 0 <= y <= 9999 && ValidDate(y, m, d)
    ensures var parts := Split(FormatDate(y, m, d), '-');
      |parts| == 3 && NumberOf(parts[0]) == Some(y) && NumberOf(parts[1]) == Some(m)
      && NumberOf(parts[2]) == Some(d)
  {
    SplitFormatted(y, m, d);
    PadValue4(y);
    PadValue2(m);
    PadValue2(d);
  }

  /** `parseLocalDate` of a string whose parts read as `year`, `month` and `day`. */
  lemma ParseLocalDateOfNumbers(s: string, year: int, month: int, day: int, tz: int)
    requires var parts := Split(s, '-');
      |parts| == 3 && NumberOf(parts[0]) == Some(year) && NumberOf(parts[1]) == Some(month)
      && NumberOf(parts[2]) == Some(day)
    ensures ParseLocalDate(s, tz)
      == LocalMidnight(MakeDay(if 0 <= year <= 99 then 1900 + year else year, month - 1, day), tz)
  {
  }

  /** A day number of a four-digit year is a valid time value at any offset below a day. */
  lemma MidnightInRange(n: int, tz: int)
    requires -800000 <= n <= 3000000 && -MsPerDay < tz < MsPerDay
    ensures LocalMidnight(n, tz) == At(n * MsPerDay - tz)
  {
  }

  /** The same bounds for any day 1..31 of a month. */
  lemma DayNumberRangeLoose(y: int, m: int, d: int)
    requires 0 <= y <= 9999 && 1 <= m <= 12 && 1 <= d <= 31
    ensures -800000 <= DayNumber(y, m, d) <= 3000000
  {
    DayNumberRange(y, m, 1);
    assert DayNumber(y, m, d) == DayNumber(y, m, 1) + d - 1;
  }

  /**
   * `parseLocalDate` reads back the valid date string of a date with a three- or
   * four-digit year as the local midnight that starts that date.
   */
  lemma ParseLocalDateFormatted(y: int, m: int, d: int, tz: int)
    requires 100 <= y <= 9999 && ValidDate(y, m, d)
    requires -MsPerDay < tz < MsPerDay
    ensures ParseLocalDate(FormatDate(y, m, d), tz) == At(DayNumber(y, m, d) * MsPerDay - tz)
    ensures LocalDay(DayNumber(y, m, d) * MsPerDay - tz, tz) == DayNumber(y, m, d)
  {
    NumbersOfFormatted(y, m, d);
    ParseLocalDateOfNumbers(FormatDate(y, m, d), y, m, d, tz);
    MakeDayInRange(y, m, d);
    var n := DayNumber(y, m, d);
    DayNumberRange(y, m, d);
    MidnightInRange(n, tz);
    DayStartOfMidnight(n, tz);
  }

  /** A year written 0000..0099 is read as 1900..1999, as `new Date(y, m, d)` does. */
  lemma ParseLocalDateTwoDigitYear(y: int, m: int, d: int, tz: int)
    requires 0 <= y <= 99 && ValidDate(y, m, d)
    requires -MsPerDay < tz < MsPerDay
    ensures ParseLocalDate(FormatDate(y, m, d), tz) == At(DayNumber(1900 + y, m, d) * MsPerDay - tz)
  {
    var n := DayNumber(1900 + y, m, d);
    assert -800000 <= n <= 3000000 by {
      assert d <= 31;
      DayNumberRangeLoose(1900 + y, m, d);
    }
    MidnightInRange(n, tz);
    assert MakeDay(1900 + y, m - 1, d) == n by {
      MakeDayInRange(1900 + y, m, d);
    }
    assert ParseLocalDate(FormatDate(y, m, d), tz) == LocalMidnight(MakeDay(1900 + y, m - 1, d), tz) by {
      NumbersOfFormatted(y, m, d);
      ParseLocalDateOfNumbers(FormatDate(y, m, d), y, m, d, tz);
    }
  }

  /** Whatever the string, `parseLocalDate` yields a local midnight or an Invalid Date. */
  lemma ParseLocalDateIsMidnight(s: string, tz: int)
    ensures SetMidnight(ParseLocalDate(s, tz), tz) == ParseLocalDate(s, tz)
  {
    var n := ParseLocalDateDay(s, tz);
    if n.Some? {
      ClippedMidnight(n.value, tz);
    }
  }

  /** The day number `parseLocalDate` reads, when it reads one. */
  lemma ParseLocalDateDay(s: string, tz: int) returns (n: Option<int>)
    ensures n.None? ==> ParseLocalDate(s, tz) == Invalid
    ensures n.Some? ==> ParseLocalDate(s, tz) == LocalMidnight(n.value, tz)
  {
    var parts := Split(s, '-');
    var year := NumberOf(parts[0]);
    var month := if |parts| > 1 then NumberOf(parts[1]) else None;
    var day := if |parts| > 2 then NumberOf(parts[2]) else None;
    if year.Some? && month.Some? && day.Some? {
      var yr := if 0 <= year.value <= 99 then 1900 + year.value else year.value;
      n := Some(MakeDay(yr, month.value - 1, day.value));
    } else {
      n := None;
    }
  }

  /** The clipped time value of a local midnight is a local midnight or an Invalid Date. */
  lemma ClippedMidnight(n: int, tz: int)
    ensures SetMidnight(LocalMidnight(n, tz), tz) == LocalMidnight(n, tz)
  {
    DayStartOfMidnight(n, tz);
  }

  /** `new Date("YYYY-MM-DD")` on a valid date string is UTC midnight of that date. */
  lemma ParseIsoDateFormatted(y: int, m: int, d: int)
    requires 0 <= y <= 9999 && ValidDate(y, m, d)
    ensures ParseIsoDate(FormatDate(y, m, d)) == At(DayNumber(y, m, d) * MsPerDay)
  {
    FormatDateParts(y, m, d);
    PadValue4(y);
    PadValue2(m);
    PadValue2(d);
    ParseIsoDateOfParts(FormatDate(y, m, d), y, m, d);
    MakeDayInRange(y, m, d);
  }

  lemma FormatDateParts(y: int, m: int, d: int)
    requires 0 <= y <= 9999 && ValidDate(y, m, d)
    ensures var s := FormatDate(y, m, d);
      s[..4] == Pad(y, 4) && s[4] == '-' && s[5..7] == Pad(m, 2) && s[7] == '-' && s[8..] == Pad(d, 2)
  {
    var s := FormatDate(y, m, d);
    assert s == Pad(y, 4) + "-" + Pad(m, 2) + "-" + Pad(d, 2);
  }

  /** `new Date(s)` on ten characters `YYYY-MM-DD` whose digit fields read as `y`, `m` and `d`. */
  lemma ParseIsoDateOfParts(s: string, y: int, m: int, d: int)
    requires |s| == 10 && s[4] == '-' && s[7] == '-'
    requires AllDigits(s[..4]) && AllDigits(s[5..7]) && AllDigits(s[8..])
    requires DigitsValue(s[..4]) == y && DigitsValue(s[5..7]) == m && DigitsValue(s[8..]) == d
    ensures ParseIsoDate(s) == if 1 <= m <= 12 && 1 <= d <= 31 then At(MakeDay(y, m - 1, d) * MsPerDay) else Invalid
  {
  }

  /** Calibration: 1 January 2024 is day 19723 after the epoch, so its UTC midnight is 1704067200000 ms. */
  lemma DayNumberExample()
    ensures DayNumber(2024, 1, 1) == 19723
    ensures MakeDay(2024, 0, 1) * MsPerDay == 1704067200000
  {
  }

  /** Calibration: the `YYYY-MM-DD` form that `<input type="date">` yields. */
  lemma FormatExample()
    ensures FormatDate(2024, 3, 10) == "2024-03-10"
  {
  }

  /** A `Date` object: its only state is its time value, which `setHours` changes in place. */
  class JsDate {
    var time: Instant

    constructor (t: Instant)
      ensures time == t
    {
      time := t;
    }

    /** `d.setHours(0, 0, 0, 0)`. */
    method SetHoursToMidnight(tz: int)
      modifies this
      ensures time == SetMidnight(old(time), tz)
    {
      time := SetMidnight(time, tz);
    }
  }
}
