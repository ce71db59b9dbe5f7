/** Dates, instants and the two fixed-width text patterns the logs use:
    `YY-MM-DD` for day folders and `DD-MM-YY HH:MM:SS` for timestamps. */
module Calendar {
  import opened Common

  /** An instant, in whole nanoseconds since 0001-01-01 00:00:00 of the
      proleptic Gregorian calendar (pandas keeps nanoseconds too). */
  type Time = int

  const NanosPerSecond: int := 1_000_000_000
  const SecondsPerDay: int := 86_400
  const NanosPerDay: int := SecondsPerDay * NanosPerSecond

  datatype Date = Date(year: int, month: int, day: int)
  datatype DateTime = DateTime(date: Date, hour: int, minute: int, second: int)

  predicate IsLeapYear(y: int)
  {
    y % 4 == 0 && (y % 100 != 0 || y % 400 == 0)
  }

  function DaysInYear(y: int): int
  {
    if IsLeapYear(y) then 366 else 365
  }

  function DaysInMonth(y: int, m: int): int
    requires 1 <= m <= 12
  {
    if m == 2 then (if IsLeapYear(y) then 29 else 28)
    else if m == 4 || m == 6 || m == 9 || m == 11 then 30
    else 31
  }

  /** A day that exists in the calendar, in a year a two-digit `%y` can
      name (00..68 is 2000..2068, 69..99 is 1969..1999). */
  predicate ValidDate(d: Date)
  {
    1969 <= d.year <= 2068 && 1 <= d.month <= 12 && 1 <= d.day <= DaysInMonth(d.year, d.month)
  }

  predicate ValidDateTime(t: DateTime)
  {
    ValidDate(t.date) && 0 <= t.hour < 24 && 0 <= t.minute < 60 && 0 <= t.second < 60
  }

  /** Days from 0001-01-01 to the first of January of year `y`. */
  function DaysBeforeYear(y: int): int
    requires y >= 1
  {
    var p := y - 1;
    365 * p + p / 4 - p / 100 + p / 400
  }

  /** Days from the first of January to the first of month `m`. */
  function DaysBeforeMonth(y: int, m: int): int
    requires 1 <= m <= 12
  {
    var common := [0, 31, 59, 90, 120, 151, 181, 212, 243, 273, 304, 334];
    common[m - 1] + (if m > 2 && IsLeapYear(y) then 1 else 0)
  }

  function DayNumber(d: Date): int
    requires ValidDate(d)
  {
    DaysBeforeYear(d.year) + DaysBeforeMonth(d.year, d.month) + (d.day - 1)
  }

  function SecondOfDay(t: DateTime): int
  {
    t.hour * 3600 + t.minute * 60 + t.second
  }

  /** The instant a valid calendar date and wall-clock time denote. */
  function TimeOf(t: DateTime): Time
    requires ValidDateTime(t)
  {
    (DayNumber(t.date) * SecondsPerDay + SecondOfDay(t)) * NanosPerSecond
  }

  // ---------------------------------------------------------------------
  // Chronological order

  /** Lexicographic order on (year, month, day). */
  predicate DateBefore(a: Date, b: Date)
  {
    a.year < b.year || (a.year == b.year && (a.month < b.month || (a.month == b.month && a.day < b.day)))
  }

  /** Lexicographic order on (date, hour, minute, second). */
  predicate DateTimeBefore(a: DateTime, b: DateTime)
  {
    DateBefore(a.date, b.date)
    || (a.date == b.date && (a.hour < b.hour || (a.hour == b.hour
        && (a.minute < b.minute || (a.minute == b.minute && a.second < b.second)))))
  }

  lemma YearStep(y: int)
    requires y >= 1
    ensures DaysBeforeYear(y + 1) == DaysBeforeYear(y) + DaysInYear(y)
  {
    var p := y - 1;
    Quotients(p);
    var d4, d100, d400 := y / 4 - p / 4, y / 100 - p / 100, y / 400 - p / 400;
    assert DaysBeforeYear(y + 1) - DaysBeforeYear(y) == 365 + d4 - d100 + d400;
    if y % 400 == 0 {
      assert y % 100 == 0 && y % 4 == 0;
      assert d4 == 1 && d100 == 1 && d400 == 1;
    } else if y % 100 == 0 {
      assert y % 4 == 0;
      assert d4 == 1 && d100 == 1 && d400 == 0;
    } else if y % 4 == 0 {
      assert d4 == 1 && d100 == 0 && d400 == 0;
    } else {
      assert d4 == 0 && d100 == 0 && d400 == 0;
    }
  }

  /** Counting one year further: each of the quotients of the leap-year
      rule grows exactly when the next year is a multiple of its divisor. */
  lemma Quotients(p: int)
    requires p >= 0
    ensures (p + 1) / 4 == p / 4 + (if (p + 1) % 4 == 0 then 1 else 0)
    ensures (p + 1) / 100 == p / 100 + (if (p + 1) % 100 == 0 then 1 else 0)
    ensures (p + 1) / 400 == p / 400 + (if (p + 1) % 400 == 0 then 1 else 0)
  {
  }

  lemma {:induction false} YearsIncrease(y1: int, y2: int)
    requires 1 <= y1 < y2
    ensures DaysBeforeYear(y1) + DaysInYear(y1) <= DaysBeforeYear(y2)
    decreases y2 - y1
  {
    YearStep(y1);
    if y1 + 1 < y2 {
      YearsIncrease(y1 + 1, y2);
    }
  }

  lemma MonthsIncrease(y: int, m1: int, m2: int)
    requires 1 <= m1 < m2 <= 12
    ensures DaysBeforeMonth(y, m1) + DaysInMonth(y, m1) <= DaysBeforeMonth(y, m2)
  {
  }

  lemma DayInYear(d: Date)
    requires ValidDate(d)
    ensures 0 <= DaysBeforeMonth(d.year, d.month) + (d.day - 1) < DaysInYear(d.year)
  {
  }

  /** Later calendar days have larger day numbers. */
  lemma DayNumberMonotone(a: Date, b: Date)
    requires ValidDate(a) && ValidDate(b) && DateBefore(a, b)
    ensures DayNumber(a) < DayNumber(b)
  {
    DayInYear(a);
    DayInYear(b);
    if a.year < b.year {
      YearsIncrease(a.year, b.year);
    } else if a.month < b.month {
      MonthsIncrease(a.year, a.month, b.month);
    }
  }

  /** Later wall-clock readings denote later instants. */
  lemma TimeOfMonotone(a: DateTime, b: DateTime)
    requires ValidDateTime(a) && ValidDateTime(b) && DateTimeBefore(a, b)
    ensures TimeOf(a) < TimeOf(b)
  {
    assert 0 <= SecondOfDay(a) < SecondsPerDay && 0 <= SecondOfDay(b) < SecondsPerDay;
    if DateBefore(a.date, b.date) {
      DayNumberMonotone(a.date, b.date);
    }
  }

  // ---------------------------------------------------------------------
  // Fixed-width text

  function DigitValue(c: char): Option<int>
  {
    if '0' <= c <= '9' then Some(c as int - '0' as int) else None
  }

  function DigitChar(n: int): char
    requires 0 <= n < 10
  {
    ('0' as int + n) as char
  }

  /** Exactly two decimal digits. */
  function TwoDigits(a: char, b: char): Option<int>
  {
    match (DigitValue(a), DigitValue(b))
    case (Some(x), Some(y)) => Some(10 * x + y)
    case _ => None
  }

  function Pad2(n: int): string
    requires 0 <= n < 100
  {
    [DigitChar(n / 10), DigitChar(n % 10)]
  }

  lemma TwoDigitsPad2(n: int)
    requires 0 <= n < 100
    ensures TwoDigits(Pad2(n)[0], Pad2(n)[1]) == Some(n)
  {
  }

  lemma Pad2TwoDigits(a: char, b: char)
    requires TwoDigits(a, b).Some?
    ensures 0 <= TwoDigits(a, b).value < 100 && Pad2(TwoDigits(a, b).value) == [a, b]
  {
  }

  /** Three two-digit numbers with a separator between them, as in
      `YY-MM-DD` or `HH:MM:SS`. */
  function Triple(x: int, y: int, z: int, sep: char): string
    requires 0 <= x < 100 && 0 <= y < 100 && 0 <= z < 100
  {
    Pad2(x) + [sep] + Pad2(y) + [sep] + Pad2(z)
  }

  /** The fields of a triple read back as its numbers. */
  lemma TripleFields(x: int, y: int, z: int, sep: char)
    requires 0 <= x < 100 && 0 <= y < 100 && 0 <= z < 100
    ensures var s := Triple(x, y, z, sep);
      && |s| == 8 && s[2] == sep && s[5] == sep
      && TwoDigits(s[0], s[1]) == Some(x) && TwoDigits(s[3], s[4]) == Some(y) && TwoDigits(s[6], s[7]) == Some(z)
  {
    var s := Triple(x, y, z, sep);
    TwoDigitsPad2(x);
    TwoDigitsPad2(y);
    TwoDigitsPad2(z);
    assert s[0] == Pad2(x)[0] && s[1] == Pad2(x)[1];
    assert s[3] == Pad2(y)[0] && s[4] == Pad2(y)[1];
    assert s[6] == Pad2(z)[0] && s[7] == Pad2(z)[1];
  }

  /** Eight characters with two-digit fields around two separators are the
      triple of those fields. */
  lemma FieldsTriple(s: string, sep: char)
    requires |s| == 8 && s[2] == sep && s[5] == sep
    requires TwoDigits(s[0], s[1]).Some? && TwoDigits(s[3], s[4]).Some? && TwoDigits(s[6], s[7]).Some?
    ensures Triple(TwoDigits(s[0], s[1]).value, TwoDigits(s[3], s[4]).value, TwoDigits(s[6], s[7]).value, sep) == s
  {
    Pad2TwoDigits(s[0], s[1]);
    Pad2TwoDigits(s[3], s[4]);
    Pad2TwoDigits(s[6], s[7]);
    assert s == [s[0], s[1]] + [sep] + [s[3], s[4]] + [sep] + [s[6], s[7]];
  }

  /** `%y`: 00..68 is 2000..2068 and 69..99 is 1969..1999. */
  function FullYear(yy: int): int
  {
    if yy <= 68 then 2000 + yy else 1900 + yy
  }

  /** The years a valid date can have are named by their last two digits. */
  lemma FullYearOfYear(y: int)
    requires 1969 <= y <= 2068
    ensures 0 <= y % 100 < 100 && FullYear(y % 100) == y
  {
  }

  lemma YearOfFullYear(yy: int)
    requires 0 <= yy < 100
    ensures FullYear(yy) % 100 == yy
  {
  }

  /** Strict `%y-%m-%d`: eight characters, a real calendar day. */
  function ParseDate(s: string): (r: Option<Date>)
    ensures r.Some? ==> ValidDate(r.value)
  {
    if |s| != 8 || s[2] != '-' || s[5] != '-' then None
    else
      match (TwoDigits(s[0], s[1]), TwoDigits(s[3], s[4]), TwoDigits(s[6], s[7]))
      case (Some(yy), Some(mm), Some(dd)) =>
        var d := Date(FullYear(yy), mm, dd);
        if ValidDate(d) then Some(d) else None
      case _ => None
  }

  function FormatDate(d: Date): string
    requires ValidDate(d)
  {
    Triple(d.year % 100, d.month, d.day, '-')
  }

  /** Every valid day is named by its `YY-MM-DD` text. */
  lemma ParseFormatDate(d: Date)
    requires ValidDate(d)
    ensures ParseDate(FormatDate(d)) == Some(d)
  {
    TripleFields(d.year % 100, d.month, d.day, '-');
    FullYearOfYear(d.year);
    assert Date(FullYear(d.year % 100), d.month, d.day) == d;
  }

  /** Parsing is strict: a text that parses is the canonical text of its
      day, so two different names never denote the same day. */
  lemma FormatParseDate(s: string)
    requires ParseDate(s).Some?
    ensures FormatDate(ParseDate(s).value) == s
  {
    var yy, mm, dd := TwoDigits(s[0], s[1]).value, TwoDigits(s[3], s[4]).value, TwoDigits(s[6], s[7]).value;
    assert ParseDate(s).value == Date(FullYear(yy), mm, dd);
    YearOfFullYear(yy);
    FieldsTriple(s, '-');
  }

  /** Strict `%d-%m-%y`, the date half of a log timestamp. */
  function ParseDayMonthYear(s: string): (r: Option<Date>)
    ensures r.Some? ==> ValidDate(r.value)
  {
    if |s| != 8 || s[2] != '-' || s[5] != '-' then None
    else
      match (TwoDigits(s[0], s[1]), TwoDigits(s[3], s[4]), TwoDigits(s[6], s[7]))
      case (Some(dd), Some(mm), Some(yy)) =>
        var d := Date(FullYear(yy), mm, dd);
        if ValidDate(d) then Some(d) else None
      case _ => None
  }

  function FormatDayMonthYear(d: Date): string
    requires ValidDate(d)
  {
    Triple(d.day, d.month, d.year % 100, '-')
  }

  /** Strict `%H:%M:%S`, the time half of a log timestamp, as seconds
      since midnight. */
  function ParseClock(s: string): (r: Option<(int, int, int)>)
    ensures r.Some? ==> 0 <= r.value.0 < 24 && 0 <= r.value.1 < 60 && 0 <= r.value.2 < 60
  {
    if |s| != 8 || s[2] != ':' || s[5] != ':' then None
    else
      match (TwoDigits(s[0], s[1]), TwoDigits(s[3], s[4]), TwoDigits(s[6], s[7]))
      case (Some(hh), Some(mi), Some(ss)) =>
        if hh < 24 && mi < 60 && ss < 60 then Some((hh, mi, ss)) else None
      case _ => None
  }

  function FormatClock(h: int, m: int, s: int): string
    requires 0 <= h < 24 && 0 <= m < 60 && 0 <= s < 60
  {
    Triple(h, m, s, ':')
  }

  /** Strict `%d-%m-%y %H:%M:%S`: seventeen characters, a real day, a
      time of day with hours below 24 and minutes and seconds below 60. */
  function ParseDateTime(s: string): (r: Option<DateTime>)
    ensures r.Some? ==> ValidDateTime(r.value)
  {
    if |s| != 17 || s[8] != ' ' then None
    else
      match (ParseDayMonthYear(s[..8]), ParseClock(s[9..]))
      case (Some(d), Some((h, m, sec))) => Some(DateTime(d, h, m, sec))
      case _ => None
  }

  function FormatDateTime(t: DateTime): string
    requires ValidDateTime(t)
  {
    FormatDayMonthYear(t.date) + " " + FormatClock(t.hour, t.minute, t.second)
  }

  lemma ParseFormatDayMonthYear(d: Date)
    requires ValidDate(d)
    ensures ParseDayMonthYear(FormatDayMonthYear(d)) == Some(d)
  {
    TripleFields(d.day, d.month, d.year % 100, '-');
    FullYearOfYear(d.year);
    assert Date(FullYear(d.year % 100), d.month, d.day) == d;
  }

  lemma FormatParseDayMonthYear(s: string)
    requires ParseDayMonthYear(s).Some?
    ensures FormatDayMonthYear(ParseDayMonthYear(s).value) == s
  {
    var dd, mm, yy := TwoDigits(s[0], s[1]).value, TwoDigits(s[3], s[4]).value, TwoDigits(s[6], s[7]).value;
    assert ParseDayMonthYear(s).value == Date(FullYear(yy), mm, dd);
    YearOfFullYear(yy);
    FieldsTriple(s, '-');
  }

  lemma ParseFormatClock(h: int, m: int, sec: int)
    requires 0 <= h < 24 && 0 <= m < 60 && 0 <= sec < 60
    ensures ParseClock(FormatClock(h, m, sec)) == Some((h, m, sec))
  {
    TripleFields(h, m, sec, ':');
  }

  lemma FormatParseClock(s: string)
    requires ParseClock(s).Some?
    ensures var c := ParseClock(s).value; FormatClock(c.0, c.1, c.2) == s
  {
    FieldsTriple(s, ':');
  }

  /** Every valid date and time is read back from its text. */
  lemma ParseFormatDateTime(t: DateTime)
    requires ValidDateTime(t)
    ensures ParseDateTime(FormatDateTime(t)) == Some(t)
  {
    var a, b := FormatDayMonthYear(t.date), FormatClock(t.hour, t.minute, t.second);
    var s := FormatDateTime(t);
    assert s[..8] == a && s[9..] == b;
    ParseFormatDayMonthYear(t.date);
    ParseFormatClock(t.hour, t.minute, t.second);
  }

  /** Parsing is strict: a timestamp text that parses is the canonical
      text of what it denotes. */
  lemma FormatParseDateTime(s: string)
    requires ParseDateTime(s).Some?
    ensures FormatDateTime(ParseDateTime(s).value) == s
  {
    FormatParseDayMonthYear(s[..8]);
    FormatParseClock(s[9..]);
    assert s == s[..8] + " " + s[9..];
  }

  /** The log's timestamp text: seventeen characters, digits at both
      ends, and no comma or newline anywhere. */
  lemma FormatDateTimeShape(t: DateTime)
    requires ValidDateTime(t)
    ensures var s := FormatDateTime(t);
      && |s| == 17 && '0' <= s[0] <= '9' && '0' <= s[16] <= '9'
      && ',' !in s && '\n' !in s
  {
    var s := FormatDateTime(t);
    forall i | 0 <= i < 17 ensures s[i] != ',' && s[i] != '\n' {
    }
  }

  /** The two halves of a log timestamp hold only digits and their own
      separator. */
  lemma TimestampHalvesShape(t: DateTime)
    requires ValidDateTime(t)
    ensures var a, b := FormatDayMonthYear(t.date), FormatClock(t.hour, t.minute, t.second);
      && FormatDateTime(t) == a + " " + b
      && ',' !in a && ' ' !in a && '\n' !in a && ',' !in b && ' ' !in b && '\n' !in b
  {
    var a, b := FormatDayMonthYear(t.date), FormatClock(t.hour, t.minute, t.second);
    forall i | 0 <= i < 8 ensures a[i] != ',' && a[i] != ' ' && a[i] != '\n' && b[i] != ',' && b[i] != ' ' && b[i] != '\n' {
    }
  }

  /** `pd.to_datetime(text, format = "%d-%m-%y %H:%M:%S")`, strict. */
  function ParseTimestamp(s: string): Option<Time>
  {
    match ParseDateTime(s)
    case Some(t) => Some(TimeOf(t))
    case None => None
  }
}
