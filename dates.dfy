/**
  The `Order Date` normaliser: conversion of one value to a pandas timestamp
  under the explicit month/day/year format `%m/%d/%Y`, and the zero-padded
  formatter with the same layout that produced the sample data.

  Under that format the parser accepts exactly the strings matched in full by
  the regular expression that Python's strptime builds for it,
      (1[0-2]|0[1-9]|[1-9]) / (3[01]|[12]\d|0[1-9]|[1-9]| [1-9]) / (\d\d\d\d)
  (month, day, four-digit year), whose fields name a real day of the
  proleptic Gregorian calendar in years 1..9999 that also lies inside the
  range of a nanosecond pandas Timestamp. Anything else is an error.
*/
module Dates {
  import opened Wrappers

  datatype CalendarDate = CalendarDate(year: int, month: int, day: int)

  predicate IsLeapYear(y: int) {
    y % 4 == 0 && (y % 100 != 0 || y % 400 == 0)
  }

  function DaysInMonth(y: int, m: int): (n: int)
    requires 1 <= m <= 12
    ensures 28 <= n <= 31
    ensures n == 29 <==> m == 2 && IsLeapYear(y)
  {
    if m == 2 then (if IsLeapYear(y) then 29 else 28)
    else if m == 4 || m == 6 || m == 9 || m == 11 then 30
    else 31
  }

  /** A real day of the calendar, in the years Python's `datetime` accepts. */
  predicate IsCalendarDate(d: CalendarDate) {
    && 1 <= d.year <= 9999
    && 1 <= d.month <= 12
    && 1 <= d.day <= DaysInMonth(d.year, d.month)
  }

  type Date = d: CalendarDate | IsCalendarDate(d) witness CalendarDate(1970, 1, 1)

  /** Chronological order of days. */
  predicate Before(a: Date, b: Date) {
    || a.year < b.year
    || (a.year == b.year && a.month < b.month)
    || (a.year == b.year && a.month == b.month && a.day < b.day)
  }

  /** A number for each day that increases with the day (used as a sort key). */
  function DayOrdinal(d: Date): int {
    d.year * 372 + d.month * 31 + d.day
  }

  lemma DayOrdinalOrder(a: Date, b: Date)
    ensures Before(a, b) <==> DayOrdinal(a) < DayOrdinal(b)
    ensures a == b <==> DayOrdinal(a) == DayOrdinal(b)
  {
  }

  /** First and last day whose midnight is a nanosecond pandas Timestamp. */
  const FirstTimestampDay: Date := CalendarDate(1677, 9, 22)
  const LastTimestampDay: Date := CalendarDate(2262, 4, 11)

  predicate InTimestampRange(d: Date) {
    !Before(d, FirstTimestampDay) && !Before(LastTimestampDay, d)
  }

  // ----- Characters and numerals -----

  predicate IsDigit(c: char) {
    '0' <= c <= '9'
  }

  function DigitValue(c: char): (n: int)
    requires IsDigit(c)
    ensures 0 <= n <= 9
  {
    c as int - '0' as int
  }

  function DigitChar(n: int): (c: char)
    requires 0 <= n <= 9
    ensures IsDigit(c) && DigitValue(c) == n
  {
    ('0' as int + n) as char
  }

  predicate AllDigits(t: string) {
    forall i :: 0 <= i < |t| ==> IsDigit(t[i])
  }

  /** The number written in decimal by the digit string `t`. */
  function DecimalValue(t: string): nat
    requires AllDigits(t)
  {
    if |t| == 0 then 0 else DecimalValue(t[..|t| - 1]) * 10 + DigitValue(t[|t| - 1])
  }

  lemma DecimalValue1(t: string)
    requires |t| == 1 && AllDigits(t)
    ensures DecimalValue(t) == DigitValue(t[0])
  {
    assert t[..0] == [];
  }

  lemma DecimalValue2(t: string)
    requires |t| == 2 && AllDigits(t)
    ensures DecimalValue(t) == 10 * DigitValue(t[0]) + DigitValue(t[1])
  {
    DecimalValue1(t[..1]);
  }

  lemma DecimalValue4(t: string)
    requires |t| == 4 && AllDigits(t)
    ensures DecimalValue(t) == 1000 * DigitValue(t[0]) + 100 * DigitValue(t[1]) + 10 * DigitValue(t[2]) + DigitValue(t[3])
  {
    var t3 := t[..3];
    assert t3[..2] == t[..2];
    DecimalValue2(t[..2]);
  }

  // ----- The regular expression, alternative by alternative -----

  /** `t` is matched by (1[0-2]|0[1-9]|[1-9]) and denotes month `m`. */
  predicate MonthToken(t: string, m: int) {
    || (|t| == 2 && t[0] == '1' && '0' <= t[1] <= '2' && m == 10 + DigitValue(t[1]))
    || (|t| == 2 && t[0] == '0' && '1' <= t[1] <= '9' && m == DigitValue(t[1]))
    || (|t| == 1 && '1' <= t[0] <= '9' && m == DigitValue(t[0]))
  }

  /** `t` is matched by (3[01]|[12]\d|0[1-9]|[1-9]| [1-9]) and denotes day `d`. */
  predicate DayToken(t: string, d: int) {
    || (|t| == 2 && t[0] == '3' && '0' <= t[1] <= '1' && d == 30 + DigitValue(t[1]))
    || (|t| == 2 && '1' <= t[0] <= '2' && IsDigit(t[1]) && d == 10 * DigitValue(t[0]) + DigitValue(t[1]))
    || (|t| == 2 && t[0] == '0' && '1' <= t[1] <= '9' && d == DigitValue(t[1]))
    || (|t| == 1 && '1' <= t[0] <= '9' && d == DigitValue(t[0]))
    || (|t| == 2 && t[0] == ' ' && '1' <= t[1] <= '9' && d == DigitValue(t[1]))
  }

  /** `t` is matched by (\d\d\d\d) and denotes year `y`. */
  predicate YearToken(t: string, y: int) {
    |t| == 4 && AllDigits(t)
    && y == 1000 * DigitValue(t[0]) + 100 * DigitValue(t[1]) + 10 * DigitValue(t[2]) + DigitValue(t[3])
  }

  /** The whole string `s` is matched by the pattern, with fields `y`, `m`, `d`. */
  predicate MatchesPattern(s: string, y: int, m: int, d: int) {
    exists i, j :: 0 <= i < j < |s| && s[i] == '/' && s[j] == '/' &&
      MonthToken(s[..i], m) && DayToken(s[i + 1..j], d) && YearToken(s[j + 1..], y)
  }

  // ----- The parser -----

  datatype DateError =
    | PatternMismatch      // the text does not match %m/%d/%Y
    | NotACalendarDate     // it matches, but names no real day (02/30, year 0000)
    | OutOfTimestampRange  // a real day outside the nanosecond Timestamp range

  /** Position of the first `c` in `s`. */
  function IndexOf(s: string, c: char): (r: Option<nat>)
    ensures r.Some? ==> r.value < |s| && s[r.value] == c && c !in s[..r.value]
    ensures r.None? ==> c !in s
  {
    if |s| == 0 then None
    else if s[0] == c then Some(0)
    else match IndexOf(s[1..], c)
      case None => None
      case Some(k) =>
        assert s[..k + 1] == [s[0]] + s[1..][..k];
        Some(k + 1)
  }

  /** Month field: one or two digits with value 1..12. */
  function MonthField(t: string): Option<int> {
    if 1 <= |t| <= 2 && AllDigits(t) && 1 <= DecimalValue(t) <= 12 then Some(DecimalValue(t)) else None
  }

  /** Day field: one or two digits with value 1..31, or a space and a non-zero digit. */
  function DayField(t: string): Option<int> {
    if |t| == 2 && t[0] == ' ' && '1' <= t[1] <= '9' then Some(DigitValue(t[1]))
    else if 1 <= |t| <= 2 && AllDigits(t) && 1 <= DecimalValue(t) <= 31 then Some(DecimalValue(t))
    else None
  }

  /** Year field: exactly four digits. */
  function YearField(t: string): Option<int> {
    if |t| == 4 && AllDigits(t) then Some(DecimalValue(t)) else None
  }

  /**
    Splits at the first two slashes and reads the three fields; None when the
    text does not match the pattern. The result is (year, month, day).
  */
  function ReadFields(s: string): Option<(int, int, int)> {
    match IndexOf(s, '/')
    case None => None
    case Some(i) =>
      var rest := s[i + 1..];
      match IndexOf(rest, '/')
      case None => None
      case Some(j) =>
        var m, d, y := MonthField(s[..i]), DayField(rest[..j]), YearField(rest[j + 1..]);
        if m.None? || d.None? || y.None? then None else Some((y.value, m.value, d.value))
  }

  /** The checks made once the text has matched: a real day, then the Timestamp range. */
  function CheckDay(y: int, m: int, d: int): Result<Date, DateError> {
    var c := CalendarDate(y, m, d);
    if !IsCalendarDate(c) then Err(NotACalendarDate)
    else if !InTimestampRange(c) then Err(OutOfTimestampRange)
    else Ok(c)
  }

  /** Parses one `Order Date` value under %m/%d/%Y. */
  function ParseDate(s: string): Result<Date, DateError> {
    match ReadFields(s)
    case None => Err(PatternMismatch)
    case Some((y, m, d)) => CheckDay(y, m, d)
  }

  // ----- The fields agree with the regular expression -----

  lemma MonthFieldIsToken(t: string, m: int)
    ensures MonthField(t) == Some(m) <==> MonthToken(t, m)
  {
    if |t| == 1 && AllDigits(t) {
      DecimalValue1(t);
    } else if |t| == 2 && AllDigits(t) {
      DecimalValue2(t);
    }
  }

  lemma DayFieldIsToken(t: string, d: int)
    ensures DayField(t) == Some(d) <==> DayToken(t, d)
  {
    if |t| == 1 && AllDigits(t) {
      DecimalValue1(t);
    } else if |t| == 2 && AllDigits(t) {
      DecimalValue2(t);
    }
  }

  lemma YearFieldIsToken(t: string, y: int)
    ensures YearField(t) == Some(y) <==> YearToken(t, y)
  {
    if |t| == 4 && AllDigits(t) {
      DecimalValue4(t);
    }
  }

  lemma MonthTokenNoSlash(t: string, m: int)
    requires MonthToken(t, m)
    ensures '/' !in t
  {
  }

  lemma DayTokenNoSlash(t: string, d: int)
    requires DayToken(t, d)
    ensures '/' !in t
  {
  }

  lemma IndexOfFirst(s: string, c: char, i: nat)
    requires i < |s| && s[i] == c && c !in s[..i]
    ensures IndexOf(s, c) == Some(i)
  {
  }

  lemma ReadFieldsMatch(s: string)
    requires ReadFields(s).Some?
    ensures MatchesPattern(s, ReadFields(s).value.0, ReadFields(s).value.1, ReadFields(s).value.2)
  {
    var (y, m, d) := ReadFields(s).value;
    var i := IndexOf(s, '/').value;
    var rest := s[i + 1..];
    var j := IndexOf(rest, '/').value;
    MonthFieldIsToken(s[..i], m);
    DayFieldIsToken(rest[..j], d);
    YearFieldIsToken(rest[j + 1..], y);
    var j' := i + 1 + j;
    assert s[i + 1..j'] == rest[..j];
    assert s[j' + 1..] == rest[j + 1..];
    assert s[j'] == rest[j];
    assert MonthToken(s[..i], m) && DayToken(s[i + 1..j'], d) && YearToken(s[j' + 1..], y);
  }

  lemma SplitReadFields(s: string, i: int, j: int, y: int, m: int, d: int)
    requires 0 <= i < j < |s| && s[i] == '/' && s[j] == '/'
    requires MonthToken(s[..i], m) && DayToken(s[i + 1..j], d) && YearToken(s[j + 1..], y)
    ensures ReadFields(s) == Some((y, m, d))
  {
    MonthTokenNoSlash(s[..i], m);
    DayTokenNoSlash(s[i + 1..j], d);
    IndexOfFirst(s, '/', i);
    var rest := s[i + 1..];
    var j0 := j - i - 1;
    assert rest[..j0] == s[i + 1..j];
    assert rest[j0 + 1..] == s[j + 1..];
    assert rest[j0] == '/';
    IndexOfFirst(rest, '/', j0);
    MonthFieldIsToken(s[..i], m);
    DayFieldIsToken(rest[..j0], d);
    YearFieldIsToken(rest[j0 + 1..], y);
    assert MonthField(s[..i]) == Some(m);
    assert DayField(rest[..j0]) == Some(d);
    assert YearField(rest[j0 + 1..]) == Some(y);
  }

  lemma SplitParseDate(s: string, i: int, j: int, y: int, m: int, d: int)
    requires 0 <= i < j < |s| && s[i] == '/' && s[j] == '/'
    requires MonthToken(s[..i], m) && DayToken(s[i + 1..j], d) && YearToken(s[j + 1..], y)
    ensures ParseDate(s) == CheckDay(y, m, d)
  {
    SplitReadFields(s, i, j, y, m, d);
  }

  lemma MatchReadFields(s: string, y: int, m: int, d: int)
    requires MatchesPattern(s, y, m, d)
    ensures ReadFields(s) == Some((y, m, d))
  {
    var i, j :| 0 <= i < j < |s| && s[i] == '/' && s[j] == '/' &&
      MonthToken(s[..i], m) && DayToken(s[i + 1..j], d) && YearToken(s[j + 1..], y);
    SplitReadFields(s, i, j, y, m, d);
  }

  /** Reading the fields succeeds exactly on the strings the pattern matches in full. */
  lemma ReadFieldsExact(s: string, y: int, m: int, d: int)
    ensures ReadFields(s) == Some((y, m, d)) <==> MatchesPattern(s, y, m, d)
  {
    if ReadFields(s) == Some((y, m, d)) {
      ReadFieldsMatch(s);
    }
    if MatchesPattern(s, y, m, d) {
      MatchReadFields(s, y, m, d);
    }
  }

  /**
    The parser accepts exactly the strings the pattern matches in full whose
    fields name a real day in the Timestamp range, and returns that day.
  */
  lemma ParseDateExact(s: string, y: int, m: int, d: int)
    ensures (ParseDate(s).Ok? && ParseDate(s).value == CalendarDate(y, m, d)) <==>
            (MatchesPattern(s, y, m, d) && IsCalendarDate(CalendarDate(y, m, d)) && InTimestampRange(CalendarDate(y, m, d)))
  {
    ReadFieldsExact(s, y, m, d);
  }

  /** A pattern error is reported exactly when no reading of the string matches the pattern. */
  lemma ParseDatePatternMismatch(s: string)
    ensures ParseDate(s) == Err(PatternMismatch) <==> forall y, m, d :: !MatchesPattern(s, y, m, d)
  {
    if ReadFields(s).Some? {
      ReadFieldsMatch(s);
    } else {
      forall y, m, d ensures !MatchesPattern(s, y, m, d) {
        ReadFieldsExact(s, y, m, d);
      }
    }
  }

  /** A matched string that names no real day is reported as such, whatever the range. */
  lemma ParseDateNotACalendarDate(s: string, y: int, m: int, d: int)
    requires MatchesPattern(s, y, m, d)
    ensures ParseDate(s) == Err(NotACalendarDate) <==> !IsCalendarDate(CalendarDate(y, m, d))
  {
    MatchReadFields(s, y, m, d);
  }

  // ----- The formatter and the round trip -----

  /** Two zero-padded digits, as %m and %d print. */
  function Pad2(n: int): (t: string)
    requires 0 <= n <= 99
    ensures |t| == 2 && AllDigits(t) && DecimalValue(t) == n
  {
    var t := [DigitChar(n / 10), DigitChar(n % 10)];
    DecimalValue2(t);
    t
  }

  /** Four zero-padded digits, as %Y prints a year of a Timestamp. */
  function Pad4(n: int): (t: string)
    requires 0 <= n <= 9999
    ensures |t| == 4 && AllDigits(t) && DecimalValue(t) == n
  {
    var t := Pad2(n / 100) + Pad2(n % 100);
    DecimalValue2(t[..2]);
    DecimalValue2(t[2..]);
    DecimalValue4(t);
    t
  }

  /** `strftime('%m/%d/%Y')` of a Timestamp's day. */
  function FormatDate(d: Date): (s: string)
    requires InTimestampRange(d)
    ensures |s| == 10 && s[2] == '/' && s[5] == '/'
  {
    Pad2(d.month) + "/" + Pad2(d.day) + "/" + Pad4(d.year)
  }

  /** Parsing a formatted date gives the date back. */
  lemma FormatThenParse(d: Date)
    requires InTimestampRange(d)
    ensures ParseDate(FormatDate(d)) == Ok(d)
  {
    var s := FormatDate(d);
    var mt, dt, yt := Pad2(d.month), Pad2(d.day), Pad4(d.year);
    assert s[..2] == mt && s[3..5] == dt && s[6..] == yt;
    MonthFieldIsToken(mt, d.month);
    DayFieldIsToken(dt, d.day);
    YearFieldIsToken(yt, d.year);
    assert MatchesPattern(s, d.year, d.month, d.day);
    ParseDateExact(s, d.year, d.month, d.day);
  }

  /** A day may be padded with a space instead of a zero. */
  lemma ParseSpacePaddedDay()
    ensures ParseDate("12/ 5/2024") == Ok(CalendarDate(2024, 12, 5))
  {
    var s := "12/ 5/2024";
    assert s[..2] == "12" && s[3..5] == " 5" && s[6..] == "2024";
    assert DayToken(" 5", 5) by {
      assert " 5"[0] == ' ' && " 5"[1] == '5';
    }
    assert MonthToken("12", 12) && YearToken("2024", 2024);
    SplitParseDate(s, 2, 5, 2024, 12, 5);
  }

  /** A well-formed string naming a day the calendar does not have. */
  lemma ParseImpossibleDay()
    ensures ParseDate("02/30/2024") == Err(NotACalendarDate)
  {
    var s := "02/30/2024";
    assert s[..2] == "02" && s[3..5] == "30" && s[6..] == "2024";
    assert MonthToken("02", 2) && DayToken("30", 30) && YearToken("2024", 2024);
    SplitParseDate(s, 2, 5, 2024, 2, 30);
    assert DaysInMonth(2024, 2) == 29;
  }

  /** There is no 29 February in a common year ... */
  lemma ParseLeapDayCommonYear()
    ensures ParseDate("02/29/2023") == Err(NotACalendarDate)
  {
    var s := "02/29/2023";
    assert s[..2] == "02" && s[3..5] == "29" && s[6..] == "2023";
    assert MonthToken("02", 2) && DayToken("29", 29) && YearToken("2023", 2023);
    SplitParseDate(s, 2, 5, 2023, 2, 29);
    assert !IsLeapYear(2023);
  }

  /** ... and there is one in a leap year. */
  lemma ParseLeapDayLeapYear()
    ensures ParseDate("02/29/2024") == Ok(CalendarDate(2024, 2, 29))
  {
    var s := "02/29/2024";
    assert s[..2] == "02" && s[3..5] == "29" && s[6..] == "2024";
    assert MonthToken("02", 2) && DayToken("29", 29) && YearToken("2024", 2024);
    SplitParseDate(s, 2, 5, 2024, 2, 29);
    assert IsLeapYear(2024) && IsCalendarDate(CalendarDate(2024, 2, 29));
  }

  /** A real day outside the nanosecond timestamp range. */
  lemma ParseOutOfRange()
    ensures ParseDate("01/01/1600") == Err(OutOfTimestampRange)
  {
    var s := "01/01/1600";
    assert s[..2] == "01" && s[3..5] == "01" && s[6..] == "1600";
    assert MonthToken("01", 1) && DayToken("01", 1) && YearToken("1600", 1600);
    SplitParseDate(s, 2, 5, 1600, 1, 1);
  }

  /** An ISO layout has no slash and does not match. */
  lemma ParseIsoLayout()
    ensures ParseDate("2024-01-05") == Err(PatternMismatch)
  {
    var s := "2024-01-05";
    assert '/' !in s;
  }

  /** Month 13 does not match. */
  lemma ParseMonthThirteen()
    ensures ParseDate("13/01/2024") == Err(PatternMismatch)
  {
    var s := "13/01/2024";
    assert s[2] == '/' && '/' !in s[..2];
    assert IndexOf(s, '/') == Some(2);
    DecimalValue2(s[..2]);
  }

  /** A two-digit year does not match. */
  lemma ParseShortYear()
    ensures ParseDate("01/05/24") == Err(PatternMismatch)
  {
    var s := "01/05/24";
    assert s[2] == '/' && '/' !in s[..2];
    assert IndexOf(s, '/') == Some(2);
    var rest := s[3..];
    assert rest[2] == '/' && '/' !in rest[..2];
    assert IndexOf(rest, '/') == Some(2);
    assert rest[3..] == "24";
  }
}
