/**
 * `get_ordinal_date_string`: the human-readable receipt time stored in every
 * record, "<day><suffix> <Month> <Year> - <hh>:<MM> <AM|PM> UTC", e.g.
 * "1st April 2021 - 09:30 PM UTC".  The clock reading is an input.
 */
module Timestamp {
  import opened Wrappers
  import opened Text

  /** The calendar fields of a UTC instant that the format uses. */
  datatype DateTime = DateTime(year: int, month: int, day: int, hour: int, minute: int)

  predicate IsLeapYear(year: int)
  {
    year % 4 == 0 && (year % 100 != 0 || year % 400 == 0)
  }

  function DaysInMonth(year: int, month: int): (n: int)
    requires 1 <= month <= 12
    ensures 28 <= n <= 31
    ensures n == 31 <==> month in {1, 3, 5, 7, 8, 10, 12}
    ensures n == 30 <==> month in {4, 6, 9, 11}
    ensures n == 29 <==> month == 2 && IsLeapYear(year)
  {
    if month == 2 then (if IsLeapYear(year) then 29 else 28)
    else if month in {4, 6, 9, 11} then 30
    else 31
  }

  /** The instants a Python `datetime` can hold, to the minute. */
  predicate ValidDateTime(t: DateTime)
  {
    && 1 <= t.year <= 9999
    && 1 <= t.month <= 12
    && 1 <= t.day <= DaysInMonth(t.year, t.month)
    && 0 <= t.hour < 24
    && 0 <= t.minute < 60
  }

  /** The ordinal suffix of a day of the month: 11, 12 and 13 take "th", otherwise the last digit decides. */
  function DaySuffix(day: int): (s: string)
    ensures s in ["st", "nd", "rd", "th"]
  {
    if 11 <= day <= 13 then "th"
    else if day % 10 == 1 then "st"
    else if day % 10 == 2 then "nd"
    else if day % 10 == 3 then "rd"
    else "th"
  }

  /** Which days of a month get which suffix. */
  lemma DaySuffixTable(day: int)
    requires 1 <= day <= 31
    ensures DaySuffix(day) == "st" <==> day in {1, 21, 31}
    ensures DaySuffix(day) == "nd" <==> day in {2, 22}
    ensures DaySuffix(day) == "rd" <==> day in {3, 23}
    ensures DaySuffix(day) == "th" <==> 4 <= day <= 20 || 24 <= day <= 30
  {
  }

  const MonthNames: seq<string> := [
    "January", "February", "March", "April", "May", "June",
    "July", "August", "September", "October", "November", "December"
  ]

  /** strftime's `%B` in the C locale: one distinct English name per month, without spaces. */
  function MonthName(month: int): (s: string)
    requires 1 <= month <= 12
    ensures s != [] && ' ' !in s
    ensures forall k :: 0 <= k < 12 && k != month - 1 ==> MonthNames[k] != s
  {
    MonthNames[month - 1]
  }

  /** The month a `%B` name stands for. */
  function MonthNumber(name: string): (m: Option<int>)
    ensures m.Some? ==> 1 <= m.value <= 12 && MonthName(m.value) == name
  {
    if name == "January" then Some(1)
    else if name == "February" then Some(2)
    else if name == "March" then Some(3)
    else if name == "April" then Some(4)
    else if name == "May" then Some(5)
    else if name == "June" then Some(6)
    else if name == "July" then Some(7)
    else if name == "August" then Some(8)
    else if name == "September" then Some(9)
    else if name == "October" then Some(10)
    else if name == "November" then Some(11)
    else if name == "December" then Some(12)
    else None
  }

  lemma MonthNumberOfName(month: int)
    requires 1 <= month <= 12
    ensures MonthNumber(MonthName(month)) == Some(month)
  {
  }

  /** strftime's `%I` as a number: the hour on the 12-hour clock, 0 and 12 both showing 12. */
  function Hour12(hour: int): (h: int)
    requires 0 <= hour < 24
    ensures 1 <= h <= 12
  {
    if hour % 12 == 0 then 12 else hour % 12
  }

  /** strftime's `%p` in the C locale. */
  function Meridiem(hour: int): (s: string)
    ensures s == "AM" <==> hour < 12
    ensures s == "AM" || s == "PM"
  {
    if hour < 12 then "AM" else "PM"
  }

  /** The 24-hour clock hour that a 12-hour reading and AM/PM stand for. */
  function Hour24(hour12: int, meridiem: string): int
  {
    if meridiem == "AM" then (if hour12 == 12 then 0 else hour12)
    else (if hour12 == 12 then 12 else hour12 + 12)
  }

  /** The 12-hour clock with AM/PM loses nothing. */
  lemma ClockRoundTrip(hour: int)
    requires 0 <= hour < 24
    ensures Hour24(Hour12(hour), Meridiem(hour)) == hour
  {
  }

  /** The seven space-separated words of `get_ordinal_date_string(dt)`. */
  function Words(t: DateTime): (ws: seq<string>)
    requires ValidDateTime(t)
    ensures |ws| == 7 && forall k :: 0 <= k < 7 ==> ' ' !in ws[k]
  {
    var ws := [Decimal(t.day) + DaySuffix(t.day), MonthName(t.month), Decimal(t.year), "-",
               Pad2(Hour12(t.hour)) + ":" + Pad2(t.minute), Meridiem(t.hour), "UTC"];
    assert forall c :: c in Decimal(t.day) ==> IsDigit(c);
    assert forall c :: c in Decimal(t.year) ==> IsDigit(c);
    assert forall c :: c in Pad2(Hour12(t.hour)) ==> IsDigit(c);
    assert forall c :: c in Pad2(t.minute) ==> IsDigit(c);
    ws
  }

  /**
   * `get_ordinal_date_string(dt)`, the format `"{day}{suffix} %B %Y - %I:%M %p UTC"`:
   * the day unpadded with its ordinal suffix, the month name, the year, a dash,
   * the zero-padded 12-hour clock hour and minute, AM or PM, and "UTC", separated
   * by single spaces, so that splitting at the spaces gives the words back.
   */
  function Format(t: DateTime): (s: string)
    requires ValidDateTime(t)
    ensures Split(s) == Words(t)
  {
    SplitJoin(Words(t));
    Join(Words(t))
  }

  /**
   * Reads a formatted timestamp back: `Some(t)` exactly when the string is the
   * rendering of the valid instant `t`.
   */
  function Parse(s: string): (r: Option<DateTime>)
    ensures r.Some? ==> ValidDateTime(r.value) && Format(r.value) == s
  {
    var ws := Split(s);
    if |ws| != 7 || |ws[0]| < 3 || |ws[4]| != 5 then None
    else
      var dayDigits, clock := ws[0][..|ws[0]| - 2], ws[4];
      var month := MonthNumber(ws[1]);
      if !AllDigits(dayDigits) || !AllDigits(ws[2]) || !AllDigits(clock[..2]) || !AllDigits(clock[3..])
         || month.None? || !(ws[5] == "AM" || ws[5] == "PM")
      then None
      else
        var t := DateTime(ParseNat(ws[2]), month.value, ParseNat(dayDigits),
                          Hour24(ParseNat(clock[..2]), ws[5]), ParseNat(clock[3..]));
        if ValidDateTime(t) && Format(t) == s then Some(t) else None
  }

  /** Every formatted timestamp reads back as the instant it was formatted from. */
  lemma FormatParseRoundTrip(t: DateTime)
    requires ValidDateTime(t)
    ensures Parse(Format(t)) == Some(t)
  {
    var s := Format(t);
    var ws := Words(t);
    var dayWord := ws[0];
    assert dayWord[..|dayWord| - 2] == Decimal(t.day);
    ParseDecimal(t.day);
    ParseDecimal(t.year);
    var clock := ws[4];
    assert clock[..2] == Pad2(Hour12(t.hour));
    assert clock[3..] == Pad2(t.minute);
    MonthNumberOfName(t.month);
    ClockRoundTrip(t.hour);
  }

  /** Two instants that differ to the minute never share a timestamp string. */
  lemma FormatInjective(t1: DateTime, t2: DateTime)
    requires ValidDateTime(t1) && ValidDateTime(t2)
    requires Format(t1) == Format(t2)
    ensures t1 == t2
  {
    FormatParseRoundTrip(t1);
    FormatParseRoundTrip(t2);
  }

  /** Chronological order of instants, to the minute. */
  predicate Earlier(t1: DateTime, t2: DateTime)
  {
    (t1.year, t1.month, t1.day, t1.hour, t1.minute) != (t2.year, t2.month, t2.day, t2.hour, t2.minute)
    && (t1.year < t2.year
        || (t1.year == t2.year && t1.month < t2.month)
        || (t1.year == t2.year && t1.month == t2.month && t1.day < t2.day)
        || (t1.year == t2.year && t1.month == t2.month && t1.day == t2.day && t1.hour < t2.hour)
        || (t1.year == t2.year && t1.month == t2.month && t1.day == t2.day && t1.hour == t2.hour
            && t1.minute < t2.minute))
  }

  /** Python's `a < b` on strings: lexicographic order of characters. */
  predicate StringLess(a: string, b: string)
  {
    b != [] && (a == [] || a[0] < b[0] || (a[0] == b[0] && StringLess(a[1..], b[1..])))
  }

  /**
   * Timestamp strings do not sort chronologically: the 2nd of a month renders
   * after the 10th.  Reads must therefore order records by insertion, not by
   * their timestamp field.
   */
  lemma TimestampsDoNotSortChronologically()
    ensures var t1, t2 := DateTime(2021, 4, 2, 21, 30), DateTime(2021, 4, 10, 21, 30);
            ValidDateTime(t1) && ValidDateTime(t2) && Earlier(t1, t2) && StringLess(Format(t2), Format(t1))
  {
    var t1, t2 := DateTime(2021, 4, 2, 21, 30), DateTime(2021, 4, 10, 21, 30);
    assert Decimal(10) == ['1', '0'];
    assert Format(t1)[0] == '2';
    assert Format(t2)[0] == '1';
  }

  /** Midnight is 12 AM; the 1st takes "st"; the day is not padded, the minute is. */
  lemma FormatMidnight()
    ensures Format(DateTime(2021, 4, 1, 0, 5)) == Join(["1st", "April", "2021", "-", "12:05", "AM", "UTC"])
  {
    var ws := Words(DateTime(2021, 4, 1, 0, 5));
    assert ws[0] == "1st" by { assert Decimal(1) == "1" && DaySuffix(1) == "st"; }
    assert ws[2] == "2021" by { assert Decimal(2021) == "2021"; }
    assert ws[4] == "12:05" by { assert Pad2(Hour12(0)) == "12" && Pad2(5) == "05"; }
    assert ws[1] == "April" && ws[5] == "AM";
    assert ws == ["1st", "April", "2021", "-", "12:05", "AM", "UTC"];
  }

  /** Noon is 12 PM; the 12th takes "th". */
  lemma FormatNoon()
    ensures Format(DateTime(2021, 4, 12, 12, 0)) == Join(["12th", "April", "2021", "-", "12:00", "PM", "UTC"])
  {
    var ws := Words(DateTime(2021, 4, 12, 12, 0));
    assert ws[0] == "12th" by { assert Decimal(12) == "12" && DaySuffix(12) == "th"; }
    assert ws[2] == "2021" by { assert Decimal(2021) == "2021"; }
    assert ws[4] == "12:00" by { assert Pad2(Hour12(12)) == "12" && Pad2(0) == "00"; }
    assert ws[1] == "April" && ws[5] == "PM";
    assert ws == ["12th", "April", "2021", "-", "12:00", "PM", "UTC"];
  }

  /** 13:00 is 01 PM; the 23rd takes "rd". */
  lemma FormatAfternoon()
    ensures Format(DateTime(2024, 2, 23, 13, 59)) == Join(["23rd", "February", "2024", "-", "01:59", "PM", "UTC"])
  {
    var ws := Words(DateTime(2024, 2, 23, 13, 59));
    assert ws[0] == "23rd" by { assert Decimal(23) == "23" && DaySuffix(23) == "rd"; }
    assert ws[2] == "2024" by { assert Decimal(2024) == "2024"; }
    assert ws[4] == "01:59" by { assert Pad2(Hour12(13)) == "01" && Pad2(59) == "59"; }
    assert ws[1] == "February" && ws[5] == "PM";
    assert ws == ["23rd", "February", "2024", "-", "01:59", "PM", "UTC"];
  }
}
