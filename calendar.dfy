/** Calendar dates and times of day as `chrono`'s `NaiveDate` and
    `NaiveTime`, with the strict `%Y-%m-%d`, `%Y-%m` and `%H:%M` formats the
    program formats and parses. */
module Calendar {
  import opened Base
  import opened Text

  // ---------------------------------------------------------------- dates

  datatype Date = Date(year: int, month: int, day: int)

  predicate IsLeapYear(y: int) {
    y % 4 == 0 && (y % 100 != 0 || y % 400 == 0)
  }

  function DaysInMonth(y: int, m: int): (n: int)
    requires 1 <= m <= 12
    ensures 28 <= n <= 31
  {
    if m == 2 then (if IsLeapYear(y) then 29 else 28)
    else if m == 4 || m == 6 || m == 9 || m == 11 then 30
    else 31
  }

  /** A proleptic Gregorian date whose year `%Y` writes with four digits. */
  predicate ValidDate(d: Date) {
    0 <= d.year <= 9999 && 1 <= d.month <= 12 && 1 <= d.day <= DaysInMonth(d.year, d.month)
  }

  /** `date.format("%Y-%m-%d")`. */
  function FormatDate(d: Date): (s: string)
    requires ValidDate(d)
    ensures |s| == 10
  {
    Pad4(d.year) + "-" + Pad2(d.month) + "-" + Pad2(d.day)
  }

  /** `date.format("%Y-%m")`: the month a date falls in. */
  function FormatMonth(d: Date): (s: string)
    requires ValidDate(d)
    ensures |s| == 7
  {
    Pad4(d.year) + "-" + Pad2(d.month)
  }

  /** `NaiveDate::parse_from_str(s, "%Y-%m-%d")`, with fixed field widths. */
  function ParseDate(s: string): Option<Date> {
    if |s| == 10 && s[4] == '-' && s[7] == '-'
       && AllDigits(s[..4]) && AllDigits(s[5..7]) && AllDigits(s[8..])
    then
      var d := Date(DigitsValue(s[..4]), DigitsValue(s[5..7]), DigitsValue(s[8..]));
      if ValidDate(d) then Some(d) else None
    else None
  }

  /** Every date is read back from its own rendering. */
  lemma ParseFormatDate(d: Date)
    requires ValidDate(d)
    ensures ParseDate(FormatDate(d)) == Some(d)
  {
    var s := FormatDate(d);
    assert s[..4] == Pad4(d.year);
    assert s[5..7] == Pad2(d.month);
    assert s[8..] == Pad2(d.day);
    Pad4RoundTrip(d.year);
    Pad2RoundTrip(d.month);
    Pad2RoundTrip(d.day);
  }

  /** Every string the model's strict parser accepts is the rendering of the
      date it yields: the model reads exactly two digits for the month and
      the day, so two different strings never name one date. */
  lemma FormatParseDate(s: string)
    requires ParseDate(s).Some?
    ensures FormatDate(ParseDate(s).value) == s
  {
    Pad4OfDigits(s[..4]);
    Pad2OfDigits(s[5..7]);
    Pad2OfDigits(s[8..]);
    assert s == s[..4] + [s[4]] + s[5..7] + [s[7]] + s[8..];
  }

  /** The month label is the first seven characters of the day label. */
  lemma FormatMonthIsPrefix(d: Date)
    requires ValidDate(d)
    ensures FormatDate(d)[..7] == FormatMonth(d)
  {
  }

  /** Two dates share a month label exactly when they share year and month. */
  lemma FormatMonthInjective(d1: Date, d2: Date)
    requires ValidDate(d1) && ValidDate(d2)
    ensures FormatMonth(d1) == FormatMonth(d2) <==> (d1.year == d2.year && d1.month == d2.month)
  {
    var s1, s2 := FormatMonth(d1), FormatMonth(d2);
    if s1 == s2 {
      assert s1[..4] == Pad4(d1.year) && s2[..4] == Pad4(d2.year);
      assert s1[5..] == Pad2(d1.month) && s2[5..] == Pad2(d2.month);
      Pad4RoundTrip(d1.year);
      Pad4RoundTrip(d2.year);
      Pad2RoundTrip(d1.month);
      Pad2RoundTrip(d2.month);
    }
  }

  // ---------------------------------------------------------- times of day

  const SecondsPerDay := 86400
  const NanosPerSecond := 1_000_000_000

  /** `NaiveTime`: seconds since midnight plus the sub-second part in
      nanoseconds (leap seconds are not represented). */
  datatype Clock = Clock(secs: int, nanos: int)

  predicate ValidClock(c: Clock) {
    0 <= c.secs < SecondsPerDay && 0 <= c.nanos < NanosPerSecond
  }

  /** The `%H:%M` part of a timestamp, as seconds since midnight. */
  function ParseHourMinute(s: string): (r: Option<int>)
    ensures r.Some? ==> 0 <= r.value < SecondsPerDay && r.value % 60 == 0
  {
    if |s| == 5 && s[2] == ':' && AllDigits(s[..2]) && AllDigits(s[3..]) then
      var h, m := DigitsValue(s[..2]), DigitsValue(s[3..]);
      if h <= 23 && m <= 59 then Some(h * 3600 + m * 60) else None
    else None
  }

  /** `NaiveDateTime::parse_from_str(s, "%Y-%m-%d %H:%M")`: the date and
      the time of day in seconds. */
  function ParseDateTime(s: string): Option<(Date, int)> {
    if |s| >= 11 && s[10] == ' ' then
      match (ParseDate(s[..10]), ParseHourMinute(s[11..]))
      case (Some(d), Some(t)) => Some((d, t))
      case _ => None
    else None
  }

  /** A rendered date followed by a space and a time parses exactly when the
      time does, and gives back the same date. */
  lemma ParseDateTimeOfDate(d: Date, time: string)
    requires ValidDate(d)
    ensures ParseDateTime(FormatDate(d) + " " + time).Some? <==> ParseHourMinute(time).Some?
    ensures ParseDateTime(FormatDate(d) + " " + time).Some? ==>
              ParseDateTime(FormatDate(d) + " " + time).value == (d, ParseHourMinute(time).value)
  {
    var s := FormatDate(d) + " " + time;
    assert s[..10] == FormatDate(d);
    assert s[11..] == time;
    ParseFormatDate(d);
  }

  /** `HH:MM` with two-digit fields reads as that many hours and minutes. */
  lemma ParseHourMinuteOf(h: nat, m: nat)
    requires h <= 23 && m <= 59
    ensures ParseHourMinute(Pad2(h) + ":" + Pad2(m)) == Some(h * 3600 + m * 60)
  {
    var s := Pad2(h) + ":" + Pad2(m);
    assert s[..2] == Pad2(h) && s[3..] == Pad2(m);
    Pad2RoundTrip(h);
    Pad2RoundTrip(m);
  }
}
