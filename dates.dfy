/**
 * Calendar dates and times as integer tuples, with the three `datetime` formats the
 * workshop code uses: `"%m/%d/%Y"`, `"%m/%d/%Y %I:%M %p"` (parsing) and `"%b %d"` (printing).
 */
module Dates {
  import opened Wrappers
  import opened Strings

  datatype Date = Date(year: int, month: int, day: int)

  /** A time of day on a 24-hour clock. */
  datatype DateTime = DateTime(date: Date, hour: int, minute: int)

  predicate IsLeapYear(y: int)
  {
    y % 4 == 0 && (y % 100 != 0 || y % 400 == 0)
  }

  function DaysInMonth(y: int, m: int): int
    requires 1 <= m <= 12
  {
    if m == 2 then (if IsLeapYear(y) then 29 else 28)
    else if m == 4 || m == 6 || m == 9 || m == 11 then 30
    else 31
  }

  /** What `datetime.date(y, m, d)` accepts. */
  predicate ValidDate(d: Date)
  {
    1 <= d.year <= 9999 && 1 <= d.month <= 12 && 1 <= d.day <= DaysInMonth(d.year, d.month)
  }

  predicate ValidDateTime(t: DateTime)
  {
    ValidDate(t.date) && 0 <= t.hour < 24 && 0 <= t.minute < 60
  }

  // ------------------------------------------------------------ ordering

  /** `a <= b` on `date` objects: year, then month, then day. */
  predicate DateLe(a: Date, b: Date)
  {
    a.year < b.year || (a.year == b.year && (a.month < b.month || (a.month == b.month && a.day <= b.day)))
  }

  /** `a <= b` on `datetime` objects: the date, then the time of day. */
  predicate DateTimeLe(a: DateTime, b: DateTime)
  {
    (a.date != b.date && DateLe(a.date, b.date))
    || (a.date == b.date && (a.hour < b.hour || (a.hour == b.hour && a.minute <= b.minute)))
  }

  /** `datetime(y, m, d)`: the first minute of a day. */
  function Midnight(d: Date): DateTime
  {
    DateTime(d, 0, 0)
  }

  /**
   * Comparing a time against the midnights of two days keeps every time on the first
   * day and on the days between, but on the last day only its first minute.
   */
  lemma MidnightWindow(t: DateTime, first: Date, last: Date)
    requires 0 <= t.hour && 0 <= t.minute
    ensures DateTimeLe(Midnight(first), t) && DateTimeLe(t, Midnight(last))
        <==> DateLe(first, t.date) && DateLe(t.date, last) && (t.date == last ==> t.hour == 0 && t.minute == 0)
  {
  }

  // ------------------------------------------------------------ parsing

  /** One numeric directive of `strptime`: between `minLen` and `maxLen` decimal digits. */
  function ParseField(s: string, minLen: nat, maxLen: nat): Option<nat>
  {
    if minLen <= |s| <= maxLen && AllDigits(s) then Some(DigitsValue(s)) else None
  }

  /** `datetime.strptime(s, "%m/%d/%Y")`, kept to its date. */
  function ParseDate(s: string): (r: Option<Date>)
    ensures r.Some? ==> ValidDate(r.value)
  {
    var parts := Split(s, "/");
    if |parts| != 3 then None
    else
      var m := ParseField(parts[0], 1, 2);
      var d := ParseField(parts[1], 1, 2);
      var y := ParseField(parts[2], 4, 4);
      if m.None? || d.None? || y.None? then None
      else if ValidDate(Date(y.value, m.value, d.value)) then Some(Date(y.value, m.value, d.value))
      else None
  }

  /** `datetime.strptime(s, "%m/%d/%Y %I:%M %p")`: a 12-hour clock with an AM/PM marker in any case. */
  function ParseDateTime(s: string): (r: Option<DateTime>)
    ensures r.Some? ==> ValidDateTime(r.value)
  {
    var parts := Split(s, " ");
    if |parts| != 3 then None
    else
      var date := ParseDate(parts[0]);
      var clock := Split(parts[1], ":");
      if date.None? || |clock| != 2 then None
      else
        var h := ParseField(clock[0], 1, 2);
        var mi := ParseField(clock[1], 1, 2);
        var half := Lower(parts[2]);
        if h.None? || mi.None? || !(1 <= h.value <= 12) || mi.value > 59 || (half != "am" && half != "pm") then None
        else Some(DateTime(date.value, h.value % 12 + (if half == "pm" then 12 else 0), mi.value))
  }

  // ----------------------------------------------------------- printing

  function Digit(n: nat): char
    requires n < 10
  {
    ('0' as int + n) as char
  }

  /** A zero-padded two-digit number, as `%d`, `%m`, `%I` and `%M` print it. */
  function Pad2(n: nat): (r: string)
    requires n < 100
  {
    [Digit(n / 10), Digit(n % 10)]
  }

  /** A zero-padded four-digit year, as `%Y` prints it. */
  function Pad4(n: nat): string
    requires n < 10000
  {
    [Digit(n / 1000), Digit(n / 100 % 10), Digit(n / 10 % 10), Digit(n % 10)]
  }

  /** `%b` in the C locale. */
  function MonthAbbreviation(m: int): (r: string)
    requires 1 <= m <= 12
    ensures |r| == 3
  {
    ["Jan", "Feb", "Mar", "Apr", "May", "Jun", "Jul", "Aug", "Sep", "Oct", "Nov", "Dec"][m - 1]
  }

  /** `d.strftime("%b %d")`, e.g. "Jan 05". */
  function MonthDay(d: Date): (r: string)
    requires ValidDate(d)
  {
    MonthAbbreviation(d.month) + " " + Pad2(d.day)
  }

  /** The `"%m/%d/%Y"` text of a date. */
  function FormatDate(d: Date): string
    requires ValidDate(d)
  {
    Pad2(d.month) + "/" + Pad2(d.day) + "/" + Pad4(d.year)
  }

  /** The `"%m/%d/%Y %I:%M %p"` text of a date and time. */
  function FormatDateTime(t: DateTime): string
    requires ValidDateTime(t)
  {
    FormatDate(t.date) + " " + Clock(TwelveHour(t.hour), t.minute) + " " + Marker(t.hour >= 12)
  }

  /** `%I`: the hour on a twelve-hour clock face. */
  function TwelveHour(hour: nat): nat
  {
    if hour % 12 == 0 then 12 else hour % 12
  }

  /** `"%I:%M"` once the hour is on the clock face. */
  function Clock(h: nat, minute: nat): string
    requires h < 100 && minute < 100
  {
    Pad2(h) + ":" + Pad2(minute)
  }

  /** `%p`. */
  function Marker(pm: bool): string
  {
    if pm then "PM" else "AM"
  }

  // -------------------------------------------------------- round trips

  lemma Pad2Digits(n: nat)
    requires n < 100
    ensures AllDigits(Pad2(n)) && DigitsValue(Pad2(n)) == n
  {
    var s := Pad2(n);
    assert s[..1][..0] == [];
    assert s[..1] == [Digit(n / 10)];
    assert DigitsValue(s[..1]) == n / 10;
    assert DigitsValue(s) == DigitsValue(s[..1]) * 10 + n % 10;
  }

  lemma Pad4Digits(n: nat)
    requires n < 10000
    ensures AllDigits(Pad4(n)) && DigitsValue(Pad4(n)) == n
  {
    var a, b, c, e := Digit(n / 1000), Digit(n / 100 % 10), Digit(n / 10 % 10), Digit(n % 10);
    DigitAppended([], n / 1000);
    assert [] + [a] == [a];
    DigitAppended([a], n / 100 % 10);
    assert [a] + [b] == [a, b];
    assert n / 1000 * 10 + n / 100 % 10 == n / 100;
    DigitAppended([a, b], n / 10 % 10);
    assert [a, b] + [c] == [a, b, c];
    assert n / 100 * 10 + n / 10 % 10 == n / 10;
    DigitAppended([a, b, c], n % 10);
    assert [a, b, c] + [e] == Pad4(n);
  }

  /** One more digit multiplies the value by ten and adds itself. */
  lemma DigitAppended(s: string, n: nat)
    requires AllDigits(s) && n < 10
    ensures AllDigits(s + [Digit(n)]) && DigitsValue(s + [Digit(n)]) == DigitsValue(s) * 10 + n
  {
    assert (s + [Digit(n)])[..|s|] == s;
  }

  lemma MonthDayShape(d: Date)
    requires ValidDate(d)
    ensures |MonthDay(d)| == 6 && MonthDay(d)[3] == ' '
    ensures MonthDay(d)[..3] == MonthAbbreviation(d.month)
    ensures AllDigits(MonthDay(d)[4..]) && DigitsValue(MonthDay(d)[4..]) == d.day
  {
    assert MonthDay(d)[4..] == Pad2(d.day);
    Pad2Digits(d.day);
  }

  /** Reading back the `"%m/%d/%Y"` text of a date gives the date. */
  lemma ParseFormatDate(d: Date)
    requires ValidDate(d)
    ensures ParseDate(FormatDate(d)) == Some(d)
  {
    FormatDateFields(d);
    Pad2Digits(d.month);
    Pad2Digits(d.day);
    Pad4Digits(d.year);
  }

  /** The `/`-separated fields of the text of a date. */
  lemma FormatDateFields(d: Date)
    requires ValidDate(d)
    ensures Split(FormatDate(d), "/") == [Pad2(d.month), Pad2(d.day), Pad4(d.year)]
  {
    var m, dd, y := Pad2(d.month), Pad2(d.day), Pad4(d.year);
    assert [m, dd, y][1..] == [dd, y] && [dd, y][1..] == [y];
    assert Join([dd, y], "/") == dd + "/" + y;
    assert FormatDate(d) == Join([m, dd, y], "/");
    SplitJoinChar([m, dd, y], '/');
  }

  lemma FormatDateHasNoSpace(d: Date)
    requires ValidDate(d)
    ensures ' ' !in FormatDate(d)
  {
    var s := FormatDate(d);
    forall i | 0 <= i < |s| ensures s[i] != ' ' {
      assert s == Pad2(d.month) + "/" + Pad2(d.day) + "/" + Pad4(d.year);
    }
  }

  lemma ParseClock(h: nat, minute: nat)
    requires 1 <= h <= 12 && minute < 60
    ensures Split(Clock(h, minute), ":") == [Pad2(h), Pad2(minute)]
    ensures ParseField(Pad2(h), 1, 2) == Some(h) && ParseField(Pad2(minute), 1, 2) == Some(minute)
  {
    assert [Pad2(h), Pad2(minute)][1..] == [Pad2(minute)];
    assert Clock(h, minute) == Join([Pad2(h), Pad2(minute)], ":");
    SplitJoinChar([Pad2(h), Pad2(minute)], ':');
    Pad2Digits(h);
    Pad2Digits(minute);
  }

  /** How `ParseDateTime` reads text whose pieces are already known to parse. */
  lemma ParseDateTimeOfPieces(s: string, date: Date, h: nat, minute: nat, pm: bool)
    requires |Split(s, " ")| == 3 && ParseDate(Split(s, " ")[0]) == Some(date)
    requires |Split(Split(s, " ")[1], ":")| == 2
    requires ParseField(Split(Split(s, " ")[1], ":")[0], 1, 2) == Some(h) && 1 <= h <= 12
    requires ParseField(Split(Split(s, " ")[1], ":")[1], 1, 2) == Some(minute) && minute <= 59
    requires Lower(Split(s, " ")[2]) == if pm then "pm" else "am"
    ensures ParseDateTime(s) == Some(DateTime(date, h % 12 + (if pm then 12 else 0), minute))
  {
  }

  lemma LowerMarkers()
    ensures Lower(Marker(false)) == "am" && Lower(Marker(true)) == "pm"
  {
    assert Lower("AM") == [LowerChar('A'), LowerChar('M')];
    assert Lower("PM") == [LowerChar('P'), LowerChar('M')];
  }

  /** `%I` with `%p` names every hour of the day once. */
  lemma TwelveHourClock(hour: nat)
    requires hour < 24
    ensures 1 <= TwelveHour(hour) <= 12
    ensures TwelveHour(hour) % 12 + (if hour >= 12 then 12 else 0) == hour
  {
  }

  lemma ClockHasNoSpace(h: nat, minute: nat)
    requires h < 100 && minute < 100
    ensures ' ' !in Clock(h, minute)
  {
    var c := Clock(h, minute);
    forall i | 0 <= i < |c| ensures c[i] != ' ' {
      assert c == [Digit(h / 10), Digit(h % 10), ':', Digit(minute / 10), Digit(minute % 10)];
    }
  }

  /** Text made of a date, a clock and a marker separated by single spaces is read piece by piece. */
  lemma ParseDateTimeOfText(s: string, date: string, clock: string, half: string, d: Date, h: nat, minute: nat, pm: bool)
    requires s == date + " " + clock + " " + half
    requires ' ' !in date && ' ' !in clock && ' ' !in half
    requires ParseDate(date) == Some(d)
    requires 1 <= h <= 12 && minute <= 59
    requires Split(clock, ":") == [Pad2(h), Pad2(minute)]
    requires ParseField(Pad2(h), 1, 2) == Some(h) && ParseField(Pad2(minute), 1, 2) == Some(minute)
    requires Lower(half) == if pm then "pm" else "am"
    ensures ParseDateTime(s) == Some(DateTime(d, h % 12 + (if pm then 12 else 0), minute))
  {
    SplitThree(s, date, clock, half, " ");
    ParseDateTimeOfPieces(s, d, h, minute, pm);
  }

  lemma ParseDateTimeOfFormat(t: DateTime)
    requires ValidDateTime(t)
    ensures ParseDateTime(FormatDateTime(t)) == Some(DateTime(t.date, TwelveHour(t.hour) % 12 + (if t.hour >= 12 then 12 else 0), t.minute))
  {
    var h := TwelveHour(t.hour);
    FormatPieces(t);
    ParseDateTimeOfText(FormatDateTime(t), FormatDate(t.date), Clock(h, t.minute), Marker(t.hour >= 12), t.date, h, t.minute, t.hour >= 12);
  }

  /** The pieces of the text of a time, each as `ParseDateTimeOfText` needs it. */
  lemma FormatPieces(t: DateTime)
    requires ValidDateTime(t)
    ensures var h := TwelveHour(t.hour);
      && FormatDateTime(t) == FormatDate(t.date) + " " + Clock(h, t.minute) + " " + Marker(t.hour >= 12)
      && ' ' !in FormatDate(t.date) && ' ' !in Clock(h, t.minute) && ' ' !in Marker(t.hour >= 12)
      && ParseDate(FormatDate(t.date)) == Some(t.date)
      && 1 <= h <= 12 && t.minute <= 59
      && Split(Clock(h, t.minute), ":") == [Pad2(h), Pad2(t.minute)]
      && ParseField(Pad2(h), 1, 2) == Some(h) && ParseField(Pad2(t.minute), 1, 2) == Some(t.minute)
      && Lower(Marker(t.hour >= 12)) == if t.hour >= 12 then "pm" else "am"
  {
    var h := TwelveHour(t.hour);
    TwelveHourClock(t.hour);
    FormatDateHasNoSpace(t.date);
    ClockHasNoSpace(h, t.minute);
    ParseFormatDate(t.date);
    ParseClock(h, t.minute);
    LowerMarkers();
  }

  /** Reading back the `"%m/%d/%Y %I:%M %p"` text of a time gives the time. */
  lemma ParseFormatDateTime(t: DateTime)
    requires ValidDateTime(t)
    ensures ParseDateTime(FormatDateTime(t)) == Some(t)
  {
    ParseDateTimeOfFormat(t);
    TwelveHourClock(t.hour);
  }
}
