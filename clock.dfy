/**
 * Calendar days, 24-hour "HH:MM" times, weekdays and millisecond instants.
 * A calendar date (the `YYYY-MM-DD` strings of the application) is a day number,
 * day 0 being 1970-01-01; an instant is a count of milliseconds on the same axis.
 * Timezones and daylight-saving shifts are not modelled: every day is 86 400 000 ms long.
 */
module Clock {
  import opened Common

  /** A calendar date as a day number (day 0 is 1970-01-01). */
  type Day = int

  /** A time of day as written by the application, normally "HH:MM". */
  type Time = string

  const MsPerMinute: int := 60000
  const MsPerDay: int := 86400000
  const MinutesPerDay: nat := 1440

  predicate IsDigit(c: char) { '0' <= c <= '9' }

  function DigitValue(c: char): (n: nat)
    requires IsDigit(c)
    ensures n < 10
  {
    c as int - '0' as int
  }

  function DigitChar(n: nat): (c: char)
    requires n < 10
    ensures IsDigit(c) && DigitValue(c) == n
  {
    ('0' as int + n) as char
  }

  /** The pattern `^([01]\d|2[0-3]):([0-5]\d)$`: hour 00-23, a colon, minute 00-59. */
  predicate ValidTime(t: string)
  {
    && |t| == 5
    && (((t[0] == '0' || t[0] == '1') && IsDigit(t[1])) || (t[0] == '2' && '0' <= t[1] <= '3'))
    && t[2] == ':'
    && '0' <= t[3] <= '5'
    && IsDigit(t[4])
  }

  /** Minutes since midnight of a well-formed "HH:MM", or None when the text is not one. */
  function ParseTime(t: Time): (r: Option<nat>)
    ensures r.Some? <==> ValidTime(t)
    ensures r.Some? ==> r.value < MinutesPerDay
  {
    if ValidTime(t) then
      Some((DigitValue(t[0]) * 10 + DigitValue(t[1])) * 60 + DigitValue(t[3]) * 10 + DigitValue(t[4]))
    else None
  }

  /** The zero-padded "HH:MM" text of a minute of the day. */
  function FormatTime(m: nat): (t: Time)
    requires m < MinutesPerDay
    ensures ValidTime(t)
    ensures ParseTime(t) == Some(m)
  {
    var h, mm := m / 60, m % 60;
    [DigitChar(h / 10), DigitChar(h % 10), ':', DigitChar(mm / 10), DigitChar(mm % 10)]
  }

  lemma DigitRoundTrip(c: char)
    requires IsDigit(c)
    ensures DigitChar(DigitValue(c)) == c
  {
  }

  /** Every well-formed time is the formatting of the minute it parses to. */
  lemma ParseThenFormat(t: Time)
    requires ValidTime(t)
    ensures FormatTime(ParseTime(t).value) == t
  {
    var h := DigitValue(t[0]) * 10 + DigitValue(t[1]);
    var mm := DigitValue(t[3]) * 10 + DigitValue(t[4]);
    assert ParseTime(t).value == h * 60 + mm;
    assert (h * 60 + mm) / 60 == h && (h * 60 + mm) % 60 == mm;
    assert h / 10 == DigitValue(t[0]) && h % 10 == DigitValue(t[1]);
    assert mm / 10 == DigitValue(t[3]) && mm % 10 == DigitValue(t[4]);
    var f := FormatTime(h * 60 + mm);
    DigitRoundTrip(t[0]);
    DigitRoundTrip(t[1]);
    DigitRoundTrip(t[3]);
    DigitRoundTrip(t[4]);
    assert f[0] == t[0] && f[1] == t[1] && f[2] == t[2] && f[3] == t[3] && f[4] == t[4];
  }

  /** Code-point lexicographic order on strings: what the sort's `localeCompare` does on "HH:MM" texts. */
  predicate LexLe(a: string, b: string)
  {
    |a| == 0 || (|b| > 0 && (a[0] < b[0] || (a[0] == b[0] && LexLe(a[1..], b[1..]))))
  }

  lemma {:induction false} LexLeReflexive(a: string)
    ensures LexLe(a, a)
  {
    if |a| > 0 { LexLeReflexive(a[1..]); }
  }

  lemma {:induction false} LexLeTotal(a: string, b: string)
    ensures LexLe(a, b) || LexLe(b, a)
  {
    if |a| > 0 && |b| > 0 && a[0] == b[0] { LexLeTotal(a[1..], b[1..]); }
  }

  lemma {:induction false} LexLeTransitive(a: string, b: string, c: string)
    requires LexLe(a, b) && LexLe(b, c)
    ensures LexLe(a, c)
  {
    if |a| > 0 && a[0] == b[0] && b[0] == c[0] { LexLeTransitive(a[1..], b[1..], c[1..]); }
  }

  /** On well-formed times the text order used by the sort is the chronological order. */
  lemma LexOrderIsChronological(a: Time, b: Time)
    requires ValidTime(a) && ValidTime(b)
    ensures LexLe(a, b) <==> ParseTime(a).value <= ParseTime(b).value
  {
    var a1, b1 := a[1..], b[1..];
    var a2, b2 := a1[1..], b1[1..];
    var a3, b3 := a2[1..], b2[1..];
    var a4, b4 := a3[1..], b3[1..];
    assert a4[1..] == [] && b4[1..] == [];
    assert a1[0] == a[1] && a2[0] == a[2] && a3[0] == a[3] && a4[0] == a[4];
    assert b1[0] == b[1] && b2[0] == b[2] && b3[0] == b[3] && b4[0] == b[4];
    assert LexLe(a4, b4) <==> a[4] <= b[4];
    assert LexLe(a3, b3) <==> a[3] < b[3] || (a[3] == b[3] && a[4] <= b[4]);
    assert LexLe(a2, b2) <==> LexLe(a3, b3);
  }

  /** The instant (in ms) at which minute `m` of day `d` begins. */
  function Instant(d: Day, m: nat): int
  {
    d * MsPerDay + m * MsPerMinute
  }

  datatype Weekday = Monday | Tuesday | Wednesday | Thursday | Friday | Saturday | Sunday

  /** The weekday of a day number; 1970-01-01 (day 0) was a Thursday. */
  function WeekdayOf(d: Day): (w: Weekday)
    ensures d == 0 ==> w == Thursday
  {
    match (d + 3) % 7
    case 0 => Monday
    case 1 => Tuesday
    case 2 => Wednesday
    case 3 => Thursday
    case 4 => Friday
    case 5 => Saturday
    case _ => Sunday
  }

  /** The weekday after `w`, Sunday being followed by Monday. */
  function NextWeekday(w: Weekday): Weekday
  {
    match w
    case Monday => Tuesday
    case Tuesday => Wednesday
    case Wednesday => Thursday
    case Thursday => Friday
    case Friday => Saturday
    case Saturday => Sunday
    case Sunday => Monday
  }

  /** Consecutive days have consecutive weekdays; with day 0 a Thursday this fixes every weekday. */
  lemma WeekdaySuccessor(d: Day)
    ensures WeekdayOf(d + 1) == NextWeekday(WeekdayOf(d))
  {
    var q, r := (d + 3) / 7, (d + 3) % 7;
    if r < 6 {
      assert d + 1 + 3 == 7 * q + (r + 1);
    } else {
      assert d + 1 + 3 == 7 * (q + 1) + 0;
    }
  }

  /** Weekdays repeat every seven days. */
  lemma WeekdayPeriodic(d: Day)
    ensures WeekdayOf(d + 7) == WeekdayOf(d)
  {
    assert (d + 7 + 3) % 7 == (d + 3) % 7;
  }

  /** Every weekday comes round within any seven consecutive days. */
  lemma WeekdayWithinAWeek(d0: Day, w: Weekday) returns (k: int)
    ensures 0 <= k < 7 && WeekdayOf(d0 + k) == w
  {
    var target := match w
      case Monday => 0 case Tuesday => 1 case Wednesday => 2 case Thursday => 3
      case Friday => 4 case Saturday => 5 case Sunday => 6;
    var q, r := (d0 + 3) / 7, (d0 + 3) % 7;
    if r <= target {
      k := target - r;
      assert d0 + k + 3 == 7 * q + target;
    } else {
      k := target - r + 7;
      assert d0 + k + 3 == 7 * (q + 1) + target;
    }
    assert (d0 + k + 3) % 7 == target;
  }
}
