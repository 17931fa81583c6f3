/**
 * Instants in UTC and the `time` layouts the bot formats and parses:
 * `2006-01-02`, `15:04:05` and `2006-01-02T15:04:05`.
 *
 * An instant is a whole number of seconds since 1970-01-01T00:00:00 UTC; every
 * time the program handles is parsed without a zone, hence in UTC, where a day
 * is always 86400 seconds.
 */
module CivilTime {
  import opened Outcomes
  import opened Text
  import opened Calendar

  /** Seconds since 1970-01-01T00:00:00 UTC. */
  type Instant = int

  const SecondsPerDay: int := 86400

  // ---- Instants ----------------------------------------------------------

  /** The UTC date of an instant (floor division: instants before 1970 fall on earlier days). */
  function DateOf(t: Instant): (d: Date)
    ensures ValidDate(d)
  {
    CivilFromDaysValid(t / SecondsPerDay);
    CivilFromDays(t / SecondsPerDay)
  }

  /** Seconds since the midnight that starts the instant's day. */
  function SecondOfDay(t: Instant): (s: int)
    ensures 0 <= s < SecondsPerDay
  {
    t % SecondsPerDay
  }

  /** The instant at 00:00:00 UTC of a date. */
  function Midnight(d: Date): (t: Instant)
    requires ValidDate(d)
    ensures DateOf(t) == d && SecondOfDay(t) == 0
  {
    DaysFromCivilInverse(d);
    DayStart(DaysFromCivil(d));
    DaysFromCivil(d) * SecondsPerDay
  }

  /** The first second of day number `n` lies on day `n`, at second 0 of it. */
  lemma DayStart(n: int)
    ensures (n * SecondsPerDay) / SecondsPerDay == n && (n * SecondsPerDay) % SecondsPerDay == 0
  {
  }

  /** `t.AddDate(0, 0, k)` for a UTC time: the same clock time `k` days later. */
  function AddDays(t: Instant, k: int): (r: Instant)
    ensures SecondOfDay(r) == SecondOfDay(t)
  {
    t + k * SecondsPerDay
  }

  /** One day later is the next calendar date at the same time of day. */
  lemma NextDayDate(t: Instant)
    ensures DateOf(AddDays(t, 1)) == NextDate(DateOf(t))
  {
    assert AddDays(t, 1) / SecondsPerDay == t / SecondsPerDay + 1;
    DayAfter(t / SecondsPerDay);
  }

  // ---- Formatting --------------------------------------------------------

  /** `Format("2006-01-02")`. */
  function FormatDate(d: Date): string
  {
    PaddedInt(d.year, 4) + "-" + PaddedInt(d.month, 2) + "-" + PaddedInt(d.day, 2)
  }

  /** `Format("15:04:05")`, the clock time of an instant. */
  function FormatClock(t: Instant): string
  {
    var s := SecondOfDay(t);
    PaddedInt(s / 3600, 2) + ":" + PaddedInt(s % 3600 / 60, 2) + ":" + PaddedInt(s % 60, 2)
  }

  /** `Format("2006-01-02T15:04:05")`. */
  function FormatDateTime(t: Instant): string
  {
    FormatDate(DateOf(t)) + "T" + FormatClock(t)
  }

  /** The shape of a date written for a four-digit year: `YYYY-MM-DD`, all digits but the dashes. */
  predicate IsDayString(s: string)
  {
    |s| == 10 && s[4] == '-' && s[7] == '-' && AllDigits(s[..4]) && AllDigits(s[5..7]) && AllDigits(s[8..])
  }

  lemma FormatDateShape(d: Date)
    requires ValidDate(d) && 0 <= d.year <= 9999
    ensures IsDayString(FormatDate(d))
  {
    var s := FormatDate(d);
    PaddedFour(d.year);
    PaddedTwo(d.month);
    PaddedTwo(d.day);
    assert s[..4] == PaddedInt(d.year, 4);
    assert s[5..7] == PaddedInt(d.month, 2);
    assert s[8..] == PaddedInt(d.day, 2);
  }

  /** A clock time is eight characters, the last of them a digit. */
  lemma FormatClockLength(t: Instant)
    ensures |FormatClock(t)| == 8 && IsDigit(FormatClock(t)[7])
  {
    FormatClockShape(t);
    assert FormatClock(t)[7] == FormatClock(t)[6..][1];
  }

  lemma FormatClockShape(t: Instant)
    ensures var s := FormatClock(t);
            && |s| == 8 && s[2] == ':' && s[5] == ':'
            && AllDigits(s[..2]) && AllDigits(s[3..5]) && AllDigits(s[6..])
            && DigitsValue(s[..2]) == SecondOfDay(t) / 3600
            && DigitsValue(s[3..5]) == SecondOfDay(t) % 3600 / 60
            && DigitsValue(s[6..]) == SecondOfDay(t) % 60
  {
    var s, sod := FormatClock(t), SecondOfDay(t);
    PaddedTwo(sod / 3600);
    PaddedTwo(sod % 3600 / 60);
    PaddedTwo(sod % 60);
    assert s[..2] == PaddedInt(sod / 3600, 2);
    assert s[3..5] == PaddedInt(sod % 3600 / 60, 2);
    assert s[6..] == PaddedInt(sod % 60, 2);
  }

  // ---- Parsing -----------------------------------------------------------

  /**
   * `time.Parse("2006-01-02", s)`: a four-digit year, two-digit month and
   * day, and a day that exists in that month; nothing may follow.
   */
  function ParseDate(s: string): (r: Option<Date>)
    ensures r.Some? ==> ValidDate(r.value) && 0 <= r.value.year <= 9999 && FormatDate(r.value) == s
  {
    if IsDayString(s) then
      var d := Date(DigitsValue(s[..4]), DigitsValue(s[5..7]), DigitsValue(s[8..]));
      if ValidDate(d) then
        FourDigitsCanonical(s[..4]);
        TwoDigitsCanonical(s[5..7]);
        TwoDigitsCanonical(s[8..]);
        assert s == s[..4] + "-" + s[5..7] + "-" + s[8..];
        Some(d)
      else None
    else None
  }

  lemma ClockFields(h: int, m: int, sec: int)
    requires 0 <= h < 24 && 0 <= m < 60 && 0 <= sec < 60
    ensures var c := h * 3600 + m * 60 + sec;
            0 <= c < SecondsPerDay && c / 3600 == h && c % 3600 / 60 == m && c % 60 == sec
  {
    var c := h * 3600 + m * 60 + sec;
    assert c % 3600 == m * 60 + sec;
    assert c % 60 == sec;
  }

  /** The `15:04:05` part of the date-time layout: hour 0..23, minute and second 0..59; the second of the day. */
  function ParseClock(s: string): (r: Option<int>)
    ensures r.Some? ==> 0 <= r.value < SecondsPerDay
  {
    if |s| == 8 && s[2] == ':' && s[5] == ':' && AllDigits(s[..2]) && AllDigits(s[3..5]) && AllDigits(s[6..]) then
      var h, m, sec := DigitsValue(s[..2]), DigitsValue(s[3..5]), DigitsValue(s[6..]);
      if h < 24 && m < 60 && sec < 60 then
        Some(h * 3600 + m * 60 + sec)
      else None
    else None
  }

  /** Whatever the clock parser accepts is written back exactly as it was read. */
  lemma ParseClockSound(s: string)
    ensures ParseClock(s).Some? ==> FormatClock(ParseClock(s).value) == s
  {
    if ParseClock(s).Some? {
      var h, m, sec := DigitsValue(s[..2]), DigitsValue(s[3..5]), DigitsValue(s[6..]);
      TwoDigitsCanonical(s[..2]);
      TwoDigitsCanonical(s[3..5]);
      TwoDigitsCanonical(s[6..]);
      ClockOfFields(h, m, sec);
      ClockPieces(s);
      assert ParseClock(s).value == h * 3600 + m * 60 + sec;
    }
  }

  lemma ClockPieces(s: string)
    requires |s| == 8 && s[2] == ':' && s[5] == ':'
    ensures s == s[..2] + ":" + s[3..5] + ":" + s[6..]
  {
  }

  /** The clock time of second `h * 3600 + m * 60 + sec` shows `h`, `m` and `sec`. */
  lemma ClockOfFields(h: int, m: int, sec: int)
    requires 0 <= h < 24 && 0 <= m < 60 && 0 <= sec < 60
    ensures FormatClock(h * 3600 + m * 60 + sec) == PaddedInt(h, 2) + ":" + PaddedInt(m, 2) + ":" + PaddedInt(sec, 2)
  {
    ClockFields(h, m, sec);
    SecondWithinDay(h * 3600 + m * 60 + sec);
  }

  /** The instant `t`, `c` seconds after the midnight of `d` for `c` within one day, lies on `d` at second `c`. */
  lemma InstantParts(d: Date, c: int, t: Instant)
    requires ValidDate(d) && 0 <= c < SecondsPerDay && t == Midnight(d) + c
    ensures DateOf(t) == d && SecondOfDay(t) == c
    ensures FormatClock(t) == FormatClock(c)
  {
    SecondsOfDay(DaysFromCivil(d), c, t);
    SecondWithinDay(c);
    DaysFromCivilInverse(d);
    SameClock(t, c);
  }

  /** Second `c` of day number `n`. */
  lemma SecondsOfDay(n: int, c: int, t: Instant)
    requires 0 <= c < SecondsPerDay && t == n * SecondsPerDay + c
    ensures t / SecondsPerDay == n && SecondOfDay(t) == c
  {
  }

  lemma SecondWithinDay(c: int)
    requires 0 <= c < SecondsPerDay
    ensures SecondOfDay(c) == c
  {
  }

  /** The clock time depends only on the second of the day. */
  lemma SameClock(a: Instant, b: Instant)
    requires SecondOfDay(a) == SecondOfDay(b)
    ensures FormatClock(a) == FormatClock(b)
  {
  }

  /** `time.Parse("2006-01-02T15:04:05", s)`, in the strict form described under `ParseClock`. */
  function ParseDateTime(s: string): Option<Instant>
  {
    if |s| == 19 && s[10] == 'T' then
      match ParseDate(s[..10])
      case None => None
      case Some(d) =>
        match ParseClock(s[11..])
        case None => None
        case Some(c) => Some(Midnight(d) + c)
    else None
  }

  /** Whatever the date-time parser accepts is written back exactly as it was read. */
  lemma ParseDateTimeSound(s: string)
    ensures ParseDateTime(s).Some? ==> FormatDateTime(ParseDateTime(s).value) == s
  {
    if ParseDateTime(s).Some? {
      ParseDateTimeValue(s);
      ParseClockSound(s[11..]);
      InstantParts(ParseDate(s[..10]).value, ParseClock(s[11..]).value, ParseDateTime(s).value);
      DateTimeOfHalves(ParseDateTime(s).value, s);
    }
  }

  /** An instant whose date and clock time are the two halves of `s` is written as `s`. */
  lemma DateTimeOfHalves(t: Instant, s: string)
    requires |s| == 19 && s[10] == 'T'
    requires FormatDate(DateOf(t)) == s[..10] && FormatClock(t) == s[11..]
    ensures FormatDateTime(t) == s
  {
    DateTimePieces(s);
  }

  lemma ParseDateTimeValue(s: string)
    requires ParseDateTime(s).Some?
    ensures |s| == 19 && s[10] == 'T' && ParseDate(s[..10]).Some? && ParseClock(s[11..]).Some?
    ensures ParseDateTime(s).value == Midnight(ParseDate(s[..10]).value) + ParseClock(s[11..]).value
  {
  }

  lemma DateTimePieces(s: string)
    requires |s| == 19 && s[10] == 'T'
    ensures s == s[..10] + "T" + s[11..]
  {
  }

  /** Formatting a date of a four-digit year and parsing it back gives the date. */
  lemma ParseFormatDate(d: Date)
    requires ValidDate(d) && 0 <= d.year <= 9999
    ensures ParseDate(FormatDate(d)) == Some(d)
  {
    var s := FormatDate(d);
    FormatDateShape(d);
    PaddedFour(d.year);
    PaddedTwo(d.month);
    PaddedTwo(d.day);
    assert s[..4] == PaddedInt(d.year, 4);
    assert s[5..7] == PaddedInt(d.month, 2);
    assert s[8..] == PaddedInt(d.day, 2);
  }

  /** Dates of four-digit years are written differently when they differ. */
  lemma FormatDateInjective(a: Date, b: Date)
    requires ValidDate(a) && 0 <= a.year <= 9999
    requires ValidDate(b) && 0 <= b.year <= 9999
    requires a != b
    ensures FormatDate(a) != FormatDate(b)
  {
    ParseFormatDate(a);
    ParseFormatDate(b);
  }

  lemma ParseFormatClock(t: Instant)
    ensures ParseClock(FormatClock(t)) == Some(SecondOfDay(t))
  {
    FormatClockShape(t);
    ParseClockOf(FormatClock(t), SecondOfDay(t));
  }

  /** A clock string whose fields are those of second `c` parses to `c`. */
  lemma ParseClockOf(s: string, c: int)
    requires 0 <= c < SecondsPerDay
    requires |s| == 8 && s[2] == ':' && s[5] == ':' && AllDigits(s[..2]) && AllDigits(s[3..5]) && AllDigits(s[6..])
    requires DigitsValue(s[..2]) == c / 3600 && DigitsValue(s[3..5]) == c % 3600 / 60 && DigitsValue(s[6..]) == c % 60
    ensures ParseClock(s) == Some(c)
  {
    ClockDecompose(c);
  }

  lemma ClockDecompose(c: int)
    requires 0 <= c < SecondsPerDay
    ensures c / 3600 < 24 && c % 3600 / 60 < 60 && c % 60 < 60
    ensures c == (c / 3600) * 3600 + (c % 3600 / 60) * 60 + c % 60
  {
  }

  /** Formatting an instant of a four-digit year and parsing it back gives the instant. */
  lemma ParseFormatDateTime(t: Instant)
    requires 0 <= DateOf(t).year <= 9999
    ensures ParseDateTime(FormatDateTime(t)) == Some(t)
  {
    DateTimeHalves(t);
    ParseFormatDate(DateOf(t));
    ParseFormatClock(t);
    MidnightOfInstant(t);
    ParseDateTimeParts(FormatDateTime(t), DateOf(t), SecondOfDay(t), t);
  }

  /** The date and the clock time sit either side of the `T`. */
  lemma DateTimeHalves(t: Instant)
    requires 0 <= DateOf(t).year <= 9999
    ensures var s := FormatDateTime(t);
            && |s| == 19 && s[10] == 'T' && s[..10] == FormatDate(DateOf(t)) && s[11..] == FormatClock(t)
  {
    FormatDateShape(DateOf(t));
    FormatClockShape(t);
  }

  /** An instant is its day's midnight plus its second of the day. */
  lemma MidnightOfInstant(t: Instant)
    ensures Midnight(DateOf(t)) + SecondOfDay(t) == t
  {
    CivilFromDaysInverse(t / SecondsPerDay);
  }

  /** A date-time string whose two halves parse is parsed to the instant they name. */
  lemma ParseDateTimeParts(s: string, d: Date, c: int, t: Instant)
    requires |s| == 19 && s[10] == 'T'
    requires ParseDate(s[..10]) == Some(d) && ParseClock(s[11..]) == Some(c) && Midnight(d) + c == t
    ensures ParseDateTime(s) == Some(t)
  {
  }
}
