/**
 * The checks of the command-line `Run` closure of `getUserInput`: how the two
 * date arguments are read, the end-of-day adjustment of a date-only last
 * date, and the rules an accepted input satisfies.
 */
module UserInputs {
  import opened Outcomes
  import opened Text
  import opened Calendar
  import opened CivilTime

  /** The range of the `repet-interval` flag, a Go `uint32`. */
  type Uint32 = x: int | 0 <= x < 0x1_0000_0000

  /** `UserInput`; the repetition interval in whole seconds. */
  datatype UserInput = UserInput(
    firstDate: Instant,
    lastDate: Instant,
    from: string,
    to: string,
    telegramBotKey: string,
    telegramChatID: string,
    repetInterval: nat)

  /** The reasons for which the closure prints an error and exits, in the order they are checked. */
  datatype InputError =
    | FirstDateUnparsable
    | LastDateUnparsable
    | FirstNotBeforeLast
    | IntervalTooSmall
    | FromLength
    | ToLength
    | ChatIDMissing       // a bot key without a chat id
    | BotKeyMissing       // a chat id without a bot key

  /** The number of bytes of the UTF-8 encoding of `s`: what Go's `len` counts on a string. */
  function Utf8Length(s: string): (n: nat)
    ensures |s| <= n <= 4 * |s|
  {
    if s == [] then 0
    else
      var c := s[|s| - 1] as int;
      Utf8Length(s[..|s| - 1]) + (if c < 0x80 then 1 else if c < 0x800 then 2 else if c < 0x1_0000 then 3 else 4)
  }

  /** On ASCII text the byte length is the number of characters. */
  lemma {:induction false} Utf8LengthAscii(s: string)
    requires forall i :: 0 <= i < |s| ==> s[i] as int < 0x80
    ensures Utf8Length(s) == |s|
  {
    if s != [] {
      Utf8LengthAscii(s[..|s| - 1]);
    }
  }

  /** `last.AddDate(0, 0, 1).Add(-time.Second)`: from a midnight, the last second of the same day. */
  function EndOfDay(t: Instant): (r: Instant)
    ensures SecondOfDay(t) == 0 ==> DateOf(r) == DateOf(t) && SecondOfDay(r) == SecondsPerDay - 1
  {
    var r := AddDays(t, 1) - 1;
    LastSecondOfDay(t, r);
    r
  }

  lemma LastSecondOfDay(t: Instant, r: Instant)
    requires r == AddDays(t, 1) - 1
    ensures SecondOfDay(t) == 0 ==> DateOf(r) == DateOf(t) && SecondOfDay(r) == SecondsPerDay - 1
  {
    if SecondOfDay(t) == 0 {
      SecondsOfDay(t / SecondsPerDay, SecondsPerDay - 1, r);
    }
  }

  /** A date-only last date moves to 23:59:59 of the same day. */
  lemma EndOfDayOfDate(d: Date)
    requires ValidDate(d)
    ensures DateOf(EndOfDay(Midnight(d))) == d
    ensures SecondOfDay(EndOfDay(Midnight(d))) == SecondsPerDay - 1
    ensures FormatClock(EndOfDay(Midnight(d))) == "23:59:59"
  {
    InstantParts(d, SecondsPerDay - 1, EndOfDay(Midnight(d)));
    LastSecondClock();
  }

  lemma LastSecondClock()
    ensures FormatClock(SecondsPerDay - 1) == "23:59:59"
  {
    assert SecondOfDay(SecondsPerDay - 1) == 86399;
    assert PaddedInt(23, 2) == "23";
    assert PaddedInt(59, 2) == "59";
  }

  /** The first date: the date-time layout, else the date layout at midnight. */
  function ReadFirstDate(s: string): (r: Option<Instant>)
    ensures r.Some? <==> ParseDateTime(s).Some? || ParseDate(s).Some?
    ensures ParseDateTime(s).Some? ==> r == ParseDateTime(s)
    ensures ParseDateTime(s).None? && ParseDate(s).Some? ==> r == Some(Midnight(ParseDate(s).value))
  {
    match ParseDateTime(s)
    case Some(t) => Some(t)
    case None =>
      match ParseDate(s)
      case Some(d) => Some(Midnight(d))
      case None => None
  }

  /** The last date: the date-time layout as is, else the end of the day the date layout gives. */
  function ReadLastDate(s: string): (r: Option<Instant>)
    ensures r.Some? <==> ParseDateTime(s).Some? || ParseDate(s).Some?
    ensures ParseDateTime(s).Some? ==> r == ParseDateTime(s)
    ensures ParseDateTime(s).None? && ParseDate(s).Some? ==>
              r.Some? && DateOf(r.value) == ParseDate(s).value && SecondOfDay(r.value) == SecondsPerDay - 1
  {
    match ParseDateTime(s)
    case Some(t) => Some(t)
    case None =>
      match ParseDate(s)
      case Some(d) =>
        EndOfDayOfDate(d);
        Some(EndOfDay(Midnight(d)))
      case None => None
  }

  /** The rules every accepted input satisfies. */
  predicate Acceptable(u: UserInput)
  {
    && u.firstDate < u.lastDate
    && u.repetInterval >= 1
    && 2 <= Utf8Length(u.from) <= 5
    && 2 <= Utf8Length(u.to) <= 5
    && (u.telegramBotKey == "" <==> u.telegramChatID == "")
  }

  /** The `Run` closure: the first failing check in source order, or the input it stores. */
  function ReadUserInput(firstDate: string, lastDate: string, repetInterval: Uint32,
                         from: string, to: string, botKey: string, chatID: string): (r: Result<UserInput, InputError>)
    ensures r.Ok? <==>
              && ReadFirstDate(firstDate).Some? && ReadLastDate(lastDate).Some?
              && ReadFirstDate(firstDate).value < ReadLastDate(lastDate).value
              && repetInterval >= 1
              && 2 <= Utf8Length(from) <= 5 && 2 <= Utf8Length(to) <= 5
              && (botKey == "" <==> chatID == "")
    ensures r.Ok? ==>
              && Acceptable(r.value)
              && r.value == UserInput(ReadFirstDate(firstDate).value, ReadLastDate(lastDate).value,
                                      from, to, botKey, chatID, repetInterval)
    ensures r == Err(FirstDateUnparsable) <==> ReadFirstDate(firstDate).None?
  {
    match ReadFirstDate(firstDate)
    case None => Err(FirstDateUnparsable)
    case Some(first) =>
      match ReadLastDate(lastDate)
      case None => Err(LastDateUnparsable)
      case Some(last) =>
        if first > last || first == last then Err(FirstNotBeforeLast)
        else if repetInterval < 1 then Err(IntervalTooSmall)
        else if Utf8Length(from) > 5 || Utf8Length(from) < 2 then Err(FromLength)
        else if Utf8Length(to) > 5 || Utf8Length(to) < 2 then Err(ToLength)
        else if botKey != "" && chatID == "" then Err(ChatIDMissing)
        else if chatID != "" && botKey == "" then Err(BotKeyMissing)
        else Ok(UserInput(first, last, from, to, botKey, chatID, repetInterval))
  }

  /** Dates given without a time span whole days: midnight of the first to 23:59:59 of the last. */
  lemma DateOnlyRange(first: string, last: string, interval: Uint32,
                      from: string, to: string, botKey: string, chatID: string)
    requires ParseDateTime(first).None? && ParseDateTime(last).None?
    requires ParseDate(first).Some? && ParseDate(last).Some?
    requires ReadUserInput(first, last, interval, from, to, botKey, chatID).Ok?
    ensures var u := ReadUserInput(first, last, interval, from, to, botKey, chatID).value;
            && DateOf(u.firstDate) == ParseDate(first).value && SecondOfDay(u.firstDate) == 0
            && DateOf(u.lastDate) == ParseDate(last).value && SecondOfDay(u.lastDate) == SecondsPerDay - 1
  {
  }

  /** The same day as first and last date is accepted when both are given as dates: the day runs from midnight to 23:59:59. */
  lemma SameDayAccepted(s: string, interval: Uint32, from: string, to: string)
    requires ParseDateTime(s).None? && ParseDate(s).Some?
    requires interval >= 1 && 2 <= Utf8Length(from) <= 5 && 2 <= Utf8Length(to) <= 5
    ensures ReadUserInput(s, s, interval, from, to, "", "").Ok?
  {
    var d := ParseDate(s).value;
    EndOfDayOfDate(d);
  }
}
