# azal-bot, modelled in Dafny

azal-bot is a command-line bot that watches Azerbaijan Airlines (azal.az) for
one-way flights between two airports on a range of days. The user gives a
first and a last date or date-time, the two airport codes, an optional
Telegram bot key and chat ID, and a repetition interval. The bot first turns
the range into a list of `YYYY-MM-DD` day strings. Then, over and over, it
queries the flight search once per day and keeps every departure that falls
inside the inclusive `[FirstDate, LastDate]` window, grouped by day. When
Telegram is configured and at least one departure was found, it sends a
plain-text summary of the cycle.

The model follows `main.go` function by function:

| file | what it models |
|---|---|
| `responses.dfy` (`Responses`) | `handleErrorResponse`, the decision order of `sendRequest` once the body has been read, and how `startBot` treats each reply (error, warnings, `optionSets[0]`). |
| `request_config.dfy` (`RequestConfig`) | `HeaderConfig` and `QueryConfig` as classes holding one struct value each, with their in-place `setDefaults`. |
| `user_input.dfy` (`UserInputs`) | the acceptance checks of the command's `Run` closure, and the end-of-day adjustment of a date-only last date. |
| `days.dfy` (`Days`) | the loop in `main` that builds `botConfig.days`. |
| `notifications.dfy` (`Notifications`) | `sendTelegramFlightNotification`'s message building and `ifAvailableFunc`'s gating. |
| `bot.dfy` (`Bot`) | one cycle of `startBot`'s `for {}` loop, a bounded run of cycles, and `main`'s set-up. |
| `calendar.dfy`, `civil_time.dfy`, `text.dfy` (`Calendar`, `CivilTime`, `Text`) | support for the above: proleptic Gregorian dates, instants as integer seconds, and the `2006-01-02`/`15:04:05` layouts that the code uses. |

Instants are integer seconds since 1970-01-01T00:00:00 UTC. `time.Parse`
without a zone yields UTC, so `AddDate(0, 0, 1)` is exactly 86400 seconds.
Day numbers are converted to civil dates with the era/century/four-year
decomposition counted from 1 March. That conversion is proved to be a
bijection, and one day number on is proved to be the next calendar date.

Points where the model had to decide something:

- **The query timestamp is fixed for the whole process.** `startBot` calls
  `queryConf.setDefaults()` once, before the loop (main.go:469). The
  `Timestamp` default therefore comes from the clock once and is reused by
  every request of every cycle. The model follows that code.
- **A missing `optionSets[0]` is a crash.** `startBot` indexes
  `data.Search.OptionSets[0]` without a check (main.go:491). A reply with no
  warnings and no option sets ends the program with a runtime panic. The
  model gives this as the day outcome `NoOptionSet`. That outcome ends the
  cycle as `Panicked(day)`: no notification is sent and no later cycle runs.
- **The report order is left open.** Go visits the map in an unspecified
  order. `RenderFlightNotification` picks each next day arbitrarily and
  returns the order it used as a ghost result. Every message property is
  stated for any such order.
- **Each day keeps `FirstDate`'s clock time.** The day loop steps from that
  time (main.go:519). When the clock time of `FirstDate` is later than that of
  `LastDate`, the last calendar day of the range is not in the list
  (`Days.DayListLast`). A date-only last date always ends at 23:59:59, so it
  always reaches its own day (`Days.DayListEndsOnLastDay`).

## Model

| member | source | states |
|---|---|---|
| Responses.HandleErrorResponse | main.go:302-309 | The code `no.flights.available` gives exactly the sentinel error. Any other code gives an unknown error whose message is `unknown error: ` followed by that code verbatim. |
| Responses.SendRequest | main.go:311-350 | The result is a success shape exactly when the reply is a 200 whose body decodes three times and carries an empty error code. That success shape is then the decoded one. A known or unknown error comes only from a decodable 200 body and equals what `handleErrorResponse` makes of its code. |
| Responses.Classify | main.go:477-491 | A day fails exactly when `sendRequest` errs, keeping its error. A day is "warned" exactly when the success shape has warnings. It has no option set exactly when there are no warnings and `optionSets` is empty. Otherwise its flights are the options of `optionSets[0]`. |
| Responses.ErrorCodeWins | main.go:342-344 | A 200 body with a non-empty error code is classified by that code alone, whatever its success shape holds. |
| Responses.WarningsHideOptions | main.go:487-490 | When warnings are present, replacing the option sets does not change the classification. |
| RequestConfig.HeaderDefault | main.go:187-224 | Every header except `Referer` has a default, and each default is non-empty. |
| RequestConfig.HeaderDefaultsField | main.go:187-224 | After defaulting, each header holds its old value when that was non-empty and otherwise its default. |
| RequestConfig.HeaderDefaultsKeep | main.go:187-224 | A non-empty header, and `Referer` always, is left unchanged. |
| RequestConfig.HeaderDefaultsFillAll | main.go:187-224 | After defaulting, every header but `Referer` is non-empty. |
| RequestConfig.HeaderDefaultsIdempotent | main.go:187-224 | Defaulting twice is the same as defaulting once. |
| RequestConfig.HeaderConfig.SetDefaults | main.go:187-224 | The header struct is replaced by its defaulted value, and nothing else changes. |
| RequestConfig.HeaderConfig.constructor | main.go:470 | A fresh `HeaderConfig{}` has every field empty. |
| RequestConfig.MillisecondsTruncate | main.go:274 | `unixNano / 1e6` truncates toward zero, as Go's integer division does, for negative clocks too. |
| RequestConfig.QueryDefault | main.go:254-285 | Exactly `From`, `To` and `DepartureDate` have no default, and each default is non-empty. |
| RequestConfig.QueryDefaultsField | main.go:254-285 | After defaulting, each parameter holds its old value when that was non-empty and otherwise its default. |
| RequestConfig.QueryDefaultsKeep | main.go:254-285 | A non-empty parameter, and `From`, `To` and `DepartureDate` always, is left unchanged. |
| RequestConfig.QueryDefaultsIdempotent | main.go:254-285 | Defaulting a second time, at any clock reading, changes nothing, the timestamp included. |
| RequestConfig.QueryTimestamp | main.go:273-275 | An empty timestamp becomes the decimal text of the clock in milliseconds. |
| RequestConfig.QueryConfig.constructor | main.go:465-468 | The query starts with only `From` and `To` set. |
| RequestConfig.QueryConfig.SetDefaults | main.go:254-285 | The query struct is replaced by its defaulted value at the given clock reading, and nothing else changes. |
| RequestConfig.QueryConfig.SetDepartureDate | main.go:476 | Only `DepartureDate` changes, to the given day. |
| UserInputs.Utf8Length | main.go:399-408 | Go's `len` of a string counts UTF-8 bytes: between one and four per character. |
| UserInputs.Utf8LengthAscii | main.go:399-408 | For ASCII text, the byte length is the character count. |
| UserInputs.EndOfDay | main.go:386-387 | From a midnight, one day later minus one second is the last second, 23:59:59 in seconds, of the same date. |
| UserInputs.EndOfDayOfDate | main.go:378-388 | A date-only last date becomes 23:59:59 of that same date. |
| UserInputs.ReadFirstDate | main.go:369-377 | The first date parses when either layout parses. The date-time layout is tried first, and a date-only value means midnight. |
| UserInputs.ReadLastDate | main.go:378-388 | The last date parses when either layout parses. The date-time layout is tried first, and a date-only value means the last second of that day. |
| UserInputs.ReadUserInput | main.go:368-431 | The input is accepted exactly when both dates parse, first is strictly before last, the interval is at least 1, `from` and `to` are 2 to 5 bytes, and the bot key and chat ID are both set or both empty. An accepted input carries those values unchanged. An unparsable first date is reported as that error, before any other check. |
| UserInputs.DateOnlyRange | main.go:369-388 | With two date-only dates, the range runs from midnight of the first to 23:59:59 of the last. |
| UserInputs.SameDayAccepted | main.go:386-393 | The same date given twice, without clock times, is an accepted one-day range. |
| Days.DayList | main.go:519-521 | One day string per step. |
| Days.DayCountSteps | main.go:519 | Step `k` is in the list exactly when `FirstDate` plus `k` days is not after `LastDate`. |
| Days.BuildDays | main.go:519-521 | The loop appends exactly the day list, in step order. |
| Days.DayListFirst | main.go:519-520 | A non-empty range starts with `FirstDate`'s own date. |
| Days.DayListConsecutive | main.go:519-520 | Consecutive entries are consecutive calendar dates. |
| Days.DayListDistinct | main.go:519-520 | For four-digit years, no day string appears twice. |
| Days.DayListLast | main.go:519-520 | The last entry is `LastDate`'s date when `FirstDate`'s clock time is not later than `LastDate`'s, and the day before it otherwise. |
| Days.DayListEndsOnLastDay | main.go:519-520 | When `LastDate` is 23:59:59, the list ends on its date. |
| Bot.InWindowInclusive | main.go:493-494 | The departure test is `first <= t <= last`, and both ends are accepted. |
| Bot.Accepted | main.go:491-501 | The accepted times are inside the window, and there are no more of them than options. |
| Bot.AcceptedMembership | main.go:491-501 | A time is accepted exactly when it is inside the window and is some option's departure. |
| Bot.AcceptedAppend | main.go:491-501 | Filtering keeps response order: options split in two yield their accepted times in sequence. |
| Bot.AcceptedOnlyDepartures | main.go:491-501 | Only departures matter: the `Available` flag, `id` and route id are never consulted. |
| Bot.DayFlights | main.go:478-501 | A failed, warned or crashed day contributes nothing. A day with flights contributes its accepted times. |
| Bot.Collect | main.go:496 | Only that day's entry changes. It gains the times in order, and the day becomes a key only if a time was added. |
| Bot.CyclePanics | main.go:474-502 | A cycle crashes exactly when some day has no option set, and it crashes at the first such day. Failed or warned days never abort the cycle. |
| Bot.CycleKeys | main.go:474-502 | In a completed cycle, a day is a key exactly when some visit of it accepted a departure. |
| Bot.CycleDayTimes | main.go:474-502 | With distinct days, each day's times are exactly its accepted departures, in response order. |
| Bot.CycleInWindow | main.go:491-501 | Every time in a completed cycle's report lies inside the window. |
| Bot.CollectDay | main.go:491-501 | The option loop adds to the report exactly the accepted times of that day. |
| Bot.PollDay | main.go:476-501 | Sets the query's departure date to the day and sends that query. Classifies the reply, and adds that day's accepted times unless the day crashes. |
| Bot.VisitDays | main.go:474-502 | Visits the days in order and ends as the cycle function says. All days are requested when it completes, and days up to the crashing one when it crashes. |
| Bot.PollCycle | main.go:474-505 | One full cycle: the map starts empty, days are visited in order, and a completed cycle calls the notifier once on its report. A crashed cycle sends nothing. |
| Bot.RunCycles | main.go:473-507 | Runs cycle after cycle from the same base query. Every cycle but the last completed, and it stops early only after a crash. Afterwards the query differs from the one it started with in at most its departure date. |
| Bot.StartBot | main.go:464-508 | The headers get their defaults. The query gets `From`, `To` and defaults at one clock reading, and then the cycles run as `RunCycles` says. |
| Bot.Start | main.go:510-545 | `main`'s set-up: the configuration with the day list. The notifier is Telegram exactly when a bot key is given, otherwise nothing is sent. Then the bot runs. |
| Notifications.RenderFlightNotification | main.go:87-96 | The message is the title, then each day's block in the chosen order of the map's keys, with exactly the final character dropped. |
| Notifications.AppendTimeLines | main.go:91-93 | The inner loop appends one `HH:MM:SS` line per departure, in list order. |
| Notifications.Notify | main.go:533-538 | A post is made exactly when Telegram is configured and the report is non-empty. It goes to the bot's `sendMessage` URL with the chat ID, the rendered text and `HTML` parse mode. |
| Notifications.BlockOfDay | main.go:89-95 | Every day of the map appears as its own block: `day`, the rule line, its time lines and a blank line. |
| Notifications.TimeLinesLayout | main.go:91-93 | Every time line is nine characters, and line `k` is the `k`th departure's `HH:MM:SS` and a newline. |
| Notifications.DroppedNewline | main.go:96 | Putting one newline back gives the untruncated message. |
| Notifications.NoTrailingBlankLine | main.go:94-96 | A non-empty report's message ends in a single newline, with no trailing blank line. |
| Notifications.OneDayMessage | main.go:87-96 | A one-day report renders as the title, the day, the rule and its time lines. |
| Text.FormatIntDigits | main.go:274 | `%d` prints a natural number as its decimal digits, and a negative one as a minus sign before them. |
| Text.DecimalRoundTrip | main.go:274 | The decimal digits of `n` read back as `n`. |
| CivilTime.ParseFormatDate | main.go:369-388 | A `2006-01-02` rendering parses back to its date under the date-only layout of the two date flags; the same rendering names each day at main.go:520. |
| CivilTime.FormatDateInjective | main.go:520 | Distinct dates with four-digit years render differently. |
| CivilTime.ParseFormatClock | main.go:369-388 | A `15:04:05` rendering, the clock half of the date-time layout tried first for both date flags, parses back to the second of the day. |
| CivilTime.ParseClockSound | main.go:369-388 | A clock half accepted by the date-time layout re-renders, as `Format("15:04:05")` at main.go:92 does, to the same text. |
| CivilTime.ParseFormatDateTime | main.go:136-146 | A `2006-01-02T15:04:05` rendering of an instant in a four-digit year parses back to that instant. |
| CivilTime.ParseDateTimeSound | main.go:136-146 | A parsed date-time re-renders as the same text. |
| CivilTime.Midnight | main.go:369-377 | The instant a date-only value parses to lies on that date, at second 0 of it. |
| CivilTime.ParseDate | main.go:369-388 | A string the `2006-01-02` layout accepts names a valid date with a four-digit year, and it is exactly that date's rendering. |
| CivilTime.ParseClock | main.go:136-146 | The clock half of the `2006-01-02T15:04:05` layout, used by `ResponseTime` and both date flags, gives a second within the day. |
| CivilTime.NextDayDate | main.go:519 | `AddDate(0, 0, 1)` moves to the next calendar date. |
| CivilTime.AddDays | main.go:519 | Stepping by days keeps the clock time. |
| Calendar.DaysFromCivilInverse | main.go:519-520 | Converting a valid date to a day number and back gives the date. |
| Calendar.CivilFromDaysInverse | main.go:519-520 | Every day number names a valid date whose day number it is. |
| Calendar.NextDateIsNextDay | main.go:519 | The next calendar date has the next day number. This covers months and years of every length, February 29 included. |

## Left out

- HTTP transport is not modelled: `http.NewRequest`, `client.Do`, reading the body, and the Telegram request in `sendTelegramMessage`. A day's exchange is the input `Reply`, and a notification is the `Post` value it would send. What the send returns is only logged.
- JSON decoding is not modelled. The three `json.Unmarshal` results are given as already decoded, each as success or an error message.
- `ResponseTime.UnmarshalJSON` is not modelled, except for its `2006-01-02T15:04:05` layout, which the date-time parser covers.
- `setToRequest` (reflection over struct tags) and URL query encoding are not modelled. Requests are returned as the `Query` values the code would encode.
- The header set is built once and is not attached to each request.
- `time.Now()` is the parameter `unixNano`.
- `time.Sleep` is not modelled, and `repetInterval` only travels in the configuration.
- The endless `for {}` becomes the input `rounds`, one list of replies per cycle. A run is as long as that list, or stops at the first crashing cycle.
- cobra flag parsing, `MarkFlagRequired`, the help and version output, `os.Exit`, the flags' default of 60 seconds, and the conversion of the interval to `time.Duration` are not modelled. The bot takes the values after acceptance.
- ANSI colours and all `log.Println` output are not modelled. A failed day's error only reaches the log, so its outcome is kept and nothing else.
- `sendTelegramStartNotification` is not modelled: it formats the configuration with Go's `Duration.String`, and its delivery is I/O.
- CivilTime.ParseClock: accepts only two-digit fields, while Go's `15` layout also accepts a one-digit hour. Go also accepts a fractional second after the `05` field. Neither is modelled.
- UserInputs.Utf8Length: every `char` is a Unicode scalar value, so Go's length of an invalid UTF-8 string is not modelled.
- Instants, day numbers and the millisecond timestamp are unbounded integers, so the `int64` range of `time.Time` and `UnixNano` is not modelled.
- The index-out-of-range panic at `OptionSets[0]` is the `Panicked` cycle outcome. Go's stack trace and exit status are not modelled.
