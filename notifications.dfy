/**
 * The flight notification: the text `sendTelegramFlightNotification` builds
 * from the day-to-departures map, and the `ifAvailableFunc` wrapper that
 * decides whether a message goes out at all.
 *
 * Go visits the map in an unspecified order. The rendering method picks each
 * next day arbitrarily and reports the order it used as a ghost result; every
 * property below holds for whatever order that is.
 */
module Notifications {
  import opened Outcomes
  import opened Text
  import opened CivilTime

  /** `AvialableFlights`: the departures found, per day string. */
  type Report = map<string, seq<Instant>>

  const Title: string := "Azal Bot\n\n"
  const Rule: string := "\n-----------\n"

  /** The concatenation of `parts`, in order. */
  function Join(parts: seq<string>): string
  {
    if parts == [] then "" else Join(parts[..|parts| - 1]) + parts[|parts| - 1]
  }

  lemma Associate(a: string, b: string, c: string)
    ensures a + b + c == a + (b + c)
  {
  }

  lemma {:induction false} JoinAppend(a: seq<string>, b: seq<string>)
    ensures Join(a + b) == Join(a) + Join(b)
  {
    if b == [] {
      assert a + b == a;
    } else {
      var n := |b| - 1;
      var c := a + b;
      assert c[..|c| - 1] == a + b[..n] && c[|c| - 1] == b[n];
      JoinAppend(a, b[..n]);
      assert Join(c) == (Join(a) + Join(b[..n])) + b[n];
      assert Join(b) == Join(b[..n]) + b[n];
      Associate(Join(a), Join(b[..n]), b[n]);
    }
  }

  lemma JoinSnoc(parts: seq<string>, last: string)
    ensures Join(parts + [last]) == Join(parts) + last
  {
    assert (parts + [last])[..|parts|] == parts;
  }

  /** One `HH:MM:SS` line per departure, in list order. */
  function TimeLines(ts: seq<Instant>): (lines: seq<string>)
    ensures |lines| == |ts|
  {
    seq(|ts|, k requires 0 <= k < |ts| => FormatClock(ts[k]) + "\n")
  }

  /** The text one day contributes: its heading, its departures, then an empty line. */
  function Block(day: string, ts: seq<Instant>): string
  {
    day + Rule + Join(TimeLines(ts)) + "\n"
  }

  /** `order` lists every day of the report exactly once. */
  ghost predicate IsOrdering(order: seq<string>, report: Report)
  {
    && (forall i, j :: 0 <= i < j < |order| ==> order[i] != order[j])
    && (forall d :: d in order <==> d in report)
  }

  /** The blocks of the days of `order`, one per day, in that order. */
  function Blocks(report: Report, order: seq<string>): (blocks: seq<string>)
    requires forall d :: d in order ==> d in report
    ensures |blocks| == |order|
  {
    seq(|order|, i requires 0 <= i < |order| => Block(order[i], report[order[i]]))
  }

  /** The notification text for the days taken in `order`: everything built, less its final character. */
  function FlightMessage(report: Report, order: seq<string>): string
    requires forall d :: d in order ==> d in report
  {
    var full := Title + Join(Blocks(report, order));
    full[..|full| - 1]
  }

  // ---- Properties of the text ---------------------------------------------


  /** One more departure adds its line at the end. */
  lemma TimeLinesSnoc(ts: seq<Instant>, j: nat)
    requires j < |ts|
    ensures Join(TimeLines(ts[..j + 1])) == Join(TimeLines(ts[..j])) + (FormatClock(ts[j]) + "\n")
  {
    var longer, shorter, line := TimeLines(ts[..j + 1]), TimeLines(ts[..j]), FormatClock(ts[j]) + "\n";
    forall k | 0 <= k <= j
      ensures longer[k] == (shorter + [line])[k]
    {
      assert ts[..j + 1][k] == ts[k];
      if k < j {
        assert ts[..j][k] == ts[k];
      }
    }
    assert longer == shorter + [line];
    JoinSnoc(shorter, line);
  }

  /** One more day adds its block at the end. */
  lemma BlocksSnoc(report: Report, order: seq<string>, day: string)
    requires forall d :: d in order ==> d in report
    requires day in report
    ensures Join(Blocks(report, order + [day])) == Join(Blocks(report, order)) + Block(day, report[day])
  {
    var bs := Blocks(report, order + [day]);
    assert bs[..|order|] == Blocks(report, order) by {
      forall i | 0 <= i < |order|
        ensures bs[i] == Blocks(report, order)[i]
      {
        assert (order + [day])[i] == order[i];
      }
    }
    assert bs[|order|] == Block(day, report[day]) by {
      assert (order + [day])[|order|] == day;
    }
    assert bs == Blocks(report, order) + [Block(day, report[day])];
    JoinSnoc(Blocks(report, order), Block(day, report[day]));
  }

  /** Every part is nine characters long. */
  predicate NineWide(parts: seq<string>)
  {
    forall i :: 0 <= i < |parts| ==> |parts[i]| == 9
  }

  /** Joined nine-character parts: nine characters each, the `k`-th part at offset `9 * k`. */
  lemma {:induction false} JoinNineWide(parts: seq<string>, k: int)
    requires NineWide(parts) && 0 <= k < |parts|
    ensures |Join(parts)| == 9 * |parts|
    ensures Join(parts)[9 * k..9 * k + 9] == parts[k]
  {
    var n := |parts| - 1;
    var init := parts[..n];
    assert NineWide(init) by {
      forall i | 0 <= i < |init|
        ensures |init[i]| == 9
      {
        assert init[i] == parts[i];
      }
    }
    assert Join(parts) == Join(init) + parts[n];
    if k < n {
      JoinNineWide(init, k);
      SliceLeft(Join(init), parts[n], 9 * k, 9 * k + 9);
      assert init[k] == parts[k];
    } else {
      if n == 0 {
        assert init == [];
      } else {
        JoinNineWide(init, 0);
      }
      assert k == n;
      SliceRight(Join(init), parts[n], 9 * k, 9 * k + 9);
    }
  }

  /** Each time line is `HH:MM:SS` and a newline: nine characters. */
  lemma TimeLinesNineWide(ts: seq<Instant>)
    ensures NineWide(TimeLines(ts))
  {
    forall i | 0 <= i < |ts|
      ensures |TimeLines(ts)[i]| == 9
    {
      FormatClockLength(ts[i]);
    }
  }

  /** Every departure gives one nine-character line, `HH:MM:SS` and a newline, in list order. */
  lemma TimeLinesLayout(ts: seq<Instant>)
    ensures |Join(TimeLines(ts))| == 9 * |ts|
    ensures forall k :: 0 <= k < |ts| ==> Join(TimeLines(ts))[9 * k..9 * k + 9] == FormatClock(ts[k]) + "\n"
  {
    TimeLinesNineWide(ts);
    if ts != [] {
      JoinNineWide(TimeLines(ts), 0);
    }
    forall k | 0 <= k < |ts|
      ensures Join(TimeLines(ts))[9 * k..9 * k + 9] == FormatClock(ts[k]) + "\n"
    {
      JoinNineWide(TimeLines(ts), k);
    }
  }

  lemma SliceLeft(a: string, b: string, i: int, j: int)
    requires 0 <= i <= j <= |a|
    ensures (a + b)[i..j] == a[i..j]
  {
  }

  lemma SliceRight(a: string, b: string, i: int, j: int)
    requires i == |a| && j == |a| + |b|
    ensures (a + b)[i..j] == b
  {
  }

  /**
   * The text built before the final character is dropped: the title, then
   * for the `i`-th day of the order its complete block, preceded by the blocks
   * of the days before it and followed by those of the days after it.
   */
  lemma BlockOfDay(report: Report, order: seq<string>, i: nat)
    requires IsOrdering(order, report) && i < |order|
    ensures Join(Blocks(report, order))
              == Join(Blocks(report, order[..i])) + Block(order[i], report[order[i]]) + Join(Blocks(report, order[i + 1..]))
  {
    var before, after := order[..i], order[i + 1..];
    assert order == before + [order[i]] + after;
    BlocksAppend(report, before + [order[i]], after);
    BlocksAppend(report, before, [order[i]]);
    var one := Blocks(report, [order[i]]);
    assert one == [Block(order[i], report[order[i]])];
    JoinAppend(Blocks(report, before) + one, Blocks(report, after));
    JoinAppend(Blocks(report, before), one);
    assert Join(one) == one[0] by {
      assert one[..0] == [];
    }
  }

  /** The blocks of two runs of days are the blocks of the first run followed by those of the second. */
  lemma BlocksAppend(report: Report, a: seq<string>, b: seq<string>)
    requires forall d :: d in a + b ==> d in report
    ensures Blocks(report, a + b) == Blocks(report, a) + Blocks(report, b)
  {
    assert forall d :: d in a ==> d in a + b;
    assert forall d :: d in b ==> d in a + b;
    var x, y, z := Blocks(report, a + b), Blocks(report, a), Blocks(report, b);
    forall k | 0 <= k < |x|
      ensures x[k] == (y + z)[k]
    {
      if k < |a| {
        assert (a + b)[k] == a[k];
      } else {
        assert (a + b)[k] == b[k - |a|];
      }
    }
  }

  /** The last three characters of `p + t + "\n"`: the newline, then the end of `t`, or of `p` when `t` is empty. */
  lemma EndOfLine(p: string, t: string)
    requires |t| >= 2 || (|t| == 0 && |p| >= 2)
    ensures var b := p + t + "\n";
            && |b| >= 3 && b[|b| - 1] == '\n'
            && (|t| >= 2 ==> b[|b| - 2] == t[|t| - 1] && b[|b| - 3] == t[|t| - 2])
            && (|t| == 0 ==> b[|b| - 2] == p[|p| - 1] && b[|b| - 3] == p[|p| - 2])
  {
  }

  /** A block ends with the newline of its last line and then the empty line; the character before is not a newline. */
  lemma BlockEnd(day: string, ts: seq<Instant>)
    ensures var b := Block(day, ts);
            |b| >= 3 && b[|b| - 1] == '\n' && b[|b| - 2] == '\n' && b[|b| - 3] != '\n'
  {
    var t := Join(TimeLines(ts));
    TimeLinesLayout(ts);
    EndOfLine(day + Rule, t);
    if ts != [] {
      var k := |ts| - 1;
      FormatClockLength(ts[k]);
      var line := t[9 * k..9 * k + 9];
      assert line == FormatClock(ts[k]) + "\n";
      assert line[8] == '\n' && line[7] == FormatClock(ts[k])[7];
      assert t[|t| - 1] == line[8] && t[|t| - 2] == line[7];
    }
  }

  /** The dropped character is the final newline: the message plus "\n" is the text built. */
  lemma DroppedNewline(report: Report, order: seq<string>)
    requires forall d :: d in order ==> d in report
    ensures FlightMessage(report, order) + "\n" == Title + Join(Blocks(report, order))
  {
    var bs := Blocks(report, order);
    var full := Title + Join(bs);
    if order != [] {
      var n := |order| - 1;
      BlockEnd(order[n], report[order[n]]);
      assert Join(bs) == Join(bs[..n]) + bs[n];
    }
    assert full[|full| - 1] == '\n';
  }

  /** A message with at least one day ends in exactly one newline: the trailing empty line is gone. */
  lemma NoTrailingBlankLine(report: Report, order: seq<string>)
    requires IsOrdering(order, report) && |report| > 0
    ensures var m := FlightMessage(report, order);
            |m| >= 2 && m[|m| - 1] == '\n' && m[|m| - 2] != '\n'
  {
    var day :| day in report;
    assert day in order;
    var bs := Blocks(report, order);
    var n := |order| - 1;
    var b := bs[n];
    BlockEnd(order[n], report[order[n]]);
    assert Join(bs) == Join(bs[..n]) + b;
    var full := Title + Join(bs);
    assert full[|full| - 2] == b[|b| - 2] && full[|full| - 3] == b[|b| - 3];
  }

  // ---- Rendering and gating -------------------------------------------------

  /** The inner loop of `sendTelegramFlightNotification`: one `HH:MM:SS` line per departure, appended in list order. */
  method AppendTimeLines(message: string, flights: seq<Instant>) returns (m: string)
    ensures m == message + Join(TimeLines(flights))
  {
    m := message;
    var j := 0;
    while j < |flights|
      invariant 0 <= j <= |flights|
      invariant m == message + Join(TimeLines(flights[..j]))
    {
      TimeLinesSnoc(flights, j);
      Associate(message, Join(TimeLines(flights[..j])), FormatClock(flights[j]) + "\n");
      m := m + (FormatClock(flights[j]) + "\n");
      j := j + 1;
    }
    assert flights[..j] == flights;
  }

  /** `sendTelegramFlightNotification`'s message building: nested loops appending to `message`, then the truncation. */
  method RenderFlightNotification(report: Report) returns (message: string, ghost order: seq<string>)
    ensures IsOrdering(order, report)
    ensures message == FlightMessage(report, order)
  {
    message := Title;
    order := [];
    var rest := report.Keys;
    while rest != {}
      invariant forall d :: d in report <==> d in rest || d in order
      invariant forall d :: d in rest ==> d !in order
      invariant forall i, j :: 0 <= i < j < |order| ==> order[i] != order[j]
      invariant message == Title + Join(Blocks(report, order))
      decreases |rest|
    {
      var day :| day in rest;
      var flights := report[day];
      ghost var before := message;
      message := AppendTimeLines(message + (day + Rule), flights);
      message := message + "\n";
      Associate(before, day + Rule + Join(TimeLines(flights)), "\n");
      Associate(before, day + Rule, Join(TimeLines(flights)));
      BlocksSnoc(report, order, day);
      Associate(Title, Join(Blocks(report, order)), Block(day, report[day]));
      order := order + [day];
      rest := rest - {day};
    }
    message := message[..|message| - 1];
  }

  /** Where notifications go: nowhere, or a Telegram chat. */
  datatype Notifier = Silent | Telegram(botKey: string, chatID: string)

  /** The `sendMessage` call `sendTelegramMessage` makes: its URL and its three query parameters. */
  datatype Post = Post(url: string, chatID: string, text: string, parseMode: string)

  /** `TelegramAPIURL` with the bot key substituted for `%s`. */
  function SendMessageURL(botKey: string): string
  {
    "https://api.telegram.org/bot" + botKey + "/sendMessage"
  }

  /**
   * What one call of `ifAvailableFunc` sends: with no Telegram configuration
   * nothing, and with one, a message exactly when some day has flights,
   * carrying the text rendered in `order`.
   */
  ghost predicate Notified(notifier: Notifier, report: Report, post: Option<Post>, order: seq<string>)
  {
    && (post.None? <==> notifier.Silent? || |report| == 0)
    && (post.Some? ==>
          && IsOrdering(order, report)
          && post.value == Post(SendMessageURL(notifier.botKey), notifier.chatID, FlightMessage(report, order), "HTML"))
  }

  /** `ifAvailableFunc`; what the send returns is only logged, so it is not a result here. */
  method Notify(notifier: Notifier, report: Report) returns (post: Option<Post>, ghost order: seq<string>)
    ensures Notified(notifier, report, post, order)
  {
    post, order := None, [];
    if notifier.Telegram? && |report| > 0 {
      var message;
      message, order := RenderFlightNotification(report);
      post := Some(Post(SendMessageURL(notifier.botKey), notifier.chatID, message, "HTML"));
    }
  }

  /** A single day's message is the title, the day's heading and its time lines: of its block only the empty line is dropped. */
  lemma OneDayMessage(day: string, ts: seq<Instant>)
    ensures FlightMessage(map[day := ts], [day]) == Title + (day + Rule + Join(TimeLines(ts)))
  {
    var c := day + Rule + Join(TimeLines(ts));
    OneDayBlocks(day, ts);
    Associate(Title, c, "\n");
    DropLast(Title + c, '\n');
  }

  lemma OneDayBlocks(day: string, ts: seq<Instant>)
    ensures Join(Blocks(map[day := ts], [day])) == Block(day, ts)
  {
    assert Blocks(map[day := ts], [day]) == [] + [Block(day, ts)];
    JoinSnoc([], Block(day, ts));
  }

  lemma DropLast(s: string, c: char)
    ensures (s + [c])[..|s|] == s
  {
  }
}
