/**
 * The bot itself: one poll cycle of `startBot` (every configured day queried
 * in order, the departures inside the date window collected per day, the
 * notifier called once), the repetition of cycles, and the set-up `main`
 * does before the first cycle.
 *
 * The HTTP exchange is not modelled: each cycle receives the replies of its
 * requests, one per day, as an input, and returns the requests it made.
 */
module Bot {
  import opened Outcomes
  import opened CivilTime
  import opened Responses
  import opened RequestConfig
  import opened Notifications
  import opened Days
  import opened UserInputs

  // ---- The date window -----------------------------------------------------

  /** `FirstDate` and `LastDate` of the bot's configuration. */
  datatype Window = Window(first: Instant, last: Instant)

  /** The departure test of `startBot`: after or equal to the first date, and before or equal to the last. */
  predicate InWindow(t: Instant, w: Window)
  {
    (t > w.first || t == w.first) && (t < w.last || t == w.last)
  }

  /** The window is closed at both ends. */
  lemma InWindowInclusive(t: Instant, w: Window)
    ensures InWindow(t, w) <==> w.first <= t <= w.last
    ensures InWindow(w.first, w) <==> w.first <= w.last
    ensures InWindow(w.last, w) <==> w.first <= w.last
  {
  }

  /** The departures of `options` inside the window, in option order; nothing else of an option is looked at. */
  function Accepted(options: seq<FlightOption>, w: Window): (ts: seq<Instant>)
    ensures |ts| <= |options|
    ensures forall k :: 0 <= k < |ts| ==> InWindow(ts[k], w)
  {
    if options == [] then []
    else
      var n := |options| - 1;
      var t := options[n].departure;
      Accepted(options[..n], w) + (if InWindow(t, w) then [t] else [])
  }

  /** Accepting one more option appends its departure exactly when it lies in the window. */
  lemma AcceptedSnoc(options: seq<FlightOption>, j: nat, w: Window)
    requires j < |options|
    ensures Accepted(options[..j + 1], w)
              == Accepted(options[..j], w) + (if InWindow(options[j].departure, w) then [options[j].departure] else [])
  {
    assert options[..j + 1][..j] == options[..j];
  }

  /** Filtering two lists one after the other is filtering their concatenation: the response order is kept. */
  lemma {:induction false} AcceptedAppend(a: seq<FlightOption>, b: seq<FlightOption>, w: Window)
    ensures Accepted(a + b, w) == Accepted(a, w) + Accepted(b, w)
  {
    if b == [] {
      assert a + b == a;
    } else {
      var n := |b| - 1;
      assert (a + b)[..|a + b| - 1] == a + b[..n];
      AcceptedAppend(a, b[..n], w);
    }
  }

  /** A departure is accepted exactly when some option has it and it lies in the window. */
  lemma {:induction false} AcceptedMembership(options: seq<FlightOption>, w: Window, t: Instant)
    ensures t in Accepted(options, w) <==> InWindow(t, w) && exists i :: 0 <= i < |options| && options[i].departure == t
  {
    if options != [] {
      var n := |options| - 1;
      AcceptedMembership(options[..n], w, t);
      if exists i :: 0 <= i < |options| && options[i].departure == t {
        var i :| 0 <= i < |options| && options[i].departure == t;
        if i < n {
          assert options[..n][i] == options[i];
        }
      }
      if exists i :: 0 <= i < n && options[..n][i].departure == t {
        var i :| 0 <= i < n && options[..n][i].departure == t;
        assert options[i] == options[..n][i];
      }
    }
  }

  /** The `Available` flag, the identifier and the route identifier play no part: only departures count. */
  lemma {:induction false} AcceptedOnlyDepartures(a: seq<FlightOption>, b: seq<FlightOption>, w: Window)
    requires |a| == |b| && forall i :: 0 <= i < |a| ==> a[i].departure == b[i].departure
    ensures Accepted(a, w) == Accepted(b, w)
  {
    if a != [] {
      var n := |a| - 1;
      assert forall i :: 0 <= i < n ==> a[..n][i].departure == b[..n][i].departure by {
        forall i | 0 <= i < n
          ensures a[..n][i].departure == b[..n][i].departure
        {
          assert a[..n][i] == a[i] && b[..n][i] == b[i];
        }
      }
      AcceptedOnlyDepartures(a[..n], b[..n], w);
    }
  }

  // ---- One cycle, as a specification -----------------------------------------

  /** How `startBot` sees each reply, in day order. */
  function DayOutcomes(replies: seq<Reply>): (os: seq<DayOutcome>)
    ensures |os| == |replies|
    ensures forall k :: 0 <= k < |replies| ==> os[k] == Classify(replies[k])
  {
    seq(|replies|, k requires 0 <= k < |replies| => Classify(replies[k]))
  }

  /** The departures one day contributes: the accepted ones of `optionSets[0]`, or none. */
  function DayFlights(outcome: DayOutcome, w: Window): (ts: seq<Instant>)
    ensures outcome.Flights? ==> ts == Accepted(outcome.options, w)
    ensures !outcome.Flights? ==> ts == []
  {
    match outcome
    case Flights(options) => Accepted(options, w)
    case _ => []
  }

  /** The departures recorded so far for a day: a missing key reads as an empty list. */
  function Times(report: Report, day: string): seq<Instant>
  {
    if day in report then report[day] else []
  }

  /** Appending `ts` to a day's list; a day gets a key only once it has a departure. */
  function Collect(report: Report, day: string, ts: seq<Instant>): (r: Report)
    ensures r.Keys == if ts == [] then report.Keys else report.Keys + {day}
    ensures Times(r, day) == Times(report, day) + ts
    ensures forall d :: d != day ==> Times(r, d) == Times(report, d)
  {
    if ts == [] then report else report[day := Times(report, day) + ts]
  }

  lemma CollectSnoc(report: Report, day: string, ts: seq<Instant>, t: Instant)
    ensures Collect(report, day, ts + [t]) == Collect(report, day, ts)[day := Times(Collect(report, day, ts), day) + [t]]
  {
    assert Times(report, day) + (ts + [t]) == Times(report, day) + ts + [t];
  }

  /** How a cycle ends: with the map handed to the notifier, or with Go's index-out-of-range panic on some day. */
  datatype CycleEnd = Completed(report: Report) | Panicked(day: nat)

  /** One cycle over the days, in order, with `outcomes[i]` the classified reply to the request for `days[i]`. */
  function Cycle(days: seq<string>, outcomes: seq<DayOutcome>, w: Window): CycleEnd
    requires |outcomes| == |days|
    decreases |days|
  {
    if days == [] then Completed(map[])
    else
      var n := |days| - 1;
      match Cycle(days[..n], outcomes[..n], w)
      case Panicked(i) => Panicked(i)
      case Completed(report) =>
        if outcomes[n].NoOptionSet? then Panicked(n)
        else Completed(Collect(report, days[n], DayFlights(outcomes[n], w)))
  }

  lemma CycleSnoc(days: seq<string>, outcomes: seq<DayOutcome>, w: Window, i: nat)
    requires |outcomes| == |days| && i < |days|
    ensures Cycle(days[..i + 1], outcomes[..i + 1], w)
              == match Cycle(days[..i], outcomes[..i], w)
                 case Panicked(p) => Panicked(p)
                 case Completed(report) =>
                   if outcomes[i].NoOptionSet? then Panicked(i)
                   else Completed(Collect(report, days[i], DayFlights(outcomes[i], w)))
  {
    assert days[..i + 1][..i] == days[..i];
    assert outcomes[..i + 1][..i] == outcomes[..i];
  }

  /** The first `m` days of a cycle panic exactly when one of them has no option set, and then at the first such day. */
  lemma {:induction false} PrefixPanics(days: seq<string>, outcomes: seq<DayOutcome>, w: Window, m: nat)
    requires |outcomes| == |days| && m <= |days|
    ensures Cycle(days[..m], outcomes[..m], w).Panicked? <==> exists i :: 0 <= i < m && outcomes[i].NoOptionSet?
    ensures Cycle(days[..m], outcomes[..m], w).Panicked? ==>
              var p := Cycle(days[..m], outcomes[..m], w).day;
              && p < m && outcomes[p].NoOptionSet?
              && forall i :: 0 <= i < p ==> !outcomes[i].NoOptionSet?
  {
    if m == 0 {
      assert days[..0] == [];
    } else {
      var n := m - 1;
      PrefixPanics(days, outcomes, w, n);
      CycleSnoc(days, outcomes, w, n);
      var prev := Cycle(days[..n], outcomes[..n], w);
      if prev.Panicked? {
        assert Cycle(days[..m], outcomes[..m], w) == prev;
      } else if outcomes[n].NoOptionSet? {
        assert Cycle(days[..m], outcomes[..m], w) == Panicked(n);
      } else {
        assert Cycle(days[..m], outcomes[..m], w).Completed?;
        assert !exists i :: 0 <= i < n && outcomes[i].NoOptionSet?;
        forall i | 0 <= i < m
          ensures !outcomes[i].NoOptionSet?
        {
          if i == n {
            assert !outcomes[n].NoOptionSet?;
          }
        }
      }
    }
  }

  /** Once a prefix of the days has panicked, the later days change nothing. */
  lemma {:induction false} PanicPersists(days: seq<string>, outcomes: seq<DayOutcome>, w: Window, m: nat, k: nat)
    requires |outcomes| == |days| && m <= k <= |days|
    requires Cycle(days[..m], outcomes[..m], w).Panicked?
    ensures Cycle(days[..k], outcomes[..k], w) == Cycle(days[..m], outcomes[..m], w)
  {
    if k > m {
      PanicPersists(days, outcomes, w, m, k - 1);
      CycleSnoc(days, outcomes, w, k - 1);
    }
  }

  /** The day of a prefix's key set: exactly the days among the first `m` whose reply contributed a departure. */
  lemma {:induction false} PrefixKeys(days: seq<string>, outcomes: seq<DayOutcome>, w: Window, d: string, m: nat)
    requires |outcomes| == |days| && m <= |days| && Cycle(days[..m], outcomes[..m], w).Completed?
    ensures d in Cycle(days[..m], outcomes[..m], w).report <==>
              exists i :: 0 <= i < m && days[i] == d && DayFlights(outcomes[i], w) != []
  {
    if m == 0 {
      assert days[..0] == [];
    } else {
      var n := m - 1;
      CycleSnoc(days, outcomes, w, n);
      var before := Cycle(days[..n], outcomes[..n], w);
      assert before.Completed?;
      PrefixKeys(days, outcomes, w, d, n);
      var added := DayFlights(outcomes[n], w);
      assert Cycle(days[..m], outcomes[..m], w).report == Collect(before.report, days[n], added);
      if exists i :: 0 <= i < m && days[i] == d && DayFlights(outcomes[i], w) != [] {
        var i :| 0 <= i < m && days[i] == d && DayFlights(outcomes[i], w) != [];
        if i == n {
          assert d == days[n] && added != [];
        }
      }
    }
  }

  /** With distinct days, the list of day `i` after `m > i` days is what its own reply contributed. */
  lemma {:induction false} PrefixDayTimes(days: seq<string>, outcomes: seq<DayOutcome>, w: Window, i: nat, m: nat)
    requires |outcomes| == |days| && i < m <= |days| && Cycle(days[..m], outcomes[..m], w).Completed?
    requires forall j, k :: 0 <= j < k < |days| ==> days[j] != days[k]
    ensures Times(Cycle(days[..m], outcomes[..m], w).report, days[i]) == DayFlights(outcomes[i], w)
  {
    CycleSnoc(days, outcomes, w, m - 1);
    if i < m - 1 {
      PrefixDayTimes(days, outcomes, w, i, m - 1);
      assert days[m - 1] != days[i];
    } else {
      PrefixKeys(days, outcomes, w, days[i], m - 1);
    }
  }

  /** A cycle panics exactly when some day's successful reply has no option set, and then at the first such day. */
  lemma {:induction false} CyclePanics(days: seq<string>, outcomes: seq<DayOutcome>, w: Window)
    requires |outcomes| == |days|
    ensures Cycle(days, outcomes, w).Panicked? <==> exists i :: 0 <= i < |days| && outcomes[i].NoOptionSet?
    ensures Cycle(days, outcomes, w).Panicked? ==>
              var p := Cycle(days, outcomes, w).day;
              && p < |days| && outcomes[p].NoOptionSet?
              && forall i :: 0 <= i < p ==> !outcomes[i].NoOptionSet?
  {
    PrefixPanics(days, outcomes, w, |days|);
    assert days[..|days|] == days && outcomes[..|days|] == outcomes;
  }

  /** A day has a key exactly when one of its replies contributed a departure. */
  lemma {:induction false} CycleKeys(days: seq<string>, outcomes: seq<DayOutcome>, w: Window, d: string)
    requires |outcomes| == |days| && Cycle(days, outcomes, w).Completed?
    ensures d in Cycle(days, outcomes, w).report <==>
              exists i :: 0 <= i < |days| && days[i] == d && DayFlights(outcomes[i], w) != []
  {
    assert days[..|days|] == days && outcomes[..|days|] == outcomes;
    PrefixKeys(days, outcomes, w, d, |days|);
  }

  /** Every departure in the map lies inside the window. */
  lemma {:induction false} CycleInWindow(days: seq<string>, outcomes: seq<DayOutcome>, w: Window, d: string)
    requires |outcomes| == |days| && Cycle(days, outcomes, w).Completed?
    ensures forall t :: t in Times(Cycle(days, outcomes, w).report, d) ==> w.first <= t <= w.last
  {
    if days != [] {
      var n := |days| - 1;
      CycleInWindow(days[..n], outcomes[..n], w, d);
      var before := Cycle(days[..n], outcomes[..n], w).report;
      var added := DayFlights(outcomes[n], w);
      forall t | t in Times(Collect(before, days[n], added), d)
        ensures w.first <= t <= w.last
      {
        if d == days[n] && t !in Times(before, d) {
          assert t in added;
        }
      }
    }
  }

  /**
   * With every day listed once, a day's list is exactly what its reply
   * contributed, in response order; days whose request failed or warned
   * contribute nothing.
   */
  lemma CycleDayTimes(days: seq<string>, outcomes: seq<DayOutcome>, w: Window, i: nat)
    requires |outcomes| == |days| && Cycle(days, outcomes, w).Completed?
    requires forall j, k :: 0 <= j < k < |days| ==> days[j] != days[k]
    requires i < |days|
    ensures Times(Cycle(days, outcomes, w).report, days[i]) == DayFlights(outcomes[i], w)
  {
    assert days[..|days|] == days && outcomes[..|days|] == outcomes;
    PrefixDayTimes(days, outcomes, w, i, |days|);
  }

  /** The `i`-th request of a cycle: the configured query with the `i`-th day as departure date. */
  function Requests(base: Query, days: seq<string>, count: nat): (qs: seq<Query>)
    requires count <= |days|
    ensures |qs| == count
  {
    seq(count, k requires 0 <= k < count => base.(departureDate := days[k]))
  }

  /**
   * What one cycle does, starting from the query `base`: it ends as `Cycle`
   * says, it has sent one request per day up to and including the day that
   * panicked, and a completed cycle has handed its map to the notifier.
   */
  ghost predicate CycleRan(days: seq<string>, w: Window, base: Query, replies: seq<Reply>, notifier: Notifier,
                          requests: seq<Query>, end: CycleEnd, post: Option<Post>, order: seq<string>)
    requires |replies| == |days|
  {
    && end == Cycle(days, DayOutcomes(replies), w)
    && (end.Completed? ==> requests == Requests(base, days, |days|) && Notified(notifier, end.report, post, order))
    && (end.Panicked? ==> end.day < |days| && requests == Requests(base, days, end.day + 1) && post.None?)
  }

  /** Every request overwrites the departure date, so the one left over from the previous cycle does not matter. */
  lemma RequestsIgnoreDate(base: Query, date: string, days: seq<string>, count: nat)
    requires count <= |days|
    ensures Requests(base.(departureDate := date), days, count) == Requests(base, days, count)
  {
    var a := Requests(base.(departureDate := date), days, count);
    var b := Requests(base, days, count);
    forall k | 0 <= k < count
      ensures a[k] == b[k]
    {
      assert a[k] == base.(departureDate := date).(departureDate := days[k]);
    }
  }

  /** A day without a panic, after days without one: its departures are collected. */
  lemma CycleStep(days: seq<string>, outcomes: seq<DayOutcome>, w: Window, i: nat, report: Report)
    requires |outcomes| == |days| && i < |days|
    requires Cycle(days[..i], outcomes[..i], w) == Completed(report) && !outcomes[i].NoOptionSet?
    ensures Cycle(days[..i + 1], outcomes[..i + 1], w) == Completed(Collect(report, days[i], DayFlights(outcomes[i], w)))
  {
    CycleSnoc(days, outcomes, w, i);
  }

  /** The first day without an option set ends the whole cycle with a panic there. */
  lemma CyclePanicStep(days: seq<string>, outcomes: seq<DayOutcome>, w: Window, i: nat, report: Report)
    requires |outcomes| == |days| && i < |days|
    requires Cycle(days[..i], outcomes[..i], w) == Completed(report) && outcomes[i].NoOptionSet?
    ensures Cycle(days, outcomes, w) == Panicked(i)
  {
    CycleSnoc(days, outcomes, w, i);
    PanicPersists(days, outcomes, w, i + 1, |days|);
    assert days[..|days|] == days && outcomes[..|days|] == outcomes;
  }

  lemma RequestsSnoc(base: Query, days: seq<string>, i: nat)
    requires i < |days|
    ensures Requests(base, days, i + 1) == Requests(base, days, i) + [base.(departureDate := days[i])]
  {
  }

  // ---- One cycle, as the program runs it ----------------------------------------

  /** The inner loop of a cycle: each option of one day's set, in order, whose departure lies in the window is appended to that day's list. */
  method CollectDay(report: Report, day: string, options: seq<FlightOption>, window: Window) returns (r: Report)
    ensures r == Collect(report, day, Accepted(options, window))
  {
    r := report;
    var j := 0;
    while j < |options|
      invariant 0 <= j <= |options|
      invariant r == Collect(report, day, Accepted(options[..j], window))
    {
      var departure := options[j].departure;
      ghost var accepted := Accepted(options[..j], window);
      AcceptedSnoc(options, j, window);
      if InWindow(departure, window) {
        assert Accepted(options[..j + 1], window) == accepted + [departure];
        CollectSnoc(report, day, accepted, departure);
        r := r[day := Times(r, day) + [departure]];
      } else {
        assert Accepted(options[..j + 1], window) == accepted;
      }
      j := j + 1;
    }
    assert options[..j] == options;
  }

  /**
   * One day of a cycle: the departure date is set, the request sent and its
   * reply classified; on success the accepted departures are collected. The
   * map is returned unchanged on the day Go would panic.
   */
  method PollDay(conf: QueryConfig, day: string, reply: Reply, report: Report, window: Window)
    returns (sent: Query, outcome: DayOutcome, r: Report)
    modifies conf
    ensures conf.query == old(conf.query).(departureDate := day) && sent == conf.query
    ensures outcome == Classify(reply)
    ensures r == if outcome.NoOptionSet? then report else Collect(report, day, DayFlights(outcome, window))
  {
    conf.SetDepartureDate(day);
    sent := conf.query;
    outcome := Classify(reply);
    r := report;
    match outcome {
      case Failed(_) =>
      case Warned =>
      case NoOptionSet =>
      case Flights(options) =>
        r := CollectDay(report, day, options, window);
    }
  }

  /**
   * The day loop of a cycle: every day in order, up to and including the
   * first one Go would panic on; `replies[i]` answers the request for `days[i]`.
   */
  method VisitDays(days: seq<string>, window: Window, conf: QueryConfig, replies: seq<Reply>)
    returns (requests: seq<Query>, end: CycleEnd)
    requires |replies| == |days|
    modifies conf
    ensures end == Cycle(days, DayOutcomes(replies), window)
    ensures end.Completed? ==> requests == Requests(old(conf.query), days, |days|)
    ensures end.Panicked? ==> end.day < |days| && requests == Requests(old(conf.query), days, end.day + 1)
    ensures conf.query == if requests == [] then old(conf.query) else old(conf.query).(departureDate := requests[|requests| - 1].departureDate)
  {
    ghost var base := conf.query;
    ghost var outcomes := DayOutcomes(replies);
    var report: Report := map[];
    requests := [];
    var i := 0;
    while i < |days|
      invariant 0 <= i <= |days|
      invariant Cycle(days[..i], outcomes[..i], window) == Completed(report)
      invariant requests == Requests(base, days, i)
      invariant i == 0 ==> conf.query == base
      invariant i > 0 ==> conf.query == base.(departureDate := days[i - 1])
    {
      var sent, outcome, next := PollDay(conf, days[i], replies[i], report, window);
      RequestsSnoc(base, days, i);
      requests := requests + [sent];
      assert outcome == outcomes[i];
      if outcome.NoOptionSet? {
        CyclePanicStep(days, outcomes, window, i, report);
        end := Panicked(i);
        return;
      }
      CycleStep(days, outcomes, window, i, report);
      report := next;
      assert conf.query == base.(departureDate := days[(i + 1) - 1]);
      i := i + 1;
    }
    assert days[..i] == days && outcomes[..i] == outcomes;
    end := Completed(report);
  }

  /**
   * The body of `startBot`'s endless loop: the days are visited, then the
   * map is handed to the notifier, once; a panic ends the cycle before that.
   */
  method PollCycle(days: seq<string>, window: Window, conf: QueryConfig, replies: seq<Reply>, notifier: Notifier)
    returns (requests: seq<Query>, end: CycleEnd, post: Option<Post>, ghost order: seq<string>)
    requires |replies| == |days|
    modifies conf
    ensures CycleRan(days, window, old(conf.query), replies, notifier, requests, end, post, order)
    ensures conf.query == if requests == [] then old(conf.query) else old(conf.query).(departureDate := requests[|requests| - 1].departureDate)
  {
    requests, end := VisitDays(days, window, conf, replies);
    post, order := None, [];
    if end.Completed? {
      post, order := Notify(notifier, end.report);
    }
  }

  // ---- The bot ---------------------------------------------------------------

  /** `BotConfig`; `repetInterval` is the pause between cycles, in seconds. */
  datatype BotConfig = BotConfig(
    firstDate: Instant,
    lastDate: Instant,
    from: string,
    to: string,
    repetInterval: nat,
    days: seq<string>)

  /** The query every cycle starts from: `From` and `To` from the configuration, every other parameter defaulted once. */
  function BaseQuery(config: BotConfig, unixNano: int): Query
  {
    WithQueryDefaults(NoQuery.(from := config.from, to := config.to), unixNano)
  }

  /** The first `|ends|` cycles ran, each `CycleRan` on its own replies from the same base query. */
  ghost predicate CyclesRan(config: BotConfig, base: Query, rounds: seq<seq<Reply>>, notifier: Notifier,
                            requests: seq<seq<Query>>, ends: seq<CycleEnd>, posts: seq<Option<Post>>, orders: seq<seq<string>>)
    requires forall k :: 0 <= k < |rounds| ==> |rounds[k]| == |config.days|
  {
    && |ends| <= |rounds| && |requests| == |ends| && |posts| == |ends| && |orders| == |ends|
    && forall k :: 0 <= k < |ends| ==>
         CycleRan(config.days, Window(config.firstDate, config.lastDate), base,
                  rounds[k], notifier, requests[k], ends[k], posts[k], orders[k])
  }

  /**
   * What `startBot` does over the cycles it gets to run: every cycle but the
   * last completed, and the bot stops before the last round only because the
   * last cycle it ran panicked.
   */
  ghost predicate BotRan(config: BotConfig, unixNano: int, rounds: seq<seq<Reply>>, notifier: Notifier,
                         requests: seq<seq<Query>>, ends: seq<CycleEnd>, posts: seq<Option<Post>>, orders: seq<seq<string>>)
    requires forall k :: 0 <= k < |rounds| ==> |rounds[k]| == |config.days|
  {
    && CyclesRan(config, BaseQuery(config, unixNano), rounds, notifier, requests, ends, posts, orders)
    && (|ends| < |rounds| ==> |ends| > 0 && ends[|ends| - 1].Panicked?)
    && (forall k :: 0 <= k < |ends| - 1 ==> ends[k].Completed?)
  }

  /** The departure date left in the query by an earlier cycle does not change what a cycle does. */
  lemma CycleRanAnyDate(days: seq<string>, w: Window, base: Query, date: string, replies: seq<Reply>, notifier: Notifier,
                        requests: seq<Query>, end: CycleEnd, post: Option<Post>, order: seq<string>)
    requires |replies| == |days|
    requires CycleRan(days, w, base.(departureDate := date), replies, notifier, requests, end, post, order)
    ensures CycleRan(days, w, base, replies, notifier, requests, end, post, order)
  {
    RequestsIgnoreDate(base, date, days, |requests|);
  }

  /** One more cycle extends the run. */
  lemma CyclesRanSnoc(config: BotConfig, base: Query, rounds: seq<seq<Reply>>, notifier: Notifier,
                      requests: seq<seq<Query>>, ends: seq<CycleEnd>, posts: seq<Option<Post>>, orders: seq<seq<string>>,
                      sent: seq<Query>, end: CycleEnd, post: Option<Post>, order: seq<string>)
    requires forall j :: 0 <= j < |rounds| ==> |rounds[j]| == |config.days|
    requires CyclesRan(config, base, rounds, notifier, requests, ends, posts, orders) && |ends| < |rounds|
    requires CycleRan(config.days, Window(config.firstDate, config.lastDate), base,
                      rounds[|ends|], notifier, sent, end, post, order)
    ensures CyclesRan(config, base, rounds, notifier, requests + [sent], ends + [end], posts + [post], orders + [order])
  {
    var n := |ends|;
    var w := Window(config.firstDate, config.lastDate);
    var rs, es, ps, os := requests + [sent], ends + [end], posts + [post], orders + [order];
    forall k | 0 <= k <= n
      ensures CycleRan(config.days, w, base, rounds[k], notifier, rs[k], es[k], ps[k], os[k])
    {
      if k < n {
        assert CycleRan(config.days, w, base, rounds[k], notifier, requests[k], ends[k], posts[k], orders[k]);
        assert rs[k] == requests[k] && es[k] == ends[k] && ps[k] == posts[k] && os[k] == orders[k];
      } else {
        assert rs[k] == sent && es[k] == end && ps[k] == post && os[k] == order;
      }
    }
  }

  /** Appending a completed cycle keeps every cycle completed. */
  lemma AllCompletedSnoc(ends: seq<CycleEnd>, end: CycleEnd)
    requires forall j :: 0 <= j < |ends| ==> ends[j].Completed?
    ensures forall j :: 0 <= j < |ends| ==> (ends + [end])[j].Completed?
    ensures end.Completed? ==> forall j :: 0 <= j < |ends| + 1 ==> (ends + [end])[j].Completed?
  {
  }

  /**
   * The endless loop of `startBot`, for `|rounds|` rounds: `rounds[k]` holds
   * the replies of cycle `k`, one per day. The bot stops early only when a
   * cycle panics; every earlier cycle completed.
   */
  method RunCycles(config: BotConfig, queryConf: QueryConfig, rounds: seq<seq<Reply>>, notifier: Notifier)
    returns (requests: seq<seq<Query>>, ends: seq<CycleEnd>, posts: seq<Option<Post>>, ghost orders: seq<seq<string>>)
    requires forall k :: 0 <= k < |rounds| ==> |rounds[k]| == |config.days|
    modifies queryConf
    ensures CyclesRan(config, old(queryConf.query), rounds, notifier, requests, ends, posts, orders)
    ensures forall j :: 0 <= j < |ends| - 1 ==> ends[j].Completed?
    ensures |ends| == |rounds| || (|ends| > 0 && ends[|ends| - 1].Panicked?)
    ensures queryConf.query.(departureDate := old(queryConf.query).departureDate) == old(queryConf.query)
  {
    ghost var base := queryConf.query;
    var window := Window(config.firstDate, config.lastDate);
    requests, ends, posts, orders := [], [], [], [];
    var k := 0;
    while k < |rounds|
      invariant 0 <= k <= |rounds|
      invariant queryConf.query.(departureDate := base.departureDate) == base
      invariant CyclesRan(config, base, rounds, notifier, requests, ends, posts, orders)
      invariant |ends| == k && forall j :: 0 <= j < |ends| ==> ends[j].Completed?
    {
      ghost var date := queryConf.query.departureDate;
      assert queryConf.query == base.(departureDate := date);
      var sent, end, post, order := PollCycle(config.days, window, queryConf, rounds[k], notifier);
      CycleRanAnyDate(config.days, window, base, date, rounds[k], notifier, sent, end, post, order);
      CyclesRanSnoc(config, base, rounds, notifier, requests, ends, posts, orders, sent, end, post, order);
      AllCompletedSnoc(ends, end);
      requests, ends, posts, orders := requests + [sent], ends + [end], posts + [post], orders + [order];
      if end.Panicked? {
        return;
      }
      k := k + 1;
    }
  }

  /**
   * `startBot`: the query and header sets are defaulted once, `unixNano`
   * being the clock reading of that one `setDefaults` call, and then the
   * cycles run; `headers` is the header set every request carries.
   */
  method StartBot(config: BotConfig, unixNano: int, rounds: seq<seq<Reply>>, notifier: Notifier)
    returns (headers: Headers, requests: seq<seq<Query>>, ends: seq<CycleEnd>, posts: seq<Option<Post>>, ghost orders: seq<seq<string>>)
    requires forall k :: 0 <= k < |rounds| ==> |rounds[k]| == |config.days|
    ensures headers == WithHeaderDefaults(NoHeaders)
    ensures BotRan(config, unixNano, rounds, notifier, requests, ends, posts, orders)
  {
    var queryConf := new QueryConfig(config.from, config.to);
    queryConf.SetDefaults(unixNano);
    var headerConf := new HeaderConfig();
    headerConf.SetDefaults();
    headers := headerConf.headers;
    requests, ends, posts, orders := RunCycles(config, queryConf, rounds, notifier);
  }

  /**
   * `main` after `getUserInput`: the configuration with its day list, the
   * notifier (Telegram exactly when a bot key was given, the no-op otherwise),
   * then the bot.
   */
  method Start(input: UserInput, unixNano: int, rounds: seq<seq<Reply>>)
    returns (config: BotConfig, notifier: Notifier, headers: Headers, requests: seq<seq<Query>>,
             ends: seq<CycleEnd>, posts: seq<Option<Post>>, ghost orders: seq<seq<string>>)
    requires forall k :: 0 <= k < |rounds| ==> |rounds[k]| == |DayList(input.firstDate, input.lastDate)|
    ensures config == BotConfig(input.firstDate, input.lastDate, input.from, input.to, input.repetInterval,
                                DayList(input.firstDate, input.lastDate))
    ensures notifier == if input.telegramBotKey != "" then Telegram(input.telegramBotKey, input.telegramChatID) else Silent
    ensures headers == WithHeaderDefaults(NoHeaders)
    ensures BotRan(config, unixNano, rounds, notifier, requests, ends, posts, orders)
  {
    var days := BuildDays(input.firstDate, input.lastDate);
    config := BotConfig(input.firstDate, input.lastDate, input.from, input.to, input.repetInterval, days);
    notifier := Silent;
    if input.telegramBotKey != "" {
      notifier := Telegram(input.telegramBotKey, input.telegramChatID);
    }
    headers, requests, ends, posts, orders := StartBot(config, unixNano, rounds, notifier);
  }
}
