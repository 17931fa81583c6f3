/**
 * The day list of `main`: starting from the first date, one step of a day at
 * a time while the step is not after the last date, each step written as
 * `2006-01-02`.
 */
module Days {
  import opened Calendar
  import opened CivilTime

  /** How many one-day steps from `first` are not after `last`. */
  function DayCount(first: Instant, last: Instant): nat
  {
    if first > last then 0 else (last - first) / SecondsPerDay + 1
  }

  /** The `k`-th step is visited exactly when it is not after the last date. */
  lemma DayCountSteps(first: Instant, last: Instant, k: nat)
    ensures k < DayCount(first, last) <==> AddDays(first, k) <= last
  {
    if first <= last {
      var q := (last - first) / SecondsPerDay;
      assert q * SecondsPerDay <= last - first < (q + 1) * SecondsPerDay;
      if k <= q {
        assert k * SecondsPerDay <= q * SecondsPerDay;
      } else {
        assert k * SecondsPerDay >= (q + 1) * SecondsPerDay;
      }
    }
  }

  /** The day list: the date of each visited step, formatted. */
  function DayList(first: Instant, last: Instant): (days: seq<string>)
    ensures |days| == DayCount(first, last)
  {
    seq(DayCount(first, last), k requires 0 <= k < DayCount(first, last) => FormatDate(DateOf(AddDays(first, k))))
  }

  lemma PrefixSnoc(s: seq<string>, n: nat)
    requires n < |s|
    ensures s[..n + 1] == s[..n] + [s[n]]
  {
  }

  lemma DayListSnoc(first: Instant, last: Instant, n: nat)
    requires n < DayCount(first, last)
    ensures DayList(first, last)[..n + 1] == DayList(first, last)[..n] + [FormatDate(DateOf(AddDays(first, n)))]
  {
    PrefixSnoc(DayList(first, last), n);
  }

  /** The loop of `main` that fills `botConfig.days`. */
  method BuildDays(first: Instant, last: Instant) returns (days: seq<string>)
    ensures days == DayList(first, last)
  {
    days := [];
    var current := first;
    DayCountSteps(first, last, 0);
    while current <= last
      invariant current == AddDays(first, |days|)
      invariant |days| <= DayCount(first, last)
      invariant current <= last <==> |days| < DayCount(first, last)
      invariant days == DayList(first, last)[..|days|]
      decreases last - current
    {
      DayListSnoc(first, last, |days|);
      days := days + [FormatDate(DateOf(current))];
      current := AddDays(current, 1);
      DayCountSteps(first, last, |days|);
    }
  }

  /** A non-empty range starts with the first date's own day. */
  lemma DayListFirst(first: Instant, last: Instant)
    requires first <= last
    ensures |DayList(first, last)| >= 1 && DayList(first, last)[0] == FormatDate(DateOf(first))
  {
    assert DayCount(first, last) >= 1;
    assert AddDays(first, 0) == first;
  }

  /** Each entry is the calendar day after the one before it. */
  lemma DayListConsecutive(first: Instant, last: Instant, k: nat)
    requires k + 1 < DayCount(first, last)
    ensures DateOf(AddDays(first, k + 1)) == NextDate(DateOf(AddDays(first, k)))
    ensures DayList(first, last)[k + 1] == FormatDate(NextDate(DateOf(AddDays(first, k))))
  {
    NextDayDate(AddDays(first, k));
    assert AddDays(AddDays(first, k), 1) == AddDays(first, k + 1);
  }

  /**
   * The last entry is the last date's day when the last date's clock time is
   * not earlier than the first date's; otherwise the last date's day is left
   * out and the list ends the day before it.
   */
  lemma DayListLast(first: Instant, last: Instant)
    requires first <= last
    ensures var t := AddDays(first, DayCount(first, last) - 1);
            && (SecondOfDay(first) <= SecondOfDay(last) ==> DateOf(t) == DateOf(last))
            && (SecondOfDay(first) > SecondOfDay(last) ==> NextDate(DateOf(t)) == DateOf(last))
  {
    var t := AddDays(first, DayCount(first, last) - 1);
    LastStepDay(first, last, DayCount(first, last) - 1, t);
    if SecondOfDay(first) <= SecondOfDay(last) {
      SameDayNumberDate(t, last);
    } else {
      NextDayNumberDate(t, last);
    }
  }

  lemma SameDayNumberDate(t: Instant, u: Instant)
    requires t / SecondsPerDay == u / SecondsPerDay
    ensures DateOf(t) == DateOf(u)
  {
  }

  lemma NextDayNumberDate(t: Instant, u: Instant)
    requires t / SecondsPerDay + 1 == u / SecondsPerDay
    ensures NextDate(DateOf(t)) == DateOf(u)
  {
    DayAfter(t / SecondsPerDay);
  }

  /** The day number of the last step: the last date's own, or the one before when its clock time is earlier. */
  lemma LastStepDay(first: Instant, last: Instant, q: int, t: Instant)
    requires first <= last && q == DayCount(first, last) - 1 && t == AddDays(first, q)
    ensures SecondOfDay(first) <= SecondOfDay(last) ==> t / SecondsPerDay == last / SecondsPerDay
    ensures SecondOfDay(first) > SecondOfDay(last) ==> t / SecondsPerDay + 1 == last / SecondsPerDay
  {
    var a, b := first / SecondsPerDay, last / SecondsPerDay;
    assert first == a * SecondsPerDay + SecondOfDay(first);
    assert last == b * SecondsPerDay + SecondOfDay(last);
    DayCountSteps(first, last, q);
    DayCountSteps(first, last, q + 1);
    if SecondOfDay(first) <= SecondOfDay(last) {
      assert q == b - a;
      SecondsOfDay(b, SecondOfDay(first), t);
    } else {
      assert q == b - a - 1;
      SecondsOfDay(b - 1, SecondOfDay(first), t);
    }
  }

  /** A date-only last date (23:59:59) always keeps its own day as the last entry. */
  lemma DayListEndsOnLastDay(first: Instant, last: Instant)
    requires first <= last && SecondOfDay(last) == SecondsPerDay - 1
    ensures DateOf(AddDays(first, DayCount(first, last) - 1)) == DateOf(last)
  {
    DayListLast(first, last);
  }

  /** The `k`-th step lies `k` days after the first date's day. */
  lemma StepDayNumber(first: Instant, k: int)
    ensures DaysFromCivil(DateOf(AddDays(first, k))) == first / SecondsPerDay + k
  {
    assert AddDays(first, k) / SecondsPerDay == first / SecondsPerDay + k;
    CivilFromDaysInverse(first / SecondsPerDay + k);
  }

  /** The year never decreases from one step to a later one. */
  lemma {:induction false} StepYears(first: Instant, i: int, j: int)
    requires i <= j
    ensures DateOf(AddDays(first, i)).year <= DateOf(AddDays(first, j)).year
    decreases j - i
  {
    if i < j {
      var m := j - 1;
      StepYears(first, i, m);
      YearStep(first, m, j);
    }
  }

  lemma YearStep(first: Instant, k: int, next: int)
    requires next == k + 1
    ensures DateOf(AddDays(first, k)).year <= DateOf(AddDays(first, next)).year
  {
    var t := AddDays(first, k);
    NextDayDate(t);
    assert AddDays(t, 1) == AddDays(first, next);
  }

  /** Every step of the range has a year between those of the first and the last step. */
  lemma StepYearRange(first: Instant, last: Instant, i: nat)
    requires i < DayCount(first, last)
    ensures DateOf(first).year <= DateOf(AddDays(first, i)).year <= DateOf(AddDays(first, DayCount(first, last) - 1)).year
  {
    StepYears(first, 0, i);
    StepYears(first, i, DayCount(first, last) - 1);
    StepZero(first);
  }

  lemma StepZero(first: Instant)
    ensures DateOf(AddDays(first, 0)) == DateOf(first)
  {
    assert AddDays(first, 0) == first;
  }

  /** Different steps fall on different dates. */
  lemma StepsDiffer(first: Instant, i: int, j: int)
    requires i != j
    ensures DateOf(AddDays(first, i)) != DateOf(AddDays(first, j))
  {
    StepDayNumber(first, i);
    StepDayNumber(first, j);
  }

  lemma DistinctSteps(first: Instant, last: Instant, i: nat, j: nat)
    requires i < j < DayCount(first, last)
    requires 0 <= DateOf(first).year && DateOf(AddDays(first, DayCount(first, last) - 1)).year <= 9999
    ensures FormatDate(DateOf(AddDays(first, i))) != FormatDate(DateOf(AddDays(first, j)))
  {
    StepYearRange(first, last, i);
    StepYearRange(first, last, j);
    StepsDiffer(first, i, j);
    FormatDateInjective(DateOf(AddDays(first, i)), DateOf(AddDays(first, j)));
  }

  /** For dates of four-digit years the entries are pairwise distinct. */
  lemma DayListDistinct(first: Instant, last: Instant)
    requires first <= last
    requires 0 <= DateOf(first).year && DateOf(last).year <= 9999
    ensures forall i, j :: 0 <= i < j < DayCount(first, last) ==> DayList(first, last)[i] != DayList(first, last)[j]
  {
    DayListLast(first, last);
    assert DateOf(AddDays(first, DayCount(first, last) - 1)).year <= 9999;
    forall i, j | 0 <= i < j < DayCount(first, last)
      ensures DayList(first, last)[i] != DayList(first, last)[j]
    {
      DistinctSteps(first, last, i, j);
    }
  }

}
