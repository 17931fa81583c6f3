/**
 * Calendar dates and instants in UTC, as the bot uses Go's `time` package:
 * `Format("2006-01-02")`, `Format("15:04:05")`, `AddDate(0, 0, 1)`,
 * `Add(-time.Second)` and the two `time.Parse` layouts of the command line.
 *
 * An instant is a whole number of seconds since 1970-01-01T00:00:00 UTC; every
 * time the program handles is parsed without a zone, hence in UTC, where a day
 * is always 86400 seconds.
 *
 * Day numbers are turned into dates through March-based years (a year runs
 * from 1 March to the end of February, so a leap day is the last day of its
 * year) grouped in 400-year eras of 146097 days.
 */
module Calendar {

  /** A proleptic Gregorian calendar date; `ValidDate` says when it names a real day. */
  datatype Date = Date(year: int, month: int, day: int)

  predicate IsLeapYear(y: int) { y % 4 == 0 && (y % 100 != 0 || y % 400 == 0) }

  function DaysInMonth(y: int, m: int): (n: int)
    requires 1 <= m <= 12
    ensures 28 <= n <= 31
  {
    if m == 2 then (if IsLeapYear(y) then 29 else 28)
    else if m == 4 || m == 6 || m == 9 || m == 11 then 30
    else 31
  }

  predicate ValidDate(d: Date) { 1 <= d.month <= 12 && 1 <= d.day <= DaysInMonth(d.year, d.month) }

  /** Strict chronological order of dates. */
  predicate DateBefore(a: Date, b: Date)
  {
    a.year < b.year || (a.year == b.year && (a.month < b.month || (a.month == b.month && a.day < b.day)))
  }

  /** The calendar day after `d`. */
  function NextDate(d: Date): (r: Date)
    requires ValidDate(d)
    ensures ValidDate(r) && DateBefore(d, r)
  {
    if d.day < DaysInMonth(d.year, d.month) then Date(d.year, d.month, d.day + 1)
    else if d.month < 12 then Date(d.year, d.month + 1, 1)
    else Date(d.year + 1, 1, 1)
  }

  // ---- March-based years ------------------------------------------------

  /** Length of year `yoe` (0..399) of an era, counted from 1 March: 366 when the February it ends with has 29 days. */
  function MarchYearLength(yoe: int): int
  {
    if (yoe + 1) % 4 == 0 && ((yoe + 1) % 100 != 0 || yoe == 399) then 366 else 365
  }

  /** Days from the start of an era to the start of its year `yoe`: centuries of 36524, four-year groups of 1461. */
  function YearStart(yoe: int): int
    requires 0 <= yoe <= 399
  {
    36524 * (yoe / 100) + 1461 * (yoe % 100 / 4) + 365 * (yoe % 4)
  }

  /** Days from 1 March to the first of month index `mp` (0 = March, ..., 10 = January, 11 = February). */
  function MonthStart(mp: int): int
    requires 0 <= mp <= 11
  {
    (153 * mp + 2) / 5
  }

  /** The first day after month index `mp` in a March-based year of `yearLength` days. */
  function MonthEnd(mp: int, yearLength: int): int
    requires 0 <= mp <= 11
  {
    if mp < 11 then MonthStart(mp + 1) else yearLength
  }

  function MonthIndex(m: int): int
    requires 1 <= m <= 12
  {
    if m > 2 then m - 3 else m + 9
  }

  function MonthOfIndex(mp: int): int
    requires 0 <= mp <= 11
  {
    if mp < 10 then mp + 3 else mp - 9
  }

  /** Splits a day of an era into a year of the era and a day of that year. */
  function SplitEraDay(doe: int): (r: (int, int))
    requires 0 <= doe < 146097
    ensures 0 <= r.0 <= 399 && 0 <= r.1 < MarchYearLength(r.0)
    ensures YearStart(r.0) + r.1 == doe
  {
    var c := if doe == 146096 then 3 else doe / 36524;
    var doc := doe - 36524 * c;
    var q := doc / 1461;
    var doq := doc % 1461;
    var r := if doq == 1460 then 3 else doq / 365;
    EraDaySplit(doe, c, doc, q, doq, r);
    (100 * c + 4 * q + r, doq - 365 * r)
  }

  /** The arithmetic behind `SplitEraDay`: centuries, four-year groups and years of the era. */
  lemma EraDaySplit(doe: int, c: int, doc: int, q: int, doq: int, r: int)
    requires 0 <= doe < 146097
    requires c == (if doe == 146096 then 3 else doe / 36524) && doc == doe - 36524 * c
    requires q == doc / 1461 && doq == doc % 1461 && r == (if doq == 1460 then 3 else doq / 365)
    ensures 0 <= 100 * c + 4 * q + r <= 399
    ensures 0 <= doq - 365 * r < MarchYearLength(100 * c + 4 * q + r)
    ensures YearStart(100 * c + 4 * q + r) + (doq - 365 * r) == doe
  {
    var yoe := 100 * c + 4 * q + r;
    assert 0 <= c <= 3 && 0 <= q <= 24 && 0 <= r <= 3;
    assert yoe / 100 == c && yoe % 100 / 4 == q && yoe % 4 == r;
  }

  /** Splits a day of a March-based year into a month index and a day of that month (from 0). */
  function SplitYearDay(doy: int, yearLength: int): (r: (int, int))
    requires 365 <= yearLength <= 366 && 0 <= doy < yearLength
    ensures 0 <= r.0 <= 11 && MonthStart(r.0) + r.1 == doy
    ensures 0 <= r.1 && doy < MonthEnd(r.0, yearLength)
  {
    var mp := (5 * doy + 2) / 153;
    (mp, doy - MonthStart(mp))
  }

  lemma YearStartStep(a: int)
    requires 0 <= a < 399
    ensures YearStart(a + 1) == YearStart(a) + MarchYearLength(a)
  {
    var c, q, r := a / 100, a % 100 / 4, a % 4;
    assert a == 100 * c + 4 * q + r;
    if r < 3 {
      assert (a + 1) / 100 == c && (a + 1) % 100 / 4 == q && (a + 1) % 4 == r + 1;
    } else if q < 24 {
      assert (a + 1) / 100 == c && (a + 1) % 100 / 4 == q + 1 && (a + 1) % 4 == 0;
    } else {
      assert (a + 1) / 100 == c + 1 && (a + 1) % 100 == 0;
    }
  }

  lemma {:induction false} YearStartGrowth(a: int, b: int)
    requires 0 <= a < b <= 399
    ensures YearStart(b) >= YearStart(a) + 365 * (b - a)
  {
    YearStartStep(b - 1);
    if a < b - 1 {
      YearStartGrowth(a, b - 1);
    }
  }

  lemma EraDayBound(yoe: int, doy: int)
    requires 0 <= yoe <= 399 && 0 <= doy < MarchYearLength(yoe)
    ensures YearStart(yoe) + doy < 146097
  {
    if yoe < 399 {
      YearStartStep(yoe);
      if yoe < 398 {
        YearStartGrowth(yoe + 1, 399);
      }
    }
  }

  /** Every (year of era, day of year) pair is what `SplitEraDay` returns for its day of the era. */
  lemma SplitEraDayUnique(yoe: int, doy: int)
    requires 0 <= yoe <= 399 && 0 <= doy < MarchYearLength(yoe)
    ensures SplitEraDay(YearStart(yoe) + doy) == (yoe, doy)
  {
    var r := SplitEraDay(YearStart(yoe) + doy);
    if r.0 < yoe {
      YearStartGrowth(r.0, yoe);
      if r.0 + 1 == yoe { YearStartStep(r.0); }
    } else if r.0 > yoe {
      YearStartGrowth(yoe, r.0);
      if yoe + 1 == r.0 { YearStartStep(yoe); }
    }
  }

  lemma SplitYearDayUnique(mp: int, dom: int, yearLength: int)
    requires 365 <= yearLength <= 366 && 0 <= mp <= 11
    requires 0 <= dom && MonthStart(mp) + dom < MonthEnd(mp, yearLength)
    ensures SplitYearDay(MonthStart(mp) + dom, yearLength) == (mp, dom)
  {
  }

  /** Year `k` of an era ends with a 29-day February exactly when the calendar year after it is a leap year. */
  lemma EraLeapYear(e: int, k: int)
    requires 0 <= k < 400
    ensures IsLeapYear(400 * e + k + 1) <==> MarchYearLength(k) == 366
  {
    var w := k + 1;
    var y := 400 * e + w;
    assert y == 4 * (100 * e + w / 4) + w % 4;
    assert y % 4 == w % 4;
    assert y == 100 * (4 * e + w / 100) + w % 100;
    assert y % 100 == w % 100;
    assert y == 400 * (e + w / 400) + w % 400;
    assert y % 400 == w % 400;
    assert (w % 400 == 0) == (k == 399);
  }

  /** Month lengths counted from March agree with the calendar's, February included. */
  lemma MonthLengthAgrees(mp: int, y: int)
    requires 0 <= mp <= 11
    ensures MonthEnd(mp, MarchYearLength(y % 400)) - MonthStart(mp)
         == DaysInMonth(if mp >= 10 then y + 1 else y, MonthOfIndex(mp))
  {
    if mp == 11 {
      assert y == 400 * (y / 400) + y % 400;
      EraLeapYear(y / 400, y % 400);
    }
  }

  lemma EraDivMod(z: int, e: int, k: int)
    requires 0 <= k < 146097 && z == e * 146097 + k
    ensures z / 146097 == e && z % 146097 == k
  {
  }

  // ---- Day numbers and dates --------------------------------------------

  lemma YearDivMod(y: int, e: int, k: int)
    requires 0 <= k < 400 && y == e * 400 + k
    ensures y / 400 == e && y % 400 == k
  {
  }

  /** The date on day `doy` (from 0) of year `yoe` of era `e`, the era starting on 1 March of year `400 * e`. */
  function DateOfParts(e: int, yoe: int, doy: int): Date
    requires 0 <= yoe <= 399 && 0 <= doy < MarchYearLength(yoe)
  {
    var md := SplitYearDay(doy, MarchYearLength(yoe));
    var y := e * 400 + yoe;
    Date(if md.0 >= 10 then y + 1 else y, MonthOfIndex(md.0), md.1 + 1)
  }

  /** The date of day number `n`, day 0 being 1970-01-01 (719468 days after 0000-03-01). */
  function CivilFromDays(n: int): Date
  {
    var z := n + 719468;
    var yd := SplitEraDay(z % 146097);
    DateOfParts(z / 146097, yd.0, yd.1)
  }

  /** The day number of a date: days since 1970-01-01, negative before it. */
  function DaysFromCivil(d: Date): int
    requires ValidDate(d)
  {
    var y := if d.month <= 2 then d.year - 1 else d.year;
    (y / 400) * 146097 + YearStart(y % 400) + MonthStart(MonthIndex(d.month)) + d.day - 1 - 719468
  }

  lemma DateOfPartsValid(e: int, yoe: int, doy: int)
    requires 0 <= yoe <= 399 && 0 <= doy < MarchYearLength(yoe)
    ensures ValidDate(DateOfParts(e, yoe, doy))
  {
    var md := SplitYearDay(doy, MarchYearLength(yoe));
    var y := e * 400 + yoe;
    YearDivMod(y, e, yoe);
    MonthLengthAgrees(md.0, y);
  }

  lemma CivilFromDaysValid(n: int)
    ensures ValidDate(CivilFromDays(n))
  {
    var z := n + 719468;
    var yd := SplitEraDay(z % 146097);
    DateOfPartsValid(z / 146097, yd.0, yd.1);
  }

  lemma DateOfPartsInverse(e: int, yoe: int, doy: int)
    requires 0 <= yoe <= 399 && 0 <= doy < MarchYearLength(yoe)
    ensures ValidDate(DateOfParts(e, yoe, doy))
    ensures DaysFromCivil(DateOfParts(e, yoe, doy)) == e * 146097 + YearStart(yoe) + doy - 719468
  {
    DateOfPartsValid(e, yoe, doy);
    var md := SplitYearDay(doy, MarchYearLength(yoe));
    var d := DateOfParts(e, yoe, doy);
    YearDivMod(e * 400 + yoe, e, yoe);
    assert MonthIndex(d.month) == md.0;
  }

  lemma CivilFromDaysInverse(n: int)
    ensures ValidDate(CivilFromDays(n)) && DaysFromCivil(CivilFromDays(n)) == n
  {
    var z := n + 719468;
    var yd := SplitEraDay(z % 146097);
    DateOfPartsInverse(z / 146097, yd.0, yd.1);
  }

  /** The March-based view of a valid date: its March year, month index and day of that year. */
  lemma MarchView(d: Date)
    requires ValidDate(d)
    ensures var y := if d.month <= 2 then d.year - 1 else d.year;
            var mp := MonthIndex(d.month);
            var doy := MonthStart(mp) + d.day - 1;
            && MonthOfIndex(mp) == d.month
            && (if mp >= 10 then y + 1 else y) == d.year
            && 0 <= doy < MarchYearLength(y % 400)
            && SplitYearDay(doy, MarchYearLength(y % 400)) == (mp, d.day - 1)
  {
    var y := if d.month <= 2 then d.year - 1 else d.year;
    var mp := MonthIndex(d.month);
    MonthLengthAgrees(mp, y);
    assert mp < 11 ==> MonthStart(mp + 1) <= 337;
    SplitYearDayUnique(mp, d.day - 1, MarchYearLength(y % 400));
  }

  lemma CivilFromEraParts(e: int, yoe: int, doy: int, n: int)
    requires 0 <= yoe <= 399 && 0 <= doy < MarchYearLength(yoe)
    requires n == e * 146097 + YearStart(yoe) + doy - 719468
    ensures CivilFromDays(n) == DateOfParts(e, yoe, doy)
  {
    var z := n + 719468;
    var k := YearStart(yoe) + doy;
    EraDayBound(yoe, doy);
    EraDivMod(z, e, k);
    SplitEraDayUnique(yoe, doy);
    CivilFromSplit(n, z, e, yoe, doy);
  }

  lemma CivilFromSplit(n: int, z: int, e: int, yoe: int, doy: int)
    requires z == n + 719468 && z / 146097 == e && 0 <= z % 146097 < 146097
    requires 0 <= yoe <= 399 && 0 <= doy < MarchYearLength(yoe)
    requires SplitEraDay(z % 146097) == (yoe, doy)
    ensures CivilFromDays(n) == DateOfParts(e, yoe, doy)
  {
  }

  /** The March-based parts of a valid date put back together give the date. */
  lemma MarchPartsOfDate(d: Date, e: int, yoe: int, doy: int)
    requires ValidDate(d) && 0 <= yoe <= 399
    requires e * 400 + yoe == (if d.month <= 2 then d.year - 1 else d.year)
    requires doy == MonthStart(MonthIndex(d.month)) + d.day - 1
    ensures 0 <= doy < MarchYearLength(yoe) && DateOfParts(e, yoe, doy) == d
  {
    var mp := MonthIndex(d.month);
    MarchView(d);
    var y := if d.month <= 2 then d.year - 1 else d.year;
    assert y % 400 == yoe by {
      YearDivMod(y, e, yoe);
    }
    assert SplitYearDay(doy, MarchYearLength(yoe)) == (mp, d.day - 1);
  }

  lemma DaysFromCivilInverse(d: Date)
    requires ValidDate(d)
    ensures CivilFromDays(DaysFromCivil(d)) == d
  {
    var y := if d.month <= 2 then d.year - 1 else d.year;
    var e, yoe := y / 400, y % 400;
    var doy := MonthStart(MonthIndex(d.month)) + d.day - 1;
    DaysFromCivilParts(d, e, yoe, doy);
    MarchPartsOfDate(d, e, yoe, doy);
    CivilFromEraParts(e, yoe, doy, DaysFromCivil(d));
  }

  lemma DaysFromCivilParts(d: Date, e: int, yoe: int, doy: int)
    requires ValidDate(d) && 0 <= yoe <= 399
    requires e * 400 + yoe == (if d.month <= 2 then d.year - 1 else d.year)
    requires doy == MonthStart(MonthIndex(d.month)) + d.day - 1
    ensures DaysFromCivil(d) == e * 146097 + YearStart(yoe) + doy - 719468
  {
    YearDivMod(e * 400 + yoe, e, yoe);
  }

  /** The calendar successor is one day number later. */
  lemma NextDateIsNextDay(d: Date)
    requires ValidDate(d)
    ensures DaysFromCivil(NextDate(d)) == DaysFromCivil(d) + 1
  {
    if d.day < DaysInMonth(d.year, d.month) {
      assert NextDate(d) == Date(d.year, d.month, d.day + 1);
    } else if d.month == 2 {
      EndOfFebruary(d);
    } else {
      EndOfMonth(d);
    }
  }

  /** From the last day of a month other than February to the first of the next: the same March-based year. */
  lemma EndOfMonth(d: Date)
    requires ValidDate(d) && d.month != 2 && d.day == DaysInMonth(d.year, d.month)
    ensures DaysFromCivil(NextDate(d)) == DaysFromCivil(d) + 1
  {
    var y := if d.month <= 2 then d.year - 1 else d.year;
    var mp := MonthIndex(d.month);
    MonthLengthAgrees(mp, y);
    if d.month == 12 {
      assert NextDate(d) == Date(d.year + 1, 1, 1);
      assert MonthStart(10) == MonthStart(9) + 31;
    } else {
      assert NextDate(d) == Date(d.year, d.month + 1, 1);
      assert MonthIndex(d.month + 1) == mp + 1;
    }
  }

  /** From the last day of February to 1 March: one March-based year to the next, possibly across an era. */
  lemma EndOfFebruary(d: Date)
    requires ValidDate(d) && d.month == 2 && d.day == DaysInMonth(d.year, 2)
    ensures DaysFromCivil(NextDate(d)) == DaysFromCivil(d) + 1
  {
    var y := d.year - 1;
    var k := y % 400;
    MonthLengthAgrees(11, y);
    assert NextDate(d) == Date(d.year, 3, 1);
    if k < 399 {
      YearStartStep(k);
      assert d.year / 400 == y / 400 && d.year % 400 == k + 1;
    } else {
      assert d.year / 400 == y / 400 + 1 && d.year % 400 == 0;
    }
  }

  /** Day number `n + 1` is the calendar day after day number `n`. */
  lemma DayAfter(n: int)
    ensures ValidDate(CivilFromDays(n)) && CivilFromDays(n + 1) == NextDate(CivilFromDays(n))
  {
    CivilFromDaysInverse(n);
    var d := CivilFromDays(n);
    var d' := NextDate(d);
    NextDateIsNextDay(d);
    DateOfDayNumber(d', n + 1);
  }

  /** A valid date is the date of its day number `n`. */
  lemma DateOfDayNumber(d: Date, n: int)
    requires ValidDate(d) && DaysFromCivil(d) == n
    ensures CivilFromDays(n) == d
  {
    DaysFromCivilInverse(d);
  }
}
