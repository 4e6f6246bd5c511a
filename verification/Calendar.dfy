// Days to dates: two independently written conversions against a day-counting Gregorian calendar
// (crates/core/src/quota.rs and crates/cli/src/render.rs).

module Calendar {
  /** A date of the proleptic Gregorian calendar. */
  datatype Date = Date(year: int, month: int, day: int)

  const DAY: nat := 86_400

  // ---- the calendar, by counting days ----

  predicate IsLeap(y: int) { y % 4 == 0 && (y % 100 != 0 || y % 400 == 0) }

  function YearLength(y: int): nat { if IsLeap(y) then 366 else 365 }

  function MonthLength(y: int, m: int): nat {
    if m == 2 then (if IsLeap(y) then 29 else 28)
    else if m == 4 || m == 6 || m == 9 || m == 11 then 30
    else 31
  }

  predicate Valid(d: Date) {
    1 <= d.month <= 12 && 1 <= d.day <= MonthLength(d.year, d.month)
  }

  /** Days from 1970-01-01 to January 1st of year y, year by year. */
  function YearStart(y: int): int
    decreases if y >= 1970 then y - 1970 else 1970 - y
  {
    if y == 1970 then 0
    else if y > 1970 then YearStart(y - 1) + YearLength(y - 1)
    else YearStart(y + 1) - YearLength(y)
  }

  /** Days from January 1st to the first of month m, month by month. */
  function MonthStart(y: int, m: int): nat
    requires 1 <= m <= 13
    decreases m
  {
    if m == 1 then 0 else MonthStart(y, m - 1) + MonthLength(y, m - 1)
  }

  /** The number of a day, counted from 1970-01-01. */
  function DayNumber(d: Date): int
    requires Valid(d)
  {
    YearStart(d.year) + MonthStart(d.year, d.month) + d.day - 1
  }

  /** The calendar date after d. */
  function Next(d: Date): Date
    requires Valid(d)
  {
    if d.day < MonthLength(d.year, d.month) then d.(day := d.day + 1)
    else if d.month < 12 then Date(d.year, d.month + 1, 1)
    else Date(d.year + 1, 1, 1)
  }

  // ---- the two conversions ----

  /** Division of the source language: towards zero. */
  function TruncDiv(a: int, b: int): int
    requires b > 0
  {
    if a >= 0 then a / b else -((-a) / b)
  }

  function YearOfEra(doe: int): int { (doe - doe / 1_460 + doe / 36_524 - doe / 146_096) / 365 }

  function MonthDay(doy: int): (int, int) {
    var mp := (5 * doy + 2) / 153;
    (if mp < 10 then mp + 3 else mp - 9, doy - (153 * mp + 2) / 5 + 1)
  }

  /** The date of day doy (from 0) of the year that begins in March of y. */
  function FromMarch(y: int, doy: int): Date {
    var (m, d) := MonthDay(doy);
    Date(if m <= 2 then y + 1 else y, m, d)
  }

  /** quota.rs: the era by truncating division with a corrected negative branch. */
  function CivilFromDays(day: int): Date {
    var z := day + 719_468;
    var era := TruncDiv(if z >= 0 then z else z - 146_096, 146_097);
    OfEra(era, z - era * 146_097)
  }

  /** The date of a day within an era of 400 years. */
  function OfEra(era: int, doe: int): Date {
    var yoe := YearOfEra(doe);
    FromMarch(yoe + era * 400, doe - EraYear(yoe))
  }

  /** render.rs: the era by Euclidean division, from seconds, with hour and minute. */
  function UtcParts(ts: nat): (Date, nat, nat) {
    var rem := ts % DAY;
    var z := ts / DAY + 719_468;
    var era, doe := z / 146_097, z % 146_097;
    var yoe := YearOfEra(doe);
    var y := yoe + era * 400;
    var doy := doe - (365 * yoe + yoe / 4 - yoe / 100);
    var mp := (5 * doy + 2) / 153;
    var d := doy - (153 * mp + 2) / 5 + 1;
    var m := if mp < 10 then mp + 3 else mp - 9;
    (Date(if m <= 2 then y + 1 else y, m, d), rem / 3600, (rem % 3600) / 60)
  }

  // ---- closed forms of the counting functions ----

  /** Days from 0000-03-01 to March 1st of year y (years beginning in March). */
  function MarchStart(y: int): int { 365 * y + y / 4 - y / 100 + y / 400 }

  lemma MarchStep(y: int)
    ensures MarchStart(y) == MarchStart(y - 1) + YearLength(y)
  {
    StepBy(y, 4);
    StepBy(y, 100);
    StepBy(y, 400);
    LeapNested(y);
  }

  lemma LeapNested(y: int)
    ensures y % 100 == 0 ==> y % 4 == 0
    ensures y % 400 == 0 ==> y % 100 == 0
  {
    assert y % 100 == 0 ==> y == 4 * (25 * (y / 100));
    assert y % 400 == 0 ==> y == 100 * (4 * (y / 400));
  }

  lemma StepBy(y: int, n: int)
    requires n == 4 || n == 100 || n == 400
    ensures y / n == (y - 1) / n + if y % n == 0 then 1 else 0
  {
  }

  /** January 1st of y lies 306 days after March 1st of y - 1. */
  lemma {:induction false} YearStartClosed(y: int)
    ensures YearStart(y) == MarchStart(y - 1) + 306 - 719_468
    decreases if y >= 1970 then y - 1970 else 1970 - y
  {
    if y > 1970 {
      YearStartClosed(y - 1);
      MarchStep(y - 1);
    } else if y < 1970 {
      YearStartClosed(y + 1);
      MarchStep(y);
    }
  }

  /** First day of the mp-th month of a March-based year. */
  function MarchMonth(mp: int): int { (153 * mp + 2) / 5 }

  lemma MonthStartClosed(y: int, m: int)
    requires 1 <= m <= 12
    ensures MonthStart(y, m) == if m <= 2 then MarchMonth(m + 9) - 306
      else MarchMonth(m - 3) + 59 + (if IsLeap(y) then 1 else 0)
  {
    assert MonthStart(y, 1) == 0 && MonthStart(y, 2) == 31;
    var feb := if IsLeap(y) then 29 else 28;
    assert MonthStart(y, 3) == 31 + feb;
    assert MonthStart(y, 4) == 62 + feb;
    assert MonthStart(y, 5) == 92 + feb;
    assert MonthStart(y, 6) == 123 + feb;
    assert MonthStart(y, 7) == 153 + feb;
    assert MonthStart(y, 8) == 184 + feb;
    assert MonthStart(y, 9) == 215 + feb;
    assert MonthStart(y, 10) == 245 + feb;
    assert MonthStart(y, 11) == 276 + feb;
    assert MonthStart(y, 12) == 306 + feb;
  }

  /** The day number in terms of the March-based year, month and day. */
  lemma DayNumberClosed(d: Date)
    requires Valid(d)
    ensures DayNumber(d) == if d.month <= 2
      then MarchStart(d.year - 1) + MarchMonth(d.month + 9) + d.day - 1 - 719_468
      else MarchStart(d.year) + MarchMonth(d.month - 3) + d.day - 1 - 719_468
  {
    YearStartClosed(d.year);
    MonthStartClosed(d.year, d.month);
    MarchStep(d.year);
  }

  // ---- the year within an era ----

  /** Start of year yoe within its era. */
  function EraYear(yoe: int): int { 365 * yoe + yoe / 4 - yoe / 100 }

  /** The divisions by 1460, 36524 and 146096 correct exactly for the leap days passed. */
  lemma YearOfEraCorrect(doe: int)
    requires 0 <= doe < 146_097
    ensures var yoe := YearOfEra(doe);
      0 <= yoe < 400 && EraYear(yoe) <= doe && doe < (if yoe == 399 then 146_097 else EraYear(yoe + 1))
  {
    var c, q, t, u := EraSplit(doe);
    EraParts(c, q, t, u);
    EraYearStep(c, q, t);
  }

  /** A day of an era in centuries, four-year cycles, years and days. */
  lemma EraSplit(doe: int) returns (c: int, q: int, t: int, u: int)
    requires 0 <= doe < 146_097
    ensures 0 <= c <= 3 && 0 <= q <= 24 && 0 <= t <= 3 && 0 <= u <= 365
    ensures u == 365 ==> t == 3 && (q < 24 || c == 3)
    ensures doe == 36_524 * c + 1_461 * q + 365 * t + u
  {
    c := if doe == 146_096 then 3 else doe / 36_524;
    var r := doe - 36_524 * c;
    q := if r == 36_524 then 24 else r / 1_461;
    var s := r - 1_461 * q;
    t := if s == 1_460 then 3 else s / 365;
    u := s - 365 * t;
  }

  /** A year of the era has 366 days if it is the last of a cycle, except at the end of a century. */
  lemma EraYearStep(c: int, q: int, t: int)
    requires 0 <= c <= 3 && 0 <= q <= 24 && 0 <= t <= 3
    ensures var yoe := 100 * c + 4 * q + t;
      EraYear(yoe + 1) - EraYear(yoe) == 365 + (if t == 3 then 1 else 0) - (if t == 3 && q == 24 then 1 else 0)
  {
    var yoe := 100 * c + 4 * q + t;
    assert yoe / 4 == 25 * c + q && yoe / 100 == c;
    assert (yoe + 1) / 4 == 25 * c + q + (if t == 3 then 1 else 0);
    assert (yoe + 1) / 100 == c + (if t == 3 && q == 24 then 1 else 0);
  }

  lemma EraParts(c: int, q: int, t: int, u: int)
    requires 0 <= c <= 3 && 0 <= q <= 24 && 0 <= t <= 3 && 0 <= u <= 365
    requires u == 365 ==> t == 3 && (q < 24 || c == 3)
    ensures var doe, yoe := 36_524 * c + 1_461 * q + 365 * t + u, 100 * c + 4 * q + t;
      YearOfEra(doe) == yoe && EraYear(yoe) == doe - u
  {
    var doe, yoe := 36_524 * c + 1_461 * q + 365 * t + u, 100 * c + 4 * q + t;
    var e := if 24 * c + q + 365 * t + u >= 1_460 then 1 else 0;
    assert doe == 1_460 * (25 * c + q + e) + (24 * c + q + 365 * t + u - 1_460 * e);
    assert doe / 1_460 == 25 * c + q + e;
    var f := if doe == 146_096 then 1 else 0;
    assert doe / 36_524 == c + f;
    assert doe / 146_096 == f;
    assert doe - doe / 1_460 + doe / 36_524 - doe / 146_096 == 365 * yoe + u - e;
    assert 0 <= u - e < 365;
    assert yoe / 4 == 25 * c + q;
    assert yoe / 100 == c;
  }

  lemma MarchOfEra(era: int, yoe: int)
    requires 0 <= yoe <= 400
    ensures MarchStart(yoe + era * 400) == 146_097 * era + EraYear(yoe) + (if yoe == 400 then 1 else 0)
  {
    var y := yoe + era * 400;
    assert y / 4 == yoe / 4 + 100 * era;
    assert y / 100 == yoe / 100 + 4 * era;
    assert y / 400 == (if yoe == 400 then 1 else 0) + era;
  }

  /** The month formula inverts the month starts of a March-based year. */
  lemma MonthDayCorrect(doy: int)
    requires 0 <= doy <= 365
    ensures var mp := (5 * doy + 2) / 153; var (m, d) := MonthDay(doy);
      && 0 <= mp <= 11 && doy == MarchMonth(mp) + d - 1
      && m == (if mp < 10 then mp + 3 else mp - 9) && 1 <= m <= 12 && 1 <= d
      && d <= (if m == 2 then doy - 336 else if m == 4 || m == 6 || m == 9 || m == 11 then 30 else 31)
  {
    var mp := (5 * doy + 2) / 153;
    if mp == 0 {} else if mp == 1 {} else if mp == 2 {} else if mp == 3 {} else if mp == 4 {} else if mp == 5 {}
    else if mp == 6 {} else if mp == 7 {} else if mp == 8 {} else if mp == 9 {} else if mp == 10 {} else {}
  }

  /** The corrected truncating division of the negative branch is floor division. */
  lemma EraIsFloor(z: int)
    ensures TruncDiv(if z >= 0 then z else z - 146_096, 146_097) == z / 146_097
    ensures z - (z / 146_097) * 146_097 == z % 146_097
  {
    if z < 0 {
      var q, r := z / 146_097, z % 146_097;
      assert 146_096 - z == 146_097 * (-q) + (146_096 - r);
    }
  }

  // ---- the theorems ----

  lemma FromMarchRight(y: int, doy: int)
    requires 0 <= doy < YearLength(y + 1)
    ensures Valid(FromMarch(y, doy)) && DayNumber(FromMarch(y, doy)) == MarchStart(y) + doy - 719_468
  {
    MonthDayCorrect(doy);
    DayNumberClosed(FromMarch(y, doy));
  }

  lemma YearWithinEra(era: int, doe: int) returns (y: int, doy: int)
    requires 0 <= doe < 146_097
    ensures y == YearOfEra(doe) + era * 400 && doy == doe - EraYear(YearOfEra(doe))
    ensures 0 <= doy < YearLength(y + 1) && MarchStart(y) + doy == 146_097 * era + doe
  {
    y, doy := YearOfEra(doe) + era * 400, doe - EraYear(YearOfEra(doe));
    YearOfEraCorrect(doe);
    var yoe := YearOfEra(doe);
    MarchOfEra(era, yoe);
    MarchOfEra(era, yoe + 1);
    MarchStep(yoe + era * 400 + 1);
  }

  lemma CivilShape(day: int) returns (era: int, doe: int)
    ensures 0 <= doe < 146_097 && day + 719_468 == 146_097 * era + doe
    ensures CivilFromDays(day) == OfEra(era, doe)
  {
    var z := day + 719_468;
    era, doe := EraOf(z);
    ByEra(day, era, doe);
  }

  lemma ByEra(day: int, era: int, doe: int)
    requires var z := day + 719_468;
      era == TruncDiv(if z >= 0 then z else z - 146_096, 146_097) && doe == z - era * 146_097
    ensures CivilFromDays(day) == OfEra(era, doe)
  {
  }

  /** The truncating division of the source, corrected for negative operands, is floor division. */
  lemma EraOf(z: int) returns (era: int, doe: int)
    ensures era == TruncDiv(if z >= 0 then z else z - 146_096, 146_097)
    ensures doe == z - era * 146_097 && 0 <= doe < 146_097
  {
    era, doe := z / 146_097, z % 146_097;
    EraIsFloor(z);
  }

  lemma CivilSplits(day: int) returns (y: int, doy: int)
    ensures 0 <= doy < YearLength(y + 1) && MarchStart(y) + doy == day + 719_468
    ensures CivilFromDays(day) == FromMarch(y, doy)
  {
    var era, doe := CivilShape(day);
    y, doy := YearWithinEra(era, doe);
  }

  /** For every day number the conversion gives a valid date with exactly that day number. */
  lemma CivilIsRight(day: int)
    ensures Valid(CivilFromDays(day))
    ensures DayNumber(CivilFromDays(day)) == day
  {
    var y, doy := CivilSplits(day);
    FromMarchRight(y, doy);
  }

  /** Every valid date is the conversion of its own day number. */
  lemma CivilInverts(d: Date)
    requires Valid(d)
    ensures CivilFromDays(DayNumber(d)) == d
  {
    CivilIsRight(DayNumber(d));
    DayNumberInjective(CivilFromDays(DayNumber(d)), d);
  }

  /** Every date's day number is one less than the next date's. */
  lemma NextIsPlusOne(d: Date)
    requires Valid(d)
    ensures Valid(Next(d)) && DayNumber(Next(d)) == DayNumber(d) + 1
  {
    if d.day == MonthLength(d.year, d.month) {
      if d.month == 12 {
        YearFollows(d.year);
      } else {
        assert MonthStart(d.year, d.month + 1) == MonthStart(d.year, d.month) + MonthLength(d.year, d.month);
      }
    }
  }

  /** New Year's Day follows December 31st. */
  lemma YearFollows(y: int)
    ensures YearStart(y + 1) == YearStart(y) + MonthStart(y, 12) + 31
  {
    MonthStartClosed(y, 12);
    YearStartClosed(y);
    YearStartClosed(y + 1);
    MarchStep(y);
  }

  ghost predicate Before(a: Date, b: Date) {
    a.year < b.year || (a.year == b.year && (a.month < b.month || (a.month == b.month && a.day < b.day)))
  }

  lemma {:induction false} YearStartGrows(a: int, b: int)
    requires a < b
    ensures YearStart(a) + YearLength(a) <= YearStart(b)
    decreases b - a
  {
    YearStartClosed(a);
    YearStartClosed(b);
    YearStartClosed(b - 1);
    MarchStep(b - 1);
    if a < b - 1 {
      YearStartGrows(a, b - 1);
    }
  }

  lemma {:induction false} MonthStartGrows(y: int, a: int, b: int)
    requires 1 <= a < b <= 13
    ensures MonthStart(y, a) + MonthLength(y, a) <= MonthStart(y, b)
    decreases b - a
  {
    if a < b - 1 {
      MonthStartGrows(y, a, b - 1);
    }
  }

  lemma YearTotal(y: int)
    ensures MonthStart(y, 13) == YearLength(y)
  {
    MonthStartClosed(y, 12);
  }

  /** Counting days respects the calendar's order. */
  lemma DayNumberMonotone(a: Date, b: Date)
    requires Valid(a) && Valid(b) && Before(a, b)
    ensures DayNumber(a) < DayNumber(b)
  {
    MonthStartGrows(a.year, a.month, 13);
    YearTotal(a.year);
    if a.year < b.year {
      YearStartGrows(a.year, b.year);
    } else if a.month < b.month {
      MonthStartGrows(a.year, a.month, b.month);
    }
  }

  lemma DayNumberInjective(a: Date, b: Date)
    requires Valid(a) && Valid(b) && DayNumber(a) == DayNumber(b)
    ensures a == b
  {
    if Before(a, b) {
      DayNumberMonotone(a, b);
    } else if Before(b, a) {
      DayNumberMonotone(b, a);
    }
  }

  /** The following day converts to the following date. */
  lemma CivilNextDay(day: int)
    ensures Valid(CivilFromDays(day)) && CivilFromDays(day + 1) == Next(CivilFromDays(day))
  {
    CivilIsRight(day);
    CivilIsRight(day + 1);
    NextIsUnique(CivilFromDays(day), CivilFromDays(day + 1));
  }

  lemma NextIsUnique(d: Date, e: Date)
    requires Valid(d) && Valid(e) && DayNumber(e) == DayNumber(d) + 1
    ensures e == Next(d)
  {
    NextIsPlusOne(d);
    DayNumberInjective(Next(d), e);
  }

  lemma SameDate(ts: nat)
    ensures UtcParts(ts).0 == CivilFromDays(ts / DAY)
  {
    EraIsFloor(ts / DAY + 719_468);
  }

  /** Both implementations agree, and the time of day is exact to the minute. */
  lemma UtcPartsAgrees(ts: nat)
    ensures UtcParts(ts).0 == CivilFromDays(ts / DAY)
    ensures Valid(UtcParts(ts).0) && DayNumber(UtcParts(ts).0) == ts / DAY
    ensures UtcParts(ts).1 < 24 && UtcParts(ts).2 < 60
    ensures 0 <= ts - (ts / DAY * DAY + UtcParts(ts).1 * 3600 + UtcParts(ts).2 * 60) < 60
  {
    SameDate(ts);
    CivilIsRight(ts / DAY);
    TimeOfDay(ts);
  }

  lemma TimeOfDay(ts: nat)
    ensures UtcParts(ts).1 < 24 && UtcParts(ts).2 < 60
    ensures 0 <= ts - (ts / DAY * DAY + UtcParts(ts).1 * 3600 + UtcParts(ts).2 * 60) < 60
  {
    var rem := ts % DAY;
    assert UtcParts(ts).1 == rem / 3600 && UtcParts(ts).2 == (rem % 3600) / 60;
    assert ts == ts / DAY * DAY + rem;
    assert rem == (rem / 3600) * 3600 + rem % 3600;
  }

  // ---- text form ----

  function Digit(n: nat): char
    requires n < 10
  {
    '0' + n as char
  }

  /** Zero-padded decimal of at least `width` digits. */
  function Padded(n: nat, width: nat): (s: string)
    decreases n, width
  {
    if n < 10 && width <= 1 then [Digit(n)]
    else Padded(n / 10, if width > 0 then width - 1 else 0) + [Digit(n % 10)]
  }

  /** quota.rs: seconds to "YYYY-MM-DDTHH:MM:SSZ". */
  function IsoUtc(ts: nat): string
    requires Civil(ts)
  {
    Stamp(CivilFromDays(ts / DAY), ts % DAY)
  }

  predicate NonNegative(d: Date) { 0 <= d.year && 0 <= d.month && 0 <= d.day }

  /** A date and a second of that day, as text. */
  function Stamp(d: Date, rem: nat): string
    requires NonNegative(d)
  {
    Padded(d.year, 4) + ['-'] + (Padded(d.month, 2) + ['-'] + (Padded(d.day, 2) + ['T']
    + (Padded(rem / 3600, 2) + [':'] + (Padded((rem % 3600) / 60, 2) + [':'] + (Padded(rem % 60, 2) + ['Z'])))))
  }

  /** Lexicographic order of texts, a proper prefix being smaller. */
  predicate TextLess(a: string, b: string) {
    b != [] && (a == [] || a[0] < b[0] || (a[0] == b[0] && TextLess(a[1..], b[1..])))
  }

  lemma {:induction false} LessOfConcat(a: string, b: string, x: string, y: string)
    requires |a| == |b| && (TextLess(a, b) || (a == b && TextLess(x, y)))
    ensures TextLess(a + x, b + y)
  {
    if a == [] {
      assert a + x == x && b + y == y;
    } else {
      assert (a + x)[1..] == a[1..] + x && (b + y)[1..] == b[1..] + y;
      if a[0] == b[0] {
        LessOfConcat(a[1..], b[1..], x, y);
      }
    }
  }

  function Power10(n: nat): nat { if n == 0 then 1 else 10 * Power10(n - 1) }

  lemma {:induction false} PaddedWidth(n: nat, width: nat)
    requires width > 0 && n < Power10(width)
    ensures |Padded(n, width)| == width
  {
    if width > 1 {
      PaddedWidth(n / 10, width - 1);
    } else {
      assert Power10(1) == 10 * Power10(0);
    }
  }

  /** Within one width, smaller numbers are smaller texts. */
  lemma {:induction false} PaddedOrder(m: nat, n: nat, width: nat)
    requires width > 0 && m < n < Power10(width)
    ensures TextLess(Padded(m, width), Padded(n, width))
  {
    PaddedWidth(m, width);
    PaddedWidth(n, width);
    if width == 1 {
      assert Power10(1) == 10 * Power10(0);
    } else {
      PaddedWidth(m / 10, width - 1);
      PaddedWidth(n / 10, width - 1);
      if m / 10 < n / 10 {
        PaddedOrder(m / 10, n / 10, width - 1);
      }
      LessOfConcat(Padded(m / 10, width - 1), Padded(n / 10, width - 1), [Digit(m % 10)], [Digit(n % 10)]);
    }
  }

  /** Fixed-width fields, each followed by its separator. */
  function Fields(values: seq<nat>, widths: seq<nat>, separators: string): string
    requires |values| == |widths| == |separators|
  {
    if values == [] then []
    else Padded(values[0], widths[0]) + [separators[0]] + Fields(values[1..], widths[1..], separators[1..])
  }

  ghost predicate Fit(values: seq<nat>, widths: seq<nat>) {
    |values| == |widths| && forall i :: 0 <= i < |values| ==> widths[i] > 0 && values[i] < Power10(widths[i])
  }

  predicate FieldsLess(a: seq<nat>, b: seq<nat>)
    requires |a| == |b|
  {
    a != [] && (a[0] < b[0] || (a[0] == b[0] && FieldsLess(a[1..], b[1..])))
  }

  lemma {:induction false} FieldsOrder(a: seq<nat>, b: seq<nat>, widths: seq<nat>, separators: string)
    requires Fit(a, widths) && Fit(b, widths) && |widths| == |separators| && FieldsLess(a, b)
    ensures TextLess(Fields(a, widths, separators), Fields(b, widths, separators))
  {
    var pa, pb, sep := Padded(a[0], widths[0]), Padded(b[0], widths[0]), [separators[0]];
    PaddedWidth(a[0], widths[0]);
    PaddedWidth(b[0], widths[0]);
    var ra := Fields(a[1..], widths[1..], separators[1..]);
    var rb := Fields(b[1..], widths[1..], separators[1..]);
    if a[0] < b[0] {
      PaddedOrder(a[0], b[0], widths[0]);
      LessOfConcat(pa, pb, sep, sep);
    } else {
      FieldsOrder(a[1..], b[1..], widths[1..], separators[1..]);
    }
    LessOfConcat(pa + sep, pb + sep, ra, rb);
  }

  const WIDTHS: seq<nat> := [4, 2, 2, 2, 2, 2]
  const SEPARATORS: string := "--T::Z"

  /** The six fields of a moment. */
  function Moment(ts: nat): (f: seq<nat>)
    requires Civil(ts)
    ensures |f| == 6
  {
    Clock(CivilFromDays(ts / DAY), ts % DAY)
  }

  function Clock(d: Date, rem: nat): seq<nat>
    requires NonNegative(d)
  {
    [d.year, d.month, d.day, rem / 3600, (rem % 3600) / 60, rem % 60]
  }

  predicate Civil(ts: nat) { NonNegative(CivilFromDays(ts / DAY)) }

  lemma IsoIsFields(ts: nat)
    requires Civil(ts)
    ensures IsoUtc(ts) == Fields(Moment(ts), WIDTHS, SEPARATORS)
  {
    StampIsFields(CivilFromDays(ts / DAY), ts % DAY);
  }

  lemma StampIsFields(d: Date, rem: nat)
    requires NonNegative(d)
    ensures Stamp(d, rem) == Fields(Clock(d, rem), WIDTHS, SEPARATORS)
  {
    var f := Clock(d, rem);
    TailFields(f);
    HeadFields(f);
  }

  lemma TailFields(f: seq<nat>)
    requires |f| == 6
    ensures Fields(f[3..], WIDTHS[3..], SEPARATORS[3..]) ==
      Padded(f[3], 2) + [':'] + (Padded(f[4], 2) + [':'] + (Padded(f[5], 2) + ['Z']))
  {
    FieldAt(f, 5);
    FieldAt(f, 4);
    FieldAt(f, 3);
    assert f[6..] == [];
    assert Padded(f[5], 2) + ['Z'] + [] == Padded(f[5], 2) + ['Z'];
  }

  lemma HeadFields(f: seq<nat>)
    requires |f| == 6
    ensures Fields(f, WIDTHS, SEPARATORS) ==
      Padded(f[0], 4) + ['-'] + (Padded(f[1], 2) + ['-'] + (Padded(f[2], 2) + ['T']
      + Fields(f[3..], WIDTHS[3..], SEPARATORS[3..])))
  {
    FieldAt(f, 2);
    FieldAt(f, 1);
    FieldAt(f, 0);
    assert f[0..] == f && WIDTHS[0..] == WIDTHS && SEPARATORS[0..] == SEPARATORS;
  }

  lemma FieldAt(f: seq<nat>, i: nat)
    requires |f| == 6 && i < 6
    ensures Fields(f[i..], WIDTHS[i..], SEPARATORS[i..]) ==
      Padded(f[i], WIDTHS[i]) + [SEPARATORS[i]] + Fields(f[i + 1..], WIDTHS[i + 1..], SEPARATORS[i + 1..])
  {
    assert f[i..][1..] == f[i + 1..] && WIDTHS[i..][1..] == WIDTHS[i + 1..];
    assert SEPARATORS[i..][1..] == SEPARATORS[i + 1..];
  }

  /** Last second of the year 9999. */
  const LAST_SECOND: nat := 253_402_300_799

  lemma LastYear()
    ensures YearStart(10_000) * DAY == LAST_SECOND + 1
    ensures YearStart(1970) == 0
  {
    YearStartClosed(10_000);
  }

  /** Moments up to the year 9999 have fields that fit their widths. */
  lemma MomentFits(ts: nat)
    requires ts <= LAST_SECOND
    ensures Civil(ts) && Valid(CivilFromDays(ts / DAY)) && Fit(Moment(ts), WIDTHS)
  {
    CivilIsRight(ts / DAY);
    LastYear();
    var d := CivilFromDays(ts / DAY);
    YearInRange(d);
    TwoDigits();
  }

  lemma TwoDigits()
    ensures Power10(2) == 100 && Power10(4) == 10_000
  {
  }

  lemma YearInRange(d: Date)
    requires Valid(d) && 0 <= DayNumber(d) < YearStart(10_000)
    ensures 1970 <= d.year < 10_000
  {
    if d.year >= 10_000 {
      if d.year > 10_000 {
        YearStartGrows(10_000, d.year);
      }
    } else if d.year < 1970 {
      YearStartGrows(d.year, 1970);
      MonthStartGrows(d.year, d.month, 13);
      YearTotal(d.year);
    }
  }

  lemma LaterDate(a: int, b: int)
    requires a < b
    ensures Valid(CivilFromDays(a)) && Valid(CivilFromDays(b)) && Before(CivilFromDays(a), CivilFromDays(b))
  {
    CivilIsRight(a);
    CivilIsRight(b);
    SmallerIsBefore(CivilFromDays(a), CivilFromDays(b));
  }

  lemma SmallerIsBefore(d: Date, e: Date)
    requires Valid(d) && Valid(e) && DayNumber(d) < DayNumber(e)
    ensures Before(d, e)
  {
    if !Before(d, e) && d != e {
      DayNumberMonotone(e, d);
    }
  }

  lemma DateFieldsLess(a: seq<nat>, b: seq<nat>)
    requires |a| == |b| == 6
    requires a[0] < b[0] || (a[0] == b[0] && (a[1] < b[1] || (a[1] == b[1] && a[2] < b[2])))
    ensures FieldsLess(a, b)
  {
    assert FieldsLess(a[2..], b[2..]) <== a[2] < b[2];
    assert a[1..][1..] == a[2..] && b[1..][1..] == b[2..];
  }

  lemma TimeFieldsLess(a: seq<nat>, b: seq<nat>)
    requires |a| == |b| == 6 && a[..3] == b[..3]
    requires a[3] < b[3] || (a[3] == b[3] && (a[4] < b[4] || (a[4] == b[4] && a[5] < b[5])))
    ensures FieldsLess(a, b)
  {
    assert a[4..][1..] == a[5..] && b[4..][1..] == b[5..];
    assert FieldsLess(a[5..], b[5..]) <== a[5] < b[5];
    assert a[3..][1..] == a[4..] && b[3..][1..] == b[4..];
    assert FieldsLess(a[3..], b[3..]);
    assert a[2..][1..] == a[3..] && b[2..][1..] == b[3..] && a[..3][2] == b[..3][2];
    assert a[1..][1..] == a[2..] && b[1..][1..] == b[2..] && a[..3][1] == b[..3][1];
    assert a[..3][0] == b[..3][0];
  }

  lemma LaterTime(r: nat, s: nat)
    requires r < s < DAY
    ensures r / 3600 < s / 3600 || (r / 3600 == s / 3600 &&
      ((r % 3600) / 60 < (s % 3600) / 60 || ((r % 3600) / 60 == (s % 3600) / 60 && r % 60 < s % 60)))
  {
    assert (r % 3600) % 60 == r % 60 && (s % 3600) % 60 == s % 60;
  }

  lemma LaterDay(a: nat, b: nat)
    requires Civil(a) && Civil(b) && a / DAY < b / DAY
    ensures FieldsLess(Moment(a), Moment(b))
  {
    LaterDate(a / DAY, b / DAY);
    DatesLess(CivilFromDays(a / DAY), a % DAY, CivilFromDays(b / DAY), b % DAY);
  }

  lemma DatesLess(d: Date, r: nat, e: Date, s: nat)
    requires NonNegative(d) && NonNegative(e) && Before(d, e)
    ensures FieldsLess(Clock(d, r), Clock(e, s))
  {
    DateFieldsLess(Clock(d, r), Clock(e, s));
  }

  lemma SameDay(a: nat, b: nat)
    requires Civil(a) && Civil(b) && a / DAY == b / DAY && a < b
    ensures FieldsLess(Moment(a), Moment(b))
  {
    LaterTime(a % DAY, b % DAY);
    TimeFieldsLess(Moment(a), Moment(b));
  }

  /** Up to the year 9999, later moments have larger texts. */
  lemma IsoIncreases(a: nat, b: nat)
    requires a < b <= LAST_SECOND
    ensures Civil(a) && Civil(b) && TextLess(IsoUtc(a), IsoUtc(b))
  {
    MomentFits(a);
    MomentFits(b);
    IsoIsFields(a);
    IsoIsFields(b);
    if a / DAY == b / DAY {
      SameDay(a, b);
    } else {
      LaterDay(a, b);
    }
    FieldsOrder(Moment(a), Moment(b), WIDTHS, SEPARATORS);
  }

  // ---- reading the text back ----

  /** The number that a text of decimal digits denotes. */
  function Decimal(s: string): nat {
    if s == [] then 0
    else
      var c := s[|s| - 1];
      10 * Decimal(s[..|s| - 1]) + if '0' <= c <= '9' then c as nat - 48 else 0
  }

  predicate AllDigits(s: string) { forall i :: 0 <= i < |s| ==> '0' <= s[i] <= '9' }

  lemma {:induction false} PaddedReads(n: nat, width: nat)
    requires width > 0 && n < Power10(width)
    ensures |Padded(n, width)| == width && AllDigits(Padded(n, width)) && Decimal(Padded(n, width)) == n
  {
    PaddedWidth(n, width);
    if width > 1 {
      PaddedReads(n / 10, width - 1);
      DecimalSnoc(Padded(n / 10, width - 1), n % 10);
    } else {
      assert Power10(1) == 10 * Power10(0);
      DecimalSnoc([], n);
      assert [] + [Digit(n)] == [Digit(n)];
    }
  }

  lemma DecimalSnoc(s: string, d: nat)
    requires d < 10
    ensures Decimal(s + [Digit(d)]) == 10 * Decimal(s) + d && '0' <= Digit(d) <= '9'
  {
    assert (s + [Digit(d)])[..|s|] == s;
  }

  /** Where the pieces of a timestamp lie. */
  lemma Pieces(a: string, b: string, c: string, d: string, e: string, f: string, s: string)
    requires |a| == 4 && |b| == |c| == |d| == |e| == |f| == 2
    requires s == a + ['-'] + (b + ['-'] + (c + ['T'] + (d + [':'] + (e + [':'] + (f + ['Z'])))))
    ensures |s| == 20 && s[4] == '-' && s[7] == '-' && s[10] == 'T' && s[13] == ':' && s[16] == ':' && s[19] == 'Z'
    ensures s[..4] == a && s[5..7] == b && s[8..10] == c && s[11..13] == d && s[14..16] == e && s[17..19] == f
  {
    var late := d + [':'] + (e + [':'] + (f + ['Z']));
    LatePieces(d, e, f, late);
    var early := a + ['-'] + (b + ['-'] + (c + ['T'] + late));
    assert s == early;
    assert s[11..] == late;
    assert s[11..13] == late[..2] && s[14..16] == late[3..5] && s[17..19] == late[6..8];
    assert s[13] == late[2] && s[16] == late[5] && s[19] == late[8];
  }

  lemma LatePieces(d: string, e: string, f: string, s: string)
    requires |d| == |e| == |f| == 2 && s == d + [':'] + (e + [':'] + (f + ['Z']))
    ensures |s| == 9 && s[2] == ':' && s[5] == ':' && s[8] == 'Z' && s[..2] == d && s[3..5] == e && s[6..8] == f
  {
  }

  /** The text has the form of section 5.6 of RFC 3339: digits, with separators in their places. */
  ghost predicate TimestampForm(s: string) {
    && |s| == 20 && s[4] == '-' && s[7] == '-' && s[10] == 'T' && s[13] == ':' && s[16] == ':' && s[19] == 'Z'
    && AllDigits(s[..4]) && AllDigits(s[5..7]) && AllDigits(s[8..10])
    && AllDigits(s[11..13]) && AllDigits(s[14..16]) && AllDigits(s[17..19])
  }

  /** Its numbers denote the moment: the day number of its date, and the second of the day. */
  ghost predicate TimestampOf(s: string, ts: nat)
    requires |s| == 20
  {
    var d := Date(Decimal(s[..4]), Decimal(s[5..7]), Decimal(s[8..10]));
    Valid(d) && ts == 86_400 * DayNumber(d) + 3600 * Decimal(s[11..13]) + 60 * Decimal(s[14..16]) + Decimal(s[17..19])
  }

  /** Up to the year 9999 the text has that form and its numbers give the moment back. */
  lemma IsoReadsBack(ts: nat)
    requires ts <= LAST_SECOND
    ensures Civil(ts) && TimestampForm(IsoUtc(ts)) && TimestampOf(IsoUtc(ts), ts)
  {
    CivilIsRight(ts / DAY);
    LastYear();
    DayReadsBack(CivilFromDays(ts / DAY), ts);
  }

  lemma DayReadsBack(d: Date, ts: nat)
    requires Valid(d) && DayNumber(d) == ts / DAY && ts <= LAST_SECOND && YearStart(10_000) * DAY == LAST_SECOND + 1
    ensures NonNegative(d) && TimestampForm(Stamp(d, ts % DAY)) && TimestampOf(Stamp(d, ts % DAY), ts)
  {
    YearInRange(d);
    StampReads(d, ts % DAY);
    ClockAdds(ts);
  }

  lemma ClockAdds(ts: nat)
    ensures var r := ts % DAY; ts == 86_400 * (ts / DAY) + 3600 * (r / 3600) + 60 * ((r % 3600) / 60) + r % 60
  {
    var r := ts % DAY;
    assert r % 60 == (r % 3600) % 60;
  }

  lemma StampReads(d: Date, r: nat)
    requires NonNegative(d) && d.year < 10_000 && d.month < 100 && d.day < 100 && r < DAY
    ensures var s := Stamp(d, r);
      && TimestampForm(s)
      && Decimal(s[..4]) == d.year && Decimal(s[5..7]) == d.month && Decimal(s[8..10]) == d.day
      && Decimal(s[11..13]) == r / 3600 && Decimal(s[14..16]) == (r % 3600) / 60 && Decimal(s[17..19]) == r % 60
  {
    TwoDigits();
    PaddedReads(d.year, 4);
    PaddedReads(d.month, 2);
    PaddedReads(d.day, 2);
    PaddedReads(r / 3600, 2);
    PaddedReads((r % 3600) / 60, 2);
    PaddedReads(r % 60, 2);
    Pieces(Padded(d.year, 4), Padded(d.month, 2), Padded(d.day, 2),
           Padded(r / 3600, 2), Padded((r % 3600) / 60, 2), Padded(r % 60, 2), Stamp(d, r));
  }

  /** Known days: the epoch, the day before it, a leap day of a century year, and a recent one. */
  lemma KnownDays()
    ensures CivilFromDays(0) == Date(1970, 1, 1) && CivilFromDays(-1) == Date(1969, 12, 31)
    ensures CivilFromDays(11_016) == Date(2000, 2, 29) && CivilFromDays(20_687) == Date(2026, 8, 22)
  {
    KnownDay(Date(1970, 1, 1), 0);
    KnownDay(Date(1969, 12, 31), -1);
    KnownDay(Date(2000, 2, 29), 11_016);
    KnownDay(Date(2026, 8, 22), 20_687);
  }

  lemma KnownDay(d: Date, n: int)
    requires Valid(d)
    requires var y, mp := if d.month <= 2 then d.year - 1 else d.year, if d.month <= 2 then d.month + 9 else d.month - 3;
      n == MarchStart(y) + MarchMonth(mp) + d.day - 1 - 719_468
    ensures CivilFromDays(n) == d
  {
    DayNumberClosed(d);
    CivilInverts(d);
  }
}
