/**
 * Instants as `DateTime` ticks (100 ns since 0001-01-01 00:00:00, proleptic
 * Gregorian calendar) and their civil decomposition: the `Second`, `Minute`,
 * `Hour`, `Day`, `Month`, `Year` and `DayOfWeek` properties the cron
 * expressions and the query windows read.
 *
 * The year and day-of-year are computed the way `DateTime` does it (whole
 * 400-, 100-, 4- and 1-year cycles); the lemmas prove that this agrees with
 * the plain Gregorian count of days before each year.
 */
module Calendar {
  import opened Wrappers
  import opened Errors

  const TicksPerSecond: nat := 10_000_000
  const TicksPerMinute: nat := 600_000_000
  const TicksPerHour: nat := 36_000_000_000
  const TicksPerDay: nat := 864_000_000_000

  /** `DateTime.MaxValue.Ticks`: the last tick of 9999-12-31. */
  const MaxTicks: nat := 3_155_378_975_999_999_999

  /** Ticks a `DateTime` can hold. */
  predicate InDateTimeRange(t: int) {
    0 <= t <= MaxTicks
  }

  predicate IsLeapYear(y: int) {
    y % 4 == 0 && (y % 100 != 0 || y % 400 == 0)
  }

  function DaysInYear(y: int): nat {
    if IsLeapYear(y) then 366 else 365
  }

  /** Days from 0001-01-01 to the first day of year `y`. */
  function DaysBeforeYear(y: nat): int
    requires 1 <= y
  {
    var p := y - 1;
    365 * p + p / 4 - p / 100 + p / 400
  }

  /** Consecutive years tile the day line. */
  lemma DaysBeforeNextYear(y: nat)
    requires 1 <= y
    ensures DaysBeforeYear(y + 1) == DaysBeforeYear(y) + DaysInYear(y)
  {
    DivStep(y, 4);
    DivStep(y, 100);
    DivStep(y, 400);
    if y % 100 == 0 {
      ModUnique(y, 4, 25 * (y / 100), 0);
    }
    if y % 400 == 0 {
      ModUnique(y, 100, 4 * (y / 400), 0);
    }
  }

  /** Counting multiples of `k` up to `y` adds one to the count up to `y - 1` exactly when `k` divides `y`. */
  lemma DivStep(y: nat, k: nat)
    requires 1 <= y && 0 < k
    ensures y / k == (y - 1) / k + (if y % k == 0 then 1 else 0)
  {
    var q, r := (y - 1) / k, (y - 1) % k;
    if r == k - 1 {
      ModUnique(y, k, q + 1, 0);
    } else {
      ModUnique(y, k, q, r + 1);
    }
  }

  lemma {:induction false} DaysBeforeYearMonotone(a: nat, b: nat)
    requires 1 <= a < b
    ensures DaysBeforeYear(a) + DaysInYear(a) <= DaysBeforeYear(b)
    decreases b - a
  {
    DaysBeforeNextYear(a);
    if a + 1 < b {
      DaysBeforeYearMonotone(a + 1, b);
    }
  }

  /** At most one year contains a given day. */
  lemma YearIsUnique(n: int, a: nat, b: nat)
    requires 1 <= a && 1 <= b
    requires DaysBeforeYear(a) <= n < DaysBeforeYear(a) + DaysInYear(a)
    requires DaysBeforeYear(b) <= n < DaysBeforeYear(b) + DaysInYear(b)
    ensures a == b
  {
    if a < b {
      DaysBeforeYearMonotone(a, b);
    } else if b < a {
      DaysBeforeYearMonotone(b, a);
    }
  }

  datatype YearDay = YearDay(year: nat, dayOfYear: nat)

  /** The number of days covered by 400 / 100 / 4 / 1 complete Gregorian years. */
  const DaysPer400Years: nat := 146097
  const DaysPer100Years: nat := 36524
  const DaysPer4Years: nat := 1461
  const DaysPerYear: nat := 365

  /**
   * The year holding day number `n` (days since 0001-01-01) and the 0-based
   * day within that year, computed by whole cycles as `DateTime` does.
   */
  function YearOfDay(n: nat): (r: YearDay)
    ensures 1 <= r.year
    ensures r.dayOfYear < DaysInYear(r.year)
    ensures DaysBeforeYear(r.year) + r.dayOfYear == n
  {
    var y400 := n / DaysPer400Years;
    var r1 := n % DaysPer400Years;
    var y100 := if r1 / DaysPer100Years == 4 then 3 else r1 / DaysPer100Years;
    var r2 := r1 - y100 * DaysPer100Years;
    var y4 := r2 / DaysPer4Years;
    var r3 := r2 % DaysPer4Years;
    var y1 := if r3 / DaysPerYear == 4 then 3 else r3 / DaysPerYear;
    var doy := r3 - y1 * DaysPerYear;
    CycleArithmetic(n, y400, y100, y4, y1, r1, r2, r3, doy);
    YearDay(400 * y400 + 100 * y100 + 4 * y4 + y1 + 1, doy)
  }

  lemma CycleArithmetic(n: nat, a: nat, b: nat, c: nat, d: nat, r1: nat, r2: int, r3: nat, doy: int)
    requires a == n / 146097 && r1 == n % 146097
    requires b == (if r1 / 36524 == 4 then 3 else r1 / 36524)
    requires r2 == r1 - b * 36524
    requires c == r2 / 1461 && r3 == r2 % 1461
    requires d == (if r3 / 365 == 4 then 3 else r3 / 365)
    requires doy == r3 - d * 365
    ensures 0 <= doy < DaysInYear(400 * a + 100 * b + 4 * c + d + 1)
    ensures DaysBeforeYear(400 * a + 100 * b + 4 * c + d + 1) + doy == n
  {
    CenturyBounds(r1, b, r2);
    QuadBounds(r2, c, r3);
    YearBounds(r3, d, doy);
    var y := 400 * a + 100 * b + 4 * c + d + 1;
    YearQuotients(a, b, c, d);
    if doy == 365 {
      LastDayIsLeap(a, b, c, d);
    }
  }

  lemma CenturyBounds(r1: nat, b: nat, r2: int)
    requires r1 < 146097
    requires b == (if r1 / 36524 == 4 then 3 else r1 / 36524)
    requires r2 == r1 - b * 36524
    ensures b <= 3 && 0 <= r2 <= 36524
    ensures r2 == 36524 ==> b == 3
  {
  }

  lemma QuadBounds(r2: int, c: nat, r3: nat)
    requires 0 <= r2 <= 36524
    requires c == r2 / 1461 && r3 == r2 % 1461
    ensures r2 == 1461 * c + r3 && r3 < 1461 && c <= 24
    ensures c == 24 && r3 == 1460 ==> r2 == 36524
  {
  }

  lemma YearBounds(r3: nat, d: nat, doy: int)
    requires r3 < 1461
    requires d == (if r3 / 365 == 4 then 3 else r3 / 365)
    requires doy == r3 - d * 365
    ensures d <= 3 && 0 <= doy <= 365
    ensures doy == 365 ==> d == 3 && r3 == 1460
  {
  }

  /** The leap-day counts of the year after `a, b, c, d` whole cycles. */
  lemma YearQuotients(a: nat, b: nat, c: nat, d: nat)
    requires b <= 3 && c <= 24 && d <= 3
    ensures DaysBeforeYear(400 * a + 100 * b + 4 * c + d + 1)
         == 146097 * a + 36524 * b + 1461 * c + 365 * d
  {
    var p := 400 * a + 100 * b + 4 * c + d;
    assert p == 4 * (100 * a + 25 * b + c) + d;
    assert p / 4 == 100 * a + 25 * b + c;
    assert p == 100 * (4 * a + b) + (4 * c + d);
    assert p / 100 == 4 * a + b;
    assert p == 400 * a + (100 * b + 4 * c + d);
    assert p / 400 == a;
  }

  /** A 366th day only ever falls in the last year of a 4-year cycle that is a leap year. */
  lemma LastDayIsLeap(a: nat, b: nat, c: nat, d: nat)
    requires b <= 3 && c <= 24 && d == 3
    requires c == 24 ==> b == 3
    ensures IsLeapYear(400 * a + 100 * b + 4 * c + d + 1)
  {
    var y := 400 * a + 100 * b + 4 * c + d + 1;
    if c == 24 {
      assert y == 400 * (a + 1);
    } else {
      assert y == 100 * (4 * a + b) + 4 * (c + 1);
      assert y % 100 == 4 * (c + 1);
      assert y % 4 == 0;
    }
  }

  /** Days of the year before month `m` (1..13) begins. */
  function DaysBeforeMonth(m: nat, leap: bool): nat
    requires 1 <= m <= 13
  {
    var before := [0, 31, 59, 90, 120, 151, 181, 212, 243, 273, 304, 334, 365][m - 1];
    if leap && m >= 3 then before + 1 else before
  }

  function DaysInMonth(y: int, m: nat): (d: nat)
    requires 1 <= m <= 12
    ensures 28 <= d <= 31
    ensures d == DaysBeforeMonth(m + 1, IsLeapYear(y)) - DaysBeforeMonth(m, IsLeapYear(y))
  {
    if m == 2 then (if IsLeapYear(y) then 29 else 28)
    else if m == 4 || m == 6 || m == 9 || m == 11 then 30
    else 31
  }

  /** The month (counting up from `m`) whose days hold day-of-year `doy`. */
  function MonthFrom(m: nat, doy: nat, leap: bool): (r: nat)
    requires 1 <= m <= 12
    requires DaysBeforeMonth(m, leap) <= doy < DaysBeforeMonth(13, leap)
    ensures m <= r <= 12
    ensures DaysBeforeMonth(r, leap) <= doy < DaysBeforeMonth(r + 1, leap)
    decreases 12 - m
  {
    if doy < DaysBeforeMonth(m + 1, leap) then m else MonthFrom(m + 1, doy, leap)
  }

  lemma DaysBeforeMonthIncreasing(a: nat, b: nat, leap: bool)
    requires 1 <= a < b <= 13
    ensures DaysBeforeMonth(a + 1, leap) <= DaysBeforeMonth(b, leap)
  {
  }

  /** At most one month contains a given day of the year. */
  lemma MonthIsUnique(doy: nat, a: nat, b: nat, leap: bool)
    requires 1 <= a <= 12 && 1 <= b <= 12
    requires DaysBeforeMonth(a, leap) <= doy < DaysBeforeMonth(a + 1, leap)
    requires DaysBeforeMonth(b, leap) <= doy < DaysBeforeMonth(b + 1, leap)
    ensures a == b
  {
    if a < b {
      DaysBeforeMonthIncreasing(a, b, leap);
    } else if b < a {
      DaysBeforeMonthIncreasing(b, a, leap);
    }
  }

  /** `DateTime.Date`: the instant's midnight. */
  function Midnight(t: nat): (d: nat)
    ensures d <= t < d + TicksPerDay
    ensures d % TicksPerDay == 0
  {
    t - t % TicksPerDay
  }

  /** Whole days since 0001-01-01. */
  function DayNumber(t: nat): nat {
    t / TicksPerDay
  }

  function Second(t: nat): (s: nat)
    ensures s < 60
  {
    (t / TicksPerSecond) % 60
  }

  function Minute(t: nat): (m: nat)
    ensures m < 60
  {
    (t / TicksPerMinute) % 60
  }

  function Hour(t: nat): (h: nat)
    ensures h < 24
  {
    (t / TicksPerHour) % 24
  }

  /** `(int)DateTime.DayOfWeek`: 0 is Sunday; 0001-01-01 was a Monday. */
  function DayOfWeek(t: nat): (d: nat)
    ensures d < 7
  {
    (DayNumber(t) + 1) % 7
  }

  function Year(t: nat): (y: nat)
    ensures 1 <= y
  {
    YearOfDay(DayNumber(t)).year
  }

  function Month(t: nat): (m: nat)
    ensures 1 <= m <= 12
  {
    var yd := YearOfDay(DayNumber(t));
    var leap := IsLeapYear(yd.year);
    assert DaysBeforeMonth(13, leap) == DaysInYear(yd.year);
    MonthFrom(1, yd.dayOfYear, leap)
  }

  /** `DateTime.Day`: the day of the month, 1-based. */
  function Day(t: nat): (d: nat)
    ensures 1 <= d <= DaysInMonth(Year(t), Month(t))
  {
    var yd := YearOfDay(DayNumber(t));
    var m := Month(t);
    yd.dayOfYear - DaysBeforeMonth(m, IsLeapYear(yd.year)) + 1
  }

  /** The civil fields of an instant. */
  datatype Civil = Civil(year: nat, month: nat, day: nat, hour: nat, minute: nat, second: nat, dayOfWeek: nat)

  function Decompose(t: nat): (c: Civil)
    ensures 1 <= c.year
    ensures 1 <= c.month <= 12
    ensures 1 <= c.day <= DaysInMonth(c.year, c.month)
    ensures c.hour < 24 && c.minute < 60 && c.second < 60
    ensures c.dayOfWeek < 7
    ensures c.hour * TicksPerHour + c.minute * TicksPerMinute + c.second * TicksPerSecond <= t % TicksPerDay
  {
    TimeOfDay(t);
    Civil(Year(t), Month(t), Day(t), Hour(t), Minute(t), Second(t), DayOfWeek(t))
  }

  /** Hour, minute and second are the time elapsed since the instant's midnight. */
  lemma TimeOfDay(t: nat)
    ensures Hour(t) * TicksPerHour + Minute(t) * TicksPerMinute + Second(t) * TicksPerSecond <= t % TicksPerDay
    ensures t % TicksPerDay < Hour(t) * TicksPerHour + Minute(t) * TicksPerMinute + (Second(t) + 1) * TicksPerSecond
  {
    var s := t / TicksPerSecond;
    var sd := s % 86400;
    DivOfDiv(t, s, TicksPerSecond, 60, TicksPerMinute);
    DivOfDiv(t, s, TicksPerSecond, 3600, TicksPerHour);
    DivOfDiv(t, s, TicksPerSecond, 86400, TicksPerDay);
    SecondsOfDay(s);
    assert t % TicksPerDay == sd * TicksPerSecond + t % TicksPerSecond by {
      assert t == TicksPerSecond * s + t % TicksPerSecond;
      assert s == 86400 * (s / 86400) + sd;
      assert t == TicksPerDay * (s / 86400) + (sd * TicksPerSecond + t % TicksPerSecond);
    }
  }

  /** Dividing by `k1` and then by `k2` is dividing by `k1 * k2`. */
  lemma DivOfDiv(t: nat, s: nat, k1: nat, k2: nat, k: nat)
    requires 0 < k1 && 0 < k2 && k == k1 * k2
    requires s == t / k1
    ensures t / k == s / k2
  {
    var q, r := s / k2, s % k2;
    var r0 := t % k1;
    assert t == k1 * s + r0;
    assert s == k2 * q + r;
    Expand(k1, k2, q, r);
    assert 0 <= r <= k2 - 1;
    ScaleBelow(k1, k2, r);
    DivUnique(t, k, q, k1 * r + r0);
  }

  lemma Expand(k1: int, k2: int, q: int, r: int)
    ensures k1 * (k2 * q + r) == (k1 * k2) * q + k1 * r
  {
  }

  lemma ScaleBelow(k1: nat, k2: nat, r: nat)
    requires r <= k2 - 1
    ensures k1 * r <= k1 * k2 - k1
  {
    assert k1 * (k2 - 1) == k1 * k2 - k1;
  }

  lemma DivUnique(x: int, k: int, q: int, r: int)
    requires 0 < k && x == k * q + r && 0 <= r < k
    ensures x / k == q
  {
    var q', r' := x / k, x % k;
    assert x == k * q' + r' && 0 <= r' < k;
    if q < q' {
      MulStep(k, q, q' - q);
    } else if q' < q {
      MulStep(k, q', q - q');
    }
  }

  lemma MulStep(k: int, q: int, z: int)
    requires 0 < k && 1 <= z
    ensures k * (q + z) >= k * q + k
  {
    assert k * (q + z) == k * q + k * z;
    assert k * z == k + k * (z - 1);
    assert k * (z - 1) >= 0;
  }

  /** The hour, minute and second of a count of seconds, within its day. */
  lemma SecondsOfDay(s: nat)
    ensures s % 86400 == (s / 3600) % 24 * 3600 + (s / 60) % 60 * 60 + s % 60
  {
    var days, sd := s / 86400, s % 86400;
    var h, mins := sd / 3600, sd / 60;
    DivOfDiv(sd, mins, 60, 60, 3600);
    assert mins == 60 * h + mins % 60;
    assert sd == 60 * mins + sd % 60;
    assert s == 86400 * days + sd;
    DivUnique(s, 3600, 24 * days + h, sd % 3600);
    ModUnique(24 * days + h, 24, days, h);
    ModUnique(s, 60, 1440 * days + mins, sd % 60);
    ModUnique(1440 * days + mins, 60, 24 * days + h, mins % 60);
  }

  lemma ModUnique(x: int, k: int, q: int, r: int)
    requires 0 < k && x == k * q + r && 0 <= r < k
    ensures x / k == q && x % k == r
  {
    DivUnique(x, k, q, r);
  }

  /** Going back `Day(t) - 1` days from midnight lands on the first of the same month. */
  lemma FirstOfMonth(t: nat)
    requires (Day(t) - 1) * TicksPerDay <= Midnight(t)
    ensures Day(Midnight(t) - (Day(t) - 1) * TicksPerDay) == 1
    ensures Month(Midnight(t) - (Day(t) - 1) * TicksPerDay) == Month(t)
    ensures Year(Midnight(t) - (Day(t) - 1) * TicksPerDay) == Year(t)
  {
    MidnightIsDate(t);
    var y, m, d := Year(t), Month(t), Day(t);
    assert Midnight(t) - (d - 1) * TicksPerDay == DateToTicks(y, m, 1);
    DateOfDateToTicks(y, m, 1);
  }

  /** The first tick of day `d` of month `m` of year `y` (`DateTime(y, m, d)`). */
  function DateToTicks(y: nat, m: nat, d: nat): (t: nat)
    requires 1 <= y && 1 <= m <= 12 && 1 <= d <= DaysInMonth(y, m)
  {
    (DaysBeforeYear(y) + DaysBeforeMonth(m, IsLeapYear(y)) + d - 1) * TicksPerDay
  }

  /** An instant's midnight is the first tick of its civil date. */
  lemma MidnightIsDate(t: nat)
    ensures Midnight(t) == DateToTicks(Year(t), Month(t), Day(t))
  {
    var n := DayNumber(t);
    assert Midnight(t) == n * TicksPerDay;
    var yd := YearOfDay(n);
    assert n == DaysBeforeYear(yd.year) + DaysBeforeMonth(Month(t), IsLeapYear(yd.year)) + Day(t) - 1;
  }

  /** The civil date of a date's first tick is that date. */
  lemma DateOfDateToTicks(y: nat, m: nat, d: nat)
    requires 1 <= y && 1 <= m <= 12 && 1 <= d <= DaysInMonth(y, m)
    ensures Year(DateToTicks(y, m, d)) == y
    ensures Month(DateToTicks(y, m, d)) == m
    ensures Day(DateToTicks(y, m, d)) == d
  {
    var leap := IsLeapYear(y);
    var t := DateToTicks(y, m, d);
    var n := DaysBeforeYear(y) + DaysBeforeMonth(m, leap) + d - 1;
    assert DayNumber(t) == n;
    assert DaysBeforeMonth(13, leap) == DaysInYear(y);
    DaysBeforeMonthIncreasing(m, 13, leap);
    var yd := YearOfDay(n);
    YearIsUnique(n, yd.year, y);
    MonthIsUnique(yd.dayOfYear, Month(t), m, leap);
  }

  /**
   * `DateTime.AddMonths(months)` for `months >= 0`: the same day in the target
   * month, clamped to that month's length, at the same time of day; a target
   * year past 9999 throws.
   */
  function AddMonths(t: nat, months: nat): (r: Result<nat, Exception>)
    ensures r.Fail? ==> r.error == ArgumentOutOfRangeException
  {
    AddMonthsToDate(Year(t), Month(t), Day(t), t % TicksPerDay, months)
  }

  function AddMonthsToDate(y: nat, m: nat, d: nat, timeOfDay: nat, months: nat): (r: Result<nat, Exception>)
    requires 1 <= y && 1 <= m <= 12 && 1 <= d
    ensures r.Fail? ==> r.error == ArgumentOutOfRangeException
  {
    var i := m - 1 + months;
    var y', m' := y + i / 12, i % 12 + 1;
    if y' > 9999 then Fail(ArgumentOutOfRangeException)
    else
      var d' := if d > DaysInMonth(y', m') then DaysInMonth(y', m') else d;
      Ok(DateToTicks(y', m', d') + timeOfDay)
  }

  /** One month after the first of a month is the first of the next month. */
  lemma AddMonthFromFirst(y: nat, m: nat)
    requires 1 <= y <= 9999 && 1 <= m <= 12 && (y < 9999 || m < 12)
    ensures AddMonths(DateToTicks(y, m, 1), 1) == Ok(DateToTicks(y, m, 1) + DaysInMonth(y, m) * TicksPerDay)
  {
    var t := DateToTicks(y, m, 1);
    DateOfDateToTicks(y, m, 1);
    FirstIsMidnight(y, m);
    assert AddMonths(t, 1) == AddMonthsToDate(y, m, 1, 0, 1);
    AddMonthToFirst(y, m);
  }

  lemma FirstIsMidnight(y: nat, m: nat)
    requires 1 <= y && 1 <= m <= 12
    ensures DateToTicks(y, m, 1) % TicksPerDay == 0
  {
    var n := DaysBeforeYear(y) + DaysBeforeMonth(m, IsLeapYear(y));
    assert DateToTicks(y, m, 1) == n * TicksPerDay;
    ModUnique(n * TicksPerDay, TicksPerDay, n, 0);
  }

  lemma AddMonthToFirst(y: nat, m: nat)
    requires 1 <= y <= 9999 && 1 <= m <= 12 && (y < 9999 || m < 12)
    ensures AddMonthsToDate(y, m, 1, 0, 1) == Ok(DateToTicks(y, m, 1) + DaysInMonth(y, m) * TicksPerDay)
  {
    if m < 12 {
      assert m / 12 == 0 && m % 12 + 1 == m + 1;
      NextMonthStart(y, m);
    } else {
      assert m / 12 == 1 && m % 12 + 1 == 1;
      NextYearStart(y);
    }
  }

  lemma NextMonthStart(y: nat, m: nat)
    requires 1 <= y && 1 <= m < 12
    ensures DateToTicks(y, m + 1, 1) == DateToTicks(y, m, 1) + DaysInMonth(y, m) * TicksPerDay
  {
    var leap := IsLeapYear(y);
    var a := DaysBeforeYear(y) + DaysBeforeMonth(m, leap);
    assert DaysBeforeMonth(m + 1, leap) == DaysBeforeMonth(m, leap) + DaysInMonth(y, m);
    assert DateToTicks(y, m + 1, 1) == (a + DaysInMonth(y, m)) * TicksPerDay;
  }

  lemma NextYearStart(y: nat)
    requires 1 <= y
    ensures DateToTicks(y + 1, 1, 1) == DateToTicks(y, 12, 1) + DaysInMonth(y, 12) * TicksPerDay
  {
    var leap := IsLeapYear(y);
    DaysBeforeNextYear(y);
    assert DaysBeforeMonth(13, leap) == DaysInYear(y);
    assert DaysBeforeMonth(12, leap) + 31 == DaysInYear(y);
    assert DateToTicks(y + 1, 1, 1) == DaysBeforeYear(y + 1) * TicksPerDay;
    assert DateToTicks(y, 12, 1) == (DaysBeforeYear(y) + DaysBeforeMonth(12, leap)) * TicksPerDay;
  }
}
