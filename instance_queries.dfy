/**
 * `OperationInstanceRepository`: the planned instances of a user inside a
 * calendar window (today, this week from Sunday, this month) ordered by their
 * operation's start date, and the executed instances of a user ordered by
 * their execution instant.
 *
 * An instance belongs to a user through its operation: an instance whose
 * operation row is missing (the foreign key is nullable) belongs to nobody.
 */
module InstanceQueries {
  import opened Wrappers
  import opened Errors
  import opened Calendar
  import opened Tables
  import opened Persistence
  import D = Domain

  /** The closed interval of ticks `[start, end]` the planned query selects. */
  datatype Window = Window(start: nat, end: int)

  /** `DateTime.AddDays(days)` on an instant: out of range below 0001-01-01 or past 9999-12-31. */
  function AddDays(t: nat, days: int): (r: Result<nat, Exception>)
    ensures r.Ok? ==> r.value == t + days * TicksPerDay
    ensures r.Fail? ==> r.error == ArgumentOutOfRangeException
  {
    var u := t + days * TicksPerDay;
    if u < 0 || u > MaxTicks then Fail(ArgumentOutOfRangeException) else Ok(u)
  }

  /**
   * The window of `GetPlanedUserOperationsAsync` for `range` at `now`: Day is
   * today, Week starts `DayOfWeek` days back (on Sunday) and spans seven days,
   * Month starts on the first of this month and ends where the next one
   * starts; each ends one tick before the next period. Any other range throws.
   */
  function PlanWindow(range: D.TimeRange, now: nat): (r: Result<Window, Exception>)
    ensures r.Fail? ==> r.error == ArgumentOutOfRangeException
  {
    var today := Midnight(now);
    match range
    case Day =>
      var end := AddDays(today, 1);
      if end.Fail? then Fail(end.error) else Ok(Window(today, end.value - 1))
    case Week =>
      var start := AddDays(today, -(DayOfWeek(now) as int));
      var end := AddDays(today, 7 - DayOfWeek(now) as int);
      if start.Fail? then Fail(start.error)
      else if end.Fail? then Fail(end.error)
      else Ok(Window(start.value, end.value - 1))
    case Month =>
      var first := AddDays(today, 1 - Day(now) as int);
      if first.Fail? then Fail(first.error)
      else
        var end := AddMonths(first.value, 1);
        if end.Fail? then Fail(end.error) else Ok(Window(first.value, end.value - 1))
    case _ => Fail(ArgumentOutOfRangeException)
  }

  /** Only Day, Week and Month have a window; None, Min15 and Hour throw. */
  lemma OtherRangesThrow(range: D.TimeRange, now: nat)
    requires range in [D.None, D.Min15, D.Hour]
    ensures PlanWindow(range, now) == Fail(ArgumentOutOfRangeException)
  {
  }

  /** The Day window is today: from midnight to the tick before the next midnight. */
  lemma DayWindow(now: nat)
    requires Midnight(now) + TicksPerDay <= MaxTicks
    ensures PlanWindow(D.Day, now) == Ok(Window(Midnight(now), Midnight(now) + TicksPerDay - 1))
    ensures Midnight(now) <= now <= Midnight(now) + TicksPerDay - 1
  {
  }

  /**
   * The Week window starts on the Sunday at or before today, contains `now`,
   * and spans seven whole days.
   */
  lemma WeekWindow(now: nat)
    requires now <= MaxTicks - 7 * TicksPerDay
    requires DayOfWeek(now) * TicksPerDay <= Midnight(now)
    ensures PlanWindow(D.Week, now).Ok?
    ensures var w := PlanWindow(D.Week, now).value;
      DayOfWeek(w.start) == 0 && w.start % TicksPerDay == 0
      && w.start <= now <= w.end && w.end + 1 - w.start == 7 * TicksPerDay
  {
    var today := Midnight(now);
    var k := DayOfWeek(now);
    var start := today - k * TicksPerDay;
    assert DayNumber(today) == DayNumber(now) by {
      DivUnique(today, TicksPerDay, DayNumber(now), 0);
    }
    DivUnique(start, TicksPerDay, DayNumber(now) - k, 0);
    assert DayNumber(start) == DayNumber(now) - k;
    ModUnique(DayNumber(now) + 1, 7, (DayNumber(now) + 1) / 7, k);
    ModUnique(DayNumber(now) - k + 1, 7, (DayNumber(now) + 1) / 7, 0);
  }

  /** The start of the Month window is the midnight `Day - 1` days back, never before the first instant. */
  lemma MonthStartInRange(now: nat)
    ensures (Day(now) - 1) * TicksPerDay <= Midnight(now)
  {
    MidnightIsDate(now);
  }

  /**
   * The Month window runs from the first of the current month to the last
   * tick of its last day, and contains `now`. It exists for every instant of
   * years 1 to 9999 except the last month, whose end is out of range.
   */
  lemma MonthWindow(now: nat)
    requires now <= MaxTicks && (Year(now) < 9999 || Month(now) < 12)
    ensures PlanWindow(D.Month, now).Ok?
    ensures var w := PlanWindow(D.Month, now).value;
      Day(w.start) == 1 && Month(w.start) == Month(now) && Year(w.start) == Year(now)
      && w.start <= now <= w.end
      && w.end + 1 == w.start + DaysInMonth(Year(now), Month(now)) * TicksPerDay
  {
    FirstOfMonthTicks(now);
    var y, m := Year(now), Month(now);
    DateOfDateToTicks(y, m, 1);
    AddMonthFromFirst(y, m);
    MidnightIsDate(now);
  }

  /** The first of the month of `now`, reached by going `Day - 1` days back from today. */
  lemma FirstOfMonthTicks(now: nat)
    requires now <= MaxTicks
    ensures Year(now) <= 9999
    ensures AddDays(Midnight(now), 1 - Day(now) as int) == Ok(DateToTicks(Year(now), Month(now), 1))
  {
    MidnightIsDate(now);
    YearAtMost(now);
  }

  /** No instant of the `DateTime` range is in year 10000 or later. */
  lemma YearAtMost(t: nat)
    requires t <= MaxTicks
    ensures Year(t) <= 9999
  {
    MidnightIsDate(t);
  }

  /** The owner of an instance: the Telegram id of its operation, if the operation exists. */
  function Owner(db: Db, r: D.InstanceRow): Option<int> {
    if r.operationId in db.operations then Some(db.operations[r.operationId].telegramUserId) else None
  }

  /** The start date of an instance's operation (0 for an instance without one). */
  function OperationStart(db: Db, r: D.InstanceRow): int {
    if r.operationId in db.operations then db.operations[r.operationId].startDate else 0
  }

  /** The execution instant of an instance (0 while it is pending). */
  function ExecutedAt(r: D.InstanceRow): int {
    if r.executedAt.Some? then r.executedAt.value else 0
  }

  /** The `Where` of the planned query: pending, the caller's, and starting inside the window. */
  function IsPlanned(db: Db, telegramId: int, w: Window): D.InstanceRow -> bool {
    (r: D.InstanceRow) =>
      r.executedAt.None? && Owner(db, r) == Some(telegramId)
      && w.start <= OperationStart(db, r) <= w.end
  }

  /** The `Where` of the history query: executed and the caller's. */
  function IsExecuted(db: Db, telegramId: int): D.InstanceRow -> bool {
    (r: D.InstanceRow) => r.executedAt.Some? && Owner(db, r) == Some(telegramId)
  }

  /** The ordering key of the planned query. */
  function StartKey(db: Db): D.InstanceRow -> int {
    (r: D.InstanceRow) => OperationStart(db, r)
  }

  /** `GetPlanedUserOperationsAsync`. */
  function Planned(db: Db, telegramId: int, range: D.TimeRange, now: nat): (r: Result<seq<D.InstanceRow>, Exception>)
    ensures r.Fail? <==> PlanWindow(range, now).Fail?
    ensures r.Fail? ==> r.error == ArgumentOutOfRangeException
  {
    var w := PlanWindow(range, now);
    if w.Fail? then Fail(w.error)
    else Ok(SortBy(Filter(db.instances, IsPlanned(db, telegramId, w.value)), StartKey(db)))
  }

  /** `GetExecutedUserOperationsAsync`. */
  function History(db: Db, telegramId: int): seq<D.InstanceRow> {
    SortBy(Filter(db.instances, IsExecuted(db, telegramId)), ExecutedAt)
  }

  /**
   * The planned query returns exactly the caller's pending instances whose
   * operation starts inside the window, each as often as in the table,
   * ordered by that start date.
   */
  lemma PlannedSelects(db: Db, telegramId: int, range: D.TimeRange, now: nat)
    requires PlanWindow(range, now).Ok?
    ensures var w := PlanWindow(range, now).value;
      var r := Planned(db, telegramId, range, now).value;
      && SortedBy(r, StartKey(db))
      && multiset(r) == multiset(Filter(db.instances, IsPlanned(db, telegramId, w)))
      && (forall x :: x in r <==> x in db.instances && x.executedAt.None? && Owner(db, x) == Some(telegramId)
                                  && w.start <= OperationStart(db, x) <= w.end)
  {
    var w := PlanWindow(range, now).value;
    SameMembers(Planned(db, telegramId, range, now).value, Filter(db.instances, IsPlanned(db, telegramId, w)));
  }

  /**
   * The history query returns exactly the caller's executed instances, each
   * as often as in the table, ordered by execution instant.
   */
  lemma HistorySelects(db: Db, telegramId: int)
    ensures var r := History(db, telegramId);
      && SortedBy(r, ExecutedAt)
      && multiset(r) == multiset(Filter(db.instances, IsExecuted(db, telegramId)))
      && (forall x :: x in r <==> x in db.instances && x.executedAt.Some? && Owner(db, x) == Some(telegramId))
  {
    SameMembers(History(db, telegramId), Filter(db.instances, IsExecuted(db, telegramId)));
  }

  /** A pending and an executed instance never meet: the two queries are disjoint. */
  lemma PlannedAndHistoryDisjoint(db: Db, telegramId: int, range: D.TimeRange, now: nat, x: D.InstanceRow)
    requires PlanWindow(range, now).Ok?
    ensures !(x in Planned(db, telegramId, range, now).value && x in History(db, telegramId))
  {
    PlannedSelects(db, telegramId, range, now);
    HistorySelects(db, telegramId);
  }
}
