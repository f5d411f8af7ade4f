/**
 * The domain of the scheduling backend: the `TimeRange` granularity, the
 * entities the services load, mutate in place and persist (`Operation`,
 * `OperationInstance`, `Reminder`, `TelegramUser`), the rows the database
 * keeps for them, and the DTOs the services receive.
 *
 * Instants (`DateTime`) are ticks (`nat`); durations (`TimeSpan`) are signed
 * ticks (`int`). A C# `null` reference is a Dafny `null` for an entity and
 * `None` for a string, a list or a nullable `DateTime`. An entity that has not
 * been saved yet has id 0; the database assigns a positive id on insert.
 */
module Domain {
  import W = Wrappers

  /** The recurrence granularity; `Value` is the enum's underlying number. */
  datatype TimeRange = None | Min15 | Hour | Day | Week | Month

  function Value(g: TimeRange): (v: int)
    ensures 0 <= v <= 5
  {
    match g
    case None => 0
    case Min15 => 1
    case Hour => 2
    case Day => 3
    case Week => 4
    case Month => 5
  }

  /** `Enum.IsDefined`: `v` names one of the six members. */
  predicate IsDefined(v: int) {
    0 <= v <= 5
  }

  /** The member whose number is `v`, if any. */
  function FromValue(v: int): (r: W.Option<TimeRange>)
    ensures r.Some? <==> IsDefined(v)
    ensures r.Some? ==> Value(r.value) == v
  {
    if v == 0 then W.Some(None)
    else if v == 1 then W.Some(Min15)
    else if v == 2 then W.Some(Hour)
    else if v == 3 then W.Some(Day)
    else if v == 4 then W.Some(Week)
    else if v == 5 then W.Some(Month)
    else W.None
  }

  /** Distinct members have distinct numbers, and each number maps back to its member. */
  lemma ValueRoundTrip(g: TimeRange)
    ensures FromValue(Value(g)) == W.Some(g)
  {
  }

  /** The result text of an executed instance. */
  const Done: string := "Done"

  /** A user, identified for the rest of the system by `telegramId`. */
  datatype TelegramUser = TelegramUser(id: int, telegramId: int)

  /** The stored form of each entity (its scalar columns and foreign keys). */
  datatype InstanceRow = InstanceRow(
    id: int, scheduledAt: nat, operationId: int,
    result: W.Option<string>, executedAt: W.Option<nat>)

  datatype ReminderRow = ReminderRow(
    id: int, messageTemplate: string, offsetBeforeExecution: int, operationId: int)

  datatype OperationRow = OperationRow(
    id: int, theme: string, description: string, startDate: nat,
    cron: W.Option<string>, telegramUserId: int, nextInstanceId: W.Option<int>)

  /** One occurrence of an operation: pending while `executedAt` is absent. */
  class OperationInstance {
    var id: int
    var scheduledAt: nat
    var operationId: int
    var result: W.Option<string>
    var executedAt: W.Option<nat>

    /** A new, unsaved, unexecuted instance. */
    constructor (scheduledAt: nat, operationId: int)
      ensures Row() == InstanceRow(0, scheduledAt, operationId, W.None, W.None)
    {
      this.id := 0;
      this.scheduledAt := scheduledAt;
      this.operationId := operationId;
      this.result := W.None;
      this.executedAt := W.None;
    }

    /** An instance materialised from its row. */
    constructor Load(row: InstanceRow)
      ensures Row() == row
    {
      id := row.id;
      scheduledAt := row.scheduledAt;
      operationId := row.operationId;
      result := row.result;
      executedAt := row.executedAt;
    }

    function Row(): InstanceRow
      reads this
    {
      InstanceRow(id, scheduledAt, operationId, result, executedAt)
    }

    predicate Pending()
      reads this
    {
      executedAt.None?
    }
  }

  /** A notification sent `offsetBeforeExecution` ticks before its operation starts. */
  class Reminder {
    var id: int
    var messageTemplate: string
    var offsetBeforeExecution: int
    var operationId: int
    /** The `Operation` navigation; `null` unless loaded. */
    var operation: Operation?

    /** A new, unsaved reminder. */
    constructor (messageTemplate: string, offsetBeforeExecution: int, operationId: int)
      ensures Row() == ReminderRow(0, messageTemplate, offsetBeforeExecution, operationId)
      ensures operation == null
    {
      this.id := 0;
      this.messageTemplate := messageTemplate;
      this.offsetBeforeExecution := offsetBeforeExecution;
      this.operationId := operationId;
      this.operation := null;
    }

    /** A reminder materialised from its row, with its operation if that was included. */
    constructor Load(row: ReminderRow, operation: Operation?)
      ensures Row() == row && this.operation == operation
    {
      id := row.id;
      messageTemplate := row.messageTemplate;
      offsetBeforeExecution := row.offsetBeforeExecution;
      operationId := row.operationId;
      this.operation := operation;
    }

    function Row(): ReminderRow
      reads this
    {
      ReminderRow(id, messageTemplate, offsetBeforeExecution, operationId)
    }
  }

  /**
   * The rows of a list of instances, in order. Instances and reminders are
   * different classes with different row types, so each has its own row list.
   */
  function InstanceRows(xs: seq<OperationInstance>): (rows: seq<InstanceRow>)
    reads xs
    ensures |rows| == |xs|
    ensures forall i :: 0 <= i < |xs| ==> rows[i] == xs[i].Row()
  {
    if xs == [] then [] else [xs[0].Row()] + InstanceRows(xs[1..])
  }

  /** The rows of a list of reminders, in order. */
  function ReminderRows(rs: seq<Reminder>): (rows: seq<ReminderRow>)
    reads rs
    ensures |rows| == |rs|
    ensures forall i :: 0 <= i < |rs| ==> rows[i] == rs[i].Row()
  {
    if rs == [] then [] else [rs[0].Row()] + ReminderRows(rs[1..])
  }

  /** The rows of a reminders navigation, `None` when it is not loaded. */
  function LoadedRows(reminders: W.Option<seq<Reminder>>): (r: W.Option<seq<ReminderRow>>)
    reads if reminders.Some? then reminders.value else []
    ensures r.Some? <==> reminders.Some?
  {
    if reminders.Some? then W.Some(ReminderRows(reminders.value)) else W.None
  }

  lemma ReminderRowsAppend(rs: seq<Reminder>, r: Reminder)
    ensures ReminderRows(rs + [r]) == ReminderRows(rs) + [r.Row()]
  {
    var a, b := ReminderRows(rs + [r]), ReminderRows(rs) + [r.Row()];
    assert |a| == |b|;
    forall i | 0 <= i < |a| ensures a[i] == b[i] {
      assert (rs + [r])[i] == if i < |rs| then rs[i] else r;
    }
  }

  /**
   * A scheduled operation. `next` is the pending instance (`NextOperationInstance`),
   * `history` and `reminders` are navigations that are `None` unless loaded.
   */
  class Operation {
    var id: int
    var theme: string
    var description: string
    var startDate: nat
    var cron: W.Option<string>
    var telegramUserId: int
    var next: OperationInstance?
    var history: W.Option<seq<OperationInstance>>
    var reminders: W.Option<seq<Reminder>>

    /** A new, unsaved operation (an object initializer without reminders). */
    constructor (theme: string, description: string, startDate: nat, cron: W.Option<string>,
                 telegramUserId: int, next: OperationInstance?, history: W.Option<seq<OperationInstance>>)
      ensures id == 0 && this.theme == theme && this.description == description
      ensures this.startDate == startDate && this.cron == cron && this.telegramUserId == telegramUserId
      ensures this.next == next && this.history == history && reminders.None?
    {
      this.id := 0;
      this.theme := theme;
      this.description := description;
      this.startDate := startDate;
      this.cron := cron;
      this.telegramUserId := telegramUserId;
      this.next := next;
      this.history := history;
      this.reminders := W.None;
    }

    /** An operation materialised from its row with the navigations that were included. */
    constructor Load(row: OperationRow, next: OperationInstance?, reminders: W.Option<seq<Reminder>>)
      ensures id == row.id && theme == row.theme && description == row.description
      ensures startDate == row.startDate && cron == row.cron && telegramUserId == row.telegramUserId
      ensures this.next == next && history.None? && this.reminders == reminders
    {
      id := row.id;
      theme := row.theme;
      description := row.description;
      startDate := row.startDate;
      cron := row.cron;
      telegramUserId := row.telegramUserId;
      this.next := next;
      history := W.None;
      this.reminders := reminders;
    }

    /** The operation's own row; the foreign key follows the `next` navigation. */
    function Row(): OperationRow
      reads this, next
    {
      OperationRow(id, theme, description, startDate, cron, telegramUserId,
                   if next == null then W.None else W.Some(next.id))
    }
  }

  /** `CreateOperationDto`; its `Cron` is the granularity the service converts. */
  datatype CreateOperationDto = CreateOperationDto(
    theme: string, description: string, startDate: nat, cron: TimeRange)

  datatype UpdateOperationDto = UpdateOperationDto(
    id: int, theme: string, description: string, startDate: nat, cron: TimeRange)

  datatype CreateReminderDto = CreateReminderDto(
    messageTemplate: string, offsetBeforeExecution: TimeRange)

  /** `UpdateReminderDto`; its offset is the granularity the service converts. */
  datatype UpdateReminderDto = UpdateReminderDto(
    id: int, messageTemplate: string, offsetBeforeExecution: TimeRange)

  datatype CreateUserDto = CreateUserDto(telegramId: int)

  /** The message a reminder broadcasts. */
  datatype NotificationResponseDto = NotificationResponseDto(telegramId: int, message: string)
}
