/**
 * `ReminderService`: the reminders of a Telegram user's operations. Every
 * request checks, in order, that the user exists, that the operation exists,
 * (for an existing reminder) that the reminder exists, and that the operation
 * is the caller's and the reminder is the operation's; then it saves the
 * reminder and brings the reminder's job in step.
 *
 * The clock reading the job helper compares the fire time with is the
 * parameter `now`.
 */
module ReminderServices {
  import opened Wrappers
  import opened Errors
  import opened Journal
  import opened Hangfire
  import opened Tables
  import opened Persistence
  import opened TimeRangeExt
  import opened ReminderJobs
  import D = Domain

  /** The checks of `AddReminderAsync`, in order: the user, the operation, its owner. */
  function OperationAccess(db: Db, telegramId: int, operationId: int): (r: Result<D.OperationRow, Error>)
    ensures r.Ok? <==> telegramId in db.users && operationId in db.operations
                       && db.operations[operationId].telegramUserId == telegramId
    ensures r.Ok? ==> r.value == db.operations[operationId]
  {
    if telegramId !in db.users then Fail(NotFound(UserNotFound))
    else if operationId !in db.operations then Fail(NotFound(OperationNotFound))
    else if db.operations[operationId].telegramUserId != telegramId then Fail(PermissionError)
    else Ok(db.operations[operationId])
  }

  /**
   * The checks of `UpdateReminderAsync` and `DeleteReminderAsync`, in order:
   * the user, the operation, the reminder, and then both that the operation is
   * the caller's and that the reminder is the operation's. A missing reminder
   * is reported before someone else's operation.
   */
  function ReminderAccess(db: Db, telegramId: int, operationId: int, reminderId: int): (r: Result<D.ReminderRow, Error>)
    ensures r.Ok? ==> Find(db.reminders, ReminderId, reminderId) == Some(r.value)
  {
    if telegramId !in db.users then Fail(NotFound(UserNotFound))
    else if operationId !in db.operations then Fail(NotFound(OperationNotFound))
    else
      var row := Find(db.reminders, ReminderId, reminderId);
      if row.None? then Fail(NotFound(ReminderNotFound))
      else if db.operations[operationId].telegramUserId != telegramId
              || db.operations[operationId].id != row.value.operationId then Fail(PermissionError)
      else Ok(row.value)
  }

  /**
   * Access to a reminder is granted exactly when the caller exists, owns the
   * operation, and the reminder with that id belongs to that operation.
   */
  lemma ReminderAccessGranted(db: Db, telegramId: int, operationId: int, reminderId: int)
    requires Consistent(db)
    ensures ReminderAccess(db, telegramId, operationId, reminderId).Ok? <==>
      && OperationAccess(db, telegramId, operationId).Ok?
      && exists i :: 0 <= i < |db.reminders| && db.reminders[i].id == reminderId && db.reminders[i].operationId == operationId
  {
    if exists i :: 0 <= i < |db.reminders| && db.reminders[i].id == reminderId && db.reminders[i].operationId == operationId {
      var i :| 0 <= i < |db.reminders| && db.reminders[i].id == reminderId && db.reminders[i].operationId == operationId;
      FindUnique(db.reminders, ReminderId, i);
    }
    var row := Find(db.reminders, ReminderId, reminderId);
    if row.Some? {
      var i :| 0 <= i < |db.reminders| && db.reminders[i] == row.value;
      assert db.reminders[i].id == reminderId;
    }
  }

  /** The errors of the two orders of checks agree until the reminder is looked up. */
  lemma AccessErrorsAgree(db: Db, telegramId: int, operationId: int, reminderId: int)
    ensures OperationAccess(db, telegramId, operationId) == Fail(NotFound(UserNotFound))
        <==> ReminderAccess(db, telegramId, operationId, reminderId) == Fail(NotFound(UserNotFound))
    ensures OperationAccess(db, telegramId, operationId) == Fail(NotFound(OperationNotFound))
        <==> ReminderAccess(db, telegramId, operationId, reminderId) == Fail(NotFound(OperationNotFound))
  {
  }

  /** `CreateNewReminder`, saved: the message, the offset as a span, the operation, the next identity value. */
  function AddedRow(db: Db, operationId: int, dto: D.CreateReminderDto): D.ReminderRow {
    D.ReminderRow(db.lastReminderId + 1, dto.messageTemplate, ToTimeSpan(dto.offsetBeforeExecution), operationId)
  }

  /** The tables after `AddReminderAsync` saved a new reminder. */
  function AddedDb(db: Db, operationId: int, dto: D.CreateReminderDto): Db {
    db.(reminders := db.reminders + [AddedRow(db, operationId, dto)], lastReminderId := db.lastReminderId + 1)
  }

  /**
   * Adding keeps the tables consistent; the new reminder is found under its
   * new id, which was free; every other id finds what it found before; the
   * reminders of the operation gain the new one at the end and those of every
   * other operation stay as they were.
   */
  lemma AddedReminder(db: Db, operationId: int, dto: D.CreateReminderDto)
    requires Consistent(db)
    ensures var after := AddedDb(db, operationId, dto);
      && Consistent(after)
      && Find(db.reminders, ReminderId, db.lastReminderId + 1).None?
      && Find(after.reminders, ReminderId, db.lastReminderId + 1) == Some(AddedRow(db, operationId, dto))
      && (forall k :: k != db.lastReminderId + 1 ==> Find(after.reminders, ReminderId, k) == Find(db.reminders, ReminderId, k))
      && RemindersOf(after.reminders, operationId) == RemindersOf(db.reminders, operationId) + [AddedRow(db, operationId, dto)]
      && (forall o :: o != operationId ==> RemindersOf(after.reminders, o) == RemindersOf(db.reminders, o))
      && after.users == db.users && after.operations == db.operations && after.instances == db.instances
  {
    var row := AddedRow(db, operationId, dto);
    var rows := db.reminders + [row];
    AppendUnique(db.reminders, ReminderId, row);
    forall k ensures Find(rows, ReminderId, k) == if Find(db.reminders, ReminderId, k).Some? then Find(db.reminders, ReminderId, k) else if row.id == k then Some(row) else None {
      FindAppend(db.reminders, ReminderId, row, k);
    }
    assert rows[..|rows| - 1] == db.reminders;
  }

  /** `UpdateReminderByDto`: the message and the offset are taken from the request; the id and the operation stay. */
  function EditedRow(row: D.ReminderRow, dto: D.UpdateReminderDto): D.ReminderRow {
    row.(messageTemplate := dto.messageTemplate, offsetBeforeExecution := ToTimeSpan(dto.offsetBeforeExecution))
  }

  /** The tables after `UpdateReminderAsync` saved the edited reminder. */
  function EditedDb(db: Db, dto: D.UpdateReminderDto): Db
    requires Find(db.reminders, ReminderId, dto.id).Some?
  {
    db.(reminders := Replace(db.reminders, ReminderId, EditedRow(Find(db.reminders, ReminderId, dto.id).value, dto)))
  }

  /**
   * Editing keeps the tables consistent; the reminder is found with the
   * request's message and offset and its own id and operation; every other id
   * finds what it found before; and the same request applied twice changes
   * nothing more.
   */
  lemma EditedReminder(db: Db, dto: D.UpdateReminderDto)
    requires Consistent(db) && Find(db.reminders, ReminderId, dto.id).Some?
    ensures var before := Find(db.reminders, ReminderId, dto.id).value;
      var after := EditedDb(db, dto);
      && Consistent(after)
      && Find(after.reminders, ReminderId, dto.id) == Some(EditedRow(before, dto))
      && EditedRow(before, dto).operationId == before.operationId
      && EditedRow(before, dto).messageTemplate == dto.messageTemplate
      && EditedRow(before, dto).offsetBeforeExecution == ToTimeSpan(dto.offsetBeforeExecution)
      && (forall k :: k != dto.id ==> Find(after.reminders, ReminderId, k) == Find(db.reminders, ReminderId, k))
      && EditedDb(after, dto) == after
  {
    var row := EditedRow(Find(db.reminders, ReminderId, dto.id).value, dto);
    var rows := Replace(db.reminders, ReminderId, row);
    ReplaceUnique(db.reminders, ReminderId, row);
    assert forall x :: x in rows ==> x == row || x in db.reminders;
    FindReplaced(db.reminders, ReminderId, row);
    forall k | k != dto.id ensures Find(rows, ReminderId, k) == Find(db.reminders, ReminderId, k) {
      FindReplaceOther(db.reminders, ReminderId, row, k);
    }
    ReplaceIdempotent(db.reminders, ReminderId, row);
  }

  /**
   * Only the caller's reminder is edited: a row the edit changes is the
   * reminder granted by `ReminderAccess`, of the caller's operation.
   */
  lemma EditTouchesOnlyGranted(db: Db, telegramId: int, operationId: int, dto: D.UpdateReminderDto)
    requires Consistent(db) && ReminderAccess(db, telegramId, operationId, dto.id).Ok?
    ensures var after := EditedDb(db, dto).reminders;
      && |after| == |db.reminders|
      && forall i :: 0 <= i < |after| && after[i] != db.reminders[i] ==>
           db.reminders[i] == ReminderAccess(db, telegramId, operationId, dto.id).value
           && db.reminders[i].operationId == operationId && db.operations[operationId].telegramUserId == telegramId
  {
    var after := EditedDb(db, dto).reminders;
    forall i | 0 <= i < |after| && after[i] != db.reminders[i]
      ensures db.reminders[i] == ReminderAccess(db, telegramId, operationId, dto.id).value
    {
      FindUnique(db.reminders, ReminderId, i);
    }
  }

  /** The tables after `DeleteReminderAsync` removed a reminder. */
  function RemovedDb(db: Db, reminderId: int): Db {
    db.(reminders := Filter(db.reminders, ReminderIdIsNot(reminderId)))
  }

  /**
   * Deleting keeps the tables consistent; afterwards no reminder has the id,
   * every other reminder is kept, and deleting again changes nothing.
   */
  lemma RemovedReminder(db: Db, reminderId: int)
    requires Consistent(db)
    ensures var after := RemovedDb(db, reminderId);
      && Consistent(after)
      && Find(after.reminders, ReminderId, reminderId).None?
      && (forall x :: x in after.reminders <==> x in db.reminders && x.id != reminderId)
      && RemovedDb(after, reminderId) == after
  {
    FilterUnique(db.reminders, ReminderId, ReminderIdIsNot(reminderId));
    FilterIdempotent(db.reminders, ReminderIdIsNot(reminderId));
  }

  /** Only the granted reminder is deleted: a row that disappears is the caller's. */
  lemma RemoveTouchesOnlyGranted(db: Db, telegramId: int, operationId: int, reminderId: int)
    requires Consistent(db) && ReminderAccess(db, telegramId, operationId, reminderId).Ok?
    ensures forall x :: x in db.reminders && x !in RemovedDb(db, reminderId).reminders ==>
      x == ReminderAccess(db, telegramId, operationId, reminderId).value
      && x.operationId == operationId && db.operations[operationId].telegramUserId == telegramId
  {
    forall x | x in db.reminders && x !in RemovedDb(db, reminderId).reminders
      ensures x == ReminderAccess(db, telegramId, operationId, reminderId).value
    {
      var i :| 0 <= i < |db.reminders| && db.reminders[i] == x;
      FindUnique(db.reminders, ReminderId, i);
    }
  }

  class ReminderService {
    const store: Store
    const jobs: HangfireReminderJobHelper

    constructor (store: Store, jobs: HangfireReminderJobHelper)
      ensures this.store == store && this.jobs == jobs
    {
      this.store := store;
      this.jobs := jobs;
    }

    /** The service and the job helper share one journal. */
    ghost predicate Wired() {
      jobs.manager.log == store.log
    }

    /**
     * `AddReminderAsync`: a refused request (`OperationAccess`) changes
     * nothing; otherwise the new reminder is saved and then its job created
     * for the operation's start date.
     */
    method AddReminderAsync(telegramId: int, operationId: int, dto: D.CreateReminderDto, now: nat)
      returns (res: Result<D.Reminder, Error>)
      requires Wired() && Consistent(store.db)
      modifies store, store.log, jobs.manager
      ensures var access := OperationAccess(old(store.db), telegramId, operationId);
        (res.Fail? <==> access.Fail?) && (res.Fail? ==> res.error == access.error)
      ensures res.Fail? ==>
        store.db == old(store.db) && store.log.events == old(store.log.events) && jobs.manager.jobs == old(jobs.manager.jobs)
      ensures res.Ok? ==>
        store.db == AddedDb(old(store.db), operationId, dto)
        && res.value.Row() == AddedRow(old(store.db), operationId, dto)
        && Trace(jobs.manager.jobs, store.log.events)
           == Run(Trace(old(jobs.manager.jobs), old(store.log.events) + [Inserted(Reminders)]),
                  CreateJobPlan(old(store.db.operations[operationId].startDate), AddedRow(old(store.db), operationId, dto), now))
      ensures Consistent(store.db)
    {
      if !store.UserExists(telegramId) {
        return Fail(NotFound(UserNotFound));
      }
      var op := store.FindOperation(operationId);
      if op == null {
        return Fail(NotFound(OperationNotFound));
      }
      if op.telegramUserId != telegramId {
        return Fail(PermissionError);
      }
      var r := new D.Reminder(dto.messageTemplate, ToTimeSpan(dto.offsetBeforeExecution), operationId);
      store.InsertReminder(r);
      jobs.CreateJobForReminder(op, r, now);
      res := Ok(r);
    }

    /**
     * `UpdateReminderAsync`: a refused request (`ReminderAccess`) changes
     * nothing; otherwise the reminder takes the request's message and offset,
     * is saved, and then its job is updated for the operation's start date.
     */
    method UpdateReminderAsync(telegramId: int, operationId: int, dto: D.UpdateReminderDto, now: nat)
      returns (res: Result<D.Reminder, Error>)
      requires Wired() && Consistent(store.db)
      modifies store, store.log, jobs.manager
      ensures var access := ReminderAccess(old(store.db), telegramId, operationId, dto.id);
        (res.Fail? <==> access.Fail?) && (res.Fail? ==> res.error == access.error)
      ensures res.Fail? ==>
        store.db == old(store.db) && store.log.events == old(store.log.events) && jobs.manager.jobs == old(jobs.manager.jobs)
      ensures res.Ok? ==>
        var row := EditedRow(Find(old(store.db.reminders), ReminderId, dto.id).value, dto);
        store.db == EditedDb(old(store.db), dto) && res.value.Row() == row
        && Trace(jobs.manager.jobs, store.log.events)
           == Run(Trace(old(jobs.manager.jobs), old(store.log.events) + [Updated(Reminders)]),
                  UpdateJobPlan(old(store.db.operations[operationId].startDate), row, now))
      ensures Consistent(store.db)
    {
      if !store.UserExists(telegramId) {
        return Fail(NotFound(UserNotFound));
      }
      var op := store.FindOperation(operationId);
      if op == null {
        return Fail(NotFound(OperationNotFound));
      }
      var r := store.FindReminder(dto.id);
      if r == null {
        return Fail(NotFound(ReminderNotFound));
      }
      if op.telegramUserId != telegramId || op.id != r.operationId {
        return Fail(PermissionError);
      }
      Edit(op, r, dto, now);
      res := Ok(r);
    }

    /** The tail of `UpdateReminderAsync`: `UpdateReminderByDto`, the save, and the job update. */
    method Edit(op: D.Operation, r: D.Reminder, dto: D.UpdateReminderDto, now: nat)
      requires Wired() && Consistent(store.db)
      requires Find(store.db.reminders, ReminderId, dto.id) == Some(r.Row())
      modifies r, store, store.log, jobs.manager
      ensures var row := EditedRow(old(r.Row()), dto);
        store.db == EditedDb(old(store.db), dto) && r.Row() == row
        && Trace(jobs.manager.jobs, store.log.events)
           == Run(Trace(old(jobs.manager.jobs), old(store.log.events) + [Updated(Reminders)]),
                  UpdateJobPlan(op.startDate, row, now))
      ensures Consistent(store.db)
    {
      r.messageTemplate := dto.messageTemplate;
      r.offsetBeforeExecution := ToTimeSpan(dto.offsetBeforeExecution);
      store.UpdateReminder(r);
      jobs.UpdateJobForReminder(op, r, now);
    }

    /**
     * `DeleteReminderAsync`: a refused request (`ReminderAccess`) changes
     * nothing; otherwise the reminder is deleted and then its job removed.
     */
    method DeleteReminderAsync(telegramId: int, operationId: int, reminderId: int)
      returns (res: Result<D.Reminder, Error>)
      requires Wired() && Consistent(store.db)
      modifies store, store.log, jobs.manager
      ensures var access := ReminderAccess(old(store.db), telegramId, operationId, reminderId);
        (res.Fail? <==> access.Fail?) && (res.Fail? ==> res.error == access.error)
      ensures res.Fail? ==>
        store.db == old(store.db) && store.log.events == old(store.log.events) && jobs.manager.jobs == old(jobs.manager.jobs)
      ensures res.Ok? ==>
        store.db == RemovedDb(old(store.db), reminderId)
        && res.value.Row() == Find(old(store.db.reminders), ReminderId, reminderId).value
        && Trace(jobs.manager.jobs, store.log.events)
           == Run(Trace(old(jobs.manager.jobs), old(store.log.events) + [Deleted(Reminders)]), DeleteJobPlan(reminderId))
      ensures Consistent(store.db)
    {
      if !store.UserExists(telegramId) {
        return Fail(NotFound(UserNotFound));
      }
      var op := store.FindOperation(operationId);
      if op == null {
        return Fail(NotFound(OperationNotFound));
      }
      var r := store.FindReminder(reminderId);
      if r == null {
        return Fail(NotFound(ReminderNotFound));
      }
      if op.telegramUserId != telegramId || op.id != r.operationId {
        return Fail(PermissionError);
      }
      store.DeleteReminder(r);
      jobs.DeleteJobForReminder(r);
      res := Ok(r);
    }
  }
}
