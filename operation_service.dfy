/**
 * `OperationService`: the operations of a Telegram user. Every request first
 * checks that the user exists; changes check that the start date is not in
 * the past and that the operation is the caller's, save the operation with
 * its instances and then bring its scheduler jobs in step.
 *
 * The clock is read more than once by the service. Two parameters stand for
 * the readings: `now` for the past-date guard and `later` for every reading
 * after it (the operation built or edited, the next occurrence, the
 * reminders' due checks), which therefore all share one value. The cron
 * schedule's next occurrence is the parameter `occurrence`.
 */
module OperationServices {
  import opened Wrappers
  import opened Errors
  import opened Journal
  import opened Hangfire
  import opened Tables
  import opened Persistence
  import opened TimeRangeExt
  import opened ReminderJobs
  import opened OperationJobs
  import opened InstanceQueries
  import D = Domain

  /**
   * What `CreateNewOperation` builds before anything is saved: the start date
   * and cron expression of the operation, the rows of its history (ids not yet
   * assigned) and the position of its pending instance in that history.
   */
  datatype Draft = Draft(startDate: nat, cron: Option<string>, history: seq<D.InstanceRow>, next: Option<nat>)

  /**
   * A new operation: one pending instance scheduled at `now` when the start
   * date has not passed; otherwise that instance is closed as executed at the
   * start date and, for a recurring operation, the start date moves to the
   * next occurrence after `now` and a second, pending instance follows it.
   */
  function NewDraft(dto: D.CreateOperationDto, now: nat, occurrence: (string, nat) -> nat): (d: Draft)
    ensures d.cron == ToCronExpression(dto.cron, dto.startDate)
    ensures 1 <= |d.history| <= 2
    ensures d.next.None? <==> dto.startDate < now && dto.cron == D.None
    ensures d.next.Some? ==> d.next.value == |d.history| - 1 && d.history[d.next.value] == D.InstanceRow(0, now, 0, None, None)
    ensures dto.startDate < now ==>
      d.history[0] == D.InstanceRow(0, dto.startDate, 0, Some(D.Done), Some(dto.startDate))
    ensures now <= dto.startDate || dto.cron == D.None ==> d.startDate == dto.startDate
  {
    var cron := ToCronExpression(dto.cron, dto.startDate);
    var pending := D.InstanceRow(0, now, 0, None, None);
    if now <= dto.startDate then Draft(dto.startDate, cron, [pending], Some(0))
    else
      var done := D.InstanceRow(0, dto.startDate, 0, Some(D.Done), Some(dto.startDate));
      if cron.None? then Draft(dto.startDate, cron, [done], None)
      else Draft(occurrence(cron.value, now), cron, [done, pending], Some(1))
  }

  /**
   * The draft's pending instance, when there is one, is due no earlier than
   * `now`; every executed instance ran at the passed start date.
   */
  lemma DraftIsAhead(dto: D.CreateOperationDto, now: nat, occurrence: (string, nat) -> nat)
    requires Advances(occurrence)
    ensures var d := NewDraft(dto, now, occurrence);
      (d.next.Some? ==> now <= d.startDate)
      && forall i :: 0 <= i < |d.history| && d.history[i].executedAt.Some? ==>
           d.history[i].executedAt == Some(dto.startDate) && dto.startDate < now
  {
    var d := NewDraft(dto, now, occurrence);
    if dto.startDate < now && dto.cron != D.None {
      assert d.startDate == occurrence(d.cron.value, now);
    }
  }

  /** The row a new operation is saved as. */
  function CreatedRow(db: Db, telegramId: int, dto: D.CreateOperationDto, d: Draft): D.OperationRow {
    D.OperationRow(db.lastOperationId + 1, dto.theme, dto.description, d.startDate, d.cron, telegramId,
                   if d.next.Some? then Some(db.lastInstanceId + 1 + d.next.value) else None)
  }

  /** The tables after `CreateOperationAsync` saved a new operation with its history. */
  function CreatedDb(db: Db, telegramId: int, dto: D.CreateOperationDto, now: nat,
                     occurrence: (string, nat) -> nat): Db {
    var d := NewDraft(dto, now, occurrence);
    WithOperation(db, CreatedRow(db, telegramId, dto, d), Numbered(d.history, db.lastInstanceId + 1, db.lastOperationId + 1))
  }

  /** A row that agrees with `CreatedRow` field by field is `CreatedRow`. */
  lemma CreatedRowFields(db: Db, telegramId: int, dto: D.CreateOperationDto, d: Draft, row: D.OperationRow)
    requires row.id == db.lastOperationId + 1 && row.theme == dto.theme && row.description == dto.description
    requires row.startDate == d.startDate && row.cron == d.cron && row.telegramUserId == telegramId
    requires row.nextInstanceId == CreatedRow(db, telegramId, dto, d).nextInstanceId
    ensures row == CreatedRow(db, telegramId, dto, d)
  {
  }

  /** Saving `CreatedRow` with the draft's history numbered from the next instance id gives `CreatedDb`. */
  lemma SavedIsCreated(db: Db, telegramId: int, dto: D.CreateOperationDto, now: nat, occurrence: (string, nat) -> nat,
                       d: Draft, after: Db)
    requires d == NewDraft(dto, now, occurrence)
    requires after == WithOperation(db, CreatedRow(db, telegramId, dto, d), Numbered(d.history, db.lastInstanceId + 1, db.lastOperationId + 1))
    ensures after == CreatedDb(db, telegramId, dto, now, occurrence)
  {
  }

  /** The scheduler calls of `CreateOperationAsync`: the new operation's job, when it has a pending instance. */
  function CreatePlan(db: Db, dto: D.CreateOperationDto, now: nat, occurrence: (string, nat) -> nat): seq<JobCall> {
    var d := NewDraft(dto, now, occurrence);
    CreateJobsPlan(db.lastOperationId + 1, d.startDate, d.next.Some?, None, now)
  }

  /**
   * Saving a new operation keeps the tables consistent, adds an operation
   * owned by the caller under the next id and leaves every other operation,
   * every user and every reminder as it was.
   */
  lemma CreatedKeepsOthers(db: Db, telegramId: int, dto: D.CreateOperationDto, now: nat,
                           occurrence: (string, nat) -> nat)
    requires Consistent(db)
    ensures var after := CreatedDb(db, telegramId, dto, now, occurrence);
      var id := db.lastOperationId + 1;
      Consistent(after) && id !in db.operations && id in after.operations
      && after.operations[id].telegramUserId == telegramId
      && after.users == db.users && after.reminders == db.reminders
      && forall k :: k in db.operations ==> k in after.operations && after.operations[k] == db.operations[k]
  {
    var d := NewDraft(dto, now, occurrence);
    var row := CreatedRow(db, telegramId, dto, d);
    var rows := Numbered(d.history, db.lastInstanceId + 1, db.lastOperationId + 1);
    assert CreatedDb(db, telegramId, dto, now, occurrence) == WithOperation(db, row, rows);
    WithOperationConsistent(db, row, rows);
  }

  /**
   * The saved operation has a pending instance exactly when the draft has
   * one, and that instance is stored unexecuted, scheduled at `now` and owned
   * by the new operation.
   */
  lemma CreatedPending(db: Db, telegramId: int, dto: D.CreateOperationDto, now: nat,
                       occurrence: (string, nat) -> nat)
    requires Consistent(db)
    ensures var after := CreatedDb(db, telegramId, dto, now, occurrence);
      var id := db.lastOperationId + 1;
      var d := NewDraft(dto, now, occurrence);
      id in after.operations
      && (PendingRow(after, id).Some? <==> d.next.Some?)
      && (d.next.Some? ==>
            PendingRow(after, id) == Some(D.InstanceRow(db.lastInstanceId + 1 + d.next.value, now, id, None, None)))
  {
    var d := NewDraft(dto, now, occurrence);
    var id := db.lastOperationId + 1;
    var rows := Numbered(d.history, db.lastInstanceId + 1, id);
    var after := CreatedDb(db, telegramId, dto, now, occurrence);
    assert after == WithOperation(db, CreatedRow(db, telegramId, dto, d), rows);
    assert after.instances == db.instances + rows;
    assert after.operations[id].nextInstanceId == (if d.next.Some? then Some(db.lastInstanceId + 1 + d.next.value) else None);
    if d.next.Some? {
      var k := |db.instances| + d.next.value;
      InsertedRowsUnique(db, rows);
      FindUnique(db.instances + rows, InstanceId, k);
      assert (db.instances + rows)[k] == rows[d.next.value];
    }
  }

  /**
   * The new operation's job is registered, due at the draft's start date,
   * exactly when it has a pending instance; otherwise no job changes.
   */
  lemma CreatedJobs(jobs: Jobs, db: Db, dto: D.CreateOperationDto, now: nat, occurrence: (string, nat) -> nat)
    ensures var d := NewDraft(dto, now, occurrence);
      var id := db.lastOperationId + 1;
      var j := Apply(jobs, CreatePlan(db, dto, now, occurrence));
      (d.next.Some? ==> OperationJobId(id) in j
                        && j[OperationJobId(id)] == Job(ProcessOperationJob(id), DateCron(d.startDate)))
      && (d.next.None? ==> j == jobs)
  {
    var d := NewDraft(dto, now, occurrence);
    if d.next.Some? {
      OperationJobRegistered(jobs, db.lastOperationId + 1, d.startDate, None, now);
    } else {
      NoNextNoJobs(jobs, db.lastOperationId + 1, d.startDate, None, now);
    }
  }

  /** The start date an update leaves: the DTO's, or for a passed recurring operation the next occurrence after `now`. */
  function EditedStart(dto: D.UpdateOperationDto, now: nat, occurrence: (string, nat) -> nat): nat {
    var cron := ToCronExpression(dto.cron, dto.startDate);
    if now <= dto.startDate || cron.None? then dto.startDate else occurrence(cron.value, now)
  }

  /**
   * Whether the operation has a pending instance after an update: its loaded
   * one when the start date has not passed, a new one when it has and the
   * operation recurs, none for a passed one-off operation.
   */
  function EditedHasNext(db: Db, dto: D.UpdateOperationDto, now: nat): bool
    requires dto.id in db.operations
  {
    if now <= dto.startDate then PendingRow(db, dto.id).Some? else dto.cron != D.None
  }

  /** An instance closed as done, scheduled and executed at `t`. */
  function ClosedAt(r: D.InstanceRow, t: nat): D.InstanceRow {
    r.(scheduledAt := t, result := Some(D.Done), executedAt := Some(t))
  }

  /** The new pending instance of a passed recurring operation, as an update inserts it. */
  function NewPending(db: Db, dto: D.UpdateOperationDto, now: nat): D.InstanceRow {
    D.InstanceRow(db.lastInstanceId + 1, now, dto.id, None, None)
  }

  /**
   * The instance writes of an update: a passed recurring operation's new
   * pending instance is inserted; then the loaded pending instance, if any,
   * is written back, as loaded when the start date has not passed and
   * closed as done at that date when it has.
   */
  function UpdatedInstances(db: Db, dto: D.UpdateOperationDto, now: nat): Db
    requires dto.id in db.operations
  {
    var pending := PendingRow(db, dto.id);
    var db1 := if now <= dto.startDate || dto.cron == D.None then db else PutInstance(db, NewPending(db, dto, now), true);
    if pending.None? then db1
    else if now <= dto.startDate then PutInstance(db1, pending.value, false)
    else PutInstance(db1, ClosedAt(pending.value, dto.startDate), false)
  }

  /**
   * The operation row an update saves: the DTO's theme, description and cron
   * expression, the edited start date, and as pending instance the loaded one
   * (start date not passed), none (passed one-off) or the new one (passed
   * recurring).
   */
  function UpdatedRow(db: Db, dto: D.UpdateOperationDto, now: nat, occurrence: (string, nat) -> nat): D.OperationRow
    requires dto.id in db.operations
  {
    var pending := PendingRow(db, dto.id);
    db.operations[dto.id].(theme := dto.theme, description := dto.description,
                           startDate := EditedStart(dto, now, occurrence),
                           cron := ToCronExpression(dto.cron, dto.startDate),
                           nextInstanceId :=
                             if now <= dto.startDate then (if pending.None? then None else Some(pending.value.id))
                             else if dto.cron == D.None then None
                             else Some(NewPending(db, dto, now).id))
  }

  /** The tables after `UpdateOperationAsync` saved an edited operation. */
  function UpdatedDb(db: Db, dto: D.UpdateOperationDto, now: nat, occurrence: (string, nat) -> nat): Db
    requires dto.id in db.operations
  {
    UpdatedInstances(db, dto, now).(operations := db.operations[dto.id := UpdatedRow(db, dto, now, occurrence)])
  }

  /** The scheduler calls of `UpdateOperationAsync`: the jobs of the operation and its reminders, updated. */
  function UpdatePlan(db: Db, dto: D.UpdateOperationDto, now: nat, occurrence: (string, nat) -> nat): seq<JobCall>
    requires dto.id in db.operations
  {
    UpdateJobsPlan(dto.id, EditedStart(dto, now, occurrence), EditedHasNext(db, dto, now),
                   Some(RemindersOf(db.reminders, dto.id)), now)
  }

  /** The instance writes of an update keep the tables consistent and touch no other table. */
  lemma UpdatedInstancesConsistent(db: Db, dto: D.UpdateOperationDto, now: nat)
    requires Consistent(db) && dto.id in db.operations
    ensures var after := UpdatedInstances(db, dto, now);
      Consistent(after) && after.users == db.users && after.operations == db.operations
      && after.reminders == db.reminders && after.lastOperationId == db.lastOperationId
  {
    var pending := PendingRow(db, dto.id);
    var db1 := if now <= dto.startDate || dto.cron == D.None then db else PutInstance(db, NewPending(db, dto, now), true);
    if !(now <= dto.startDate || dto.cron == D.None) {
      PutInstanceConsistent(db, NewPending(db, dto, now), true);
    }
    if pending.Some? {
      PendingRowStored(db, dto.id);
      PutInstanceConsistent(db1, if now <= dto.startDate then pending.value else ClosedAt(pending.value, dto.startDate), false);
    }
  }

  /**
   * An update keeps the tables consistent and the operation its owner's; it
   * changes no user, no reminder and no other operation, and the operation
   * takes the theme, description and cron expression of the DTO, the edited
   * start date, and has a pending instance exactly when `EditedHasNext` says.
   */
  lemma UpdatedKeepsOthers(db: Db, dto: D.UpdateOperationDto, now: nat, occurrence: (string, nat) -> nat)
    requires Consistent(db) && dto.id in db.operations
    ensures var after := UpdatedDb(db, dto, now, occurrence);
      Consistent(after) && after.users == db.users && after.reminders == db.reminders
      && dto.id in after.operations
      && after.operations[dto.id].telegramUserId == db.operations[dto.id].telegramUserId
      && after.operations[dto.id].theme == dto.theme && after.operations[dto.id].description == dto.description
      && after.operations[dto.id].cron == ToCronExpression(dto.cron, dto.startDate)
      && after.operations[dto.id].startDate == EditedStart(dto, now, occurrence)
      && (after.operations[dto.id].nextInstanceId.Some? <==> EditedHasNext(db, dto, now))
      && forall k :: k in db.operations && k != dto.id ==> k in after.operations && after.operations[k] == db.operations[k]
  {
    UpdatedInstancesConsistent(db, dto, now);
  }

  /** After an update, a pending instance is due no earlier than `now`. */
  lemma UpdatedIsAhead(db: Db, dto: D.UpdateOperationDto, now: nat, occurrence: (string, nat) -> nat)
    requires Advances(occurrence) && dto.id in db.operations
    ensures EditedHasNext(db, dto, now) ==> now <= EditedStart(dto, now, occurrence)
  {
    var cron := ToCronExpression(dto.cron, dto.startDate);
    if dto.startDate < now && cron.Some? {
      assert EditedStart(dto, now, occurrence) == occurrence(cron.value, now);
    }
  }

  /**
   * The operation's job after an update: re-registered at the new start date
   * when the operation has a pending instance; when it has none (a passed
   * one-off operation, or a pending instance that was missing) no job
   * changes, so a job registered before stays as it was.
   */
  lemma UpdatedJobs(jobs: Jobs, db: Db, dto: D.UpdateOperationDto, now: nat, occurrence: (string, nat) -> nat)
    requires dto.id in db.operations
    ensures var j := Apply(jobs, UpdatePlan(db, dto, now, occurrence));
      (EditedHasNext(db, dto, now) ==>
         OperationJobId(dto.id) in j
         && j[OperationJobId(dto.id)] == Job(ProcessOperationJob(dto.id), DateCron(EditedStart(dto, now, occurrence))))
      && (!EditedHasNext(db, dto, now) ==> j == jobs)
  {
    var start, loaded := EditedStart(dto, now, occurrence), Some(RemindersOf(db.reminders, dto.id));
    if EditedHasNext(db, dto, now) {
      OperationJobRegistered(jobs, dto.id, start, loaded, now);
    } else {
      NoNextNoJobs(jobs, dto.id, start, loaded, now);
    }
  }

  /** The tables after `DeleteOperationAsync`: the operation and, by cascade, its instances and reminders are gone. */
  function DeletedDb(db: Db, operationId: int): Db {
    db.(operations := db.operations - {operationId},
        instances := Filter(db.instances, InstanceNotOf(operationId)),
        reminders := Filter(db.reminders, ReminderNotOf(operationId)))
  }

  /**
   * Deleting an operation removes it with every instance and reminder of it,
   * and keeps every other row.
   */
  lemma DeletedCascades(db: Db, operationId: int)
    ensures var after := DeletedDb(db, operationId);
      operationId !in after.operations
      && (forall k :: k in after.operations <==> k in db.operations && k != operationId)
      && (forall x :: x in after.instances <==> x in db.instances && x.operationId != operationId)
      && (forall x :: x in after.reminders <==> x in db.reminders && x.operationId != operationId)
  {
  }

  /**
   * `DeleteOperationAsync` loads the operation without its reminders, so its
   * plan removes the operation's job only: every reminder job, of this
   * operation's reminders too, stays registered.
   */
  lemma DeleteKeepsReminderJobs(jobs: Jobs, operationId: int, reminderId: int)
    ensures var j := Apply(jobs, DeleteJobsPlan(operationId, None));
      OperationJobId(operationId) !in j
      && (ReminderJobId(reminderId) in j <==> ReminderJobId(reminderId) in jobs)
  {
    DeleteJobsEffect(jobs, operationId, None);
    JobIdsDisjoint(operationId, reminderId);
  }

  class OperationService {
    const store: Store
    const jobs: HangfireOperationJobHelper

    constructor (store: Store, jobs: HangfireOperationJobHelper)
      ensures this.store == store && this.jobs == jobs
    {
      this.store := store;
      this.jobs := jobs;
    }

    /** The service, the job helpers and the store share one scheduler and one journal. */
    ghost predicate Wired() {
      jobs.reminderHelper.manager == jobs.manager && jobs.manager.log == store.log
    }

    /**
     * `CreateNewOperation`: a new operation and its history as `NewDraft`
     * describes them, its pending instance (if any) the last of its history.
     */
    method CreateNewOperation(telegramId: int, dto: D.CreateOperationDto, now: nat, occurrence: (string, nat) -> nat)
      returns (op: D.Operation)
      ensures fresh(op) && op.history.Some? && forall i :: 0 <= i < |op.history.value| ==> fresh(op.history.value[i])
      ensures forall i, j :: 0 <= i < j < |op.history.value| ==> op.history.value[i] != op.history.value[j]
      ensures op.id == 0 && op.theme == dto.theme && op.description == dto.description
      ensures op.telegramUserId == telegramId && op.reminders.None?
      ensures var d := NewDraft(dto, now, occurrence);
        op.startDate == d.startDate && op.cron == d.cron && D.InstanceRows(op.history.value) == d.history
        && (op.next == null <==> d.next.None?)
        && (op.next != null ==> op.next == op.history.value[d.next.value])
    {
      var instance := new D.OperationInstance(now, 0);
      op := new D.Operation(dto.theme, dto.description, dto.startDate, ToCronExpression(dto.cron, dto.startDate),
                            telegramId, instance, Some([instance]));
      if now <= dto.startDate {
        return;
      }
      ProcessPastOperation(instance, dto.startDate);
      op.next := null;
      if op.cron.None? {
        return;
      }
      ProcessCronOperationCreation(op, now, occurrence);
      assert op.history.value == [instance, op.next];
    }

    /**
     * `ProcessPastOperation` (both overloads): the instance, when there is one,
     * is closed as scheduled and executed at the passed start date with
     * result "Done".
     */
    method ProcessPastOperation(instance: D.OperationInstance?, startDate: nat)
      modifies instance
      ensures instance != null ==>
        instance.Row() == old(instance.Row()).(scheduledAt := startDate, result := Some(D.Done), executedAt := Some(startDate))
    {
      if instance == null {
        return;
      }
      instance.scheduledAt := startDate;
      instance.result := Some(D.Done);
      instance.executedAt := Some(startDate);
    }

    /**
     * `ProcessCronOperationCreation`: the start date moves to the next
     * occurrence after `now`, and a new unexecuted instance scheduled at `now`
     * becomes the pending one and the last of the history.
     */
    method ProcessCronOperationCreation(op: D.Operation, now: nat, occurrence: (string, nat) -> nat)
      requires op.cron.Some? && op.history.Some?
      modifies op
      ensures op.startDate == occurrence(old(op.cron.value), now)
      ensures op.next != null && fresh(op.next) && op.next.Row() == D.InstanceRow(0, now, 0, None, None)
      ensures op.history == Some(old(op.history.value) + [op.next])
      ensures op.id == old(op.id) && op.theme == old(op.theme) && op.description == old(op.description)
      ensures op.cron == old(op.cron) && op.telegramUserId == old(op.telegramUserId) && op.reminders == old(op.reminders)
    {
      op.startDate := occurrence(op.cron.value, now);
      var instance := new D.OperationInstance(now, 0);
      op.next := instance;
      op.history := Some(op.history.value + [instance]);
    }

    /**
     * `CreateOperationAsync`: a missing user and a start date before `now`
     * are refused with nothing changed; otherwise the operation built at
     * `later` is inserted with its history and its job is created.
     */
    method CreateOperationAsync(telegramId: int, dto: D.CreateOperationDto, now: nat, later: nat,
                                occurrence: (string, nat) -> nat)
      returns (res: Result<D.Operation, Error>)
      requires Wired() && Consistent(store.db)
      modifies store, store.log, jobs.manager
      ensures res == Fail(NotFound(UserNotFound)) <==> !old(store.UserExists(telegramId))
      ensures res == Fail(CreateOperationError) <==> old(store.UserExists(telegramId)) && dto.startDate < now
      ensures res.Fail? ==>
        store.db == old(store.db) && store.log.events == old(store.log.events) && jobs.manager.jobs == old(jobs.manager.jobs)
      ensures res.Ok? ==>
        store.db == CreatedDb(old(store.db), telegramId, dto, later, occurrence)
        && Trace(jobs.manager.jobs, store.log.events)
           == Run(Trace(old(jobs.manager.jobs), old(store.log.events) + [Inserted(Operations)]),
                  CreatePlan(old(store.db), dto, later, occurrence))
      ensures res.Ok? ==>
        res.value.telegramUserId == telegramId && res.value.id == old(store.db.lastOperationId) + 1
        && res.value.Row() == CreatedRow(old(store.db), telegramId, dto, NewDraft(dto, later, occurrence))
      ensures Consistent(store.db)
    {
      if !store.UserExists(telegramId) {
        return Fail(NotFound(UserNotFound));
      }
      if dto.startDate < now {
        return Fail(CreateOperationError);
      }
      var op := Create(telegramId, dto, later, occurrence);
      res := Ok(op);
    }

    /** `CreateOperationAsync` once the request is admitted: build, insert, then create the jobs. */
    method Create(telegramId: int, dto: D.CreateOperationDto, later: nat, occurrence: (string, nat) -> nat)
      returns (op: D.Operation)
      requires Wired() && Consistent(store.db)
      modifies store, store.log, jobs.manager
      ensures store.db == CreatedDb(old(store.db), telegramId, dto, later, occurrence)
      ensures Trace(jobs.manager.jobs, store.log.events)
           == Run(Trace(old(jobs.manager.jobs), old(store.log.events) + [Inserted(Operations)]),
                  CreatePlan(old(store.db), dto, later, occurrence))
      ensures op.telegramUserId == telegramId && op.id == old(store.db.lastOperationId) + 1
      ensures op.Row() == CreatedRow(old(store.db), telegramId, dto, NewDraft(dto, later, occurrence))
      ensures Consistent(store.db)
    {
      op := CreateNewOperation(telegramId, dto, later, occurrence);
      Insert(op, telegramId, dto, later, occurrence);
      ghost var row := op.Row();
      jobs.CreateJobsForOperation(op, later);
      assert op.Row() == row;
    }

    /** The insert of `CreateOperationAsync`, with the tables it leaves. */
    method Insert(op: D.Operation, telegramId: int, dto: D.CreateOperationDto, later: nat,
                  occurrence: (string, nat) -> nat)
      requires Consistent(store.db)
      requires op.history.Some? && forall i, j :: 0 <= i < j < |op.history.value| ==> op.history.value[i] != op.history.value[j]
      requires op.id == 0 && op.theme == dto.theme && op.description == dto.description
      requires op.telegramUserId == telegramId && op.reminders.None?
      requires var d := NewDraft(dto, later, occurrence);
        op.startDate == d.startDate && op.cron == d.cron && D.InstanceRows(op.history.value) == d.history
        && (op.next == null <==> d.next.None?)
        && (op.next != null ==> op.next == op.history.value[d.next.value])
      modifies store, store.log, op, op.history.value
      ensures store.db == CreatedDb(old(store.db), telegramId, dto, later, occurrence)
      ensures store.log.events == old(store.log.events) + [Inserted(Operations)]
      ensures Consistent(store.db)
      ensures op.id == old(store.db.lastOperationId) + 1 && op.startDate == old(op.startDate)
      ensures (op.next != null) == (old(op.next) != null) && op.reminders.None?
      ensures op.telegramUserId == telegramId
      ensures op.Row() == CreatedRow(old(store.db), telegramId, dto, NewDraft(dto, later, occurrence))
    {
      ghost var db0 := store.db;
      ghost var d := NewDraft(dto, later, occurrence);
      ghost var rows0 := D.InstanceRows(op.history.value);
      store.InsertOperation(op);
      ghost var row := op.Row();
      if op.next != null {
        assert op.next.id == D.InstanceRows(op.history.value)[d.next.value].id;
      }
      assert row.nextInstanceId == CreatedRow(db0, telegramId, dto, d).nextInstanceId;
      CreatedRowFields(db0, telegramId, dto, d, row);
      SavedIsCreated(db0, telegramId, dto, later, occurrence, d, store.db);
    }

    /**
     * `UpdateOperation`: the DTO's theme, description, cron expression and
     * start date are taken. When the start date has passed, the pending
     * instance (if loaded) is closed as done at that date and detached; a
     * recurring operation then moves to the next occurrence after `now` with a
     * new pending instance.
     */
    method UpdateOperation(op: D.Operation, dto: D.UpdateOperationDto, now: nat, occurrence: (string, nat) -> nat)
      modifies op, op.next
      ensures op.id == old(op.id) && op.telegramUserId == old(op.telegramUserId)
      ensures op.history == old(op.history) && op.reminders == old(op.reminders)
      ensures op.theme == dto.theme && op.description == dto.description
      ensures op.cron == ToCronExpression(dto.cron, dto.startDate) && op.startDate == EditedStart(dto, now, occurrence)
      ensures now <= dto.startDate ==> op.next == old(op.next) && (op.next != null ==> op.next.Row() == old(op.next.Row()))
      ensures dto.startDate < now && old(op.next) != null ==>
        old(op.next).Row() == old(op.next.Row()).(scheduledAt := dto.startDate, result := Some(D.Done), executedAt := Some(dto.startDate))
      ensures dto.startDate < now ==> (op.next == null <==> dto.cron == D.None)
      ensures dto.startDate < now && op.next != null ==> fresh(op.next) && op.next.Row() == D.InstanceRow(0, now, op.id, None, None)
    {
      op.theme := dto.theme;
      op.description := dto.description;
      op.cron := ToCronExpression(dto.cron, dto.startDate);
      op.startDate := dto.startDate;
      if now <= dto.startDate {
        return;
      }
      ProcessPastOperation(op.next, dto.startDate);
      op.next := null;
      if op.cron.None? {
        return;
      }
      ProcessCronOperationUpdate(op, now, occurrence);
    }

    /**
     * `ProcessCronOperationUpdate`: the start date moves to the next
     * occurrence after `now` and a new unexecuted instance of the operation,
     * scheduled at `now`, becomes the pending one; the history is not touched.
     */
    method ProcessCronOperationUpdate(op: D.Operation, now: nat, occurrence: (string, nat) -> nat)
      requires op.cron.Some?
      modifies op
      ensures op.startDate == occurrence(old(op.cron.value), now)
      ensures op.next != null && fresh(op.next) && op.next.Row() == D.InstanceRow(0, now, op.id, None, None)
      ensures op.id == old(op.id) && op.theme == old(op.theme) && op.description == old(op.description)
      ensures op.cron == old(op.cron) && op.telegramUserId == old(op.telegramUserId)
      ensures op.history == old(op.history) && op.reminders == old(op.reminders)
    {
      op.startDate := occurrence(op.cron.value, now);
      var instance := new D.OperationInstance(now, op.id);
      op.next := instance;
    }

    /**
     * `UpdateOperationAsync`: a missing user, a start date before `now`, a
     * missing operation and another user's operation are refused in that
     * order with nothing changed; otherwise the operation is edited at
     * `later`, saved, and its jobs and its reminders' jobs are updated.
     */
    method UpdateOperationAsync(telegramId: int, dto: D.UpdateOperationDto, now: nat, later: nat,
                                occurrence: (string, nat) -> nat)
      returns (res: Result<D.Operation, Error>)
      requires Wired() && Consistent(store.db)
      modifies store, store.log, jobs.manager
      ensures res == Fail(NotFound(UserNotFound)) <==> !old(store.UserExists(telegramId))
      ensures res == Fail(CreateOperationError) <==> old(store.UserExists(telegramId)) && dto.startDate < now
      ensures res == Fail(NotFound(OperationNotFound)) <==>
        old(store.UserExists(telegramId)) && now <= dto.startDate && dto.id !in old(store.db.operations)
      ensures res == Fail(PermissionError) <==>
        old(store.UserExists(telegramId)) && now <= dto.startDate && dto.id in old(store.db.operations)
        && old(store.db.operations[dto.id].telegramUserId) != telegramId
      ensures res.Fail? ==>
        store.db == old(store.db) && store.log.events == old(store.log.events) && jobs.manager.jobs == old(jobs.manager.jobs)
      ensures res.Ok? ==> dto.id in old(store.db.operations)
      ensures res.Ok? ==>
        store.db == UpdatedDb(old(store.db), dto, later, occurrence)
        && Trace(jobs.manager.jobs, store.log.events)
           == Run(Trace(old(jobs.manager.jobs), old(store.log.events) + [Updated(Operations)]),
                  UpdatePlan(old(store.db), dto, later, occurrence))
      ensures res.Ok? ==>
        res.value.id == dto.id && res.value.telegramUserId == telegramId
        && dto.id in store.db.operations && res.value.Row() == store.db.operations[dto.id]
      ensures Consistent(store.db)
    {
      if !store.UserExists(telegramId) {
        return Fail(NotFound(UserNotFound));
      }
      if dto.startDate < now {
        return Fail(CreateOperationError);
      }
      var op := store.FindOperationWithDetails(dto.id);
      if op == null {
        return Fail(NotFound(OperationNotFound));
      }
      if op.telegramUserId != telegramId {
        return Fail(PermissionError);
      }
      Edit(op, dto, later, occurrence);
      res := Ok(op);
    }

    /** `UpdateOperationAsync` once the caller's operation is loaded: the edit, the save and the jobs. */
    method Edit(op: D.Operation, dto: D.UpdateOperationDto, later: nat, occurrence: (string, nat) -> nat)
      requires Wired() && Consistent(store.db) && dto.id in store.db.operations && op.id == dto.id && op.history.None?
      requires op.next == null <==> PendingRow(store.db, dto.id).None?
      requires op.next != null ==> op.next.Row() == PendingRow(store.db, dto.id).value
      requires op.telegramUserId == store.db.operations[dto.id].telegramUserId
      requires D.LoadedRows(op.reminders) == Some(RemindersOf(store.db.reminders, dto.id))
      modifies op, op.next, store, store.log, jobs.manager
      ensures store.db == UpdatedDb(old(store.db), dto, later, occurrence)
      ensures Trace(jobs.manager.jobs, store.log.events)
           == Run(Trace(old(jobs.manager.jobs), old(store.log.events) + [Updated(Operations)]),
                  UpdatePlan(old(store.db), dto, later, occurrence))
      ensures Consistent(store.db)
      ensures op.id == dto.id && op.telegramUserId == old(op.telegramUserId)
      ensures dto.id in store.db.operations && store.db.operations[dto.id] == op.Row()
    {
      ghost var db0 := store.db;
      Change(op, dto, later, occurrence);
      ghost var row := op.Row();
      UpdateJobs(op, dto, later, occurrence, db0);
      assert op.Row() == row;
    }

    /** The job update of `UpdateOperationAsync`, after the save. */
    method UpdateJobs(op: D.Operation, dto: D.UpdateOperationDto, later: nat, occurrence: (string, nat) -> nat, ghost db: Db)
      requires Wired() && dto.id in db.operations && op.id == dto.id
      requires op.startDate == EditedStart(dto, later, occurrence) && (op.next != null) == EditedHasNext(db, dto, later)
      requires D.LoadedRows(op.reminders) == Some(RemindersOf(db.reminders, dto.id))
      modifies jobs.manager, store.log
      ensures Trace(jobs.manager.jobs, store.log.events)
           == Run(Trace(old(jobs.manager.jobs), old(store.log.events)), UpdatePlan(db, dto, later, occurrence))
    {
      jobs.UpdateJobsForOperation(op, later);
    }

    /** The edit and the save of `UpdateOperationAsync`, with the tables they leave. */
    method Change(op: D.Operation, dto: D.UpdateOperationDto, later: nat, occurrence: (string, nat) -> nat)
      requires Consistent(store.db) && dto.id in store.db.operations && op.id == dto.id && op.history.None?
      requires op.next == null <==> PendingRow(store.db, dto.id).None?
      requires op.next != null ==> op.next.Row() == PendingRow(store.db, dto.id).value
      requires op.telegramUserId == store.db.operations[dto.id].telegramUserId
      modifies op, op.next, store, store.log
      ensures store.db == UpdatedDb(old(store.db), dto, later, occurrence)
      ensures store.log.events == old(store.log.events) + [Updated(Operations)]
      ensures Consistent(store.db)
      ensures op.id == dto.id && op.startDate == EditedStart(dto, later, occurrence) && op.reminders == old(op.reminders)
      ensures (op.next != null) == EditedHasNext(old(store.db), dto, later)
      ensures op.telegramUserId == old(op.telegramUserId)
      ensures dto.id in store.db.operations && store.db.operations[dto.id] == op.Row()
    {
      if later <= dto.startDate {
        ChangeUpcoming(op, dto, later, occurrence);
      } else if dto.cron == D.None {
        ChangePassedOnce(op, dto, later, occurrence);
      } else {
        ChangePassedRecurring(op, dto, later, occurrence);
      }
    }

    /** `Change` for a start date not passed. */
    method ChangeUpcoming(op: D.Operation, dto: D.UpdateOperationDto, later: nat, occurrence: (string, nat) -> nat)
      requires Consistent(store.db) && dto.id in store.db.operations && op.id == dto.id && op.history.None?
      requires op.next == null <==> PendingRow(store.db, dto.id).None?
      requires op.next != null ==> op.next.Row() == PendingRow(store.db, dto.id).value
      requires op.telegramUserId == store.db.operations[dto.id].telegramUserId
      requires later <= dto.startDate
      modifies op, op.next, store, store.log
      ensures store.db == UpdatedDb(old(store.db), dto, later, occurrence)
      ensures store.log.events == old(store.log.events) + [Updated(Operations)]
      ensures Consistent(store.db)
      ensures op.id == dto.id && op.startDate == EditedStart(dto, later, occurrence) && op.reminders == old(op.reminders)
      ensures (op.next != null) == EditedHasNext(old(store.db), dto, later)
      ensures op.telegramUserId == old(op.telegramUserId)
      ensures dto.id in store.db.operations && store.db.operations[dto.id] == op.Row()
    {
      if op.next != null {
        PendingRowStored(store.db, dto.id);
      }
      var tracked: D.OperationInstance? := null;
      UpdateOperation(op, dto, later, occurrence);
      store.UpdateOperation(op, tracked);
    }

    /** `Change` for a passed one-off operation. */
    method ChangePassedOnce(op: D.Operation, dto: D.UpdateOperationDto, later: nat, occurrence: (string, nat) -> nat)
      requires Consistent(store.db) && dto.id in store.db.operations && op.id == dto.id && op.history.None?
      requires op.next == null <==> PendingRow(store.db, dto.id).None?
      requires op.next != null ==> op.next.Row() == PendingRow(store.db, dto.id).value
      requires op.telegramUserId == store.db.operations[dto.id].telegramUserId
      requires dto.startDate < later && dto.cron == D.None
      modifies op, op.next, store, store.log
      ensures store.db == UpdatedDb(old(store.db), dto, later, occurrence)
      ensures store.log.events == old(store.log.events) + [Updated(Operations)]
      ensures Consistent(store.db)
      ensures op.id == dto.id && op.startDate == EditedStart(dto, later, occurrence) && op.reminders == old(op.reminders)
      ensures (op.next != null) == EditedHasNext(old(store.db), dto, later)
      ensures op.telegramUserId == old(op.telegramUserId)
      ensures dto.id in store.db.operations && store.db.operations[dto.id] == op.Row()
    {
      if op.next != null {
        PendingRowStored(store.db, dto.id);
      }
      var tracked := op.next;
      UpdateOperation(op, dto, later, occurrence);
      store.UpdateOperation(op, tracked);
    }

    /** `Change` for a passed recurring operation. */
    method ChangePassedRecurring(op: D.Operation, dto: D.UpdateOperationDto, later: nat, occurrence: (string, nat) -> nat)
      requires Consistent(store.db) && dto.id in store.db.operations && op.id == dto.id && op.history.None?
      requires op.next == null <==> PendingRow(store.db, dto.id).None?
      requires op.next != null ==> op.next.Row() == PendingRow(store.db, dto.id).value
      requires op.telegramUserId == store.db.operations[dto.id].telegramUserId
      requires dto.startDate < later && dto.cron != D.None
      modifies op, op.next, store, store.log
      ensures store.db == UpdatedDb(old(store.db), dto, later, occurrence)
      ensures store.log.events == old(store.log.events) + [Updated(Operations)]
      ensures Consistent(store.db)
      ensures op.id == dto.id && op.startDate == EditedStart(dto, later, occurrence) && op.reminders == old(op.reminders)
      ensures (op.next != null) == EditedHasNext(old(store.db), dto, later)
      ensures op.telegramUserId == old(op.telegramUserId)
      ensures dto.id in store.db.operations && store.db.operations[dto.id] == op.Row()
    {
      if op.next != null {
        PendingRowStored(store.db, dto.id);
      }
      var tracked := op.next;
      UpdateOperation(op, dto, later, occurrence);
      store.UpdateOperation(op, tracked);
    }

    /**
     * `DeleteOperationAsync`: a missing user, a missing operation and another
     * user's operation are refused in that order with nothing changed;
     * otherwise the operation is deleted (with its instances and reminders)
     * and its job is removed.
     */
    method DeleteOperationAsync(telegramId: int, operationId: int) returns (res: Result<D.Operation, Error>)
      requires Wired() && Consistent(store.db)
      modifies store, store.log, jobs.manager
      ensures res == Fail(NotFound(UserNotFound)) <==> !old(store.UserExists(telegramId))
      ensures res == Fail(NotFound(OperationNotFound)) <==>
        old(store.UserExists(telegramId)) && operationId !in old(store.db.operations)
      ensures res == Fail(PermissionError) <==>
        old(store.UserExists(telegramId)) && operationId in old(store.db.operations)
        && old(store.db.operations[operationId].telegramUserId) != telegramId
      ensures res.Fail? ==>
        store.db == old(store.db) && store.log.events == old(store.log.events) && jobs.manager.jobs == old(jobs.manager.jobs)
      ensures res.Ok? ==>
        store.db == DeletedDb(old(store.db), operationId)
        && Trace(jobs.manager.jobs, store.log.events)
           == Run(Trace(old(jobs.manager.jobs), old(store.log.events) + [Deleted(Operations)]),
                  DeleteJobsPlan(operationId, None))
      ensures res.Ok? ==>
        fresh(res.value) && res.value.telegramUserId == telegramId && res.value.id == operationId
        && res.value.Row() == old(store.db.operations[operationId]).(nextInstanceId := None)
      ensures Consistent(store.db)
    {
      if !store.UserExists(telegramId) {
        return Fail(NotFound(UserNotFound));
      }
      var op := store.FindOperation(operationId);
      if op == null {
        return Fail(NotFound(OperationNotFound));
      }
      if op.telegramUserId != telegramId {
        return Fail(PermissionError);
      }
      store.DeleteOperation(op);
      jobs.DeleteJobsForOperation(op);
      res := Ok(op);
    }

    /**
     * `GetOperationAsync`: a missing user, a missing operation and another
     * user's operation are refused in that order; otherwise the operation with
     * its reminders.
     */
    method GetOperationAsync(telegramId: int, operationId: int) returns (res: Result<D.Operation, Error>)
      ensures res == Fail(NotFound(UserNotFound)) <==> !store.UserExists(telegramId)
      ensures res == Fail(NotFound(OperationNotFound)) <==>
        store.UserExists(telegramId) && operationId !in store.db.operations
      ensures res == Fail(PermissionError) <==>
        store.UserExists(telegramId) && operationId in store.db.operations
        && store.db.operations[operationId].telegramUserId != telegramId
      ensures res.Ok? ==>
        fresh(res.value) && res.value.Row() == store.db.operations[operationId].(nextInstanceId := None)
        && D.LoadedRows(res.value.reminders) == Some(RemindersOf(store.db.reminders, operationId))
    {
      if !store.UserExists(telegramId) {
        return Fail(NotFound(UserNotFound));
      }
      var op := store.FindOperationWithReminders(operationId);
      if op == null {
        return Fail(NotFound(OperationNotFound));
      }
      if op.telegramUserId != telegramId {
        return Fail(PermissionError);
      }
      res := Ok(op);
    }

    /**
     * `GetPlanedOperationsAsync`: refused for a missing user; a range without
     * a window throws; otherwise exactly the user's pending instances whose
     * operation starts inside the window, ordered by that start date.
     */
    method GetPlanedOperationsAsync(telegramId: int, range: D.TimeRange, now: nat)
      returns (res: Result<seq<D.InstanceRow>, Error>)
      ensures res == Fail(NotFound(UserNotFound)) <==> !store.UserExists(telegramId)
      ensures res == Fail(Thrown(ArgumentOutOfRangeException)) <==>
        store.UserExists(telegramId) && PlanWindow(range, now).Fail?
      ensures res.Ok? ==>
        var w := PlanWindow(range, now).value;
        SortedBy(res.value, StartKey(store.db))
        && multiset(res.value) == multiset(Filter(store.db.instances, IsPlanned(store.db, telegramId, w)))
        && forall x :: x in res.value <==>
             x in store.db.instances && x.executedAt.None? && Owner(store.db, x) == Some(telegramId)
             && w.start <= OperationStart(store.db, x) <= w.end
    {
      if !store.UserExists(telegramId) {
        return Fail(NotFound(UserNotFound));
      }
      var planned := Planned(store.db, telegramId, range, now);
      if planned.Fail? {
        return Fail(Thrown(planned.error));
      }
      PlannedSelects(store.db, telegramId, range, now);
      res := Ok(planned.value);
    }

    /**
     * `GetOperationHistoryAsync`: refused for a missing user; otherwise
     * exactly the user's executed instances, ordered by execution instant.
     */
    method GetOperationHistoryAsync(telegramId: int) returns (res: Result<seq<D.InstanceRow>, Error>)
      ensures res.Fail? <==> !store.UserExists(telegramId)
      ensures res.Fail? ==> res.error == NotFound(UserNotFound)
      ensures res.Ok? ==>
        SortedBy(res.value, ExecutedAt)
        && multiset(res.value) == multiset(Filter(store.db.instances, IsExecuted(store.db, telegramId)))
        && forall x :: x in res.value <==>
             x in store.db.instances && x.executedAt.Some? && Owner(store.db, x) == Some(telegramId)
    {
      if !store.UserExists(telegramId) {
        return Fail(NotFound(UserNotFound));
      }
      HistorySelects(store.db, telegramId);
      res := Ok(History(store.db, telegramId));
    }
  }
}
