/**
 * `HangfireOperationJobHelper`: keeps the recurring job `operation-{id}` of an
 * operation, and the jobs of its loaded reminders, in step with the
 * operation's next run, and runs the job when it fires.
 *
 * As for reminders, each scheduling operation is specified by its plan, the
 * sequence of scheduler calls it makes; the plan of an operation is its own
 * upsert or removal followed by the plans of its reminders in list order.
 */
module OperationJobs {
  import opened Wrappers
  import opened Errors
  import opened Text
  import opened Journal
  import opened Hangfire
  import opened Tables
  import opened Persistence
  import opened ReminderJobs
  import D = Domain

  /** `GetOperationJobId`: `"operation-{id}"`. */
  function OperationJobId(operationId: int): (s: string)
    ensures |s| > 10 && s[..10] == "operation-"
  {
    "operation-" + IntToString(operationId)
  }

  /** Distinct operations have distinct job ids. */
  lemma OperationJobIdInjective(a: int, b: int)
    ensures OperationJobId(a) == OperationJobId(b) ==> a == b
  {
    if OperationJobId(a) == OperationJobId(b) {
      assert IntToString(a) == OperationJobId(a)[10..] == OperationJobId(b)[10..] == IntToString(b);
      IntToStringInjective(a, b);
    }
  }

  /** An operation's job id is never a reminder's job id: the prefixes differ. */
  lemma JobIdsDisjoint(operationId: int, reminderId: int)
    ensures OperationJobId(operationId) != ReminderJobId(reminderId)
  {
    assert OperationJobId(operationId)[0] == 'o';
    assert ReminderJobId(reminderId)[0] == 'r';
  }

  /** The upsert of the operation's job, due at its start date (`GetOperationCron`). */
  function OperationUpsert(operationId: int, startDate: nat): JobCall {
    AddOrUpdate(OperationJobId(operationId), Job(ProcessOperationJob(operationId), DateCron(startDate)))
  }

  /** The reminders' `CreateJobForReminder` plans, in list order. */
  function CreateRemindersPlan(startDate: nat, rs: seq<D.ReminderRow>, now: nat): seq<JobCall> {
    if rs == [] then []
    else CreateRemindersPlan(startDate, rs[..|rs| - 1], now) + CreateJobPlan(startDate, rs[|rs| - 1], now)
  }

  /** The reminders' `UpdateJobForReminder` plans, in list order. */
  function UpdateRemindersPlan(startDate: nat, rs: seq<D.ReminderRow>, now: nat): seq<JobCall> {
    if rs == [] then []
    else UpdateRemindersPlan(startDate, rs[..|rs| - 1], now) + UpdateJobPlan(startDate, rs[|rs| - 1], now)
  }

  /** The reminders' `DeleteJobForReminder` plans, in list order. */
  function DeleteRemindersPlan(rs: seq<D.ReminderRow>): seq<JobCall> {
    if rs == [] then []
    else DeleteRemindersPlan(rs[..|rs| - 1]) + DeleteJobPlan(rs[|rs| - 1].id)
  }

  /**
   * `CreateJobsForOperation`: nothing without a pending instance; otherwise the
   * operation's upsert and then, when the reminders are loaded, their plans.
   */
  function CreateJobsPlan(operationId: int, startDate: nat, hasNext: bool,
                          reminders: Option<seq<D.ReminderRow>>, now: nat): seq<JobCall> {
    if !hasNext then []
    else if reminders.None? then [OperationUpsert(operationId, startDate)]
    else [OperationUpsert(operationId, startDate)] + CreateRemindersPlan(startDate, reminders.value, now)
  }

  /** `UpdateJobsForOperation`: as creating, with the reminders' update plans. */
  function UpdateJobsPlan(operationId: int, startDate: nat, hasNext: bool,
                          reminders: Option<seq<D.ReminderRow>>, now: nat): seq<JobCall> {
    if !hasNext then []
    else if reminders.None? then [OperationUpsert(operationId, startDate)]
    else [OperationUpsert(operationId, startDate)] + UpdateRemindersPlan(startDate, reminders.value, now)
  }

  /** `DeleteJobsForOperation`: the operation's removal and then, when loaded, the reminders' removals. */
  function DeleteJobsPlan(operationId: int, reminders: Option<seq<D.ReminderRow>>): seq<JobCall> {
    if reminders.None? then [RemoveIfExists(OperationJobId(operationId))]
    else [RemoveIfExists(OperationJobId(operationId))] + DeleteRemindersPlan(reminders.value)
  }

  /** The job ids of a list of reminders. */
  function ReminderJobIds(rs: seq<D.ReminderRow>): set<string> {
    if rs == [] then {} else ReminderJobIds(rs[..|rs| - 1]) + {ReminderJobId(rs[|rs| - 1].id)}
  }

  /** Every call of the reminders' plans is about a reminder's job. */
  lemma {:induction false} RemindersPlansTouchOnlyReminders(startDate: nat, rs: seq<D.ReminderRow>, now: nat)
    ensures forall c :: c in CreateRemindersPlan(startDate, rs, now) ==> c.jobId in ReminderJobIds(rs)
    ensures forall c :: c in UpdateRemindersPlan(startDate, rs, now) ==> c.jobId in ReminderJobIds(rs)
    ensures forall c :: c in DeleteRemindersPlan(rs) ==> c.jobId in ReminderJobIds(rs)
    decreases |rs|
  {
    if rs != [] {
      var n := |rs| - 1;
      RemindersPlansTouchOnlyReminders(startDate, rs[..n], now);
      PlansTouchOnlyTheirJob(startDate, rs[n], now);
    }
  }

  /** Every reminder job id starts with `reminder-`. */
  lemma {:induction false} ReminderJobIdsPrefixed(rs: seq<D.ReminderRow>)
    ensures forall x :: x in ReminderJobIds(rs) ==> |x| > 9 && x[..9] == "reminder-"
    decreases |rs|
  {
    if rs != [] {
      ReminderJobIdsPrefixed(rs[..|rs| - 1]);
    }
  }

  /** No call of the reminders' plans names the operation's job. */
  lemma RemindersPlansSpareOperation(operationId: int, startDate: nat, rs: seq<D.ReminderRow>, now: nat)
    ensures forall i :: 0 <= i < |CreateRemindersPlan(startDate, rs, now)| ==>
      CreateRemindersPlan(startDate, rs, now)[i].jobId != OperationJobId(operationId)
    ensures forall i :: 0 <= i < |UpdateRemindersPlan(startDate, rs, now)| ==>
      UpdateRemindersPlan(startDate, rs, now)[i].jobId != OperationJobId(operationId)
    ensures forall i :: 0 <= i < |DeleteRemindersPlan(rs)| ==>
      DeleteRemindersPlan(rs)[i].jobId != OperationJobId(operationId)
  {
    RemindersPlansTouchOnlyReminders(startDate, rs, now);
    ReminderJobIdsPrefixed(rs);
    var o := OperationJobId(operationId);
    assert o[0] == 'o';
    forall x | x in ReminderJobIds(rs) ensures x != o {
      assert x[0] == x[..9][0] == 'r';
    }
  }

  /** Without a pending instance, creating and updating the jobs change nothing. */
  lemma NoNextNoJobs(jobs: Jobs, operationId: int, startDate: nat,
                     reminders: Option<seq<D.ReminderRow>>, now: nat)
    ensures Apply(jobs, CreateJobsPlan(operationId, startDate, false, reminders, now)) == jobs
    ensures Apply(jobs, UpdateJobsPlan(operationId, startDate, false, reminders, now)) == jobs
  {
  }

  /**
   * With a pending instance, after creating or updating the jobs the
   * operation has exactly one job, `operation-{id}`, which runs
   * `ProcessOperationJob(id)` at the start date's second, minute, hour, day
   * and month: the reminders' calls never touch it.
   */
  lemma OperationJobRegistered(jobs: Jobs, operationId: int, startDate: nat,
                               reminders: Option<seq<D.ReminderRow>>, now: nat)
    ensures var j := Apply(jobs, CreateJobsPlan(operationId, startDate, true, reminders, now));
      OperationJobId(operationId) in j
      && j[OperationJobId(operationId)] == Job(ProcessOperationJob(operationId), DateCron(startDate))
    ensures var j := Apply(jobs, UpdateJobsPlan(operationId, startDate, true, reminders, now));
      OperationJobId(operationId) in j
      && j[OperationJobId(operationId)] == Job(ProcessOperationJob(operationId), DateCron(startDate))
  {
    var id, job := OperationJobId(operationId), Job(ProcessOperationJob(operationId), DateCron(startDate));
    if reminders.None? {
      AddOrUpdateSurvives(jobs, id, job, []);
      assert [OperationUpsert(operationId, startDate)] + [] == [OperationUpsert(operationId, startDate)];
    } else {
      RemindersPlansSpareOperation(operationId, startDate, reminders.value, now);
      AddOrUpdateSurvives(jobs, id, job, CreateRemindersPlan(startDate, reminders.value, now));
      AddOrUpdateSurvives(jobs, id, job, UpdateRemindersPlan(startDate, reminders.value, now));
    }
  }

  /** Removing the reminders' jobs removes exactly their ids. */
  lemma {:induction false} DeleteRemindersEffect(jobs: Jobs, rs: seq<D.ReminderRow>)
    ensures Apply(jobs, DeleteRemindersPlan(rs)) == jobs - ReminderJobIds(rs)
    decreases |rs|
  {
    if rs == [] {
      assert ReminderJobIds(rs) == {};
      assert jobs - {} == jobs;
    } else {
      var n := |rs| - 1;
      DeleteRemindersEffect(jobs, rs[..n]);
      ApplyAppend(jobs, DeleteRemindersPlan(rs[..n]), DeleteJobPlan(rs[n].id));
      DeleteJobEffect(jobs - ReminderJobIds(rs[..n]), rs[n].id);
    }
  }

  /** The ids `DeleteJobsForOperation` removes. */
  function DeletedJobIds(operationId: int, reminders: Option<seq<D.ReminderRow>>): set<string> {
    if reminders.None? then {OperationJobId(operationId)}
    else {OperationJobId(operationId)} + ReminderJobIds(reminders.value)
  }

  lemma MinusMinus(jobs: Jobs, a: set<string>, b: set<string>)
    ensures (jobs - a) - b == jobs - (a + b)
  {
  }

  /**
   * Deleting the jobs removes `operation-{id}` and, when the reminders are
   * loaded, every reminder's job, and nothing else.
   */
  lemma DeleteJobsEffect(jobs: Jobs, operationId: int, reminders: Option<seq<D.ReminderRow>>)
    ensures Apply(jobs, DeleteJobsPlan(operationId, reminders)) == jobs - DeletedJobIds(operationId, reminders)
  {
    var head := RemoveIfExists(OperationJobId(operationId));
    ApplyOne(jobs, head);
    if reminders.Some? {
      ApplyAppend(jobs, [head], DeleteRemindersPlan(reminders.value));
      DeleteRemindersEffect(jobs - {OperationJobId(operationId)}, reminders.value);
      MinusMinus(jobs, {OperationJobId(operationId)}, ReminderJobIds(reminders.value));
    }
  }

  /** Deleting the jobs twice is deleting them once. */
  lemma DeleteJobsIdempotent(jobs: Jobs, operationId: int, reminders: Option<seq<D.ReminderRow>>)
    ensures Apply(Apply(jobs, DeleteJobsPlan(operationId, reminders)), DeleteJobsPlan(operationId, reminders))
         == Apply(jobs, DeleteJobsPlan(operationId, reminders))
  {
    var ids := DeletedJobIds(operationId, reminders);
    DeleteJobsEffect(jobs, operationId, reminders);
    DeleteJobsEffect(jobs - ids, operationId, reminders);
    MinusMinus(jobs, ids, ids);
    assert ids + ids == ids;
  }

  /** One more reminder's `CreateJobForReminder` extends the run of the reminders before it. */
  lemma CreateRemindersStep(startDate: nat, rows: seq<D.ReminderRow>, i: nat, now: nat, t0: Trace, t1: Trace, t2: Trace)
    requires i < |rows|
    requires t1 == Run(t0, CreateRemindersPlan(startDate, rows[..i], now))
    requires t2 == Run(t1, CreateJobPlan(startDate, rows[i], now))
    ensures t2 == Run(t0, CreateRemindersPlan(startDate, rows[..i + 1], now))
  {
    var prefix := rows[..i + 1];
    assert prefix[..|prefix| - 1] == rows[..i] && prefix[|prefix| - 1] == rows[i];
    assert CreateRemindersPlan(startDate, prefix, now) == CreateRemindersPlan(startDate, rows[..i], now) + CreateJobPlan(startDate, rows[i], now);
    RunThen(t0, t1, t2, CreateRemindersPlan(startDate, rows[..i], now), CreateJobPlan(startDate, rows[i], now));
  }

  /** One more reminder's `UpdateJobForReminder` extends the run of the reminders before it. */
  lemma UpdateRemindersStep(startDate: nat, rows: seq<D.ReminderRow>, i: nat, now: nat, t0: Trace, t1: Trace, t2: Trace)
    requires i < |rows|
    requires t1 == Run(t0, UpdateRemindersPlan(startDate, rows[..i], now))
    requires t2 == Run(t1, UpdateJobPlan(startDate, rows[i], now))
    ensures t2 == Run(t0, UpdateRemindersPlan(startDate, rows[..i + 1], now))
  {
    var prefix := rows[..i + 1];
    assert prefix[..|prefix| - 1] == rows[..i] && prefix[|prefix| - 1] == rows[i];
    assert UpdateRemindersPlan(startDate, prefix, now) == UpdateRemindersPlan(startDate, rows[..i], now) + UpdateJobPlan(startDate, rows[i], now);
    RunThen(t0, t1, t2, UpdateRemindersPlan(startDate, rows[..i], now), UpdateJobPlan(startDate, rows[i], now));
  }

  /** One more reminder's `DeleteJobForReminder` extends the run of the reminders before it. */
  lemma DeleteRemindersStep(rows: seq<D.ReminderRow>, i: nat, t0: Trace, t1: Trace, t2: Trace)
    requires i < |rows|
    requires t1 == Run(t0, DeleteRemindersPlan(rows[..i]))
    requires t2 == Run(t1, DeleteJobPlan(rows[i].id))
    ensures t2 == Run(t0, DeleteRemindersPlan(rows[..i + 1]))
  {
    var prefix := rows[..i + 1];
    assert prefix[..|prefix| - 1] == rows[..i] && prefix[|prefix| - 1] == rows[i];
    assert DeleteRemindersPlan(prefix) == DeleteRemindersPlan(rows[..i]) + DeleteJobPlan(rows[i].id);
    RunThen(t0, t1, t2, DeleteRemindersPlan(rows[..i]), DeleteJobPlan(rows[i].id));
  }

  /**
   * `CronOccurrence` stands for `CrontabSchedule.Parse(cron).GetNextOccurrence(base)`;
   * the only property assumed of it is that the occurrence is after the base.
   */
  ghost predicate Advances(occurrence: (string, nat) -> nat) {
    forall cron: string, base: nat :: base < occurrence(cron, base)
  }

  /**
   * The tables after `ProcessOperationJob` has run for an operation with a
   * pending instance: the pending instance is saved as executed at `now` with
   * result "Done"; a recurring operation moves its start date to the next
   * occurrence after the old one and gets a new pending instance, scheduled
   * at `now`; a one-off operation is left without a pending instance.
   */
  function ProcessedDb(db: Db, operationId: int, now: nat, occurrence: (string, nat) -> nat): Db
    requires operationId in db.operations && PendingRow(db, operationId).Some?
  {
    var row := db.operations[operationId];
    var done := PendingRow(db, operationId).value.(result := Some(D.Done), executedAt := Some(now));
    if row.cron.Some? then
      var next := D.InstanceRow(db.lastInstanceId + 1, now, operationId, None, None);
      var db1 := PutInstance(PutInstance(db, next, true), done, false);
      db1.(operations := db.operations[operationId := row.(startDate := occurrence(row.cron.value, row.startDate),
                                                               nextInstanceId := Some(next.id))])
    else
      var db1 := PutInstance(db, done, false);
      db1.(operations := db.operations[operationId := row.(nextInstanceId := None)])
  }

  /**
   * After its job ran, a recurring operation starts strictly later than
   * before and again has a pending instance, under a new id; a one-off
   * operation keeps its start date and has no pending instance left.
   */
  lemma ProcessedAdvances(db: Db, operationId: int, now: nat, occurrence: (string, nat) -> nat)
    requires Advances(occurrence) && Consistent(db)
    requires operationId in db.operations && PendingRow(db, operationId).Some?
    ensures var before := db.operations[operationId];
      var after := ProcessedDb(db, operationId, now, occurrence);
      operationId in after.operations
      && (before.cron.Some? ==>
            after.operations[operationId].startDate > before.startDate
            && after.operations[operationId].nextInstanceId == Some(db.lastInstanceId + 1)
            && after.operations[operationId].nextInstanceId != before.nextInstanceId)
      && (before.cron.None? ==>
            after.operations[operationId].startDate == before.startDate
            && after.operations[operationId].nextInstanceId.None?)
  {
    var before := db.operations[operationId];
    var pending := PendingRow(db, operationId).value;
    PendingRowStored(db, operationId);
    if before.cron.Some? {
      assert before.startDate < occurrence(before.cron.value, before.startDate);
      assert pending in db.instances && pending.id <= db.lastInstanceId;
    }
  }

  /**
   * The scheduler calls of `ProcessOperationJob`: the jobs of the operation
   * and its reminders re-created at the new start date for a recurring
   * operation, all of them removed for a one-off one.
   */
  function ProcessPlan(db: Db, operationId: int, now: nat, occurrence: (string, nat) -> nat): seq<JobCall>
    requires operationId in db.operations
  {
    var row := db.operations[operationId];
    var reminders := Some(RemindersOf(db.reminders, operationId));
    if row.cron.Some? then
      CreateJobsPlan(operationId, occurrence(row.cron.value, row.startDate), true, reminders, now)
    else
      DeleteJobsPlan(operationId, reminders)
  }

  /** The save of a recurring operation after its job ran leaves the tables `ProcessedDb` describes. */
  lemma CronSaved(db: Db, operationId: int, now: nat, occurrence: (string, nat) -> nat,
                  next: D.InstanceRow, done: D.InstanceRow, row: D.OperationRow, after: Db)
    requires operationId in db.operations && PendingRow(db, operationId).Some?
    requires db.operations[operationId].cron.Some?
    requires next == D.InstanceRow(db.lastInstanceId + 1, now, operationId, None, None)
    requires done == PendingRow(db, operationId).value.(result := Some(D.Done), executedAt := Some(now))
    requires row == db.operations[operationId].(startDate := occurrence(db.operations[operationId].cron.value,
                                                                         db.operations[operationId].startDate),
                                                 nextInstanceId := Some(next.id))
    requires after == PutInstance(PutInstance(db, next, true), done, false).(operations := db.operations[operationId := row])
    ensures after == ProcessedDb(db, operationId, now, occurrence)
  {
  }

  /** The save of a one-off operation after its job ran leaves the tables `ProcessedDb` describes. */
  lemma OneOffSaved(db: Db, operationId: int, now: nat, occurrence: (string, nat) -> nat,
                    done: D.InstanceRow, row: D.OperationRow, after: Db)
    requires operationId in db.operations && PendingRow(db, operationId).Some?
    requires db.operations[operationId].cron.None?
    requires done == PendingRow(db, operationId).value.(result := Some(D.Done), executedAt := Some(now))
    requires row == db.operations[operationId].(nextInstanceId := None)
    requires after == PutInstance(db, done, false).(operations := db.operations[operationId := row])
    ensures after == ProcessedDb(db, operationId, now, occurrence)
  {
  }

  /** The calls a recurring operation's job makes are `ProcessPlan`. */
  lemma ProcessPlanCron(db: Db, operationId: int, now: nat, occurrence: (string, nat) -> nat,
                        id: int, startDate: nat, loaded: Option<seq<D.ReminderRow>>, t0: Trace, t1: Trace)
    requires operationId in db.operations && db.operations[operationId].cron.Some?
    requires id == operationId && loaded == Some(RemindersOf(db.reminders, operationId))
    requires startDate == occurrence(db.operations[operationId].cron.value, db.operations[operationId].startDate)
    requires t1 == Run(t0, CreateJobsPlan(id, startDate, true, loaded, now))
    ensures t1 == Run(t0, ProcessPlan(db, operationId, now, occurrence))
  {
  }

  /** The calls a one-off operation's job makes are `ProcessPlan`. */
  lemma ProcessPlanOneOff(db: Db, operationId: int, now: nat, occurrence: (string, nat) -> nat,
                          id: int, loaded: Option<seq<D.ReminderRow>>, t0: Trace, t1: Trace)
    requires operationId in db.operations && db.operations[operationId].cron.None?
    requires id == operationId && loaded == Some(RemindersOf(db.reminders, operationId))
    requires t1 == Run(t0, DeleteJobsPlan(id, loaded))
    ensures t1 == Run(t0, ProcessPlan(db, operationId, now, occurrence))
  {
  }

  /** The pending instance an operation refers to is a stored row with that id. */
  lemma PendingRowStored(db: Db, operationId: int)
    requires Consistent(db) && operationId in db.operations && PendingRow(db, operationId).Some?
    ensures PendingRow(db, operationId).value in db.instances
    ensures PendingRow(db, operationId).value.id == db.operations[operationId].nextInstanceId.value
    ensures 0 < PendingRow(db, operationId).value.id <= db.lastInstanceId
  {
  }

  class HangfireOperationJobHelper {
    const reminderHelper: HangfireReminderJobHelper
    const manager: RecurringJobManager
    const store: Store

    constructor (reminderHelper: HangfireReminderJobHelper, manager: RecurringJobManager, store: Store)
      ensures this.reminderHelper == reminderHelper && this.manager == manager && this.store == store
    {
      this.reminderHelper := reminderHelper;
      this.manager := manager;
      this.store := store;
    }

    method CreateJobsForOperation(op: D.Operation, now: nat)
      requires reminderHelper.manager == manager
      modifies manager, manager.log
      ensures Trace(manager.jobs, manager.log.events)
           == Run(Trace(old(manager.jobs), old(manager.log.events)), CreateJobsPlan(op.id, op.startDate, op.next != null, D.LoadedRows(op.reminders), now))
    {
      if op.next == null {
        return;
      }
      ghost var t0 := Trace(manager.jobs, manager.log.events);
      manager.AddOrUpdate(OperationJobId(op.id), Job(JobTarget.ProcessOperationJob(op.id), DateCron(op.startDate)));
      if op.reminders.None? {
        return;
      }
      ghost var t1 := Trace(manager.jobs, manager.log.events);
      CreateReminderJobs(op, now);
      RunThen(t0, t1, Trace(manager.jobs, manager.log.events), [OperationUpsert(op.id, op.startDate)], CreateRemindersPlan(op.startDate, D.ReminderRows(op.reminders.value), now));
    }

    /** The loop of `CreateJobsForOperation` over the loaded reminders. */
    method CreateReminderJobs(op: D.Operation, now: nat)
      requires reminderHelper.manager == manager && op.reminders.Some?
      modifies manager, manager.log
      ensures Trace(manager.jobs, manager.log.events)
           == Run(Trace(old(manager.jobs), old(manager.log.events)), CreateRemindersPlan(op.startDate, D.ReminderRows(op.reminders.value), now))
    {
      var rs := op.reminders.value;
      ghost var rows := D.ReminderRows(rs);
      ghost var t0 := Trace(manager.jobs, manager.log.events);
      var i := 0;
      while i < |rs|
        invariant 0 <= i <= |rs| && rows == D.ReminderRows(rs)
        invariant Trace(manager.jobs, manager.log.events) == Run(t0, CreateRemindersPlan(op.startDate, rows[..i], now))
      {
        CreateReminderJob(op, rs, i, now, rows, t0);
        i := i + 1;
      }
      assert rows[..i] == rows;
    }

    /** One iteration of the loop: `CreateJobForReminder` for the `i`-th reminder. */
    method CreateReminderJob(op: D.Operation, rs: seq<D.Reminder>, i: nat, now: nat, ghost rows: seq<D.ReminderRow>, ghost t0: Trace)
      requires reminderHelper.manager == manager && i < |rs| == |rows| && rows[i] == rs[i].Row()
      requires Trace(manager.jobs, manager.log.events) == Run(t0, CreateRemindersPlan(op.startDate, rows[..i], now))
      modifies manager, manager.log
      ensures Trace(manager.jobs, manager.log.events) == Run(t0, CreateRemindersPlan(op.startDate, rows[..i + 1], now))
    {
      ghost var t1 := Trace(manager.jobs, manager.log.events);
      reminderHelper.CreateJobForReminder(op, rs[i], now);
      CreateRemindersStep(op.startDate, rows, i, now, t0, t1, Trace(manager.jobs, manager.log.events));
    }

    method UpdateJobsForOperation(op: D.Operation, now: nat)
      requires reminderHelper.manager == manager
      modifies manager, manager.log
      ensures Trace(manager.jobs, manager.log.events)
           == Run(Trace(old(manager.jobs), old(manager.log.events)), UpdateJobsPlan(op.id, op.startDate, op.next != null, D.LoadedRows(op.reminders), now))
    {
      if op.next == null {
        return;
      }
      ghost var t0 := Trace(manager.jobs, manager.log.events);
      manager.AddOrUpdate(OperationJobId(op.id), Job(JobTarget.ProcessOperationJob(op.id), DateCron(op.startDate)));
      if op.reminders.None? {
        return;
      }
      ghost var t1 := Trace(manager.jobs, manager.log.events);
      UpdateReminderJobs(op, now);
      RunThen(t0, t1, Trace(manager.jobs, manager.log.events), [OperationUpsert(op.id, op.startDate)], UpdateRemindersPlan(op.startDate, D.ReminderRows(op.reminders.value), now));
    }

    /** The loop of `UpdateJobsForOperation` over the loaded reminders. */
    method UpdateReminderJobs(op: D.Operation, now: nat)
      requires reminderHelper.manager == manager && op.reminders.Some?
      modifies manager, manager.log
      ensures Trace(manager.jobs, manager.log.events)
           == Run(Trace(old(manager.jobs), old(manager.log.events)), UpdateRemindersPlan(op.startDate, D.ReminderRows(op.reminders.value), now))
    {
      var rs := op.reminders.value;
      ghost var rows := D.ReminderRows(rs);
      ghost var t0 := Trace(manager.jobs, manager.log.events);
      var i := 0;
      while i < |rs|
        invariant 0 <= i <= |rs| && rows == D.ReminderRows(rs)
        invariant Trace(manager.jobs, manager.log.events) == Run(t0, UpdateRemindersPlan(op.startDate, rows[..i], now))
      {
        UpdateReminderJob(op, rs, i, now, rows, t0);
        i := i + 1;
      }
      assert rows[..i] == rows;
    }

    /** One iteration of the loop: `UpdateJobForReminder` for the `i`-th reminder. */
    method UpdateReminderJob(op: D.Operation, rs: seq<D.Reminder>, i: nat, now: nat, ghost rows: seq<D.ReminderRow>, ghost t0: Trace)
      requires reminderHelper.manager == manager && i < |rs| == |rows| && rows[i] == rs[i].Row()
      requires Trace(manager.jobs, manager.log.events) == Run(t0, UpdateRemindersPlan(op.startDate, rows[..i], now))
      modifies manager, manager.log
      ensures Trace(manager.jobs, manager.log.events) == Run(t0, UpdateRemindersPlan(op.startDate, rows[..i + 1], now))
    {
      ghost var t1 := Trace(manager.jobs, manager.log.events);
      reminderHelper.UpdateJobForReminder(op, rs[i], now);
      UpdateRemindersStep(op.startDate, rows, i, now, t0, t1, Trace(manager.jobs, manager.log.events));
    }

    method DeleteJobsForOperation(op: D.Operation)
      requires reminderHelper.manager == manager
      modifies manager, manager.log
      ensures Trace(manager.jobs, manager.log.events)
           == Run(Trace(old(manager.jobs), old(manager.log.events)), DeleteJobsPlan(op.id, D.LoadedRows(op.reminders)))
    {
      ghost var t0 := Trace(manager.jobs, manager.log.events);
      manager.RemoveIfExists(OperationJobId(op.id));
      if op.reminders.None? {
        return;
      }
      ghost var t1 := Trace(manager.jobs, manager.log.events);
      DeleteReminderJobs(op);
      RunThen(t0, t1, Trace(manager.jobs, manager.log.events), [RemoveIfExists(OperationJobId(op.id))], DeleteRemindersPlan(D.ReminderRows(op.reminders.value)));
    }

    /** The loop of `DeleteJobsForOperation` over the loaded reminders. */
    method DeleteReminderJobs(op: D.Operation)
      requires reminderHelper.manager == manager && op.reminders.Some?
      modifies manager, manager.log
      ensures Trace(manager.jobs, manager.log.events)
           == Run(Trace(old(manager.jobs), old(manager.log.events)), DeleteRemindersPlan(D.ReminderRows(op.reminders.value)))
    {
      var rs := op.reminders.value;
      ghost var rows := D.ReminderRows(rs);
      ghost var t0 := Trace(manager.jobs, manager.log.events);
      var i := 0;
      while i < |rs|
        invariant 0 <= i <= |rs| && rows == D.ReminderRows(rs)
        invariant Trace(manager.jobs, manager.log.events) == Run(t0, DeleteRemindersPlan(rows[..i]))
      {
        DeleteReminderJob(rs, i, rows, t0);
        i := i + 1;
      }
      assert rows[..i] == rows;
    }

    /** One iteration of the loop: `DeleteJobForReminder` for the `i`-th reminder. */
    method DeleteReminderJob(rs: seq<D.Reminder>, i: nat, ghost rows: seq<D.ReminderRow>, ghost t0: Trace)
      requires reminderHelper.manager == manager && i < |rs| == |rows| && rows[i] == rs[i].Row()
      requires Trace(manager.jobs, manager.log.events) == Run(t0, DeleteRemindersPlan(rows[..i]))
      modifies manager, manager.log
      ensures Trace(manager.jobs, manager.log.events) == Run(t0, DeleteRemindersPlan(rows[..i + 1]))
    {
      ghost var t1 := Trace(manager.jobs, manager.log.events);
      reminderHelper.DeleteJobForReminder(rs[i]);
      DeleteRemindersStep(rows, i, t0, t1, Trace(manager.jobs, manager.log.events));
    }

    /** `ProcessPastOperation`: the instance is executed at `now` with result "Done". */
    method ProcessPastOperation(instance: D.OperationInstance, now: nat)
      modifies instance
      ensures instance.Row() == old(instance.Row()).(result := Some(D.Done), executedAt := Some(now))
    {
      instance.executedAt := Some(now);
      instance.result := Some(D.Done);
    }

    /**
     * `ProcessCronOperationCreation`: the start date moves to the cron
     * schedule's next occurrence after the current one, and a new unexecuted
     * instance, scheduled at `now`, becomes the pending one.
     */
    method ProcessCronOperationCreation(op: D.Operation, now: nat, occurrence: (string, nat) -> nat)
      requires op.cron.Some?
      modifies op
      ensures op.startDate == occurrence(old(op.cron.value), old(op.startDate))
      ensures op.next != null && fresh(op.next)
      ensures op.next.Row() == D.InstanceRow(0, now, op.id, None, None)
      ensures op.id == old(op.id) && op.theme == old(op.theme) && op.description == old(op.description)
      ensures op.cron == old(op.cron) && op.telegramUserId == old(op.telegramUserId)
      ensures op.history == old(op.history) && op.reminders == old(op.reminders)
    {
      op.startDate := occurrence(op.cron.value, op.startDate);
      var next := new D.OperationInstance(now, op.id);
      op.next := next;
    }

    /**
     * `ProcessOperationJob`: loads the operation with its pending instance
     * and reminders, marks the pending instance done, re-creates the jobs at
     * the next occurrence (recurring) or removes them (one-off), and then
     * saves the operation. A missing operation or pending instance is
     * dereferenced and throws before anything changes.
     */
    method ProcessOperationJob(operationId: int, now: nat, occurrence: (string, nat) -> nat)
      returns (res: Result<Unit, Exception>)
      requires reminderHelper.manager == manager && store.log == manager.log
      requires Consistent(store.db)
      modifies manager, manager.log, store
      ensures res.Fail? <==> operationId !in old(store.db.operations) || PendingRow(old(store.db), operationId).None?
      ensures res.Fail? ==>
        res.error == NullReferenceException && store.db == old(store.db)
        && manager.jobs == old(manager.jobs) && manager.log.events == old(manager.log.events)
      ensures res.Ok? ==>
        store.db == ProcessedDb(old(store.db), operationId, now, occurrence)
        && manager.jobs == Apply(old(manager.jobs), ProcessPlan(old(store.db), operationId, now, occurrence))
        && manager.log.events == old(manager.log.events)
             + Calls(ProcessPlan(old(store.db), operationId, now, occurrence)) + [Updated(Operations)]
      ensures Consistent(store.db)
    {
      var op := store.FindOperationWithDetails(operationId);
      if op == null || op.next == null {
        return Fail(NullReferenceException);
      }
      Complete(op, operationId, now, occurrence);
      res := Ok(Unit);
    }

    /** `ProcessOperationJob` once the operation and its pending instance are loaded. */
    method Complete(op: D.Operation, operationId: int, now: nat, occurrence: (string, nat) -> nat)
      requires reminderHelper.manager == manager && store.log == manager.log
      requires Consistent(store.db) && operationId in store.db.operations && PendingRow(store.db, operationId).Some?
      requires op.id == operationId && op.history.None? && op.next != null
      requires op.next.Row() == PendingRow(store.db, operationId).value && op.Row() == store.db.operations[operationId]
      requires D.LoadedRows(op.reminders) == Some(RemindersOf(store.db.reminders, operationId))
      modifies manager, manager.log, store, op, op.next
      ensures store.db == ProcessedDb(old(store.db), operationId, now, occurrence)
      ensures manager.jobs == Apply(old(manager.jobs), ProcessPlan(old(store.db), operationId, now, occurrence))
      ensures manager.log.events == old(manager.log.events)
        + Calls(ProcessPlan(old(store.db), operationId, now, occurrence)) + [Updated(Operations)]
      ensures Consistent(store.db)
    {
      ghost var db0 := store.db;
      PendingRowStored(db0, operationId);
      var pending := op.next;
      Reschedule(op, now, occurrence, db0);
      store.UpdateOperation(op, pending);
      if op.cron.Some? {
        CronSaved(db0, operationId, now, occurrence, op.next.Row(), pending.Row(), op.Row(), store.db);
      } else {
        OneOffSaved(db0, operationId, now, occurrence, pending.Row(), op.Row(), store.db);
      }
    }

    /**
     * The middle of `ProcessOperationJob`: the pending instance is marked
     * done and detached; a recurring operation gets its next occurrence and
     * its jobs re-created, a one-off one has its jobs removed.
     */
    method Reschedule(op: D.Operation, now: nat, occurrence: (string, nat) -> nat, ghost db: Db)
      requires reminderHelper.manager == manager && op.next != null
      requires op.id in db.operations && PendingRow(db, op.id).Some?
      requires op.Row() == db.operations[op.id] && op.next.Row() == PendingRow(db, op.id).value
      requires D.LoadedRows(op.reminders) == Some(RemindersOf(db.reminders, op.id))
      modifies op, op.next, manager, manager.log
      ensures op.id == old(op.id) && op.history == old(op.history)
      ensures old(op.next).Row() == PendingRow(db, op.id).value.(result := Some(D.Done), executedAt := Some(now))
      ensures Trace(manager.jobs, manager.log.events)
           == Run(Trace(old(manager.jobs), old(manager.log.events)), ProcessPlan(db, op.id, now, occurrence))
      ensures db.operations[op.id].cron.Some? ==>
        op.next != null && fresh(op.next) && op.next.Row() == D.InstanceRow(0, now, op.id, None, None)
        && op.Row() == db.operations[op.id].(startDate := occurrence(db.operations[op.id].cron.value,
                                                                     db.operations[op.id].startDate),
                                             nextInstanceId := Some(0))
      ensures db.operations[op.id].cron.None? ==>
        op.next == null && op.Row() == db.operations[op.id].(nextInstanceId := None)
    {
      FinishPending(op, now);
      if op.cron.Some? {
        RescheduleCron(op, now, occurrence, db);
      } else {
        RescheduleOneOff(op, now, occurrence, db);
      }
    }

    /** The pending instance is marked done and the operation no longer refers to it. */
    method FinishPending(op: D.Operation, now: nat)
      requires op.next != null
      modifies op, op.next
      ensures old(op.next).Row() == old(op.next.Row()).(result := Some(D.Done), executedAt := Some(now))
      ensures op.next == null && op.Row() == old(op.Row()).(nextInstanceId := None)
      ensures op.id == old(op.id) && op.cron == old(op.cron) && op.startDate == old(op.startDate)
      ensures op.history == old(op.history) && op.reminders == old(op.reminders)
      ensures D.LoadedRows(op.reminders) == old(D.LoadedRows(op.reminders))
    {
      ProcessPastOperation(op.next, now);
      op.next := null;
    }

    /** `Reschedule` for a recurring operation, once the pending instance is detached. */
    method RescheduleCron(op: D.Operation, now: nat, occurrence: (string, nat) -> nat, ghost db: Db)
      requires reminderHelper.manager == manager && op.next == null && op.id in db.operations
      requires op.Row() == db.operations[op.id].(nextInstanceId := None)
      requires D.LoadedRows(op.reminders) == Some(RemindersOf(db.reminders, op.id))
      requires op.cron.Some?
      modifies op, manager, manager.log
      ensures op.id == old(op.id) && op.history == old(op.history)
      ensures Trace(manager.jobs, manager.log.events)
           == Run(Trace(old(manager.jobs), old(manager.log.events)), ProcessPlan(db, op.id, now, occurrence))
      ensures op.next != null && fresh(op.next) && op.next.Row() == D.InstanceRow(0, now, op.id, None, None)
      ensures op.Row() == db.operations[op.id].(startDate := occurrence(db.operations[op.id].cron.value,
                                                                       db.operations[op.id].startDate),
                                                nextInstanceId := Some(0))
    {
      ghost var t0 := Trace(manager.jobs, manager.log.events);
      ghost var loaded := D.LoadedRows(op.reminders);
      ProcessCronOperationCreation(op, now, occurrence);
      assert loaded == D.LoadedRows(op.reminders);
      CreateJobsForOperation(op, now);
      assert loaded == D.LoadedRows(op.reminders);
      ProcessPlanCron(db, op.id, now, occurrence, op.id, op.startDate, loaded,
                      t0, Trace(manager.jobs, manager.log.events));
    }

    /** `Reschedule` for a one-off operation, once the pending instance is detached. */
    method RescheduleOneOff(op: D.Operation, now: nat, occurrence: (string, nat) -> nat, ghost db: Db)
      requires reminderHelper.manager == manager && op.id in db.operations && db.operations[op.id].cron.None?
      requires D.LoadedRows(op.reminders) == Some(RemindersOf(db.reminders, op.id))
      modifies manager, manager.log
      ensures Trace(manager.jobs, manager.log.events)
           == Run(Trace(old(manager.jobs), old(manager.log.events)), ProcessPlan(db, op.id, now, occurrence))
    {
      ghost var t0 := Trace(manager.jobs, manager.log.events);
      ghost var loaded := D.LoadedRows(op.reminders);
      DeleteJobsForOperation(op);
      ProcessPlanOneOff(db, op.id, now, occurrence, op.id, loaded,
                        t0, Trace(manager.jobs, manager.log.events));
    }
  }
}
