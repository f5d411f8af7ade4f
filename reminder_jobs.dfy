/**
 * `HangfireReminderJobHelper`: keeps the recurring job `reminder-{id}` of a
 * reminder in step with its fire time, `StartDate - OffsetBeforeExecution`,
 * and runs the job when it fires.
 *
 * Each scheduling operation is specified by the sequence of scheduler calls
 * it makes (its plan), a function of the operation's start date, the
 * reminder's row and the current instant; the helper's methods make exactly
 * those calls.
 */
module ReminderJobs {
  import opened Wrappers
  import opened Errors
  import opened Text
  import opened Journal
  import opened Hangfire
  import opened Tables
  import opened Persistence
  import opened Notifications
  import D = Domain

  /** `GetReminderJobId`: `"reminder-{id}"`. */
  function ReminderJobId(reminderId: int): (s: string)
    ensures |s| > 9 && s[..9] == "reminder-"
  {
    "reminder-" + IntToString(reminderId)
  }

  /** Distinct reminders have distinct job ids. */
  lemma ReminderJobIdInjective(a: int, b: int)
    ensures ReminderJobId(a) == ReminderJobId(b) ==> a == b
  {
    if ReminderJobId(a) == ReminderJobId(b) {
      assert IntToString(a) == ReminderJobId(a)[9..] == ReminderJobId(b)[9..] == IntToString(b);
      IntToStringInjective(a, b);
    }
  }

  /** `GetReminderTime`: the instant the reminder is due, `OffsetBeforeExecution` before the start. */
  function ReminderTime(startDate: nat, r: D.ReminderRow): int {
    startDate - r.offsetBeforeExecution
  }

  /** The upsert of the reminder's job, due at `t`. */
  function Upsert(r: D.ReminderRow, t: nat): JobCall {
    AddOrUpdate(ReminderJobId(r.id), Job(ProcessReminderJob(r.id), DateCron(t)))
  }

  /** `CreateJobForReminder`: upsert the job when the reminder is still to come, else nothing. */
  function CreateJobPlan(startDate: nat, r: D.ReminderRow, now: nat): seq<JobCall> {
    var t := ReminderTime(startDate, r);
    if t <= now then [] else [Upsert(r, t)]
  }

  /** `UpdateJobForReminder`: upsert the job when the reminder is still to come, else remove it. */
  function UpdateJobPlan(startDate: nat, r: D.ReminderRow, now: nat): seq<JobCall> {
    var t := ReminderTime(startDate, r);
    if t <= now then DeleteJobPlan(r.id) else [Upsert(r, t)]
  }

  /** `DeleteJobForReminder`: remove the job. */
  function DeleteJobPlan(reminderId: int): seq<JobCall> {
    [RemoveIfExists(ReminderJobId(reminderId))]
  }

  /** Every call a reminder's plans make is about that reminder's job. */
  lemma PlansTouchOnlyTheirJob(startDate: nat, r: D.ReminderRow, now: nat)
    ensures forall c :: c in CreateJobPlan(startDate, r, now) ==> c.jobId == ReminderJobId(r.id)
    ensures forall c :: c in UpdateJobPlan(startDate, r, now) ==> c.jobId == ReminderJobId(r.id)
    ensures forall c :: c in DeleteJobPlan(r.id) ==> c.jobId == ReminderJobId(r.id)
  {
  }

  /**
   * Creating a job for a reminder already due leaves every job as it was (an
   * existing job is not removed); for a reminder still to come it registers
   * `reminder-{id}` to run `ProcessReminderJob(id)` at the fire time's second,
   * minute, hour, day and month.
   */
  lemma CreateJobEffect(jobs: Jobs, startDate: nat, r: D.ReminderRow, now: nat)
    ensures ReminderTime(startDate, r) <= now ==> Apply(jobs, CreateJobPlan(startDate, r, now)) == jobs
    ensures ReminderTime(startDate, r) > now ==>
      Apply(jobs, CreateJobPlan(startDate, r, now))
        == jobs[ReminderJobId(r.id) := Job(ProcessReminderJob(r.id), DateCron(ReminderTime(startDate, r)))]
  {
  }

  /**
   * Updating the job of a reminder already due removes `reminder-{id}`; for a
   * reminder still to come it registers the job as creating does.
   */
  lemma UpdateJobEffect(jobs: Jobs, startDate: nat, r: D.ReminderRow, now: nat)
    ensures ReminderTime(startDate, r) <= now ==>
      Apply(jobs, UpdateJobPlan(startDate, r, now)) == jobs - {ReminderJobId(r.id)}
    ensures ReminderTime(startDate, r) > now ==>
      Apply(jobs, UpdateJobPlan(startDate, r, now)) == Apply(jobs, CreateJobPlan(startDate, r, now))
  {
  }

  /** Deleting removes only `reminder-{id}`, and deleting twice is deleting once. */
  lemma DeleteJobEffect(jobs: Jobs, reminderId: int)
    ensures Apply(jobs, DeleteJobPlan(reminderId)) == jobs - {ReminderJobId(reminderId)}
    ensures Apply(Apply(jobs, DeleteJobPlan(reminderId)), DeleteJobPlan(reminderId))
         == Apply(jobs, DeleteJobPlan(reminderId))
  {
    var once := Apply(jobs, DeleteJobPlan(reminderId));
    ApplyOne(jobs, RemoveIfExists(ReminderJobId(reminderId)));
    ApplyOne(once, RemoveIfExists(ReminderJobId(reminderId)));
  }

  class HangfireReminderJobHelper {
    const manager: RecurringJobManager
    const store: Store
    const notifications: NotificationStreamManager<D.NotificationResponseDto>

    constructor (manager: RecurringJobManager, store: Store,
                 notifications: NotificationStreamManager<D.NotificationResponseDto>)
      ensures this.manager == manager && this.store == store && this.notifications == notifications
    {
      this.manager := manager;
      this.store := store;
      this.notifications := notifications;
    }

    method CreateJobForReminder(op: D.Operation, r: D.Reminder, now: nat)
      modifies manager, manager.log
      ensures Trace(manager.jobs, manager.log.events)
           == Run(Trace(old(manager.jobs), old(manager.log.events)), CreateJobPlan(op.startDate, r.Row(), now))
    {
      var t := ReminderTime(op.startDate, r.Row());
      if t <= now {
        return;
      }
      manager.AddOrUpdate(ReminderJobId(r.id), Job(JobTarget.ProcessReminderJob(r.id), DateCron(t)));
    }

    method UpdateJobForReminder(op: D.Operation, r: D.Reminder, now: nat)
      modifies manager, manager.log
      ensures Trace(manager.jobs, manager.log.events)
           == Run(Trace(old(manager.jobs), old(manager.log.events)), UpdateJobPlan(op.startDate, r.Row(), now))
    {
      var t := ReminderTime(op.startDate, r.Row());
      if t <= now {
        DeleteJobForReminder(r);
        return;
      }
      manager.AddOrUpdate(ReminderJobId(r.id), Job(JobTarget.ProcessReminderJob(r.id), DateCron(t)));
    }

    method DeleteJobForReminder(r: D.Reminder)
      modifies manager, manager.log
      ensures Trace(manager.jobs, manager.log.events)
           == Run(Trace(old(manager.jobs), old(manager.log.events)), DeleteJobPlan(r.id))
    {
      manager.RemoveIfExists(ReminderJobId(r.id));
    }

    /**
     * `ProcessReminderJob`: loads the reminder with its operation, broadcasts
     * its message to the operation's owner and then removes its own job. A
     * missing reminder or operation is dereferenced and throws; a broadcast
     * that throws propagates before the job is removed.
     */
    method ProcessReminderJob(reminderId: int) returns (res: Result<Unit, Exception>)
      modifies manager, manager.log, notifications
      ensures var row := Find(store.db.reminders, ReminderId, reminderId);
        if row.None? || row.value.operationId !in store.db.operations then
          res == Fail(NullReferenceException)
          && manager.jobs == old(manager.jobs) && manager.log.events == old(manager.log.events)
          && notifications.streams == old(notifications.streams)
        else
          var n := D.NotificationResponseDto(store.db.operations[row.value.operationId].telegramUserId,
                                             row.value.messageTemplate);
          Delivered(old(notifications.streams), notifications.streams, n, res.Ok?)
          && (res.Fail? ==> res.error == StreamWriteException && manager.jobs == old(manager.jobs)
                            && manager.log.events == old(manager.log.events))
          && (res.Ok? ==> manager.jobs == Apply(old(manager.jobs), DeleteJobPlan(reminderId))
                          && manager.log.events == old(manager.log.events) + Calls(DeleteJobPlan(reminderId)))
    {
      var r := store.FindReminderWithOperation(reminderId);
      if r == null || r.operation == null {
        return Fail(NullReferenceException);
      }
      var n := D.NotificationResponseDto(r.operation.telegramUserId, r.messageTemplate);
      res := notifications.BroadcastNotification(n);
      if res.Fail? {
        return;
      }
      DeleteJobForReminder(r);
    }
  }
}
