/**
 * The vocabulary shared by the scheduler, the database and the services:
 * what a recurring job runs, the calls made on the recurring-job manager, and
 * a ghost journal of the externally visible effects (database writes and
 * scheduler calls) in the order they happen. The journal lets contracts state
 * that a write precedes the scheduler calls that follow it.
 */
module Journal {

  /** Which repository a write went to. */
  datatype Repository = Users | Operations | Reminders

  /** The callback a recurring job invokes when it fires. */
  datatype JobTarget =
    | ProcessOperationJob(operationId: int)
    | ProcessReminderJob(reminderId: int)

  /** A recurring job: its callback and its cron expression. */
  datatype Job = Job(target: JobTarget, cron: string)

  /** A call on `IRecurringJobManager`. */
  datatype JobCall =
    | AddOrUpdate(jobId: string, job: Job)
    | RemoveIfExists(jobId: string)

  /** An externally visible effect. */
  datatype Event =
    | Inserted(repository: Repository)
    | Updated(repository: Repository)
    | Deleted(repository: Repository)
    | Called(call: JobCall)

  /** The events of a sequence of scheduler calls, in order. */
  function Calls(plan: seq<JobCall>): (es: seq<Event>)
    ensures |es| == |plan|
  {
    seq(|plan|, i requires 0 <= i < |plan| => Called(plan[i]))
  }

  lemma CallsAppend(a: seq<JobCall>, b: seq<JobCall>)
    ensures Calls(a + b) == Calls(a) + Calls(b)
  {
  }

  /** The journal object that the database and the scheduler append to. */
  class Log {
    ghost var events: seq<Event>

    constructor ()
      ensures events == []
    {
      events := [];
    }
  }
}
