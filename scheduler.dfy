/**
 * The recurring-job store of Hangfire, reduced to what the job helpers use:
 * a map from job id to job, where `AddOrUpdate` inserts or replaces the entry
 * and `RemoveIfExists` deletes it (doing nothing for an unknown id).
 */
module Hangfire {
  import opened Journal
  import opened Text
  import opened Calendar

  type Jobs = map<string, Job>

  /** The effect of one call on the job map. */
  function Step(jobs: Jobs, call: JobCall): (r: Jobs)
    ensures call.AddOrUpdate? ==> call.jobId in r && r[call.jobId] == call.job
    ensures call.RemoveIfExists? ==> call.jobId !in r
    ensures forall id :: id != call.jobId ==> (id in r <==> id in jobs)
    ensures forall id :: id != call.jobId && id in r ==> r[id] == jobs[id]
  {
    match call
    case AddOrUpdate(id, job) => jobs[id := job]
    case RemoveIfExists(id) => jobs - {id}
  }

  /** The effect of a sequence of calls, applied in order. */
  function Apply(jobs: Jobs, plan: seq<JobCall>): Jobs
    decreases |plan|
  {
    if plan == [] then jobs else Apply(Step(jobs, plan[0]), plan[1..])
  }

  lemma ApplyOne(jobs: Jobs, call: JobCall)
    ensures Apply(jobs, [call]) == Step(jobs, call)
  {
    assert [call][1..] == [];
  }

  /** Running two sequences of calls one after the other is running their concatenation. */
  lemma {:induction false} ApplyAppend(jobs: Jobs, a: seq<JobCall>, b: seq<JobCall>)
    ensures Apply(jobs, a + b) == Apply(Apply(jobs, a), b)
    decreases |a|
  {
    if a != [] {
      assert (a + b)[0] == a[0];
      assert (a + b)[1..] == a[1..] + b;
      ApplyAppend(Step(jobs, a[0]), a[1..], b);
    } else {
      assert a + b == b;
    }
  }

  /** A sequence of calls none of which names `id` leaves the entry for `id` as it was. */
  lemma {:induction false} ApplyFrame(jobs: Jobs, plan: seq<JobCall>, id: string)
    requires forall i :: 0 <= i < |plan| ==> plan[i].jobId != id
    ensures id in Apply(jobs, plan) <==> id in jobs
    ensures id in jobs ==> Apply(jobs, plan)[id] == jobs[id]
    decreases |plan|
  {
    if plan != [] {
      ApplyFrame(Step(jobs, plan[0]), plan[1..], id);
    }
  }

  /** The job map together with the journal, as a sequence of calls leaves them. */
  datatype Trace = Trace(jobs: Jobs, events: seq<Event>)

  function Run(t: Trace, plan: seq<JobCall>): (r: Trace)
    ensures |r.events| == |t.events| + |plan|
  {
    Trace(Apply(t.jobs, plan), t.events + Calls(plan))
  }

  /** Running `a` and then `b` is running `a + b`. */
  lemma RunThen(t0: Trace, t1: Trace, t2: Trace, a: seq<JobCall>, b: seq<JobCall>)
    requires t1 == Run(t0, a) && t2 == Run(t1, b)
    ensures t2 == Run(t0, a + b)
  {
    ApplyAppend(t0.jobs, a, b);
    CallsAppend(a, b);
  }

  /** After an upsert of `id`, calls that do not name `id` keep that job registered as upserted. */
  lemma AddOrUpdateSurvives(jobs: Jobs, id: string, job: Job, rest: seq<JobCall>)
    requires forall i :: 0 <= i < |rest| ==> rest[i].jobId != id
    ensures id in Apply(jobs, [AddOrUpdate(id, job)] + rest)
    ensures Apply(jobs, [AddOrUpdate(id, job)] + rest)[id] == job
  {
    ApplyAppend(jobs, [AddOrUpdate(id, job)], rest);
    assert Apply(jobs, [AddOrUpdate(id, job)]) == jobs[id := job];
    ApplyFrame(jobs[id := job], rest, id);
  }

  /**
   * The six fields `"{s} {m} {H} {d} {M} *"` of an instant: the recurring
   * schedule that fires at its second, minute, hour, day and month, every year.
   */
  function DateCronFields(t: nat): (fs: seq<string>)
    ensures |fs| == 6 && forall i :: 0 <= i < 6 ==> IsField(fs[i], ' ')
  {
    var fs := [NatToString(Second(t)), NatToString(Minute(t)), NatToString(Hour(t)),
               NatToString(Day(t)), NatToString(Month(t)), "*"];
    forall i | 0 <= i < 5 ensures IsField(fs[i], ' ') {
      DigitsAreField(fs[i]);
    }
    fs
  }

  /** The cron expression of an instant, as the job helpers format it. */
  function DateCron(t: nat): string {
    Join(DateCronFields(t), ' ')
  }

  /** The expression splits back into its six fields, each a decimal number but the last. */
  lemma DateCronSplits(t: nat)
    ensures Split(DateCron(t), ' ') == DateCronFields(t)
    ensures Split(DateCron(t), ' ')[5] == "*"
    ensures forall i :: 0 <= i < 5 ==> AllDigits(Split(DateCron(t), ' ')[i])
  {
    SplitJoin(DateCronFields(t), ' ');
  }

  /** Two instants with the same cron expression agree on second, minute, hour, day and month. */
  lemma DateCronDetermines(t: nat, u: nat)
    requires DateCron(t) == DateCron(u)
    ensures Second(t) == Second(u) && Minute(t) == Minute(u) && Hour(t) == Hour(u)
    ensures Day(t) == Day(u) && Month(t) == Month(u)
  {
    DateCronSplits(t);
    DateCronSplits(u);
    NatToStringInjective(Second(t), Second(u));
    NatToStringInjective(Minute(t), Minute(u));
    NatToStringInjective(Hour(t), Hour(u));
    NatToStringInjective(Day(t), Day(u));
    NatToStringInjective(Month(t), Month(u));
  }

  /** `IRecurringJobManager`. */
  class RecurringJobManager {
    var jobs: Jobs
    ghost const log: Log

    constructor (ghost log: Log)
      ensures jobs == map[] && this.log == log
    {
      jobs := map[];
      this.log := log;
    }

    method AddOrUpdate(id: string, job: Job)
      modifies this, log
      ensures jobs == Apply(old(jobs), [JobCall.AddOrUpdate(id, job)])
      ensures log.events == old(log.events) + Calls([JobCall.AddOrUpdate(id, job)])
    {
      jobs := jobs[id := job];
      log.events := log.events + [Called(JobCall.AddOrUpdate(id, job))];
    }

    method RemoveIfExists(id: string)
      modifies this, log
      ensures jobs == Apply(old(jobs), [JobCall.RemoveIfExists(id)])
      ensures log.events == old(log.events) + Calls([JobCall.RemoveIfExists(id)])
    {
      jobs := jobs - {id};
      log.events := log.events + [Called(JobCall.RemoveIfExists(id))];
    }
  }
}
