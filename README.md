# Reglamentator backend — a Dafny model

Reglamentator is a Telegram scheduling backend. A Telegram user registers, then
creates *operations*: a theme, a description, a start date and an optional
recurrence (`TimeRange`: None, every 15 minutes, hourly, daily, weekly, monthly).
Each operation has a history of *operation instances*. The one without an
execution time is the pending instance (`NextOperationInstance`). An operation
can also carry *reminders*: a message template sent a fixed span before the
start date.

The backend keeps one Hangfire recurring job per operation (`operation-{id}`)
and one per reminder (`reminder-{id}`). The job of an operation:

- marks the pending instance executed;
- for a recurring operation, moves the start date to the cron schedule's next
  occurrence, opens a new pending instance and re-creates the jobs;
- for a one-off operation, removes the jobs.

A reminder's job broadcasts the template to the operation's owner over the
gRPC notification stream and then removes itself. The services refuse requests
from unknown users, for missing entities, for other users' operations and for
start dates in the past. The repository defines FluentValidation validators
for the gRPC requests, and the model states what each would report. The
running program does not apply them: `Program.cs` registers plain `AddGrpc()`,
never the validation interceptor or the validators, so the services receive
unvalidated requests.

The model is split into modules that follow the source:

| file | module | models |
|---|---|---|
| `wrappers.dfy` | `Wrappers`, `Errors` | Option/Result; the FluentResults errors and the exceptions |
| `journal.dfy` | `Journal` | job targets, scheduler calls, and a ghost journal of writes and scheduler calls in order |
| `calendar.dfy` | `Calendar` | `DateTime` ticks: date and time fields, `Date`, `DayOfWeek`, `AddMonths` |
| `text.dfy` | `Text` | decimal formatting, `string.Split` with `RemoveEmptyEntries`, `Contains` |
| `tables.dfy` | `Tables` | table rows: `SingleOrDefault` by key, `Where`, `OrderBy` |
| `entities.dfy` | `Domain` | `TimeRange`, the entities as classes updated in place, their rows, the DTOs |
| `database.dfy` | `Persistence` | the database context and repositories (`Store`) over a `Db` value of tables |
| `scheduler.dfy` | `Hangfire` | `IRecurringJobManager` as a job map; the date cron strings |
| `time_range.dfy` | `TimeRangeExt` | the cron and `TimeSpan` conversions of `TimeRange` |
| `stream_manager.dfy` | `Notifications` | `NotificationStreamManager` |
| `reminder_jobs.dfy` | `ReminderJobs` | `HangfireReminderJobHelper` |
| `operation_jobs.dfy` | `OperationJobs` | `HangfireOperationJobHelper` |
| `instance_queries.dfy` | `InstanceQueries` | `OperationInstanceRepository`'s planned and history queries |
| `user_service.dfy` | `UserServices` | `UserService` |
| `reminder_service.dfy` | `ReminderServices` | `ReminderService` |
| `operation_service.dfy` | `OperationServices` | `OperationService` |
| `validators.dfy` | `Validators` | the request validators |

## How the model is built

**Time and nullability**
- Instants are `DateTime` ticks (`nat`); spans are signed ticks (`int`).
- A C# `null` is `null` for an entity object and `None` for a string, a list
  navigation or a nullable date.
- A thrown exception is a `Fail` result carrying the exception.

**State**
- Entities the services mutate (`Operation`, `OperationInstance`, `Reminder`)
  are classes.
- The database is a `Db` value held by the `Store` class:
  - users are keyed by Telegram id;
  - operation rows are keyed by id;
  - instance and reminder rows are kept in table order;
  - each table has an identity counter, and an insert assigns its next value.
- `Consistent` is the table invariant: ids are unique, positive and no greater
  than the counter, and every key matches its row. Every writing method
  preserves it.

**Scheduler calls**
- Each job operation is specified by its *plan*: the sequence of
  `AddOrUpdate`/`RemoveIfExists` calls it makes.
- The methods' `ensures` say that the job map and the journal are what
  replaying the plan gives.
- Lemmas say what the plans do to the job map.

**Clocks and the cron library**
- Clock readings are parameters. A service call takes two: `now` for its
  past-date guard and `later` for everything after it. A job callback takes
  one, `now`. Readings that the source takes separately within those stages
  share one parameter; "## Left out" lists them.
- The cron schedule's next occurrence (`CrontabSchedule.GetNextOccurrence`)
  is a function parameter. The only assumption about it (`Advances`) is that
  the result lies after its base.

## Model

All source paths are under `Backend/`.

| member | source | states |
|---|---|---|
| Domain.Value | Backend/Reglamentator.Domain/Entities/TimeRange.cs:3-11 | the enum numbers of `TimeRange` lie in 0..5 |
| Domain.FromValue | Backend/Reglamentator.Domain/Entities/TimeRange.cs:3-11 | a number maps to a member exactly when it is defined (`IsInEnum`), and that member has that number |
| Domain.ValueRoundTrip | Backend/Reglamentator.Domain/Entities/TimeRange.cs:3-11 | every member maps to its number and back |
| Domain.OperationInstance.constructor | Backend/Reglamentator.Domain/Entities/OperationInstance.cs:8-30 | a new instance is unsaved (id 0), unexecuted and has no result |
| Domain.Reminder.constructor | Backend/Reglamentator.Domain/Entities/Reminder.cs:8-24 | a new reminder is unsaved and its operation navigation is not loaded |
| Domain.Operation.constructor | Backend/Reglamentator.Domain/Entities/Operation.cs:5-29 | a new operation is unsaved and carries the given fields and navigations; reminders are not loaded |
| Domain.InstanceRows | Backend/Reglamentator.Domain/Entities/OperationInstance.cs:8-30 | the stored rows of a list of instances, position by position |
| Domain.ReminderRows | Backend/Reglamentator.Domain/Entities/Reminder.cs:8-24 | the stored rows of a list of reminders, position by position |
| Domain.LoadedRows | Backend/Reglamentator.Domain/Entities/Operation.cs:27 | a reminders navigation has rows exactly when it is loaded |
| Domain.ReminderRowsAppend | Backend/Reglamentator.Domain/Entities/Operation.cs:27 | appending a reminder appends its row |
| Calendar.Decompose | Backend/Reglamentator.Application/Extensions/TimeRangeExt.cs:38-42 | an instant's fields are in range: month 1..12, day within the month's length, hour, minute, second and day of week in range, and the time of day never exceeds the ticks since midnight |
| Calendar.TimeOfDay | Backend/Reglamentator.Application/Helpers/HangfireOperationJobHelper.cs:96 | hour, minute and second are exactly the time since midnight, to the second |
| Calendar.Midnight | Backend/Reglamentator.Data/Repositories/OperationInstanceRepository.cs:36 | `Date` is a whole-day instant at or before the instant, less than a day before it |
| Calendar.MidnightIsDate | Backend/Reglamentator.Data/Repositories/OperationInstanceRepository.cs:36 | an instant's `Date` is the first tick of its year, month and day |
| Calendar.DateOfDateToTicks | Backend/Reglamentator.Data/Repositories/OperationInstanceRepository.cs:39-40 | the first tick of a date decomposes back into that date |
| Calendar.FirstOfMonth | Backend/Reglamentator.Data/Repositories/OperationInstanceRepository.cs:39 | going back `Day - 1` days from midnight reaches day 1 of the same month and year |
| Calendar.AddMonths | Backend/Reglamentator.Data/Repositories/OperationInstanceRepository.cs:40 | `AddMonths` fails only with `ArgumentOutOfRangeException` |
| Calendar.AddMonthFromFirst | Backend/Reglamentator.Data/Repositories/OperationInstanceRepository.cs:40 | one month after the first of a month is the first of the next month, except in the last month of year 9999 |
| Calendar.NextMonthStart | Backend/Reglamentator.Data/Repositories/OperationInstanceRepository.cs:40 | the next month starts one month's length of days after this one |
| Calendar.NextYearStart | Backend/Reglamentator.Data/Repositories/OperationInstanceRepository.cs:40 | January of the next year starts one December's length after December |
| Text.NatToStringInjective | Backend/Reglamentator.Application/Helpers/HangfireReminderJobHelper.cs:59 | different numbers print differently |
| Text.IntToStringInjective | Backend/Reglamentator.Application/Helpers/HangfireOperationJobHelper.cs:86 | different `long` values print differently, sign included |
| Text.Split | Backend/Reglamentator.Application/Extensions/TimeRangeExt.cs:75 | `Split(' ', RemoveEmptyEntries)` yields only non-empty fields free of the separator |
| Text.SplitJoin | Backend/Reglamentator.Application/Extensions/TimeRangeExt.cs:75 | splitting fields joined by single spaces gives the fields back |
| Text.DigitsContainNoSlash | Backend/Reglamentator.Application/Extensions/TimeRangeExt.cs:82-83 | a numeric field never contains "/15" |
| Tables.Find | Backend/Reglamentator.Data/Repositories/Repository.cs:35-39 | the row found has the key; none is found exactly when no row has it |
| Tables.FindUnique | Backend/Reglamentator.Data/Repositories/Repository.cs:35-39 | with unique keys, the lookup by a row's key returns that row |
| Tables.Filter | Backend/Reglamentator.Data/Repositories/OperationInstanceRepository.cs:45-50 | `Where` keeps exactly the rows satisfying the predicate, a sub-multiset of the table |
| Tables.SortBy | Backend/Reglamentator.Data/Repositories/OperationInstanceRepository.cs:51 | `OrderBy` gives a sorted permutation of the rows |
| Persistence.RemindersOf | Backend/Reglamentator.Domain/Interfaces/IOperationRepository.cs:36-37 | the included reminders are exactly the rows with that operation id |
| Persistence.EmptyIsConsistent | Backend/Reglamentator.Data/Repositories/Repository.cs:42-60 | the empty database meets the table invariant |
| Persistence.PutInstance | Backend/Reglamentator.Data/Repositories/Repository.cs:42-53 | saving an instance appends a new row or keeps the table's size, and touches no other table |
| Persistence.PutInstanceConsistent | Backend/Reglamentator.Data/Repositories/Repository.cs:42-53 | saving an instance keeps the invariant, and the row found under its id is the saved row |
| Persistence.Store.constructor | Backend/Reglamentator.Data/Repositories/Repository.cs:19 | a new context starts from empty tables |
| Persistence.Store.FindUser | Backend/Reglamentator.Data/Repositories/TelegramUserRepository.cs:24-26 | a user is found exactly when one with that Telegram id exists, and it has that Telegram id |
| Persistence.Store.InsertUser | Backend/Reglamentator.Data/Repositories/Repository.cs:42-46 | the user gets the next id; only the users table and its counter change; the invariant holds; one insert is journalled |
| Persistence.Store.LoadReminders | Backend/Reglamentator.Domain/Interfaces/IOperationRepository.cs:36-37 | fresh reminder objects whose rows are exactly the operation's reminders, in table order |
| Persistence.Store.FindOperation | Backend/Reglamentator.Data/Repositories/Repository.cs:35-39 | null exactly when the id is missing; otherwise a fresh object with the stored row and no navigations loaded |
| Persistence.Store.FindOperationWithReminders | Backend/Reglamentator.Domain/Interfaces/IOperationRepository.cs:36-37 | as `FindOperation`, with the reminders loaded |
| Persistence.Store.FindOperationWithDetails | Backend/Reglamentator.Domain/Interfaces/IOperationRepository.cs:24-25 | as `FindOperationWithReminders`, with the pending instance loaded exactly when it exists |
| Persistence.Store.InsertOperation | Backend/Reglamentator.Data/Repositories/Repository.cs:42-46 | the operation and then each history instance get the next ids; the instances point to the operation; the tables become `WithOperation`; the invariant holds |
| Persistence.Store.AssignIds | Backend/Reglamentator.Data/Repositories/Repository.cs:44 | the identity values: the operation's id, and consecutive ids for the instances, which point to the operation |
| Persistence.Store.SaveOperation | Backend/Reglamentator.Data/Repositories/Repository.cs:45 | writes the numbered operation and instance rows, keeping the invariant |
| Persistence.Store.NumberInstances | Backend/Reglamentator.Data/Repositories/Repository.cs:44 | each instance gets `first + i` as id and the operation's id |
| Persistence.Store.UpdateOperation | Backend/Reglamentator.Data/Repositories/Repository.cs:49-53 | the operation row is overwritten; its pending instance is inserted when new or overwritten; a tracked instance is written back; the invariant holds |
| Persistence.Store.DeleteOperation | Backend/Reglamentator.Data/Configurations/OperationInstanceEntityConfiguration.cs:19-22 | the operation row goes, and by cascade its instances and reminders; the invariant holds |
| Persistence.Store.FindReminder | Backend/Reglamentator.Data/Repositories/Repository.cs:35-39 | null exactly when no reminder has the id; otherwise a fresh object with that row |
| Persistence.Store.FindReminderWithOperation | Backend/Reglamentator.Domain/Interfaces/IReminderRepository.cs:20-21 | as `FindReminder`, with the operation loaded exactly when it exists |
| Persistence.Store.InsertReminder | Backend/Reglamentator.Data/Repositories/Repository.cs:42-46 | the reminder gets the next id and is appended; the invariant holds |
| Persistence.Store.UpdateReminder | Backend/Reglamentator.Data/Repositories/Repository.cs:49-53 | the reminder's row is replaced in place; the invariant holds |
| Persistence.Store.DeleteReminder | Backend/Reglamentator.Data/Repositories/Repository.cs:56-60 | only rows with the reminder's id are removed; the invariant holds |
| Persistence.Numbered | Backend/Reglamentator.Data/Repositories/Repository.cs:44 | the rows as an insert numbers them: consecutive ids, owned by the operation |
| Persistence.ReplaceOperationConsistent | Backend/Reglamentator.Data/Repositories/Repository.cs:49-53 | overwriting an operation row under its own id keeps the invariant |
| Persistence.PendingRow | Backend/Reglamentator.Data/Configurations/OperationEntityConfiguration.cs:33-36 | the pending instance is a stored row whose id the operation refers to |
| Persistence.WithOperation | Backend/Reglamentator.Data/Repositories/Repository.cs:42-46 | inserting adds the operation row under its id and keeps users and reminders |
| Persistence.WithOperationConsistent | Backend/Reglamentator.Data/Repositories/Repository.cs:42-46 | rows numbered from the identity counters keep the invariant |
| Persistence.InsertedRowsUnique | Backend/Reglamentator.Data/Repositories/Repository.cs:44 | freshly numbered instance rows never collide with stored ones |
| Hangfire.Step | Backend/Reglamentator.Application/Helpers/HangfireReminderJobHelper.cs:27-30 | `AddOrUpdate` sets the entry, `RemoveIfExists` removes it, every other id is untouched |
| Hangfire.ApplyAppend | Backend/Reglamentator.Application/Helpers/HangfireOperationJobHelper.cs:28-45 | running two call sequences in turn is running their concatenation |
| Hangfire.ApplyFrame | Backend/Reglamentator.Application/Helpers/HangfireOperationJobHelper.cs:28-45 | calls that never name an id leave its entry as it was |
| Hangfire.AddOrUpdateSurvives | Backend/Reglamentator.Application/Helpers/HangfireOperationJobHelper.cs:33-44 | an upserted job survives calls about other ids |
| Hangfire.DateCronSplits | Backend/Reglamentator.Application/Helpers/HangfireReminderJobHelper.cs:80-84 | the date cron string splits into its six fields: five numbers and "*" |
| Hangfire.DateCronDetermines | Backend/Reglamentator.Application/Helpers/HangfireOperationJobHelper.cs:93-97 | instants with the same cron string agree on second, minute, hour, day and month |
| Hangfire.RecurringJobManager.AddOrUpdate | Backend/Reglamentator.Application/Helpers/HangfireReminderJobHelper.cs:27-30 | the job map and the journal become those of the one upsert |
| Hangfire.RecurringJobManager.RemoveIfExists | Backend/Reglamentator.Application/Helpers/HangfireReminderJobHelper.cs:51 | the job map and the journal become those of the one removal |
| TimeRangeExt.ToCronExpression | Backend/Reglamentator.Application/Extensions/TimeRangeExt.cs:31-45 | null exactly for `None`; otherwise six fields joined by spaces that split back into those fields |
| TimeRangeExt.CronFieldValues | Backend/Reglamentator.Application/Extensions/TimeRangeExt.cs:35-44 | the fields come from the anchor's second, minute (Min15: an offset 0..14 followed by "/15"), hour, day and day of week |
| TimeRangeExt.Classify | Backend/Reglamentator.Application/Extensions/TimeRangeExt.cs:80-91 | throws `ArgumentException` exactly when the month field is not "*", or day and day-of-week are both set; otherwise never `None` |
| TimeRangeExt.ToTimeRange | Backend/Reglamentator.Application/Extensions/TimeRangeExt.cs:70-92 | `None` exactly for null or ""; throws exactly for a field count other than six or an unclassifiable field list |
| TimeRangeExt.CronRoundTrip | Backend/Reglamentator.Application/Extensions/TimeRangeExt.cs:31-92 | classifying the cron string of any granularity, at any anchor, gives it back |
| TimeRangeExt.FiveFieldCronThrows | Backend/Reglamentator.Application/Extensions/TimeRangeExt.cs:62 | the five-field "* * * * *" of the documentation throws rather than giving `None` |
| TimeRangeExt.ClassifyPrecedence | Backend/Reglamentator.Application/Extensions/TimeRangeExt.cs:82-85 | where the Min15 and Hour patterns both match, "/15" decides |
| TimeRangeExt.ToTimeSpan | Backend/Reglamentator.Application/Extensions/TimeRangeExt.cs:102-112 | non-negative, zero exactly for `None`, at most 30 days |
| TimeRangeExt.ToTimeSpanMonotone | Backend/Reglamentator.Application/Extensions/TimeRangeExt.cs:102-112 | a coarser granularity is a strictly longer span, and conversely |
| TimeRangeExt.TruncDiv | Backend/Reglamentator.Application/Extensions/TimeRangeExt.cs:132-134 | C# `long` division, truncating toward zero |
| TimeRangeExt.TruncRem | Backend/Reglamentator.Application/Extensions/TimeRangeExt.cs:132-134 | C# remainder: same sign as the dividend, smaller than the divisor |
| TimeRangeExt.SpanComponents | Backend/Reglamentator.Application/Extensions/TimeRangeExt.cs:132-134 | `Minutes` and `Hours` are within ±60 and ±24, non-negative for a non-negative span |
| TimeRangeExt.ClassifySpan | Backend/Reglamentator.Application/Extensions/TimeRangeExt.cs:134-141 | throws exactly for mixed components or minutes > 15, hours > 1, days > 30; `None` exactly for all zero |
| TimeRangeExt.SpanToTimeRange | Backend/Reglamentator.Application/Extensions/TimeRangeExt.cs:132-142 | throws exactly as `ClassifySpan` says on the span's components |
| TimeRangeExt.SpanRoundTrip | Backend/Reglamentator.Application/Extensions/TimeRangeExt.cs:102-142 | converting a granularity to its span and back gives it back |
| TimeRangeExt.SpanOf | Backend/Reglamentator.Application/Extensions/TimeRangeExt.cs:132-134 | a span built from minutes, hours and days has those components |
| TimeRangeExt.SecondsAreIgnored | Backend/Reglamentator.Application/Extensions/TimeRangeExt.cs:132-142 | a span under a minute is `None` |
| TimeRangeExt.MixedSpanThrows | Backend/Reglamentator.Application/Extensions/TimeRangeExt.cs:132-142 | one hour fifteen minutes throws |
| Notifications.Register | Backend/Reglamentator.Application/Managers/NotificationStreamManager.cs:14 | `TryAdd` adds a fresh id and keeps every entry; a taken id changes nothing |
| Notifications.Remove | Backend/Reglamentator.Application/Managers/NotificationStreamManager.cs:20 | `TryRemove` drops exactly that id |
| Notifications.RemoveUnknown | Backend/Reglamentator.Application/Managers/NotificationStreamManager.cs:18-21 | removing an unknown id is a no-op |
| Notifications.RegisterThenRemove | Backend/Reglamentator.Application/Managers/NotificationStreamManager.cs:11-21 | registering under a fresh id and removing it restores the registry |
| Notifications.NotificationStreamManager.RegisterConsumer | Backend/Reglamentator.Application/Managers/NotificationStreamManager.cs:11-16 | returns the new id, under which the stream is registered |
| Notifications.NotificationStreamManager.RemoveConsumer | Backend/Reglamentator.Application/Managers/NotificationStreamManager.cs:18-21 | the registry loses that id |
| Notifications.NotificationStreamManager.BroadcastNotification | Backend/Reglamentator.Application/Managers/NotificationStreamManager.cs:23-29 | the notification reaches every stream, or a write throws and the broadcast stops there |
| ReminderJobs.ReminderJobId | Backend/Reglamentator.Application/Helpers/HangfireReminderJobHelper.cs:59 | "reminder-" followed by the id |
| ReminderJobs.ReminderJobIdInjective | Backend/Reglamentator.Application/Helpers/HangfireReminderJobHelper.cs:59 | distinct reminders have distinct job ids |
| ReminderJobs.PlansTouchOnlyTheirJob | Backend/Reglamentator.Application/Helpers/HangfireReminderJobHelper.cs:22-52 | every call of a reminder's plans is about its own job |
| ReminderJobs.CreateJobEffect | Backend/Reglamentator.Application/Helpers/HangfireReminderJobHelper.cs:22-31 | a reminder already due changes nothing; otherwise its job runs `ProcessReminderJob` at the date cron of start minus offset |
| ReminderJobs.UpdateJobEffect | Backend/Reglamentator.Application/Helpers/HangfireReminderJobHelper.cs:34-46 | a reminder already due loses its job; otherwise as creating |
| ReminderJobs.DeleteJobEffect | Backend/Reglamentator.Application/Helpers/HangfireReminderJobHelper.cs:49-52 | removes exactly the reminder's job; idempotent |
| ReminderJobs.HangfireReminderJobHelper.constructor | Backend/Reglamentator.Application/Helpers/HangfireReminderJobHelper.cs:16-19 | the helper's collaborators |
| ReminderJobs.HangfireReminderJobHelper.CreateJobForReminder | Backend/Reglamentator.Application/Helpers/HangfireReminderJobHelper.cs:22-31 | jobs and journal are those of the create plan |
| ReminderJobs.HangfireReminderJobHelper.UpdateJobForReminder | Backend/Reglamentator.Application/Helpers/HangfireReminderJobHelper.cs:34-46 | jobs and journal are those of the update plan |
| ReminderJobs.HangfireReminderJobHelper.DeleteJobForReminder | Backend/Reglamentator.Application/Helpers/HangfireReminderJobHelper.cs:49-52 | jobs and journal are those of the delete plan |
| ReminderJobs.HangfireReminderJobHelper.ProcessReminderJob | Backend/Reglamentator.Application/Helpers/HangfireReminderJobHelper.cs:93-107 | a missing reminder or operation throws a null dereference with nothing changed; otherwise the owner is notified with the template, and if the broadcast succeeds the job is removed; on a failure neither the jobs nor the journal change |
| OperationJobs.OperationJobId | Backend/Reglamentator.Application/Helpers/HangfireOperationJobHelper.cs:86 | "operation-" followed by the id |
| OperationJobs.OperationJobIdInjective | Backend/Reglamentator.Application/Helpers/HangfireOperationJobHelper.cs:86 | distinct operations have distinct job ids |
| OperationJobs.JobIdsDisjoint | Backend/Reglamentator.Application/Helpers/HangfireOperationJobHelper.cs:86 | an operation's job id is never a reminder's |
| OperationJobs.RemindersPlansTouchOnlyReminders | Backend/Reglamentator.Application/Helpers/HangfireOperationJobHelper.cs:39-44 | the reminders' plans name only reminder jobs |
| OperationJobs.RemindersPlansSpareOperation | Backend/Reglamentator.Application/Helpers/HangfireOperationJobHelper.cs:39-44 | no reminder call names the operation's job |
| OperationJobs.NoNextNoJobs | Backend/Reglamentator.Application/Helpers/HangfireOperationJobHelper.cs:30-31 | without a pending instance, creating and updating the jobs change nothing |
| OperationJobs.OperationJobRegistered | Backend/Reglamentator.Application/Helpers/HangfireOperationJobHelper.cs:28-65 | with a pending instance, the operation's job runs `ProcessOperationJob` at the start date's cron |
| OperationJobs.DeleteRemindersEffect | Backend/Reglamentator.Application/Helpers/HangfireOperationJobHelper.cs:73-78 | removing the reminders' jobs removes exactly their ids |
| OperationJobs.DeleteJobsEffect | Backend/Reglamentator.Application/Helpers/HangfireOperationJobHelper.cs:68-79 | deleting removes the operation's job and, when loaded, its reminders' jobs, and nothing else |
| OperationJobs.DeleteJobsIdempotent | Backend/Reglamentator.Application/Helpers/HangfireOperationJobHelper.cs:68-79 | deleting twice is deleting once |
| OperationJobs.CronSaved | Backend/Reglamentator.Application/Helpers/HangfireOperationJobHelper.cs:155-177 | the recurring save of a processed job leaves the tables `ProcessedDb` describes |
| OperationJobs.OneOffSaved | Backend/Reglamentator.Application/Helpers/HangfireOperationJobHelper.cs:155-177 | the one-off save of a processed job leaves the tables `ProcessedDb` describes |
| OperationJobs.ProcessPlanCron | Backend/Reglamentator.Application/Helpers/HangfireOperationJobHelper.cs:166-170 | a recurring job's calls are `ProcessPlan` |
| OperationJobs.ProcessPlanOneOff | Backend/Reglamentator.Application/Helpers/HangfireOperationJobHelper.cs:171-174 | a one-off job's calls are `ProcessPlan` |
| OperationJobs.PendingRowStored | Backend/Reglamentator.Data/Configurations/OperationEntityConfiguration.cs:33-36 | the pending instance is stored under the id the operation refers to |
| OperationJobs.HangfireOperationJobHelper.constructor | Backend/Reglamentator.Application/Helpers/HangfireOperationJobHelper.cs:21-26 | the helper's collaborators |
| OperationJobs.HangfireOperationJobHelper.CreateJobsForOperation | Backend/Reglamentator.Application/Helpers/HangfireOperationJobHelper.cs:28-45 | jobs and journal are those of the create plan |
| OperationJobs.HangfireOperationJobHelper.CreateReminderJobs | Backend/Reglamentator.Application/Helpers/HangfireOperationJobHelper.cs:39-44 | the loop over the loaded reminders replays their create plans in list order |
| OperationJobs.HangfireOperationJobHelper.UpdateJobsForOperation | Backend/Reglamentator.Application/Helpers/HangfireOperationJobHelper.cs:48-65 | jobs and journal are those of the update plan |
| OperationJobs.HangfireOperationJobHelper.UpdateReminderJobs | Backend/Reglamentator.Application/Helpers/HangfireOperationJobHelper.cs:59-64 | the loop replays the reminders' update plans in list order |
| OperationJobs.HangfireOperationJobHelper.DeleteJobsForOperation | Backend/Reglamentator.Application/Helpers/HangfireOperationJobHelper.cs:68-79 | jobs and journal are those of the delete plan |
| OperationJobs.HangfireOperationJobHelper.DeleteReminderJobs | Backend/Reglamentator.Application/Helpers/HangfireOperationJobHelper.cs:73-78 | the loop replays the reminders' removals in list order |
| OperationJobs.HangfireOperationJobHelper.ProcessPastOperation | Backend/Reglamentator.Application/Helpers/HangfireOperationJobHelper.cs:103-107 | the instance is executed at `now` with result "Done" |
| OperationJobs.ProcessedAdvances | Backend/Reglamentator.Application/Helpers/HangfireOperationJobHelper.cs:117-146 | after its job, a recurring operation starts strictly later and has a new pending instance; a one-off operation keeps its date and has none |
| OperationJobs.HangfireOperationJobHelper.ProcessCronOperationCreation | Backend/Reglamentator.Application/Helpers/HangfireOperationJobHelper.cs:117-146 | the start date becomes the next occurrence after the old start date; a fresh instance scheduled at `now` is pending |
| OperationJobs.HangfireOperationJobHelper.ProcessOperationJob | Backend/Reglamentator.Application/Helpers/HangfireOperationJobHelper.cs:155-177 | fails exactly for a missing operation or pending instance, changing nothing; otherwise the tables become `ProcessedDb` and the jobs `ProcessPlan`; the invariant holds |
| OperationJobs.HangfireOperationJobHelper.Complete | Backend/Reglamentator.Application/Helpers/HangfireOperationJobHelper.cs:162-176 | the tables become `ProcessedDb` and the jobs `ProcessPlan` |
| OperationJobs.HangfireOperationJobHelper.Reschedule | Backend/Reglamentator.Application/Helpers/HangfireOperationJobHelper.cs:164-174 | the pending instance is closed; recurring: next occurrence, new instance, jobs re-created; one-off: jobs removed |
| OperationJobs.HangfireOperationJobHelper.FinishPending | Backend/Reglamentator.Application/Helpers/HangfireOperationJobHelper.cs:164-165 | the pending instance is marked done and detached |
| OperationJobs.HangfireOperationJobHelper.RescheduleCron | Backend/Reglamentator.Application/Helpers/HangfireOperationJobHelper.cs:166-170 | the recurring branch |
| OperationJobs.HangfireOperationJobHelper.RescheduleOneOff | Backend/Reglamentator.Application/Helpers/HangfireOperationJobHelper.cs:171-174 | the one-off branch |
| InstanceQueries.AddDays | Backend/Reglamentator.Data/Repositories/OperationInstanceRepository.cs:36-40 | `AddDays` adds whole days or throws `ArgumentOutOfRangeException` |
| InstanceQueries.PlanWindow | Backend/Reglamentator.Data/Repositories/OperationInstanceRepository.cs:34-42 | the window fails only with `ArgumentOutOfRangeException` |
| InstanceQueries.OtherRangesThrow | Backend/Reglamentator.Data/Repositories/OperationInstanceRepository.cs:41 | None, Min15 and Hour throw |
| InstanceQueries.DayWindow | Backend/Reglamentator.Data/Repositories/OperationInstanceRepository.cs:36 | the Day window is today, from midnight to the last tick, and contains now |
| InstanceQueries.WeekWindow | Backend/Reglamentator.Data/Repositories/OperationInstanceRepository.cs:37-38 | the Week window starts at midnight on Sunday, contains now and is seven days long |
| InstanceQueries.MonthStartInRange | Backend/Reglamentator.Data/Repositories/OperationInstanceRepository.cs:39 | going back to the first of the month never leaves the date range |
| InstanceQueries.MonthWindow | Backend/Reglamentator.Data/Repositories/OperationInstanceRepository.cs:39-40 | the Month window is the current calendar month and contains now |
| InstanceQueries.FirstOfMonthTicks | Backend/Reglamentator.Data/Repositories/OperationInstanceRepository.cs:39 | `Date.AddDays(1 - Day)` is the first of the month |
| InstanceQueries.YearAtMost | Backend/Reglamentator.Data/Repositories/OperationInstanceRepository.cs:40 | no `DateTime` lies beyond year 9999 |
| InstanceQueries.Planned | Backend/Reglamentator.Data/Repositories/OperationInstanceRepository.cs:28-55 | fails exactly when the range has no window |
| InstanceQueries.PlannedSelects | Backend/Reglamentator.Data/Repositories/OperationInstanceRepository.cs:44-52 | exactly the caller's pending instances whose operation starts in the window, as a multiset, sorted by start date |
| InstanceQueries.HistorySelects | Backend/Reglamentator.Data/Repositories/OperationInstanceRepository.cs:17-25 | exactly the caller's executed instances, as a multiset, sorted by execution time |
| InstanceQueries.PlannedAndHistoryDisjoint | Backend/Reglamentator.Data/Repositories/OperationInstanceRepository.cs:17-55 | no instance is both planned and in the history |
| UserServices.Registered | Backend/Reglamentator.Application/Services/UserService.cs:22-48 | registering keeps the invariant, maps the Telegram id to the returned user, changes nothing else, and registering again is a no-op |
| UserServices.RegisteredIdIsNew | Backend/Reglamentator.Application/Services/UserService.cs:33-34 | a new user's id exceeds every existing id |
| UserServices.UserService.CreateUserAsync | Backend/Reglamentator.Application/Services/UserService.cs:22-37 | returns the existing or the newly inserted user; inserts exactly when the Telegram id is unknown |
| ReminderServices.OperationAccess | Backend/Reglamentator.Application/Services/ReminderService.cs:37-47 | granted exactly when the user and the operation exist and the operation is the caller's, with the errors in check order |
| ReminderServices.ReminderAccess | Backend/Reglamentator.Application/Services/ReminderService.cs:64-80 | a granted reminder is the one stored under the id |
| ReminderServices.ReminderAccessGranted | Backend/Reglamentator.Application/Services/ReminderService.cs:64-80 | granted exactly when the user exists, owns the operation, and the reminder belongs to it |
| ReminderServices.AccessErrorsAgree | Backend/Reglamentator.Application/Services/ReminderService.cs:37-44 | both check orders report a missing user and a missing operation alike |
| ReminderServices.AddedReminder | Backend/Reglamentator.Application/Services/ReminderService.cs:49-50 | the new reminder is found under a fresh id; other ids are unchanged; only its operation's reminders grow |
| ReminderServices.EditedReminder | Backend/Reglamentator.Application/Services/ReminderService.cs:82-83 | the reminder takes the message and offset; other ids are unchanged; editing is idempotent |
| ReminderServices.EditTouchesOnlyGranted | Backend/Reglamentator.Application/Services/ReminderService.cs:79-83 | only the granted reminder's row changes |
| ReminderServices.RemovedReminder | Backend/Reglamentator.Application/Services/ReminderService.cs:115 | the id disappears, every other reminder stays, deleting again is a no-op |
| ReminderServices.RemoveTouchesOnlyGranted | Backend/Reglamentator.Application/Services/ReminderService.cs:112-115 | only the granted reminder is removed |
| ReminderServices.ReminderService.constructor | Backend/Reglamentator.Application/Services/ReminderService.cs:23-28 | the service's collaborators |
| ReminderServices.ReminderService.AddReminderAsync | Backend/Reglamentator.Application/Services/ReminderService.cs:31-55 | refusals change nothing; otherwise the reminder is inserted and then its job created, in that order |
| ReminderServices.ReminderService.UpdateReminderAsync | Backend/Reglamentator.Application/Services/ReminderService.cs:58-88 | refusals change nothing; otherwise the row is edited and saved and then its job updated |
| ReminderServices.ReminderService.Edit | Backend/Reglamentator.Application/Services/ReminderService.cs:82-85 | the edit, the save and the job update |
| ReminderServices.ReminderService.DeleteReminderAsync | Backend/Reglamentator.Application/Services/ReminderService.cs:91-120 | refusals change nothing; otherwise the reminder is deleted and then its job removed |
| OperationServices.NewDraft | Backend/Reglamentator.Application/Services/OperationService.cs:160-191 | one pending instance at `now` if the date has not passed; otherwise a closed instance and, if recurring, a next occurrence with a pending one |
| OperationServices.DraftIsAhead | Backend/Reglamentator.Application/Services/OperationService.cs:160-191 | the draft's pending instance is due no earlier than `now` |
| OperationServices.SavedIsCreated | Backend/Reglamentator.Application/Services/OperationService.cs:91-92 | saving the numbered draft gives `CreatedDb` |
| OperationServices.CreatedKeepsOthers | Backend/Reglamentator.Application/Services/OperationService.cs:91-92 | creating keeps the invariant and adds one operation owned by the caller, changing nothing else |
| OperationServices.CreatedPending | Backend/Reglamentator.Application/Services/OperationService.cs:160-191 | the stored pending instance is unexecuted, scheduled at `now` and owned by the new operation |
| OperationServices.CreatedJobs | Backend/Reglamentator.Application/Services/OperationService.cs:94 | the new job is registered exactly when there is a pending instance |
| OperationServices.UpdatedInstancesConsistent | Backend/Reglamentator.Application/Services/OperationService.cs:198-244 | the update's instance writes keep the invariant |
| OperationServices.UpdatedKeepsOthers | Backend/Reglamentator.Application/Services/OperationService.cs:198-217 | the update changes only that operation, takes the DTO's fields and the edited start date |
| OperationServices.UpdatedIsAhead | Backend/Reglamentator.Application/Services/OperationService.cs:198-217 | after an update, a pending instance is due no earlier than `now` |
| OperationServices.UpdatedJobs | Backend/Reglamentator.Application/Services/OperationService.cs:121-124 | the job is re-registered at the new start date when there is a pending instance, and left alone otherwise |
| OperationServices.DeletedCascades | Backend/Reglamentator.Application/Services/OperationService.cs:147 | deleting removes the operation, its instances and reminders, and nothing else |
| OperationServices.DeleteKeepsReminderJobs | Backend/Reglamentator.Application/Services/OperationService.cs:137-150 | deleting an operation removes only its job; reminder jobs stay |
| OperationServices.OperationService.constructor | Backend/Reglamentator.Application/Services/OperationService.cs:24-30 | the service's collaborators |
| OperationServices.OperationService.CreateNewOperation | Backend/Reglamentator.Application/Services/OperationService.cs:160-191 | builds exactly the operation and history `NewDraft` describes |
| OperationServices.OperationService.ProcessPastOperation | Backend/Reglamentator.Application/Services/OperationService.cs:224-244 | the instance, if any, is closed at the start date with "Done" |
| OperationServices.OperationService.ProcessCronOperationCreation | Backend/Reglamentator.Application/Services/OperationService.cs:250-264 | the start date becomes the next occurrence after `now`, and a new pending instance ends the history |
| OperationServices.OperationService.CreateOperationAsync | Backend/Reglamentator.Application/Services/OperationService.cs:79-97 | an unknown user or a past date is refused with nothing changed; otherwise the tables become `CreatedDb` and the jobs `CreatePlan`, and the returned operation is the caller's new row under the next identity id |
| OperationServices.OperationService.Create | Backend/Reglamentator.Application/Services/OperationService.cs:91-96 | the built operation is inserted, leaving `CreatedDb`, then its jobs become `CreatePlan`; the operation is the caller's new row |
| OperationServices.OperationService.Insert | Backend/Reglamentator.Application/Services/OperationService.cs:92 | the insert leaves `CreatedDb` |
| OperationServices.OperationService.UpdateOperation | Backend/Reglamentator.Application/Services/OperationService.cs:198-217 | takes the DTO's fields; on a passed date closes and detaches the pending instance and, if recurring, opens a new one |
| OperationServices.OperationService.ProcessCronOperationUpdate | Backend/Reglamentator.Application/Services/OperationService.cs:270-284 | the next occurrence after `now` and a new pending instance of the operation |
| OperationServices.OperationService.UpdateOperationAsync | Backend/Reglamentator.Application/Services/OperationService.cs:100-127 | four refusals, in order, change nothing; otherwise the tables become `UpdatedDb` and the jobs `UpdatePlan`, and the returned operation is the caller's, with exactly the row now stored |
| OperationServices.OperationService.Edit | Backend/Reglamentator.Application/Services/OperationService.cs:121-124 | the edit, the save and the job update; the operation keeps its owner and its row is the one stored |
| OperationServices.OperationService.UpdateJobs | Backend/Reglamentator.Application/Services/OperationService.cs:124 | the jobs become `UpdatePlan` |
| OperationServices.OperationService.Change | Backend/Reglamentator.Application/Services/OperationService.cs:121-122 | the edit and save leave `UpdatedDb` |
| OperationServices.OperationService.ChangeUpcoming | Backend/Reglamentator.Application/Services/OperationService.cs:198-217 | as `Change`, for a start date not passed |
| OperationServices.OperationService.ChangePassedOnce | Backend/Reglamentator.Application/Services/OperationService.cs:198-244 | as `Change`, for a passed one-off operation |
| OperationServices.OperationService.ChangePassedRecurring | Backend/Reglamentator.Application/Services/OperationService.cs:198-284 | as `Change`, for a passed recurring operation |
| OperationServices.OperationService.DeleteOperationAsync | Backend/Reglamentator.Application/Services/OperationService.cs:130-152 | refusals, in order, change nothing; otherwise the tables become `DeletedDb` and only the operation's job is removed, and the returned operation is the caller's deleted row |
| OperationServices.OperationService.GetOperationAsync | Backend/Reglamentator.Application/Services/OperationService.cs:61-76 | the three refusals in order; otherwise the caller's operation with its reminders |
| OperationServices.OperationService.GetPlanedOperationsAsync | Backend/Reglamentator.Application/Services/OperationService.cs:32-44 | an unknown user is refused; a range without a window throws; otherwise the caller's pending instances starting in the window, each as often as in the table, ordered by start date |
| OperationServices.OperationService.GetOperationHistoryAsync | Backend/Reglamentator.Application/Services/OperationService.cs:47-58 | an unknown user is refused; otherwise the caller's executed instances, each as often as in the table, ordered by execution instant |
| Validators.Utf16Length | Backend/Reglamentator.WebAPI/Validators/CreateReminderDtoValidator.cs:12 | `string.Length` counts UTF-16 code units: between one and two per character, one each exactly in the Basic Multilingual Plane |
| Validators.Rule | Backend/Reglamentator.WebAPI/Validators/CreateReminderDtoValidator.cs:9-13 | a rule reports its message exactly when it is broken |
| Validators.OperationFieldErrors | Backend/Reglamentator.WebAPI/Validators/CreateOperationDtoValidator.cs:9-23 | each field message appears exactly when its rule is broken |
| Validators.CreateOperationDtoErrors | Backend/Reglamentator.WebAPI/Validators/CreateOperationDtoValidator.cs:9-23 | valid exactly when theme and description are non-blank within 200 and 2000 units and a start date is given |
| Validators.UpdateOperationDtoErrors | Backend/Reglamentator.WebAPI/Validators/UpdateOperationDtoValidator.cs:9-27 | valid exactly when the id is positive and the create rules pass |
| Validators.CreateReminderDtoErrors | Backend/Reglamentator.WebAPI/Validators/CreateReminderDtoValidator.cs:9-13 | valid exactly when the template is non-blank within 1000 units |
| Validators.UpdateReminderDtoErrors | Backend/Reglamentator.WebAPI/Validators/UpdateReminderDtoValidator.cs:9-19 | valid exactly when the id and offset are positive and the template is non-blank; no length bound |
| Validators.BoundedUpdateReminderDtoErrors | Backend/Reglamentator.WebAPI/Validators/CreateReminderDtoValidator.cs:9-13 | the update rules plus the creation's 1000-unit bound |
| Validators.AddReminderRequestErrors | Backend/Reglamentator.WebAPI/Validators/AddReminderRequestValidator.cs:9-20 | valid exactly when both ids are positive and the nested reminder is present and valid |
| Validators.UpdateReminderRequestErrors | Backend/Reglamentator.WebAPI/Validators/UpdateReminderRequestValidator.cs:9-20 | positive ids and a non-null reminder that passes `UpdateReminderDtoValidator` as written; a null reminder is reported |
| Validators.BoundedUpdateReminderRequestErrors | Backend/Reglamentator.WebAPI/Validators/UpdateReminderRequestValidator.cs:17-20 | the request rule nesting the corrected template bound: an admitted template fits its column, and it admits nothing the as-written rule refuses |
| Validators.DeleteReminderRequestErrors | Backend/Reglamentator.WebAPI/Validators/DeleteReminderRequestValidator.cs:9-19 | valid exactly when all three ids are positive |
| Validators.CreateOperationRequestErrors | Backend/Reglamentator.WebAPI/Validators/CreateOperationRequestValidator.cs:10-17 | valid exactly when the id is positive and the nested DTO is present and valid |
| Validators.UpdateOperationRequestErrors | Backend/Reglamentator.WebAPI/Validators/UpdateOperationRequestValidator.cs:10-17 | as creating, with the update DTO rules |
| Validators.DeleteOperationRequestErrors | Backend/Reglamentator.WebAPI/Validators/DeleteOperationRequestValidator.cs:9-15 | valid exactly when both ids are positive; each message exactly when its id is not |
| Validators.PlanedOperationsRequestErrors | Backend/Reglamentator.WebAPI/Validators/PlanedOperationsRequestValidator.cs:9-15 | valid exactly when the id is positive and the range is a defined enum number |
| Validators.NullNestedReportsOnlyNull | Backend/Reglamentator.WebAPI/Validators/AddReminderRequestValidator.cs:9-20 | a null nested message yields its null message and no nested one |
| Validators.AllMessagesInOrder | Backend/Reglamentator.WebAPI/Validators/DeleteReminderRequestValidator.cs:9-19 | an example: a request breaking every id rule, and a DTO with empty texts and no date, report each rule's message in declaration order |
| Validators.MessagesInDeclarationOrder | Backend/Reglamentator.WebAPI/Validators/UpdateReminderRequestValidator.cs:9-20 | for every request of every validator, the messages come in strictly increasing declaration order, the nested validator's after the request's own, none twice |
| Validators.BlankIsEmpty | Backend/Reglamentator.WebAPI/Validators/CreateReminderDtoValidator.cs:10 | white space alone fails `NotEmpty` |
| Validators.Utf16LengthOfCopies | Backend/Reglamentator.WebAPI/Validators/CreateReminderDtoValidator.cs:12 | `n` copies of a character have `n` times its code units |
| Validators.LengthCountsCodeUnits | Backend/Reglamentator.WebAPI/Validators/CreateReminderDtoValidator.cs:12 | an example: 600 emoji exceed the 1000-unit bound |
| Validators.AdmittedTextFitsColumns | Backend/Reglamentator.Data/Configurations/OperationEntityConfiguration.cs:13-19 | text the creation validators admit fits the 200, 2000 and 1000 character columns |
| Validators.UpdateAdmitsOverlongTemplate | Backend/Reglamentator.WebAPI/Validators/UpdateReminderDtoValidator.cs:13-15 | a 1001-letter template passes the DTO and request validators as written although the column holds 1000; the bounded request rule reports it as too long |
| Validators.BoundedUpdateFitsColumn | Backend/Reglamentator.Data/Configurations/ReminderEntityConfiguration.cs:13-15 | with the bound, every admitted template fits the column |
| Validators.AdmittedRangeMayHaveNoWindow | Backend/Reglamentator.WebAPI/Validators/PlanedOperationsRequestValidator.cs:13-14 | None, Min15 and Hour pass validation but the planned query throws for them |

## Where the model follows the code rather than the documentation

**Entities and DTOs**
- `Operation.cs:5-29` declares no `NextOperationInstance`. The model still
  follows the services and `OperationEntityConfiguration.cs:33-36`, which use
  it as the pending instance.
- `CreateOperationDto.cs:8` types `Cron` as `string?`, but
  `OperationService.cs:174` converts it as a `TimeRange`. The model's DTO holds
  a `TimeRange`.
- `UpdateReminderDto.cs:7` declares `OffsetMinutes`, but
  `ReminderService.cs:144` reads `OffsetBeforeExecution`. The model uses the
  granularity the service converts.

**Cron strings and time windows**
- The doc comment of `ToTimeRange` (`TimeRangeExt.cs:62`) maps a five-field
  "* * * * *" to `None`. The code throws for it (`FiveFieldCronThrows`).
- The Week window starts on Sunday, because `DayOfWeek` counts from Sunday.

**Error paths**
- A missing entity in a job callback is dereferenced and throws. The model
  gives `Fail(NullReferenceException)` with nothing changed.
- `DeleteOperationAsync` loads the operation without its reminders, so their
  jobs stay registered (`DeleteKeepsReminderJobs`).
- An update that moves a one-off operation into the past leaves its
  operation job as it was (`UpdatedJobs`).
- The past-date branch of `UpdateOperation` is reachable only through the two
  clock readings. The guard in `UpdateOperationAsync` reads `now`; the edit
  reads a later time `later`.

## Left out

**Runtime and infrastructure**
- Asynchrony, cancellation tokens, dependency-injection scopes and concurrent
  access to the stream registry. Calls are modelled as sequential.
- The gRPC services, the AutoMapper profiles and the bots, which only
  translate messages.
- The `ValidationInterceptor`, because it is not registered in the pipeline.
- The single-rule validators (`CreateUserRequestValidator`,
  `OperationHistoryRequestValidator`).

**Parameters instead of sources**
- Clock readings (`DateTime.UtcNow`) are parameters, and several readings
  within one call share one parameter. The source reads the clock anew at
  each of these places, so its readings can differ by the time that passes
  between them:
  - `later` stands for the reading in `CreateNewOperation`
    (`OperationService.cs:162`), in `UpdateOperation` (`:200`), in
    `ProcessCronOperationCreation` (`:252`), in `ProcessCronOperationUpdate`
    (`:272`, `:296`) and in each reminder's due check during the job update
    (`HangfireReminderJobHelper.cs:24`, `:36`);
  - in the job callback, `now` stands for the reading that closes the pending
    instance (`HangfireOperationJobHelper.cs:105`), the one that schedules the
    new instance (`:119`) and each reminder's due check (`HangfireReminderJobHelper.cs:24`).

  So `ProcessedDb` gives the closed instance's `ExecutedAt` and the new
  instance's `ScheduledAt` the same value, which the source does not
  guarantee. And a reminder that falls due between two readings is upserted
  by `UpdatePlan`, where the source removes its job.
- TimeRangeExt.ToCronExpression: an enum number outside the declared members
  throws `ArgumentOutOfRangeException` (`TimeRangeExt.cs:44`). The model's
  `TimeRange` has only the six declared members, so that path is not
  represented. It is reachable in the source: the validators are not applied
  and the mapping passes the wire number through
  (`OperationService.cs:174`, `:204`).
- TimeRangeExt.ToTimeSpan: likewise, an undeclared enum number throws
  `ArgumentOutOfRangeException` (`TimeRangeExt.cs:111`). The model's
  `TimeRange` cannot hold one, so the reminder paths that convert the offset
  (`ReminderService.cs:132`, `:144`) are modelled for declared members only.
- `Guid.NewGuid` in `RegisterConsumer` is a parameter.
- A stream is a value that records the notifications written to it and
  whether its client is still connected. A write to a disconnected stream
  throws.
- `CrontabSchedule.GetNextOccurrence` is a parameter. Only `Advances` (the
  occurrence lies after its base) is assumed about it.
- The date cron strings fire every year at that date. The model records the
  string and does not model Hangfire re-firing it.

**Database behaviour**
- Entity Framework change tracking is reduced to the writes the services
  perform. `UpdateOperation` writes the operation, its pending instance and one
  tracked instance.
- The order of rows with equal keys under SQL `ORDER BY` is unspecified. The
  model proves sortedness and a permutation, not a particular tie order.
- ReminderJobs.ReminderTime: the subtraction `StartDate - OffsetBeforeExecution`
  is kept as an unbounded difference. Below `DateTime.MinValue` (a start date
  within the offset of 0001-01-01) .NET throws `ArgumentOutOfRangeException`.
  The model instead treats that instant as already due: `CreateJobPlan` then
  schedules nothing and `UpdateJobPlan` removes the job. Carrying the throw
  would make every job plan a result. It could only arise for start dates in
  the first 30 days of year 1, which the services' past-date checks refuse.
- Persistence.Store.FindUser: assumes the unique index on the Telegram id. The
  user found for an inconsistent table is not constrained.

## Findings

| source | as written | input that shows it | evidently intended | confidence | as-written member | corrected member |
|---|---|---|---|---|---|---|
| Backend/Reglamentator.WebAPI/Validators/UpdateReminderDtoValidator.cs:13-15 | the template is only checked for `NotEmpty`, with no `MaximumLength`, although the column holds 1000 characters (`ReminderEntityConfiguration.cs:13-15`) and creation checks `MaximumLength(1000)` | `UpdateReminderDto(1, 1001 × 'a', 15)` passes validation and the save would overflow the column | the same `MaximumLength(1000)` as on creation | not executed | Validators.UpdateAdmitsOverlongTemplate | Validators.BoundedUpdateFitsColumn |

`Validators.UpdateReminderDtoErrors` and `Validators.UpdateReminderRequestErrors`
keep the validators as written; `Validators.UpdateAdmitsOverlongTemplate` shows
the request with a 1001-letter template admitted by both.
`Validators.BoundedUpdateReminderDtoErrors` and
`Validators.BoundedUpdateReminderRequestErrors` add the corrected bound.
