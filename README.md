# Loops jobs: scheduling and lifecycle model

A Dafny model of the jobs layer of the Loops framework (PHP). On top of Resque
and ResqueScheduler it runs jobs, reschedules recurring jobs, and registers
them in a delayed store. The model covers:

- **Job lifecycle** (`Job::perform`, module `JobLifecycle`). The job's
  `execute` runs under a temporary error handler. That handler turns
  `E_USER_ERROR` and `E_RECOVERABLE_ERROR` into a `Loops\Exception`. A
  `Loops\Exception` goes to the job's `exception` hook. The hook swallows it
  (`perform` then returns NULL) or lets it be rethrown. Other exceptions
  propagate unchanged. The previous callback is set back on the way out,
  unless PHP stops the script on a fatal error.
- **Recurring reschedule** (`RecurringJob::perform`, module `RecurringJobs`).
  After the run, whether it returned or threw, the job asks for its next time.
  If it has one, it removes its entry at that timestamp and inserts the entry
  once.
- **Registrar** (`Jobs::populate`, module `LoopsAdmin`). It runs the same
  remove-then-insert for every recurring job that has a next time, and counts
  those jobs.
- **Cron guards** (`CronJob::nextExecutionTime`, module `CronJobs`). A missing
  `$cron` is checked before `$disabled`. The expression is
  `implode(" ", (array)$cron)`. Under a `$timezone` override the process-wide
  default timezone is saved and set before the cron library is asked. It is
  restored only when the library answers (see "## Findings").
- **Job names** (`Jobs::enqueue`, and `Resque::adjustJobClass` with the
  `__call` rewrite, modules `LoopsAdmin` and `ResqueService`).
- **Worker start plan and log level** (`Jobs::resqueWorker`,
  `startResqueWorker`, `resqueSchedulerWorker`).

The collaborators are abstract:

- The delayed store is a `multiset` of entries `(timestamp, queue, class, args)`
  in class `Backend.DelayedStore`.
- The ready queue is a `seq` of pushed jobs in class `Backend.ReadyQueue`.
- The PHP process globals are class `Php.Runtime`: the error handler, the
  default timezone, and a ghost log of timezone writes.
- Class existence is a `set<string>`.
- The cron library is a function from (expression, default timezone) to an
  answer.
- `json_decode` is a function parameter.
- Job code is a set of values held by the job object: the outcome of
  `execute`, of the `exception` hook, and of `nextExecutionTime`.

A reader might expect some things the code does not do; the model follows
the code:

- Duplicate removal is not keyed on `(queue, class, args)` alone. Entries
  are removed only at the new timestamp (RecurringJob.php:38,
  Jobs.php:98). So an entry left at an older timestamp survives. This is
  `Backend.DedupIsPerTimestamp`.
- `Job::perform` (Job.php:46-64) calls neither `setUp` nor `tearDown`, and
  both defaults are empty.
- `resque-worker` starts `max(count, 1)` workers (Jobs.php:232-237), and the
  last one runs in the calling process.
- Restoring the error handler with `set_error_handler($handler)`
  (Job.php:59-61) keeps the previous callback, but its mask becomes PHP's
  default `E_ALL` (`JobLifecycle.Restored`).

## Model

| member | source | states |
|---|---|---|
| `Php.HandlerFor` | src/Loops/Jobs/Job.php:47-49 | the handler installed by `set_error_handler` reports back the callback it was given |
| `Php.Runtime.SetErrorHandler` | src/Loops/Jobs/Job.php:47 | returns the previous callback (NULL for PHP's standard handler) and installs the new one with the given level mask |
| `Php.Runtime.GetDefaultTimezone` | src/Loops/Jobs/CronJob.php:65 | reads the process-wide default timezone |
| `Php.Runtime.SetDefaultTimezone` | src/Loops/Jobs/CronJob.php:66 | sets the default timezone and logs the write |
| `Php.Explode` | src/Loops/Application/LoopsAdmin/Jobs.php:233 | `explode` always gives at least one piece |
| `Php.ImplodeExplode` | src/Loops/Application/LoopsAdmin/Jobs.php:233 | joining the pieces of `explode(',', $queue)` with commas gives `$queue` back |
| `Php.ExplodeHasNoSeparator` | src/Loops/Application/LoopsAdmin/Jobs.php:237 | no queue name produced by the split contains a comma |
| `Php.ExplodePrefix` | src/Loops/Application/LoopsAdmin/Jobs.php:233 | a separator-free prefix extends the first piece of `explode` |
| `Php.Implode` | src/Loops/Jobs/CronJob.php:69 | `implode` of no parts is `""`, of one part is that part, and otherwise starts with the first part followed by the separator |
| `Php.ExplodeImplode` | src/Loops/Jobs/CronJob.php:69 | `explode` takes apart what `implode` joins when no part holds the separator |
| `Backend.DelayedStore.RemoveDelayedJobFromTimestamp` | src/Loops/Jobs/RecurringJob.php:38 | removes every copy of the one entry `(at, queue, class, args)` and nothing else; returns how many copies there were |
| `Backend.DelayedStore.EnqueueAt` | src/Loops/Jobs/RecurringJob.php:41 | adds exactly one copy of the entry |
| `Backend.ReadyQueue.Push` | src/Loops/Application/LoopsAdmin/Jobs.php:148 | appends exactly one job |
| `Backend.RescheduledLeavesOne` | src/Loops/Jobs/RecurringJob.php:37-41 | after remove-then-insert the entry is pending exactly once, and every other entry keeps its multiplicity |
| `Backend.DedupIsPerTimestamp` | src/Loops/Jobs/RecurringJob.php:38 | an entry for the same job at another timestamp survives, so the job is then pending twice |
| `Backend.RescheduledAllAt` | src/Loops/Application/LoopsAdmin/Jobs.php:86-106 | after a series of reschedules each entry of the series is pending once, and all other entries are unchanged |
| `Backend.RescheduledAllIdempotent` | src/Loops/Application/LoopsAdmin/Jobs.php:86-106 | repeating the series leaves the store as the first run left it |
| `ResqueService.AdjustJobClass` | src/Loops/Service/Resque.php:39-47 | the result is the name or `Jobs\` + name; an existing name is kept; the `Jobs\` form is chosen only when it exists; the result exists iff one of the two does |
| `ResqueService.AdjustJobClassIdempotent` | src/Loops/Service/Resque.php:39-47 | adjusting an adjusted name changes nothing |
| `ResqueService.Call` | src/Loops/Service/Resque.php:31-37 | forwards the same method with the same arguments, except that for `enqueue` with a non-empty string at index 1 that argument is replaced by its adjusted class; every other index is unchanged |
| `ResqueService.CallKeepsExistingClass` | src/Loops/Service/Resque.php:32-33 | an `enqueue` of an existing class is forwarded unchanged |
| `ResqueService.CallCompletesBareName` | src/Loops/Service/Resque.php:32-46 | an `enqueue` of a bare name that is no class, but whose `Jobs\` form is one, is forwarded with the `Jobs\` class in its place |
| `JobLifecycle.PerformCalls` | src/Loops/Jobs/Job.php:52-56 | `execute` is called first and exactly once, with the job's args; the hook is called only for a `Loops\Exception`, with that exception; no other call is made, in particular no `setUp` and no `tearDown` call |
| `JobLifecycle.Job.SetUp` | src/Loops/Jobs/Job.php:43-44 | the default `setUp` does nothing; the model records only that it was called |
| `JobLifecycle.Job.TearDown` | src/Loops/Jobs/Job.php:66-67 | the default `tearDown` does nothing; the model records only that it was called |
| `JobLifecycle.Job.constructor` | src/Loops/Jobs/Job.php:34-36 | a job starts with args `[]` and no queue |
| `JobLifecycle.Job.Perform` | src/Loops/Jobs/Job.php:46-64 | ends as `PerformResult` says, makes the calls `PerformCalls` lists, and, unless PHP stopped the script, leaves the previous callback installed |
| `JobLifecycle.ReturnsExecuteResult` | src/Loops/Jobs/Job.php:52-63 | when `execute` returns, `perform` returns its result |
| `JobLifecycle.HandledExceptionIsSwallowed` | src/Loops/Jobs/Job.php:54-57 | a `Loops\Exception` the hook handles makes `perform` return NULL without throwing |
| `JobLifecycle.UnhandledExceptionIsRethrown` | src/Loops/Jobs/Job.php:55-56 | a `Loops\Exception` the hook does not handle is rethrown as the same exception |
| `JobLifecycle.DefaultExceptionHook` | src/Loops/Jobs/Job.php:78-80 | the default `exception` hook returns FALSE: it handles no exception and throws nothing |
| `JobLifecycle.DefaultHookRethrows` | src/Loops/Jobs/Job.php:78-80 | with the default hook `perform` ends exactly as `execute` did: every exception is rethrown |
| `JobLifecycle.ForeignExceptionsBypassHook` | src/Loops/Jobs/Job.php:54 | an exception of another class propagates unchanged and the hook is never called |
| `JobLifecycle.TrappedErrorsFollowHook` | src/Loops/Jobs/Job.php:47-49 | an `E_USER_ERROR` or `E_RECOVERABLE_ERROR` is handled exactly like the `Loops\Exception` "PHP Error: ..." the handler throws |
| `JobLifecycle.UntrappedErrorsAreFatal` | src/Loops/Jobs/Job.php:49 | a script-ending error (`E_ERROR`, `E_CORE_ERROR`, `E_COMPILE_ERROR`) outside the handler's mask is not converted and stops the script |
| `JobLifecycle.RestoredKeepsCallback` | src/Loops/Jobs/Job.php:59-61 | the handler set back has the previous callback; PHP's standard handler comes back as itself |
| `RecurringJobs.RecurringJob.constructor` | src/Loops/Jobs/RecurringJob.php:19-23 | `getQueue()` is `"default"` unless the class changes it |
| `RecurringJobs.RecurringJob.GetQueue` | src/Loops/Jobs/RecurringJob.php:21-23 | `getQueue()` answers the job's `$resque_queue`, the queue `RecurringJob.Perform` reschedules on |
| `RecurringJobs.RecurringJob.Perform` | src/Loops/Jobs/RecurringJob.php:25-44 | runs `Job::perform`, then reschedules the job in the store from its next time; ends as `RecurringResult` says |
| `RecurringJobs.RescheduleIgnoresParent` | src/Loops/Jobs/RecurringJob.php:32-43 | the reschedule step leaves the same store whether the run returned or threw |
| `RecurringJobs.ParentOutcomeKept` | src/Loops/Jobs/RecurringJob.php:26-31 | the run's exception is rethrown unchanged after the reschedule step; a returned result is dropped (`perform` returns nothing) |
| `RecurringJobs.NoNextTimeLeavesStore` | src/Loops/Jobs/RecurringJob.php:33 | a falsy or failing next time leaves the store unchanged |
| `RecurringJobs.NextTimeLeavesOneEntry` | src/Loops/Jobs/RecurringJob.php:33-41 | next time `t` leaves exactly one `(t, queue, class, [])` entry, and every other entry unchanged |
| `CronJobs.NextExecutionTime` | src/Loops/Jobs/CronJob.php:55-76 | answers, and changes the default timezone and its write log, as `RunAsWritten` says |
| `CronJobs.MissingCronFailsFirst` | src/Loops/Jobs/CronJob.php:56-58 | a NULL `$cron` throws "CronJob: Please declare ..." even when the job is disabled; no write, no query to the library |
| `CronJobs.DisabledNeverAsks` | src/Loops/Jobs/CronJob.php:60-62 | a disabled job answers FALSE; the cron library is never asked and the timezone never written |
| `CronJobs.ExpressionOfString` | src/Loops/Jobs/CronJob.php:69 | a string `$cron`, such as `@daily`, is passed to the library unchanged |
| `CronJobs.ExpressionOfFields` | src/Loops/Jobs/CronJob.php:69 | an array `$cron` is joined with single spaces: splitting the expression at spaces gives the fields back |
| `CronJobs.OverrideIsRestored` | src/Loops/Jobs/CronJob.php:64-73 | with a `$timezone` the library is asked in that zone; when it answers, the default timezone ends where it was, after exactly two writes |
| `CronJobs.NoOverrideNeverWrites` | src/Loops/Jobs/CronJob.php:64-71 | with `$timezone` unset, `""` or `"0"` the default timezone is never written and the library is asked in the default zone |
| `CronJobs.TimezoneLeaksWhenRejected` | src/Loops/Jobs/CronJob.php:69-73 | as written: when the library throws under an override, the override stays the default timezone |
| `CronJobs.RestoringKeepsTimezone` | src/Loops/Jobs/CronJob.php:64-73 | corrected: with the restore in a `finally`, the run gives the same answer and question and always leaves the default timezone as it was; it differs from the source only when the library throws under an override, and only by the restoring write |
| `LoopsAdmin.FailureStops` | src/Loops/Application/LoopsAdmin/Jobs.php:87 | when `nextExecutionTime()` throws, later jobs are not registered |
| `LoopsAdmin.Populate` | src/Loops/Application/LoopsAdmin/Jobs.php:79-111 | the store after the call is `PopulateStore`; the logged total `$enqueued` is the number of registered entries, or the call throws what a next time threw |
| `LoopsAdmin.DueCount` | src/Loops/Application/LoopsAdmin/Jobs.php:91-105 | when no next time throws, the total `populate` logs equals the number of recurring jobs with a truthy next time |
| `LoopsAdmin.DueJobsRegistered` | src/Loops/Application/LoopsAdmin/Jobs.php:91-103 | every recurring job with a truthy next time gets its entry registered |
| `LoopsAdmin.RegisteredAreDue` | src/Loops/Application/LoopsAdmin/Jobs.php:86-103 | every registered entry belongs to a recurring job with a truthy next time |
| `LoopsAdmin.RegistrationsInOrder` | src/Loops/Application/LoopsAdmin/Jobs.php:86-106 | when no next time throws, the entries registered are those of the due jobs, each once, in the order of the job list (`DueEntries`, read from the front) |
| `LoopsAdmin.RegistrationsOfDueJobs` | src/Loops/Application/LoopsAdmin/Jobs.php:80-105 | the count equals the number of recurring jobs with a truthy next time, and the registered entries are exactly theirs: plain and disabled jobs are skipped |
| `LoopsAdmin.PopulateLeavesOneEntryPerJob` | src/Loops/Application/LoopsAdmin/Jobs.php:91-103 | each registered job ends with exactly one `(next, queue, class, [])` entry; entries of no registered job (other timestamps, other classes) are unchanged |
| `LoopsAdmin.PopulateIdempotent` | src/Loops/Application/LoopsAdmin/Jobs.php:86-108 | a second run with the same next times leaves the store the first left |
| `LoopsAdmin.EnqueueChecksCountFirst` | src/Loops/Application/LoopsAdmin/Jobs.php:122-128 | no name gives "Job name argument is missing.", several give "Too many arguments.", whatever the classes or args |
| `LoopsAdmin.ResolveJobName` | src/Loops/Application/LoopsAdmin/Jobs.php:132-134 | the class `enqueue` settles on is the name or `Jobs\` + name, and it is `Jobs\` + name exactly when the name lacks the `Jobs\` prefix and names no class |
| `LoopsAdmin.EnqueueResolvesName` | src/Loops/Application/LoopsAdmin/Jobs.php:132-138 | "Invalid job." iff neither the name nor, for a name outside `Jobs\`, `Jobs\` + name exists; the class used is the one `adjustJobClass` picks and keeps |
| `LoopsAdmin.EnqueueNeedsArray` | src/Loops/Application/LoopsAdmin/Jobs.php:140-146 | for a valid name, success iff the (JSON-decoded) args are an array; otherwise the arguments error |
| `LoopsAdmin.Enqueue` | src/Loops/Application/LoopsAdmin/Jobs.php:121-153 | on success exactly one `(queue, class, args)` is pushed, through the service rewrite; on every failure nothing is pushed |
| `LoopsAdmin.WorkerLogLevel` | src/Loops/Application/LoopsAdmin/Jobs.php:229 | none (code 0) iff neither `-l` nor configured logging; verbose iff logging and (`-v` or configured verbose); normal otherwise; the code is non-zero exactly when logging is on |
| `LoopsAdmin.StartResqueWorker` | src/Loops/Application/LoopsAdmin/Jobs.php:240-255 | a forking start fails when `pcntl_fork` is missing, then when the fork fails, each with its own message; otherwise the worker starts with the given queues, interval, level and name |
| `LoopsAdmin.ResqueWorker` | src/Loops/Application/LoopsAdmin/Jobs.php:221-238 | workers `0 .. max(count,1)-2` are forked in order, each with `explode(',', $queue)`, and worker `max(count,1)-1` runs in-process; a failed fork stops the plan with the matching exception |
| `LoopsAdmin.ResqueSchedulerWorker` | src/Loops/Application/LoopsAdmin/Jobs.php:297-308 | runs `populate` first, then starts the scheduler worker with the line-308 log level |

## Findings

| source | as written | input that shows it | evidently intended | confidence | as-written member | corrected member |
|---|---|---|---|---|---|---|
| src/Loops/Jobs/CronJob.php:64-73 | the default timezone is set back only after the cron library has returned | `$timezone = "UTC"`, a `$cron` the library rejects, default timezone `"Europe/Berlin"`: the call throws and the default stays `"UTC"` | set the timezone back on every exit (a `finally`) | medium, not executed | `CronJobs.TimezoneLeaksWhenRejected` | `CronJobs.RestoringKeepsTimezone` |

`CronJobs.NextExecutionTime` models the code as written. Nothing else in the
model reads the default timezone after that call.

## Left out

- Job discovery by reflection (`getJobs`) is not modelled. `populate` takes the discovered jobs as its input list. The stale `$name` for classes outside `Jobs\` is not modelled either.
- The `show` action is console output only.
- `error_log` and `fwrite` logging are not modelled.
- `pcntl_fork`, `Resque_Worker::work` and `ResqueScheduler_Worker::work` are external processes and loops, so they are out. A child whose `work` returned would go back into the fork loop; that is not modelled.
- Remove-then-insert is not atomic across processes. Everything is modelled sequentially.
- Flag and configuration defaulting (`init_*Flags`) reads the environment and config. `logging` and `verbose` are inputs instead.
- `Resque::setBackend` and the service constructors only set up the connection, so they are out.
- ResqueScheduler.php only forwards calls, and JobInterface.php and RecurringJobInterface.php only declare methods, so they have no model of their own.
- `resqueSchedulerWorker` passes an undefined `$queues` to the scheduler worker. That is external wiring; only the order (populate first) and the log level are modelled.
- The cron library's evaluation (`CronExpression::factory(...)->getNextRunDate()`) is an oracle.
- `json_decode` is an oracle, and `class_exists` is a set of names.
- JSON numbers are modelled as integers; floats are not modelled.
- `date_default_timezone_set` with an unknown zone is not modelled. PHP ignores such a write with a notice.
- PHP's internal stack of error handlers is not modelled. Each `set_error_handler` call pushes onto it, which matters only to `restore_error_handler`.
- The notice PHP raises when reading the unset `$result` after a handled exception is not modelled.
- Side effects of job code (`execute`, the hook) on the store, the queues or the process are not modelled.
- RecurringJobs.RecurringJob.Perform: `nextExecutionTime()` is a fixed answer held by the object. For a cron job that answer is what `CronJobs.NextExecutionTime` returns, but the timezone effects of that call inside the `finally` step are not composed into `Perform`.
- ResqueService.Call: a non-string, non-empty argument at index 1 is forwarded unchanged. PHP would coerce ints and `true` to names that cannot be classes, and would reject arrays and objects.
- ResqueService.Call: the method name is compared exactly, as `==` does. PHP method names are case-insensitive, so `Enqueue(...)` reaches `Resque::enqueue` without the rewrite; the model forwards it unchanged too.
- The library side of `Resque::enqueue` and `ResqueScheduler::enqueueAt` is not modelled: job ids, events, status tracking, and the library's own queue and class checks.
- The poller that moves due entries to ready queues lives inside `ResqueScheduler_Worker`, outside this code, so it is not modelled.
- Only script-ending errors are modelled (`Php.FatalLevel`). Warnings, notices and deprecations are reported by PHP's standard handler and the script goes on, so they change no outcome of `perform`.
- A next time is the DateTime that `getNextRunDate()` returns. A recurring job whose `nextExecutionTime()` answers a truthy value that is not a DateTime would fail at `$next->format("r")` (Jobs.php:100), after its entry was removed; this is not modelled.
- Calls to the delayed store and the ready queue never fail in the model. A failing Redis call between the remove and the insert (Jobs.php:96-103) would leave the job unregistered; this is not modelled.
