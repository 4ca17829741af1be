/**
 * The `jobs` admin actions: `populate` (register every recurring job in the
 * delayed store), `enqueue` (push one job onto a ready queue), and the start
 * plan of `resque-worker` and `resque-scheduler-worker`.
 */
module LoopsAdmin {
  import opened Wrappers
  import opened Php
  import opened Backend
  import opened ResqueService
  import opened RecurringJobs

  // ---------------------------------------------------------------- populate

  /** A job found in the application: one that does not recur, or one that
   *  implements `RecurringJobInterface`, with its queue and the answer of
   *  its `nextExecutionTime()`. */
  datatype DiscoveredJob =
    | Plain(cls: string)
    | Recurring(cls: string, queue: string, next: NextTime)

  /** A recurring job with a (truthy) next time. */
  predicate IsDue(job: DiscoveredJob) {
    job.Recurring? && job.next.At?
  }

  function EntryFor(job: DiscoveredJob): Entry
    requires IsDue(job)
  {
    EntryAt(job.next.ts, job.queue, job.cls)
  }

  /** What `populate` does over `jobs`: the entries it reschedules, in order,
   *  and the exception that stopped it, if one did. */
  datatype Registration = Registration(entries: seq<Entry>, failure: Option<Exc>)

  /** One turn of the loop of `populate`, for `job`, after `done`. */
  function Step(done: Registration, job: DiscoveredJob): Registration {
    if done.failure.Some? || job.Plain? then done
    else
      match job.next
      case NoNextTime => done
      case NextTimeFails(e) => Registration(done.entries, Some(e))
      case At(ts) => Registration(done.entries + [EntryAt(ts, job.queue, job.cls)], None)
  }

  function Registrations(jobs: seq<DiscoveredJob>): Registration
    decreases |jobs|
  {
    if jobs == [] then Registration([], None)
    else Step(Registrations(jobs[..|jobs| - 1]), jobs[|jobs| - 1])
  }

  /** The loop of `populate` goes through the jobs in order. */
  lemma RegistrationsPrefix(jobs: seq<DiscoveredJob>, i: nat)
    requires i < |jobs|
    ensures Registrations(jobs[..i + 1]) == Step(Registrations(jobs[..i]), jobs[i])
  {
    assert jobs[..i + 1][..i] == jobs[..i];
  }

  /** The delayed store after `populate`. */
  function PopulateStore(jobs: seq<DiscoveredJob>, s: multiset<Entry>): multiset<Entry> {
    RescheduledAll(s, Registrations(jobs).entries)
  }

  /** Once a job's next time has thrown, later jobs change nothing. */
  lemma {:induction false} FailureStops(jobs: seq<DiscoveredJob>, i: nat)
    requires i <= |jobs|
    requires Registrations(jobs[..i]).failure.Some?
    ensures Registrations(jobs) == Registrations(jobs[..i])
    decreases |jobs| - i
  {
    if i < |jobs| {
      var init := jobs[..|jobs| - 1];
      assert init[..i] == jobs[..i];
      FailureStops(init, i);
    } else {
      assert jobs[..i] == jobs;
    }
  }

  /** Registers every due recurring job. On success `r` carries the total
   *  `populate` writes to the error log; the action itself exits with 0. */
  method Populate(jobs: seq<DiscoveredJob>, store: DelayedStore) returns (r: Result<nat, Exc>)
    modifies store
    ensures store.entries == PopulateStore(jobs, old(store.entries))
    ensures r == match Registrations(jobs).failure
                 case Some(e) => Failure(e)
                 case None => Success(|Registrations(jobs).entries|)
  {
    var enqueued := 0;
    var i := 0;
    while i < |jobs|
      invariant 0 <= i <= |jobs|
      invariant Registrations(jobs[..i]).failure == None
      invariant enqueued == |Registrations(jobs[..i]).entries|
      invariant store.entries == RescheduledAll(old(store.entries), Registrations(jobs[..i]).entries)
    {
      var job := jobs[i];
      RegistrationsPrefix(jobs, i);
      if job.Recurring? {
        match job.next {
          case NoNextTime =>
          case NextTimeFails(e) =>
            FailureStops(jobs, i + 1);
            return Failure(e);
          case At(next) =>
            var queue := job.queue;
            var cls := job.cls;
            // an earlier registration at this timestamp goes first
            var removed := store.RemoveDelayedJobFromTimestamp(next, queue, cls, []);
            store.EnqueueAt(next, queue, cls, []);
            enqueued := enqueued + 1;
        }
      }
      i := i + 1;
    }
    assert jobs[..|jobs|] == jobs;
    r := Success(enqueued);
  }

  /** Indices of the jobs `populate` registers. */
  function DueIndices(jobs: seq<DiscoveredJob>): set<int> {
    set i | 0 <= i < |jobs| && IsDue(jobs[i])
  }

  /** The last job adds its entry exactly when it is due. */
  lemma RegistrationsLast(jobs: seq<DiscoveredJob>)
    requires jobs != []
    requires Registrations(jobs).failure.None?
    ensures Registrations(jobs[..|jobs| - 1]).failure.None?
    ensures Registrations(jobs).entries ==
              Registrations(jobs[..|jobs| - 1]).entries
              + (if IsDue(jobs[|jobs| - 1]) then [EntryFor(jobs[|jobs| - 1])] else [])
  {
  }

  lemma {:induction false} DueCount(jobs: seq<DiscoveredJob>)
    requires Registrations(jobs).failure.None?
    ensures |Registrations(jobs).entries| == |DueIndices(jobs)|
    decreases |jobs|
  {
    if jobs != [] {
      var n := |jobs| - 1;
      var init := jobs[..n];
      RegistrationsLast(jobs);
      DueCount(init);
      assert DueIndices(init) == set i | 0 <= i < n && IsDue(jobs[i]);
      if IsDue(jobs[n]) {
        assert DueIndices(jobs) == DueIndices(init) + {n};
        assert n !in DueIndices(init);
      } else {
        assert DueIndices(jobs) == DueIndices(init);
      }
    }
  }

  lemma {:induction false} DueJobsRegistered(jobs: seq<DiscoveredJob>)
    requires Registrations(jobs).failure.None?
    ensures forall i :: 0 <= i < |jobs| && IsDue(jobs[i]) ==> EntryFor(jobs[i]) in Registrations(jobs).entries
    decreases |jobs|
  {
    if jobs != [] {
      var n := |jobs| - 1;
      var init := jobs[..n];
      RegistrationsLast(jobs);
      DueJobsRegistered(init);
      forall i | 0 <= i < |jobs| && IsDue(jobs[i])
        ensures EntryFor(jobs[i]) in Registrations(jobs).entries
      {
        if i < n {
          assert init[i] == jobs[i];
        }
      }
    }
  }

  lemma {:induction false} RegisteredAreDue(jobs: seq<DiscoveredJob>)
    requires Registrations(jobs).failure.None?
    ensures forall e :: e in Registrations(jobs).entries ==>
              exists i :: 0 <= i < |jobs| && IsDue(jobs[i]) && EntryFor(jobs[i]) == e
    decreases |jobs|
  {
    if jobs != [] {
      var n := |jobs| - 1;
      var init := jobs[..n];
      RegistrationsLast(jobs);
      RegisteredAreDue(init);
      forall e | e in Registrations(jobs).entries
        ensures exists i :: 0 <= i < |jobs| && IsDue(jobs[i]) && EntryFor(jobs[i]) == e
      {
        if e in Registrations(init).entries {
          var i :| 0 <= i < n && IsDue(init[i]) && EntryFor(init[i]) == e;
          assert jobs[i] == init[i];
        } else {
          assert IsDue(jobs[n]) && e == EntryFor(jobs[n]);
        }
      }
    }
  }

  /** When no next time throws, `populate` counts exactly the recurring jobs
   *  with a next time, and registers exactly their entries. */
  lemma RegistrationsOfDueJobs(jobs: seq<DiscoveredJob>)
    requires Registrations(jobs).failure.None?
    ensures |Registrations(jobs).entries| == |DueIndices(jobs)|
    ensures forall i :: 0 <= i < |jobs| && IsDue(jobs[i]) ==> EntryFor(jobs[i]) in Registrations(jobs).entries
    ensures forall e :: e in Registrations(jobs).entries ==>
              exists i :: 0 <= i < |jobs| && IsDue(jobs[i]) && EntryFor(jobs[i]) == e
  {
    DueCount(jobs);
    DueJobsRegistered(jobs);
    RegisteredAreDue(jobs);
  }

  /** The entries of the due jobs, in the order of `jobs`; an independent
   *  reading of `populate`, from the front of the list. */
  function DueEntries(jobs: seq<DiscoveredJob>): seq<Entry>
    decreases |jobs|
  {
    if jobs == [] then []
    else (if IsDue(jobs[0]) then [EntryFor(jobs[0])] else []) + DueEntries(jobs[1..])
  }

  lemma {:induction false} DueEntriesAppend(jobs: seq<DiscoveredJob>, job: DiscoveredJob)
    ensures DueEntries(jobs + [job]) == DueEntries(jobs) + (if IsDue(job) then [EntryFor(job)] else [])
    decreases |jobs|
  {
    if jobs == [] {
      assert jobs + [job] == [job];
      assert [job][1..] == [];
    } else {
      assert (jobs + [job])[0] == jobs[0];
      assert (jobs + [job])[1..] == jobs[1..] + [job];
      DueEntriesAppend(jobs[1..], job);
    }
  }

  /** When no next time throws, `populate` registers the entries of the due
   *  jobs, each once, in the order the jobs come in. */
  lemma {:induction false} RegistrationsInOrder(jobs: seq<DiscoveredJob>)
    requires Registrations(jobs).failure.None?
    ensures Registrations(jobs).entries == DueEntries(jobs)
    decreases |jobs|
  {
    if jobs != [] {
      var n := |jobs| - 1;
      RegistrationsLast(jobs);
      RegistrationsInOrder(jobs[..n]);
      DueEntriesAppend(jobs[..n], jobs[n]);
      assert jobs[..n] + [jobs[n]] == jobs;
    }
  }

  /** After a `populate` that no exception stops, each registered job has
   *  exactly one entry at its next time, and every entry that belongs to no
   *  registered job (other timestamps, other classes) is as it was. */
  lemma PopulateLeavesOneEntryPerJob(jobs: seq<DiscoveredJob>, s: multiset<Entry>)
    requires Registrations(jobs).failure.None?
    ensures forall i :: 0 <= i < |jobs| && IsDue(jobs[i]) ==> PopulateStore(jobs, s)[EntryFor(jobs[i])] == 1
    ensures forall x :: x !in Registrations(jobs).entries ==> PopulateStore(jobs, s)[x] == s[x]
  {
    RegistrationsOfDueJobs(jobs);
    forall x
      ensures PopulateStore(jobs, s)[x] == if x in Registrations(jobs).entries then 1 else s[x]
    {
      RescheduledAllAt(s, Registrations(jobs).entries, x);
    }
  }

  /** Two runs of `populate` with the same next times leave the store the
   *  first run left, and report the same outcome. */
  lemma PopulateIdempotent(jobs: seq<DiscoveredJob>, s: multiset<Entry>)
    ensures PopulateStore(jobs, PopulateStore(jobs, s)) == PopulateStore(jobs, s)
  {
    RescheduledAllIdempotent(s, Registrations(jobs).entries);
  }

  // ----------------------------------------------------------------- enqueue

  const MISSING_JOB_NAME := "Job name argument is missing."
  const TOO_MANY_ARGUMENTS := "Too many arguments."
  const INVALID_JOB := "Invalid job."
  const INVALID_ARGUMENTS := "Arguments must be a valid JSON string describing an array."

  /** `substr($job, 0, 5) == "Jobs\\"`. */
  predicate HasJobsPrefix(name: string) {
    |name| >= 5 && name[..5] == JOBS_NAMESPACE
  }

  /** The class name `enqueue` settles on for a positional argument. */
  function ResolveJobName(name: string, classes: set<string>): (cls: string)
    ensures cls == name || cls == JOBS_NAMESPACE + name
    ensures cls != name <==> !HasJobsPrefix(name) && name !in classes
  {
    if !HasJobsPrefix(name) && name !in classes then JOBS_NAMESPACE + name else name
  }

  /** The job `enqueue` pushes, or the exception it throws. `args` is the
   *  `--args` flag; a string is decoded with `jsonDecode`. */
  function EnqueueRequest(queue: string, args: Value, arguments: seq<string>, classes: set<string>,
                          jsonDecode: string -> Value): Result<QueuedJob, Exc>
  {
    if arguments == [] then Failure(LoopsException(MISSING_JOB_NAME))
    else if |arguments| > 1 then Failure(LoopsException(TOO_MANY_ARGUMENTS))
    else
      var job := ResolveJobName(arguments[0], classes);
      if job !in classes then Failure(LoopsException(INVALID_JOB))
      else
        var decoded := if args.Str? then jsonDecode(args.s) else args;
        if !decoded.Array? then Failure(LoopsException(INVALID_ARGUMENTS))
        else Success(QueuedJob(queue, job, decoded.items))
  }

  /** The argument count is checked first: with no name or several names the
   *  outcome depends on nothing else. */
  lemma EnqueueChecksCountFirst(queue: string, args1: Value, args2: Value, arguments: seq<string>,
                                classes1: set<string>, classes2: set<string>,
                                decode1: string -> Value, decode2: string -> Value)
    requires |arguments| != 1
    ensures EnqueueRequest(queue, args1, arguments, classes1, decode1) == EnqueueRequest(queue, args2, arguments, classes2, decode2)
    ensures EnqueueRequest(queue, args1, arguments, classes1, decode1) ==
            Failure(LoopsException(if arguments == [] then MISSING_JOB_NAME else TOO_MANY_ARGUMENTS))
  {
  }

  /** A name is valid when it names a class or, not starting with `Jobs\`,
   *  names one once `Jobs\` is put in front; the resolved class is the one
   *  `adjustJobClass` picks and is left alone by it. */
  lemma EnqueueResolvesName(queue: string, args: Value, name: string, classes: set<string>, jsonDecode: string -> Value)
    ensures var r := EnqueueRequest(queue, args, [name], classes, jsonDecode);
            (r == Failure(LoopsException(INVALID_JOB))) <==>
              !(name in classes || (!HasJobsPrefix(name) && JOBS_NAMESPACE + name in classes))
    ensures var r := EnqueueRequest(queue, args, [name], classes, jsonDecode);
            r.Success? ==> && r.value.cls in classes
                           && r.value.cls == AdjustJobClass(name, classes)
                           && AdjustJobClass(r.value.cls, classes) == r.value.cls
                           && (name in classes ==> r.value.cls == name)
  {
  }

  /** For a valid name, `enqueue` succeeds exactly when the (decoded) args are
   *  an array, and then pushes the job with those args onto `queue`. */
  lemma EnqueueNeedsArray(queue: string, args: Value, name: string, classes: set<string>, jsonDecode: string -> Value)
    requires ResolveJobName(name, classes) in classes
    ensures var decoded := if args.Str? then jsonDecode(args.s) else args;
            var r := EnqueueRequest(queue, args, [name], classes, jsonDecode);
            && (r.Success? <==> decoded.Array?)
            && (r.Success? ==> r.value == QueuedJob(queue, ResolveJobName(name, classes), decoded.items))
            && (!r.Success? ==> r.error == LoopsException(INVALID_ARGUMENTS))
  {
  }

  method Enqueue(queue: string, args: Value, arguments: seq<string>, classes: set<string>,
                 jsonDecode: string -> Value, ready: ReadyQueue) returns (r: Result<int, Exc>)
    modifies ready
    ensures match EnqueueRequest(queue, args, arguments, classes, jsonDecode)
            case Success(job) => ready.jobs == old(ready.jobs) + [job] && r == Success(0)
            case Failure(e) => ready.jobs == old(ready.jobs) && r == Failure(e)
  {
    if arguments == [] {
      return Failure(LoopsException(MISSING_JOB_NAME));
    }
    if |arguments| > 1 {
      return Failure(LoopsException(TOO_MANY_ARGUMENTS));
    }
    var job := arguments[0];
    if !HasJobsPrefix(job) && job !in classes {
      job := JOBS_NAMESPACE + job;
    }
    if job !in classes {
      return Failure(LoopsException(INVALID_JOB));
    }
    var decoded := args;
    if decoded.Str? {
      decoded := jsonDecode(decoded.s);
    }
    if !decoded.Array? {
      return Failure(LoopsException(INVALID_ARGUMENTS));
    }
    // the push goes through the service's class-name rewrite
    var call := Call("enqueue", [Str(queue), Str(job)] + [decoded], classes);
    CallKeepsExistingClass(Str(queue), job, [decoded], classes);
    ready.Push(QueuedJob(call.arguments[0].s, call.arguments[1].s, call.arguments[2].items));
    r := Success(0);
  }

  // ------------------------------------------------------------ the workers

  /** A worker's log level: `Resque_Worker::LOG_NONE` (0), `LOG_NORMAL` (1)
   *  or `LOG_VERBOSE` (2); `ResqueScheduler_Worker` has the same three. */
  datatype LogLevel = LogNone | LogNormal | LogVerbose {
    function Code(): int {
      match this
      case LogNone => 0
      case LogNormal => 1
      case LogVerbose => 2
    }
  }

  /** The log level from the `-l`/`-v` flags and the configured `logging`
   *  and `verbose` defaults. */
  function WorkerLogLevel(l: bool, logging: bool, v: bool, verbose: bool): (level: LogLevel)
    ensures level == LogNone <==> !l && !logging
    ensures level == LogVerbose <==> (l || logging) && (v || verbose)
    ensures level == LogNormal <==> (l || logging) && !v && !verbose
    ensures level.Code() != 0 <==> l || logging
  {
    if l || logging then (if v || verbose then LogVerbose else LogNormal) else LogNone
  }

  /** One worker that `resque-worker` starts: its name, queues, polling interval,
   *  log level, and whether it runs in a forked child. */
  datatype WorkerStart = WorkerStart(name: nat, queues: seq<string>, interval: int, logLevel: LogLevel, forked: bool)

  const NO_FORK_SUPPORT := "Your PHP does not support 'pcntl_fork'. Please set the worker count to 1.\n"

  function ForkFailedMessage(name: nat): string {
    "Could not fork worker " + NatToString(name) + ".\n"
  }

  /** `startResqueWorker` as seen by the calling process: the worker started,
   *  or the exception thrown. `forkSupported` is whether `pcntl_fork` exists,
   *  `forkOk` whether the fork returns a child. */
  function StartResqueWorker(queues: seq<string>, interval: int, level: LogLevel, name: nat, fork: bool,
                             forkSupported: bool, forkOk: bool): (r: Result<WorkerStart, Exc>)
    ensures r.Failure? <==> fork && (!forkSupported || !forkOk)
    ensures r.Success? ==> r.value == WorkerStart(name, queues, interval, level, fork)
    ensures r.Failure? ==> r.error == LoopsException(if !forkSupported then NO_FORK_SUPPORT else ForkFailedMessage(name))
  {
    if fork && !forkSupported then Failure(LoopsException(NO_FORK_SUPPORT))
    else if fork && !forkOk then Failure(LoopsException(ForkFailedMessage(name)))
    else Success(WorkerStart(name, queues, interval, level, fork))
  }

  /** How many workers `resque-worker` starts for `--count`. */
  function WorkerCount(count: int): nat {
    if count > 1 then count else 1
  }

  /** How `resque-worker` ends in the calling process: running the last
   *  worker itself, or with the exception of a failed fork. */
  datatype WorkerPlanOutcome = RunsInProcess(worker: WorkerStart) | StartFailed(exc: Exc)

  /** `resqueWorker`: forks workers 0 .. n-2 in increasing order, then runs
   *  worker n-1 in this process, where n is `--count` but at least 1; every
   *  worker gets the comma-separated pieces of `--queue`. `forkOk(k)` is
   *  whether the fork of worker k succeeds. */
  method ResqueWorker(count: int, queue: string, interval: int, l: bool, v: bool, logging: bool, verbose: bool,
                      forkSupported: bool, forkOk: nat -> bool)
    returns (forked: seq<WorkerStart>, outcome: WorkerPlanOutcome)
    ensures |forked| < WorkerCount(count)
    ensures forall k :: 0 <= k < |forked| ==>
              forked[k] == WorkerStart(k, Explode(',', queue), interval, WorkerLogLevel(l, logging, v, verbose), true)
    ensures |forked| > 0 ==> forkSupported
    ensures forall k: nat :: k < |forked| ==> forkOk(k)
    ensures outcome.RunsInProcess? <==> |forked| == WorkerCount(count) - 1
    ensures outcome.RunsInProcess? ==>
              outcome.worker == WorkerStart(WorkerCount(count) - 1, Explode(',', queue), interval,
                                            WorkerLogLevel(l, logging, v, verbose), false)
    ensures outcome.StartFailed? ==>
              && (forkSupported ==> !forkOk(|forked|))
              && outcome.exc == LoopsException(if !forkSupported then NO_FORK_SUPPORT else ForkFailedMessage(|forked|))
  {
    var level := WorkerLogLevel(l, logging, v, verbose);
    forked := [];
    var i := 1;
    while i < count
      invariant 1 <= i && (i == 1 || i <= count)
      invariant |forked| == i - 1
      invariant forall k :: 0 <= k < |forked| ==> forked[k] == WorkerStart(k, Explode(',', queue), interval, level, true)
      invariant |forked| > 0 ==> forkSupported
      invariant forall k: nat :: k < |forked| ==> forkOk(k)
    {
      var started := StartResqueWorker(Explode(',', queue), interval, level, i - 1, true, forkSupported, forkOk(i - 1));
      if started.Failure? {
        return forked, StartFailed(started.error);
      }
      forked := forked + [started.value];
      i := i + 1;
    }
    // the last worker runs in the calling process, unforked
    var last := StartResqueWorker(Explode(',', queue), interval, level, i - 1, false, forkSupported, true);
    outcome := RunsInProcess(last.value);
  }

  /** The scheduler worker that `resque-scheduler-worker` runs in this process. */
  datatype SchedulerStart = SchedulerStart(interval: int, logLevel: LogLevel)

  /** `resqueSchedulerWorker`: (re-)registers the recurring jobs first, then
   *  starts the scheduler worker. */
  method ResqueSchedulerWorker(jobs: seq<DiscoveredJob>, store: DelayedStore, interval: int,
                               l: bool, v: bool, logging: bool, verbose: bool)
    returns (r: Result<SchedulerStart, Exc>)
    modifies store
    ensures store.entries == PopulateStore(jobs, old(store.entries))
    ensures r == match Registrations(jobs).failure
                 case Some(e) => Failure(e)
                 case None => Success(SchedulerStart(interval, WorkerLogLevel(l, logging, v, verbose)))
  {
    var populated := Populate(jobs, store);
    if populated.Failure? {
      return Failure(populated.error);
    }
    var level := WorkerLogLevel(l, logging, v, verbose);
    r := Success(SchedulerStart(interval, level));
  }
}
