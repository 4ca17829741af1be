/**
 * A job that reschedules itself (`RecurringJob::perform`): whatever the
 * run of `Job::perform` does, the `finally` step asks the job for its next
 * execution time and, when there is one, removes the job's entry at that
 * timestamp from the delayed store and inserts it once.
 */
module RecurringJobs {
  import opened Php
  import opened Backend
  import opened JobLifecycle

  /** What `nextExecutionTime()` answers: a time, a falsy value (the job is
   *  disabled or does not recur), or an exception. */
  datatype NextTime = At(ts: Timestamp) | NoNextTime | NextTimeFails(exc: Exc)

  /** How `RecurringJob::perform` ended: it returns nothing, throws, or the
   *  script stopped on a fatal error inside the run. */
  datatype RecurringOutcome = Completed | Raised(exc: Exc) | Died(error: PhpError)

  /** The entry a recurring job keeps in the delayed store. */
  function EntryAt(ts: Timestamp, queue: string, cls: string): Entry {
    Entry(ts, queue, cls, [])
  }

  /** The delayed store after the `finally` step. */
  function AfterReschedule(s: multiset<Entry>, next: NextTime, queue: string, cls: string): multiset<Entry> {
    if next.At? then Rescheduled(s, EntryAt(next.ts, queue, cls)) else s
  }

  /** The delayed store after `RecurringJob::perform`: untouched when the
   *  script died inside the run, rescheduled otherwise. */
  function StoreAfter(parent: PerformOutcome, s: multiset<Entry>, next: NextTime, queue: string, cls: string): multiset<Entry> {
    if parent.Fatal? then s else AfterReschedule(s, next, queue, cls)
  }

  /** The outcome of `RecurringJob::perform` from that of `Job::perform`.
   *  An exception thrown by `nextExecutionTime()` in the `finally` step
   *  replaces the one in flight. */
  function RecurringResult(parent: PerformOutcome, next: NextTime): RecurringOutcome {
    match parent
    case Fatal(err) => Died(err)
    case Threw(e) => if next.NextTimeFails? then Raised(next.exc) else Raised(e)
    case Returned(_) => if next.NextTimeFails? then Raised(next.exc) else Completed
  }

  class RecurringJob {
    /** The `Job` part of the object. */
    const job: Job
    var resqueQueue: string
    /** What this job's `nextExecutionTime()` answers when asked. */
    const nextExecutionTime: NextTime

    constructor (job: Job, nextExecutionTime: NextTime)
      ensures this.job == job && this.nextExecutionTime == nextExecutionTime
      ensures resqueQueue == "default" && GetQueue() == "default"
    {
      this.job := job;
      this.nextExecutionTime := nextExecutionTime;
      resqueQueue := "default";
    }

    /** `getQueue()`: the queue the job is rescheduled on. */
    function GetQueue(): (queue: string)
      reads this
      ensures queue == resqueQueue
    {
      resqueQueue
    }

    method Perform(rt: Runtime, store: DelayedStore) returns (r: RecurringOutcome)
      modifies job`calls, rt`errorHandler, store
      ensures var parent := PerformResult(job.execute(job.args), job.exceptionHook);
              && r == RecurringResult(parent, nextExecutionTime)
              && store.entries == StoreAfter(parent, old(store.entries), nextExecutionTime, GetQueue(), job.cls)
              && (!parent.Fatal? ==> rt.errorHandler == Restored(old(rt.errorHandler)))
      ensures job.calls == old(job.calls) + PerformCalls(job.args, job.execute(job.args))
    {
      var parent := job.Perform(rt);
      if parent.Fatal? {
        return Died(parent.error);
      }
      // finally
      var next := nextExecutionTime;
      if next.NextTimeFails? {
        return Raised(next.exc);
      }
      if next.At? {
        var queue := GetQueue();
        var removed := store.RemoveDelayedJobFromTimestamp(next.ts, queue, job.cls, []);
        store.EnqueueAt(next.ts, queue, job.cls, []);
      }
      // the parent's exception, rethrown unchanged; its result is dropped
      r := if parent.Threw? then Raised(parent.exc) else Completed;
    }
  }

  /** The `finally` step does the same whether the run returned or threw. */
  lemma RescheduleIgnoresParent(p1: PerformOutcome, p2: PerformOutcome, s: multiset<Entry>, next: NextTime, queue: string, cls: string)
    requires !p1.Fatal? && !p2.Fatal?
    ensures StoreAfter(p1, s, next, queue, cls) == StoreAfter(p2, s, next, queue, cls)
  {
  }

  /** Unless the next time throws, an exception of the run is rethrown as
   *  it is, and a returned result is dropped. */
  lemma ParentOutcomeKept(next: NextTime, v: Value, e: Exc)
    requires !next.NextTimeFails?
    ensures RecurringResult(Threw(e), next) == Raised(e)
    ensures RecurringResult(Returned(v), next) == Completed
  {
  }

  /** A falsy next time leaves the store as it was. */
  lemma NoNextTimeLeavesStore(s: multiset<Entry>, queue: string, cls: string, e: Exc)
    ensures AfterReschedule(s, NoNextTime, queue, cls) == s
    ensures AfterReschedule(s, NextTimeFails(e), queue, cls) == s
  {
  }

  /** A next time `ts` leaves exactly one entry for the job at `ts` and every
   *  other entry as it was. */
  lemma NextTimeLeavesOneEntry(s: multiset<Entry>, ts: Timestamp, queue: string, cls: string)
    ensures AfterReschedule(s, At(ts), queue, cls)[EntryAt(ts, queue, cls)] == 1
    ensures forall x :: x != EntryAt(ts, queue, cls) ==> AfterReschedule(s, At(ts), queue, cls)[x] == s[x]
  {
    RescheduledLeavesOne(s, EntryAt(ts, queue, cls));
  }
}
