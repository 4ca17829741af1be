/**
 * The two parts of the queue backend the jobs layer writes to: the delayed
 * store of ResqueScheduler (entries waiting for their timestamp) and the
 * ready queue of Resque (jobs a worker may take now).
 */
module Backend {
  import opened Php

  /** Unix time in seconds, as ResqueScheduler keys its delayed lists. */
  type Timestamp = int

  /** One delayed item: at `at`, push `cls` with `args` onto `queue`. */
  datatype Entry = Entry(at: Timestamp, queue: string, cls: string, args: seq<Value>)

  /** One job on a ready queue. */
  datatype QueuedJob = QueuedJob(queue: string, cls: string, args: seq<Value>)

  /** The delayed store; an entry may be present several times. */
  class DelayedStore {
    var entries: multiset<Entry>

    constructor ()
      ensures entries == multiset{}
    {
      entries := multiset{};
    }

    /** `removeDelayedJobFromTimestamp($at, $queue, $cls, $args)`: drops every
     *  copy of that one entry at timestamp `at` and tells how many there were. */
    method RemoveDelayedJobFromTimestamp(at: Timestamp, queue: string, cls: string, args: seq<Value>)
      returns (removed: nat)
      modifies this
      ensures removed == old(entries)[Entry(at, queue, cls, args)]
      ensures entries == old(entries)[Entry(at, queue, cls, args) := 0]
    {
      removed := entries[Entry(at, queue, cls, args)];
      entries := entries[Entry(at, queue, cls, args) := 0];
    }

    /** `enqueueAt($at, $queue, $cls, $args)`: adds one copy of the entry. */
    method EnqueueAt(at: Timestamp, queue: string, cls: string, args: seq<Value>)
      modifies this
      ensures entries == old(entries) + multiset{Entry(at, queue, cls, args)}
    {
      entries := entries + multiset{Entry(at, queue, cls, args)};
    }
  }

  /** The ready queues, as the sequence of jobs pushed onto them. */
  class ReadyQueue {
    var jobs: seq<QueuedJob>

    constructor ()
      ensures jobs == []
    {
      jobs := [];
    }

    /** `Resque::enqueue`: pushes one job. */
    method Push(job: QueuedJob)
      modifies this
      ensures jobs == old(jobs) + [job]
    {
      jobs := jobs + [job];
    }
  }

  /** The store after the dedup protocol for `e`: remove every copy of `e`
   *  at its timestamp, then insert `e` once. */
  function Rescheduled(s: multiset<Entry>, e: Entry): multiset<Entry> {
    s[e := 0] + multiset{e}
  }

  /** After the protocol exactly one copy of `e` is pending and every other
   *  entry (other timestamps included) keeps its multiplicity. */
  lemma RescheduledLeavesOne(s: multiset<Entry>, e: Entry)
    ensures Rescheduled(s, e)[e] == 1
    ensures forall x :: x != e ==> Rescheduled(s, e)[x] == s[x]
  {
  }

  /** Dedup holds per timestamp only: the same job pending at another
   *  timestamp is left in place, so the job is then pending twice. */
  lemma DedupIsPerTimestamp(oldAt: Timestamp, at: Timestamp, queue: string, cls: string)
    requires oldAt != at
    ensures var stale := Entry(oldAt, queue, cls, []);
            var current := Entry(at, queue, cls, []);
            Rescheduled(multiset{stale}, current) == multiset{stale, current}
  {
    var stale := Entry(oldAt, queue, cls, []);
    var current := Entry(at, queue, cls, []);
    assert multiset{stale}[current := 0] == multiset{stale};
  }

  /** The protocol applied to each entry of `es` in turn. */
  function RescheduledAll(s: multiset<Entry>, es: seq<Entry>): multiset<Entry>
    decreases |es|
  {
    if es == [] then s else Rescheduled(RescheduledAll(s, es[..|es| - 1]), es[|es| - 1])
  }

  /** Each entry of `es` ends up pending exactly once; nothing else changes. */
  lemma {:induction false} RescheduledAllAt(s: multiset<Entry>, es: seq<Entry>, x: Entry)
    ensures RescheduledAll(s, es)[x] == if x in es then 1 else s[x]
    decreases |es|
  {
    if es != [] {
      var init := es[..|es| - 1];
      RescheduledAllAt(s, init, x);
      RescheduledLeavesOne(RescheduledAll(s, init), es[|es| - 1]);
      assert es == init + [es[|es| - 1]];
      assert x in es <==> x in init || x == es[|es| - 1];
    }
  }

  /** Running the protocol over the same entries twice changes nothing more. */
  lemma RescheduledAllIdempotent(s: multiset<Entry>, es: seq<Entry>)
    ensures RescheduledAll(RescheduledAll(s, es), es) == RescheduledAll(s, es)
  {
    var once := RescheduledAll(s, es);
    forall x
      ensures RescheduledAll(once, es)[x] == once[x]
    {
      RescheduledAllAt(once, es, x);
      RescheduledAllAt(s, es, x);
    }
  }
}
