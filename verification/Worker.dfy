/** The summary queue: three Redis lists, one worker, retries, a dead letter list and recovery after a crash. */
module Worker {
  import opened Wrappers

  const MAX_SUMMARY_ATTEMPTS := 3

  /** A queued job; two jobs with the same fields have the same text. */
  datatype Job = Job(callId: string, attempt: nat)

  function NewJob(callId: string): Job { Job(callId, 0) }

  /** The three lists, from left to right. */
  datatype Lists = Lists(waiting: seq<Job>, processing: seq<Job>, dead: seq<Job>)

  // ---- what each Redis command does ----

  /** `LREM list 1 item`: the first occurrence from the left. */
  function Lrem(list: seq<Job>, item: Job): seq<Job> {
    if list == [] then [] else if list[0] == item then list[1..] else [list[0]] + Lrem(list[1..], item)
  }

  /** `RPOPLPUSH waiting processing`: from the right end of one list to the left end of the other. */
  function Fetched(q: Lists): Lists
    requires q.waiting != []
  {
    var n := |q.waiting| - 1;
    Lists(q.waiting[..n], [q.waiting[n]] + q.processing, q.dead)
  }

  function Removed(q: Lists, job: Job): Lists { q.(processing := Lrem(q.processing, job)) }

  /** `RPUSH`: back to the waiting list, or to the dead letters after the last attempt. */
  function Pushed(q: Lists, job: Job): Lists {
    var tried := job.(attempt := job.attempt + 1);
    if tried.attempt < MAX_SUMMARY_ATTEMPTS then q.(waiting := q.waiting + [tried]) else q.(dead := q.dead + [tried])
  }

  function RestoredOne(q: Lists): Lists
    requires q.processing != []
  {
    var n := |q.processing| - 1;
    Lists([q.processing[n]] + q.waiting, q.processing[..n], q.dead)
  }

  /** One job from the summary's point of view: done, or tried once more. */
  function Processed(q: Lists, job: Job, fails: bool): Lists {
    if fails then Pushed(Removed(q, job), job) else Removed(q, job)
  }

  // ---- the worker's methods ----

  class Client {
    var waiting: seq<Job>
    var processing: seq<Job>
    var dead: seq<Job>

    ghost function View(): Lists
      reads this
    {
      Lists(waiting, processing, dead)
    }

    constructor ()
      ensures View() == Lists([], [], [])
    {
      waiting, processing, dead := [], [], [];
    }

    /**
     * Adds a job, or, when the queue cannot be reached, has the call summarised at once, if there is such a call:
     * `written` is the call whose summary is written here.
     */
    method EnqueueSummary(callId: string, reachable: bool, calls: set<string>)
      returns (done: bool, written: Option<string>)
      modifies this
      ensures View() == if reachable then old(View()).(waiting := old(waiting) + [Job(callId, 0)]) else old(View())
      ensures done <==> reachable || callId in calls
      ensures written == if done && !reachable then Some(callId) else None
    {
      if reachable {
        waiting := waiting + [NewJob(callId)];
        return true, None;
      }
      done := callId in calls;
      written := if done then Some(callId) else None;
    }

    /** The left-to-right order of the interrupted jobs is kept, in front of what is waiting. */
    method RestoreInterruptedJobs() returns (restored: nat)
      modifies this
      ensures View() == Lists(old(processing) + old(waiting), [], old(dead)) && restored == |old(processing)|
    {
      restored := 0;
      while processing != []
        invariant processing + waiting == old(processing) + old(waiting) && dead == old(dead)
        invariant restored + |processing| == |old(processing)|
        decreases |processing|
      {
        var n := |processing| - 1;
        assert processing == processing[..n] + [processing[n]];
        waiting, processing := [processing[n]] + waiting, processing[..n];
        restored := restored + 1;
      }
      assert processing + waiting == waiting;
    }

    method Fetch() returns (item: Option<Job>)
      modifies this
      ensures item == if old(waiting) == [] then None else Some(old(waiting)[|old(waiting)| - 1])
      ensures View() == if old(waiting) == [] then old(View()) else Fetched(old(View()))
    {
      if waiting == [] {
        return None;
      }
      var n := |waiting| - 1;
      item := Some(waiting[n]);
      waiting, processing := waiting[..n], [waiting[n]] + processing;
    }

    method Remove(item: Job)
      modifies this
      ensures View() == Removed(old(View()), item)
    {
      var at := 0;
      while at < |processing| && processing[at] != item
        invariant at <= |processing| && item !in processing[..at]
      {
        at := at + 1;
      }
      LremAt(processing, item, at);
      if at < |processing| {
        processing := processing[..at] + processing[at + 1..];
      }
    }

    /** `fails` says whether the summary raises; a call that is missing counts as done. */
    method ProcessItem(item: Job, fails: bool)
      modifies this
      ensures View() == Processed(old(View()), item, fails)
    {
      Remove(item);
      if fails {
        var attempt := item.attempt + 1;
        if attempt < MAX_SUMMARY_ATTEMPTS {
          waiting := waiting + [item.(attempt := attempt)];
        } else {
          dead := dead + [item.(attempt := attempt)];
        }
      }
    }

    /** The fetch loop with no new work, until nothing is left to fetch. */
    method Drain(fails: nat -> bool) returns (iterations: nat)
      requires View().processing == [] && Alive(View())
      modifies this
      ensures waiting == [] && processing == [] && Alive(View())
      ensures iterations <= Remaining(old(waiting)) <= 3 * |old(waiting)|
      ensures old(dead) <= dead
      ensures View() == AfterIterations(old(View()), fails, iterations)
    {
      RemainingIsBounded(waiting);
      iterations := 0;
      while true
        invariant processing == [] && Alive(View()) && old(dead) <= dead
        invariant iterations + Remaining(waiting) <= Remaining(old(waiting))
        invariant View() == AfterIterations(old(View()), fails, iterations)
        decreases Remaining(waiting)
      {
        ghost var before := View();
        var item := Fetch();
        if item.None? {
          return;
        }
        ProcessItem(item.value, fails(iterations));
        IterationMakesProgress(before, fails(iterations));
        iterations := iterations + 1;
      }
    }
  }

  lemma {:induction false} LremAt(list: seq<Job>, item: Job, at: nat)
    requires at <= |list| && item !in list[..at] && (at < |list| ==> list[at] == item)
    ensures Lrem(list, item) == if at < |list| then list[..at] + list[at + 1..] else list
  {
    if at > 0 {
      assert list[0] in list[..at];
      assert list[1..][..at - 1] == list[..at][1..];
      LremAt(list[1..], item, at - 1);
    }
  }

  // ---- retries ----

  /** Waiting and interrupted jobs have attempts left, dead ones have none. */
  ghost predicate Alive(q: Lists) {
    && (forall j <- q.waiting :: j.attempt < 3)
    && (forall j <- q.processing :: j.attempt < 3)
    && forall j <- q.dead :: j.attempt == 3
  }

  /** The attempts that the jobs of a list have left, all together. */
  function Remaining(jobs: seq<Job>): (n: nat) {
    if jobs == [] then 0
    else
      var last := jobs[|jobs| - 1];
      Remaining(jobs[..|jobs| - 1])
      + if last.attempt < 3 then 3 - last.attempt else 0
  }

  lemma {:induction false} RemainingIsBounded(jobs: seq<Job>)
    ensures Remaining(jobs) <= 3 * |jobs|
  {
    if jobs != [] { RemainingIsBounded(jobs[..|jobs| - 1]); }
  }

  lemma RemainingAppend(jobs: seq<Job>, job: Job)
    ensures Remaining(jobs + [job])
         == Remaining(jobs) + if job.attempt < 3 then 3 - job.attempt else 0
  {
    assert (jobs + [job])[..|jobs|] == jobs;
  }

  /** One turn of the loop. */
  function Iteration(q: Lists, fails: bool): Lists {
    if q.waiting == [] then q else Processed(Fetched(q), q.waiting[|q.waiting| - 1], fails)
  }

  function AfterIterations(q: Lists, fails: nat -> bool, n: nat): Lists {
    if n == 0 then q else Iteration(AfterIterations(q, fails, n - 1), fails(n - 1))
  }

  /**
   * One turn takes the rightmost waiting job. If its summary succeeds the job is gone; if it fails for the first or the
   * second time, the job waits again at the right end, and after the third time it is dead.
   */
  lemma WhatATurnDoes(q: Lists, fails: bool)
    requires q.processing == []
    ensures Iteration(q, fails)
         == if q.waiting == [] then q
            else
              var job := q.waiting[|q.waiting| - 1];
              var rest := q.waiting[..|q.waiting| - 1];
              var tried := Job(job.callId, job.attempt + 1);
              if !fails then Lists(rest, [], q.dead)
              else if job.attempt < 2 then Lists(rest + [tried], [], q.dead)
              else Lists(rest, [], q.dead + [tried])
  {
    if q.waiting != [] {
      var job := q.waiting[|q.waiting| - 1];
      assert Lrem([job], job) == [] by { assert [job][1..] == []; }
      assert [job] + [] == [job];
    }
  }

  /** A job whose summary always fails is tried three times, and then it is dead. */
  lemma AJobIsTriedThreeTimes(callId: string, dead: seq<Job>)
    ensures var q := Lists([NewJob(callId)], [], dead);
            && AfterIterations(q, _ => true, 1) == Lists([Job(callId, 1)], [], dead)
            && AfterIterations(q, _ => true, 2) == Lists([Job(callId, 2)], [], dead)
            && AfterIterations(q, _ => true, 3) == Lists([], [], dead + [Job(callId, 3)])
  {
    hide Iteration;
    var q := Lists([NewJob(callId)], [], dead);
    WhatATurnDoes(q, true);
    WhatATurnDoes(Lists([Job(callId, 1)], [], dead), true);
    WhatATurnDoes(Lists([Job(callId, 2)], [], dead), true);
    assert AfterIterations(q, _ => true, 0) == q;
    assert AfterIterations(q, _ => true, 1) == Iteration(q, true);
    assert AfterIterations(q, _ => true, 2) == Iteration(AfterIterations(q, _ => true, 1), true);
    assert AfterIterations(q, _ => true, 3) == Iteration(AfterIterations(q, _ => true, 2), true);
    assert [NewJob(callId)][..0] == [] && [] + [Job(callId, 1)] == [Job(callId, 1)];
    assert [Job(callId, 1)][..0] == [] && [] + [Job(callId, 2)] == [Job(callId, 2)];
    assert [Job(callId, 2)][..0] == [];
  }

  lemma IterationMakesProgress(q: Lists, fails: bool)
    requires Alive(q) && q.processing == [] && q.waiting != []
    ensures var after := Iteration(q, fails);
            && Alive(after) && after.processing == [] && q.dead <= after.dead
            && Remaining(after.waiting) < Remaining(q.waiting)
  {
    var n := |q.waiting| - 1;
    var before, job := q.waiting[..n], q.waiting[n];
    assert q.waiting == before + [job] && job in q.waiting;
    RemainingAppend(before, job);
    RemainingAppend(before, job.(attempt := job.attempt + 1));
  }
}
