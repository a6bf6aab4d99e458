/** The queue one Redis command at a time, with a worker that may crash and restart between any two of them. */
module JobRuns {
  import opened Worker

  /** Where the worker is. After `Drop` the job is in its hands only. */
  datatype Phase = Down | Restoring | Idle | Holding(job: Job) | Retrying(job: Job)

  /** The lists, the worker, and a record of what became of every call id. */
  datatype System = System(
    lists: Lists, phase: Phase, enqueued: multiset<string>, acknowledged: multiset<string>, lost: multiset<string>,
    crashes: nat)

  const START := System(Lists([], [], []), Down, multiset{}, multiset{}, multiset{}, 0)

  /** `Acknowledge` and `Drop` are the removals after a success and after a failure. */
  datatype Step = Enqueue(callId: string) | Restart | RestoreOne | Fetch | Acknowledge | Drop | Push | Crash

  /** A step that is not possible leaves everything as it is. */
  function Next(s: System, step: Step): System {
    match step
    case Enqueue(id) =>
      s.(lists := s.lists.(waiting := s.lists.waiting + [NewJob(id)]), enqueued := s.enqueued + multiset{id})
    case Restart => if s.phase.Down? then s.(phase := Restoring) else s
    case RestoreOne =>
      if !s.phase.Restoring? then s
      else if s.lists.processing == [] then s.(phase := Idle)
      else s.(lists := RestoredOne(s.lists))
    case Fetch =>
      if s.phase.Idle? && s.lists.waiting != [] then
        s.(lists := Fetched(s.lists), phase := Holding(s.lists.waiting[|s.lists.waiting| - 1]))
      else s
    case Acknowledge =>
      if s.phase.Holding? then
        s.(lists := Removed(s.lists, s.phase.job), phase := Idle,
          acknowledged := s.acknowledged + multiset{s.phase.job.callId})
      else s
    case Drop =>
      if s.phase.Holding? then s.(lists := Removed(s.lists, s.phase.job), phase := Retrying(s.phase.job)) else s
    case Push => if s.phase.Retrying? then s.(lists := Pushed(s.lists, s.phase.job), phase := Idle) else s
    case Crash =>
      if s.phase.Down? then s
      else s.(phase := Down, crashes := s.crashes + 1,
              lost := s.lost + if s.phase.Retrying? then multiset{s.phase.job.callId} else multiset{})
  }

  function Run(steps: seq<Step>): System {
    if steps == [] then START else Next(Run(steps[..|steps| - 1]), steps[|steps| - 1])
  }

  // ---- conservation ----

  function Ids(jobs: seq<Job>): multiset<string> {
    if jobs == [] then multiset{} else Ids(jobs[..|jobs| - 1]) + multiset{jobs[|jobs| - 1].callId}
  }

  /** The job that is in no list. */
  function InHand(phase: Phase): multiset<string> {
    if phase.Retrying? then multiset{phase.job.callId} else multiset{}
  }

  /** Every call id that was enqueued is in exactly one place. */
  ghost predicate Conserved(s: System) {
    s.enqueued
    == Ids(s.lists.waiting) + Ids(s.lists.processing) + Ids(s.lists.dead) + s.acknowledged + s.lost + InHand(s.phase)
  }

  /** The processing list holds the one job in hand, or what a crash left there. */
  predicate OneInHand(s: System) {
    match s.phase
    case Down => |s.lists.processing| <= 1
    case Restoring => |s.lists.processing| <= 1
    case Idle => s.lists.processing == []
    case Holding(job) => s.lists.processing == [job]
    case Retrying(job) => s.lists.processing == [] && job.attempt < 3
  }

  ghost predicate Ok(s: System) { Conserved(s) && OneInHand(s) && Alive(s.lists) && |s.lost| <= s.crashes }

  lemma IdsAppend(jobs: seq<Job>, job: Job)
    ensures Ids(jobs + [job]) == Ids(jobs) + multiset{job.callId}
  {
    assert (jobs + [job])[..|jobs|] == jobs;
  }

  lemma {:induction false} IdsPrepend(job: Job, jobs: seq<Job>)
    ensures Ids([job] + jobs) == Ids(jobs) + multiset{job.callId}
  {
    if jobs == [] {
      assert [job] + jobs == [] + [job];
      IdsAppend([], job);
    } else {
      var n := |jobs| - 1;
      assert jobs == jobs[..n] + [jobs[n]] && [job] + jobs == ([job] + jobs[..n]) + [jobs[n]];
      IdsPrepend(job, jobs[..n]);
      IdsAppend([job] + jobs[..n], jobs[n]);
      IdsAppend(jobs[..n], jobs[n]);
    }
  }

  lemma IdsOfOne(job: Job)
    ensures Ids([job]) == multiset{job.callId} && Ids([]) == multiset{} && Lrem([job], job) == []
  {
    IdsAppend([], job);
    assert [] + [job] == [job];
  }

  /** The last job leaves the waiting list; the first one joins it. */
  lemma MovesKeepIds(q: Lists)
    ensures q.waiting != [] ==>
              Ids(Fetched(q).waiting) + Ids(Fetched(q).processing) == Ids(q.waiting) + Ids(q.processing)
    ensures q.processing != [] ==>
              Ids(RestoredOne(q).waiting) + Ids(RestoredOne(q).processing) == Ids(q.waiting) + Ids(q.processing)
  {
    hide Ids;
    if q.waiting != [] {
      var n := |q.waiting| - 1;
      assert q.waiting == q.waiting[..n] + [q.waiting[n]];
      IdsAppend(q.waiting[..n], q.waiting[n]);
      IdsPrepend(q.waiting[n], q.processing);
    }
    if q.processing != [] {
      var n := |q.processing| - 1;
      assert q.processing == q.processing[..n] + [q.processing[n]];
      IdsAppend(q.processing[..n], q.processing[n]);
      IdsPrepend(q.processing[n], q.waiting);
    }
  }

  /** A removal takes the one job in process out of its list. */
  lemma RemovalConserves(s: System, step: Step)
    requires Conserved(s) && OneInHand(s) && s.phase.Holding? && (step.Acknowledge? || step.Drop?)
    ensures Conserved(Next(s, step))
  {
    hide Ids, Lrem;
    IdsOfOne(s.phase.job);
  }

  lemma PushConserves(s: System)
    requires Conserved(s) && s.phase.Retrying?
    ensures Conserved(Next(s, Push))
  {
    hide Ids;
    var tried := s.phase.job.(attempt := s.phase.job.attempt + 1);
    IdsAppend(s.lists.waiting, tried);
    IdsAppend(s.lists.dead, tried);
  }

  lemma EnqueueConserves(s: System, callId: string)
    requires Conserved(s)
    ensures Conserved(Next(s, Enqueue(callId)))
  {
    hide Ids;
    IdsAppend(s.lists.waiting, NewJob(callId));
  }

  lemma OtherStepsConserve(s: System, step: Step)
    requires Conserved(s) && (step.Fetch? || step.RestoreOne? || step.Restart? || step.Crash?)
    ensures Conserved(Next(s, step))
  {
    hide Ids, Fetched, RestoredOne;
    MovesKeepIds(s.lists);
    DeadStays(s.lists);
  }

  lemma DeadStays(q: Lists)
    ensures q.waiting != [] ==> Fetched(q).dead == q.dead
    ensures q.processing != [] ==> RestoredOne(q).dead == q.dead
  {
  }

  lemma StepConserves(s: System, step: Step)
    requires Conserved(s) && OneInHand(s)
    ensures Conserved(Next(s, step))
  {
    hide Conserved, Ids, Lrem, Pushed, Fetched, RestoredOne, OneInHand;
    match step {
      case Enqueue(id) => EnqueueConserves(s, id);
      case Acknowledge => if s.phase.Holding? { RemovalConserves(s, step); }
      case Drop => if s.phase.Holding? { RemovalConserves(s, step); }
      case Push => if s.phase.Retrying? { PushConserves(s); }
      case _ => OtherStepsConserve(s, step);
    }
  }

  /** Where the jobs of the lists come from. */
  lemma StepKeepsAlive(s: System, step: Step)
    requires OneInHand(s) && Alive(s.lists)
    ensures Alive(Next(s, step).lists)
  {
    if s.phase.Holding? { IdsOfOne(s.phase.job); }
    var after := Next(s, step).lists;
    assert forall j <- after.waiting :: j in s.lists.waiting || j in s.lists.processing
             || (step.Enqueue? && j == NewJob(step.callId))
             || (s.phase.Retrying? && j == s.phase.job.(attempt := s.phase.job.attempt + 1)
               && j.attempt < 3);
  }

  lemma StepKeepsHands(s: System, step: Step)
    requires OneInHand(s) && Alive(s.lists) && |s.lost| <= s.crashes
    ensures OneInHand(Next(s, step)) && |Next(s, step).lost| <= Next(s, step).crashes
  {
    hide Lrem;
    if s.phase.Holding? {
      IdsOfOne(s.phase.job);
      assert s.phase.job in s.lists.processing;
    }
  }

  lemma StepIsOk(s: System, step: Step)
    requires Ok(s)
    ensures Ok(Next(s, step))
  {
    hide Conserved, OneInHand, Alive, Next;
    StepConserves(s, step);
    StepKeepsAlive(s, step);
    StepKeepsHands(s, step);
  }

  /**
   * Over every run of single commands, crashes and restarts: every enqueued call is waiting, in process, dead,
   * acknowledged, in hand or lost, exactly once; no more are lost than there were crashes; jobs that are waiting or in
   * process have attempts left, and dead ones have used all three.
   */
  lemma {:induction false} RunsAreOk(steps: seq<Step>)
    ensures Ok(Run(steps))
  {
    if steps == [] {
      assert Alive(START.lists);
    } else {
      RunsAreOk(steps[..|steps| - 1]);
      hide Ok, Next;
      StepIsOk(Run(steps[..|steps| - 1]), steps[|steps| - 1]);
    }
  }

  // ---- when a job is lost ----

  /** A crash between the removal and the push of a failed job. */
  predicate LosesAt(steps: seq<Step>, t: nat)
    requires t < |steps|
  {
    steps[t] == Crash && Run(steps[..t]).phase.Retrying?
  }

  /** Only such a crash loses a job, and what is lost stays lost. */
  lemma OnlyACrashLoses(s: System, step: Step)
    ensures Next(s, step).lost != multiset{} <==> s.lost != multiset{} || (step == Crash && s.phase.Retrying?)
  {
    hide Removed, Pushed;
  }

  lemma LosesAtPrefix(steps: seq<Step>, n: nat, t: nat)
    requires t < n <= |steps|
    ensures LosesAt(steps, t) <==> LosesAt(steps[..n], t)
  {
    hide Run;
    assert steps[..n][..t] == steps[..t];
  }

  /** Jobs are lost exactly when the worker crashes with a failed job in its hands. */
  lemma {:induction false} WhenJobsAreLost(steps: seq<Step>)
    ensures Run(steps).lost != multiset{} <==> exists t :: 0 <= t < |steps| && LosesAt(steps, t)
  {
    if steps == [] {
    } else {
      hide Next;
      var n := |steps| - 1;
      var before := steps[..n];
      WhenJobsAreLost(before);
      OnlyACrashLoses(Run(before), steps[n]);
      assert Run(steps).lost != multiset{} <==> Run(before).lost != multiset{} || LosesAt(steps, n);
      hide Run, LosesAt;
      forall t | 0 <= t < n ensures LosesAt(steps, t) <==> LosesAt(before, t) {
        LosesAtPrefix(steps, n, t);
      }
      if t :| 0 <= t < |before| && LosesAt(before, t) {
        assert LosesAt(steps, t);
      }
      if t :| 0 <= t < |steps| && LosesAt(steps, t) {
        assert t == n || LosesAt(before, t);
      }
    }
  }

  /** Such a crash does happen: the job is in none of the lists any more. */
  lemma AJobCanBeLost(callId: string)
    ensures var s := Run([Restart, RestoreOne, Enqueue(callId), Fetch, Drop, Crash]);
            s.lost == multiset{callId} && s.lists == Lists([], [], [])
  {
    hide Run;
    var job := NewJob(callId);
    NoStepsYet();
    ThreeMore([], Restart, RestoreOne, Enqueue(callId));
    ThreeMore([Restart, RestoreOne, Enqueue(callId)], Fetch, Drop, Crash);
    assert [Restart, RestoreOne, Enqueue(callId)] + [Fetch, Drop, Crash]
        == [Restart, RestoreOne, Enqueue(callId), Fetch, Drop, Crash];
    assert [] + [job] == [job] && [job][..0] == [] && [job] + [] == [job];
    assert multiset{} + multiset{callId} == multiset{callId};
    IdsOfOne(job);
  }

  lemma NoStepsYet()
    ensures Run([]) == START
  {
  }

  lemma ThreeMore(steps: seq<Step>, a: Step, b: Step, c: Step)
    ensures Run(steps + [a, b, c]) == Next(Next(Next(Run(steps), a), b), c)
    ensures steps == [] ==> Run([a, b, c]) == Next(Next(Next(Run([]), a), b), c)
  {
    hide Run, Next;
    RunOne(steps, a);
    RunOne(steps + [a], b);
    RunOne(steps + [a] + [b], c);
    assert steps + [a] + [b] + [c] == steps + [a, b, c];
    if steps == [] { assert steps + [a, b, c] == [a, b, c]; }
  }

  lemma RunOne(steps: seq<Step>, step: Step)
    ensures Run(steps + [step]) == Next(Run(steps), step)
  {
    assert (steps + [step])[..|steps|] == steps;
  }

  // ---- the loop and its commands ----

  /** So many commands of the same kind. */
  function Repeated(s: System, step: Step, n: nat): System {
    if n == 0 then s else Next(Repeated(s, step, n - 1), step)
  }

  lemma {:induction false} RestoredSoFar(s: System, n: nat)
    requires s.phase.Restoring? && n <= |s.lists.processing|
    ensures var keep := |s.lists.processing| - n;
            Repeated(s, RestoreOne, n)
            == s.(lists := Lists(
                 s.lists.processing[keep..] + s.lists.waiting, s.lists.processing[..keep], s.lists.dead))
  {
    if n == 0 {
      assert s.lists.processing[..|s.lists.processing|] == s.lists.processing;
      assert s.lists.processing[|s.lists.processing|..] + s.lists.waiting == s.lists.waiting;
    } else {
      RestoredSoFar(s, n - 1);
      var p, k := s.lists.processing, |s.lists.processing| - n;
      assert p[..k + 1][..k] == p[..k] && p[..k + 1][k] == p[k];
      assert [p[k]] + (p[k + 1..] + s.lists.waiting) == p[k..] + s.lists.waiting;
    }
  }

  /**
   * After a restart every interrupted job goes back in front of the waiting ones, all in their order, and then the
   * worker is idle.
   */
  lemma RestoringIsSteps(s: System)
    requires s.phase.Restoring?
    ensures Repeated(s, RestoreOne, |s.lists.processing| + 1)
         == s.(lists := Lists(s.lists.processing + s.lists.waiting, [], s.lists.dead), phase := Idle)
  {
    RestoredSoFar(s, |s.lists.processing|);
    assert s.lists.processing[0..] == s.lists.processing && s.lists.processing[..0] == [];
  }

  /** One turn of the worker's loop is a fetch followed by one removal, and by a push if the summary failed. */
  lemma IterationIsSteps(s: System, fails: bool)
    requires s.phase.Idle? && s.lists.waiting != []
    ensures var fetched := Next(s, Fetch);
            var after := if fails then Next(Next(fetched, Drop), Push) else Next(fetched, Acknowledge);
            after.lists == Iteration(s.lists, fails) && after.phase.Idle? && after.lost == s.lost
  {
    hide Lrem;
  }
}
