/** What the submitter's calls achieve: udo_jpool_add_job publishes its job, at once if the queue
    is not full, and udo_jpool_wait and udo_jpool_destroy get to their ends. */
module JobPoolCalls {
  import opened JobPool
  import opened JobPoolQueue
  import opened JobPoolRun
  import opened JobPoolTheorems
  import opened JobPoolChecks
  import opened JobPoolShutdown
  import opened Words

  // -------------------------------------------------------------- single steps

  /** udo_jpool_add_job waits for a drain exactly if no whole slot is left behind the one
      at rear; else it goes on to publish. */
  lemma WaitsExactlyWhenFull(t: nat, job: Job, q: Queue, n: nat)
    requires JOB_SIZE <= q.size < WORD && q.rear < WORD
    ensures NextPc(CheckFull(t, job), q, n) == if q.rear + JOB_SIZE >= q.size then Drain(t, Publish(job)) else Bump(t, job)
  {
    U64Turn(q.size - JOB_SIZE);
    U64Fits(q.size - JOB_SIZE);
  }

  /** Between calls the pool accepts exactly the jobs that have a function and an argument. */
  lemma AcceptsProperJobs(s: Pool, job: Job)
    requires PoolInv(s) && s.sub == Idle
    ensures (exists s' :: Next(s, CallAdd(job), s')) <==> job.func != 0 && job.arg != 0
  {
    if job.func != 0 && job.arg != 0 {
      var n := |s.queues|;
      var s' := s.(sub := CheckFull(s.cur, job), cur := (s.cur + 1) % n, accepted := s.accepted + [job]);
      assert Next(s, CallAdd(job), s');
    }
  }

  /** Each of the submitter's wake-ups leaves the worker awake. */
  lemma WakeUpsWake(sub: SubmitterPc, q: Queue, q': Queue)
    requires sub.DrainWake? || sub.WakeWorker? || sub.ForceWake? || sub.CondWake?
    requires QueueStep(sub, q, q')
    ensures !q'.pc.Asleep? && q' == q.(pc := q'.pc) && (!q.pc.Asleep? ==> q' == q)
  {
  }

  /** How many steps the submitter is from the end of its call, when it need not wait. */
  function StepsLeft(sub: SubmitterPc, n: nat): nat {
    match sub
    case CheckFull(_, _) => 11
    case Drain(t, after) => if t < n then 5 + StepsAfter(t, after, n) else 0
    case DrainWake(t, after) => if t < n then 6 + StepsAfter(t, after, n) else 0
    case Reset(t, stage, after) => if t < n && stage < 4 then 4 - stage + StepsAfter(t, after, n) else 0
    case Bump(_, _) => 5
    case StoreFunc(_, _, _) => 4
    case StoreArg(_, _, _) => 3
    case AddCount(_) => 2
    case WakeWorker(_) => 1
    case StoreForce(t) => if t < n then 4 + 9 * (n - t - 1) else 0
    case ForceWake(t) => if t < n then 3 + 9 * (n - t - 1) else 0
    case CondWake(t) => if t < n then 2 + 9 * (n - t - 1) else 0
    case Join(t) => if t < n then 1 + 9 * (n - t - 1) else 0
    case _ => 0
  }

  /** ... once queue `t` is reset. */
  function StepsAfter(t: nat, after: After, n: nat): nat
    requires t < n
  {
    match after
    case Publish(_) => 5
    case KeepWaiting => 5 * (n - t - 1)
    case KeepDestroying => 4 + 9 * (n - t - 1)
  }

  /** Every step of the submitter brings its call nearer to its end, but for those that wait
      for jobs; the call is over when no steps are left. */
  lemma SubmitterGetsOn(sub: SubmitterPc, q: Queue, n: nat)
    requires Working(sub) && SubmitterOk(sub, n) && !sub.DrainWake? && (sub.Drain? ==> q.jobCount == 0)
    ensures StepsLeft(NextPc(sub, q, n), n) < StepsLeft(sub, n)
    ensures StepsLeft(NextPc(sub, q, n), n) == 0 <==> !Working(NextPc(sub, q, n))
  {
  }

  // ---------------------------------------------------------------- a drain

  /** Orders the states of a drain in which no work gets done. */
  function DrainRank(s: Pool, t: nat): nat
    requires t < |s.queues|
  {
    if s.sub.DrainWake? then 1 else if s.queues[t].pc.Asleep? then 2 else 0
  }

  lemma DrainQueueLive(r: Trace, t: nat)
    requires CleanRun(r) && Draining(Last(r).sub, t) && t < |Last(r).queues|
    ensures Live(Last(r).queues[t], Open) && SubmitterOk(Last(r).sub, |Last(r).queues|)
  {
    InvOverRun(r, |r.states| - 1);
    QueueLive(Last(r), t);
  }

  lemma BusyStepIsClean(s: Pool, t: nat)
    requires t < |s.queues| && Live(s.queues[t], Open) && s.queues[t].jobCount != 0 && Draining(s.sub, t)
    ensures Clean(s, Worker(t))
  {
    CountIsExact(s.queues[t]);
  }

  /** The same pool, but for what the worker of queue `t` and a drain of it change. */
  ghost predicate OnlyDrained(s: Pool, s': Pool, t: nat) {
    && t < |s.queues| && |s'.queues| == |s.queues| && s'.cur == s.cur && s'.accepted == s.accepted
    && forall u :: 0 <= u < |s.queues| && u != t ==> s'.queues[u] == s.queues[u]
  }

  /** p_queue_wait gets to see a job_count of zero. */
  lemma {:induction false} DrainEnds(r: Trace, r': Trace, t: nat, after: After) returns (x: Trace)
    requires Extends(r', r) && t < |Last(r').queues|
    requires Last(r').sub == Drain(t, after) || Last(r').sub == DrainWake(t, after)
    ensures Extends(x, r) && OnlyDrained(Last(r'), Last(x), t)
    ensures Last(x).sub == Drain(t, after) && Last(x).queues[t].jobCount == 0
    decreases Work(Last(r').queues[t]), DrainRank(Last(r'), t)
  {
    var s := Last(r');
    var q := s.queues[t];
    DrainQueueLive(r', t);
    if s.sub.DrainWake? {
      if q.pc.Asleep? { WakeWorks(q); }
      x := SubmitterGoes(r, r', t, Wake(q));
      x := DrainEnds(r, x, t, after);
    } else if q.jobCount == 0 {
      x := r';
    } else if q.pc.Asleep? {
      x := SubmitterGoes(r, r', t, q);
      x := DrainEnds(r, x, t, after);
    } else {
      BusyStepIsClean(s, t);
      var q' := SomeWorkerStep(q);
      WorkerStepWorks(q, q');
      x := WorkerGoes(r, r', t, q');
      x := DrainEnds(r, x, t, after);
    }
  }

  /** Where the submitter goes when queue `t` is reset. */
  function OnceReset(t: nat, after: After, n: nat): SubmitterPc {
    match after
    case Publish(job) => Bump(t, job)
    case KeepWaiting => if t + 1 < n then Drain(t + 1, KeepWaiting) else Waited
    case KeepDestroying => StoreForce(t)
  }

  /** The queue after `stage` stores of a reset. */
  function ResetTo(q: Queue, stage: nat): Queue {
    var q1 := if stage > 0 then q.(jobFree := 0) else q;
    var q2 := if stage > 1 then q1.(jobCount := 0) else q1;
    var q3 := if stage > 2 then q2.(front := 0) else q2;
    if stage > 3 then q3.(rear := 0) else q3
  }

  lemma {:induction false} ResetFrom(r: Trace, r': Trace, t: nat, after: After, q: Queue, stage: nat) returns (x: Trace)
    requires Extends(r', r) && t < |Last(r').queues| && stage <= 3
    requires Last(r').sub == Reset(t, stage, after) && Last(r').queues[t] == ResetTo(q, stage)
    ensures Extends(x, r) && OnlyDrained(Last(r'), Last(x), t)
    ensures Last(x).sub == OnceReset(t, after, |Last(r').queues|) && Last(x).queues[t] == ResetTo(q, 4)
    decreases 3 - stage
  {
    x := SubmitterGoes(r, r', t, ResetTo(q, stage + 1));
    if stage < 3 { x := ResetFrom(r, x, t, after, q, stage + 1); }
  }

  /** A drained queue is reset. */
  lemma ResetEnds(r: Trace, r': Trace, t: nat, after: After) returns (x: Trace)
    requires Extends(r', r) && t < |Last(r').queues|
    requires Last(r').sub == Drain(t, after) && Last(r').queues[t].jobCount == 0
    ensures Extends(x, r) && OnlyDrained(Last(r'), Last(x), t)
    ensures Last(x).sub == OnceReset(t, after, |Last(r').queues|)
    ensures Last(x).queues[t] == Last(r').queues[t].(jobFree := 0, jobCount := 0, front := 0, rear := 0)
  {
    var q := Last(r').queues[t];
    x := SubmitterGoes(r, r', t, q);
    x := ResetFrom(r, x, t, after, q, 0);
  }

  lemma DrainAndReset(r: Trace, r': Trace, t: nat, after: After) returns (x: Trace)
    requires Extends(r', r) && t < |Last(r').queues| && Last(r').sub == Drain(t, after)
    ensures Extends(x, r) && OnlyDrained(Last(r'), Last(x), t)
    ensures Last(x).sub == OnceReset(t, after, |Last(r').queues|)
  {
    x := DrainEnds(r, r', t, after);
    x := ResetEnds(r, x, t, after);
  }

  // ------------------------------------------------------------ udo_jpool_wait

  lemma {:induction false} SweepEnds(r: Trace, r': Trace, t: nat) returns (x: Trace)
    requires Extends(r', r) && t < |Last(r').queues| && Last(r').sub == Drain(t, KeepWaiting)
    ensures Extends(x, r) && Last(x).sub == Waited && Last(x).accepted == Last(r').accepted
    decreases |Last(r').queues| - t
  {
    x := DrainAndReset(r, r', t, KeepWaiting);
    if t + 1 < |Last(r').queues| { x := SweepEnds(r, x, t + 1); }
  }

  /** From every state between calls in which a clean run can end, udo_jpool_wait can be called
      and return. */
  lemma WaitCanReturn(r: Trace) returns (x: Trace)
    requires CleanRun(r) && Last(r).sub == Idle
    ensures Extends(x, r) && |x.events| > |r.events| && x.events[|r.events|] == CallWait
    ensures x.events[|x.events| - 1] == Return && Last(x).sub == Idle && Last(x).accepted == Last(r).accepted
  {
    InvOverRun(r, |r.states| - 1);
    var s := Last(r).(sub := Drain(0, KeepWaiting));
    ThenExtends(r, r, CallWait, s);
    var y := Then(r, CallWait, s);
    x := SweepEnds(y, y, 0);
    assert x.events[|r.events|] == y.events[|r.events|];
    var s' := Last(x).(sub := Idle);
    ThenExtends(y, x, Return, s');
    x := Then(x, Return, s');
  }

  // --------------------------------------------------------- udo_jpool_destroy

  /** Where the worker is when the force value may be stored: past that load. */
  function PastLoad(q: Queue): Queue {
    if q.pc.LoadFree? then q.(pc := SleepCall(q.jobFree)) else q
  }

  /** The force value is stored and both wake-ups follow. */
  lemma ForceAndWake(r: Trace, r': Trace, t: nat) returns (x: Trace)
    requires Extends(r', r) && t < |Last(r').queues| && Last(r').sub == StoreForce(t)
    requires LoopOk(Last(r').queues[t].pc) && !Last(r').queues[t].pc.LoadFree?
    ensures Extends(x, r) && Last(x).sub == Join(t) && |Last(x).queues| == |Last(r').queues|
    ensures Last(x).accepted == Last(r').accepted
    ensures Leaving(Last(x).queues[t], Join(t), t)
  {
    var q := Last(r').queues[t].(jobFree := FORCE);
    x := SubmitterGoes(r, r', t, q);
    x := SubmitterGoes(r, x, t, Wake(q));
    x := SubmitterGoes(r, x, t, Wake(Wake(q)));
  }

  /** A worker that is about to load job_free loads it first. */
  lemma ForceEnds(r: Trace, r': Trace, t: nat) returns (x: Trace)
    requires Extends(r', r) && t < |Last(r').queues| && Last(r').sub == StoreForce(t)
    ensures Extends(x, r) && Last(x).sub == Join(t) && |Last(x).queues| == |Last(r').queues|
    ensures Last(x).accepted == Last(r').accepted
    ensures Leaving(Last(x).queues[t], Join(t), t)
  {
    DrainedAtForce(r', t);
    x := r';
    if Last(r').queues[t].pc.LoadFree? { x := WorkerGoes(r, x, t, PastLoad(Last(r').queues[t])); }
    x := ForceAndWake(r, x, t);
  }

  lemma DrainedAtForce(r: Trace, t: nat)
    requires CleanRun(r) && t < |Last(r).queues| && Last(r).sub == StoreForce(t)
    ensures LoopOk(Last(r).queues[t].pc) && Last(r).queues[t].jobFree == 0
  {
    InvOverRun(r, |r.states| - 1);
    QueueLive(Last(r), t);
  }

  /** The worker leaves, and destroy joins it. */
  lemma {:induction false} JoinEnds(r: Trace, r': Trace, t: nat) returns (x: Trace)
    requires Extends(r', r) && t < |Last(r').queues| && Last(r').sub == Join(t)
    requires Leaving(Last(r').queues[t], Join(t), t)
    ensures Extends(x, r) && |Last(x).queues| == |Last(r').queues| && Last(x).accepted == Last(r').accepted
    ensures Last(x).sub == if t + 1 < |Last(r').queues| then Drain(t + 1, KeepDestroying) else Destroyed
    decreases StepsToExit(Last(r').queues[t])
  {
    InvOverRun(r', |r'.states| - 1);
    QueueLive(Last(r'), t);
    var q := Last(r').queues[t];
    if q.pc.Exited? {
      x := SubmitterGoes(r, r', t, q);
    } else {
      ShutHasStep(q);
      var q' :| WorkerStep(q, q');
      WorkerKeepsLeaving(q, q', Join(t), t);
      x := WorkerGoes(r, r', t, q');
      x := JoinEnds(r, x, t);
    }
  }

  lemma {:induction false} TeardownEnds(r: Trace, r': Trace, t: nat) returns (x: Trace)
    requires Extends(r', r) && t < |Last(r').queues| && Last(r').sub == Drain(t, KeepDestroying)
    ensures Extends(x, r) && Last(x).sub == Destroyed && Last(x).accepted == Last(r').accepted
    decreases |Last(r').queues| - t
  {
    x := DrainAndReset(r, r', t, KeepDestroying);
    x := ForceEnds(r, x, t);
    x := JoinEnds(r, x, t);
    if t + 1 < |Last(r').queues| { x := TeardownEnds(r, x, t + 1); }
  }

  /** From every state between calls in which a clean run can end, udo_jpool_destroy can be
      called and unmap the queues. */
  lemma DestroyCanReturn(r: Trace) returns (x: Trace)
    requires CleanRun(r) && Last(r).sub == Idle
    ensures Extends(x, r) && |x.events| > |r.events| && x.events[|r.events|] == CallDestroy
    ensures Last(x).sub == Destroyed && Last(x).accepted == Last(r).accepted
  {
    InvOverRun(r, |r.states| - 1);
    var s := Last(r).(sub := Drain(0, KeepDestroying));
    ThenExtends(r, r, CallDestroy, s);
    var y := Then(r, CallDestroy, s);
    x := TeardownEnds(y, y, 0);
    assert x.events[|r.events|] == y.events[|r.events|];
  }

  // --------------------------------------------------------- udo_jpool_add_job

  /** Queue `q` with rear bumped and `job` in the slot it was at. */
  function Stored(q: Queue, job: Job): Queue
    requires InRegion(q, q.rear)
  {
    q.(rear := q.rear + JOB_SIZE, slots := q.slots[Index(q.rear) := job])
  }

  /** Queue `q` with one more job published, and its worker woken. */
  function WithJob(q: Queue, job: Job): Queue
    requires InRegion(q, q.rear)
  {
    Wake(Stored(q, job).(jobCount := U32(q.jobCount + 1)))
  }

  lemma StoreSteps(q: Queue, t: nat, job: Job)
    requires InRegion(q, q.rear) && U32(q.rear + JOB_SIZE) == q.rear + JOB_SIZE
    ensures QueueStep(Bump(t, job), q, q.(rear := q.rear + JOB_SIZE))
    ensures QueueStep(StoreFunc(t, job, q.rear), q.(rear := q.rear + JOB_SIZE), Stored(q, Job(job.func, q.slots[Index(q.rear)].arg)))
    ensures QueueStep(StoreArg(t, job, q.rear), Stored(q, Job(job.func, q.slots[Index(q.rear)].arg)), Stored(q, job))
  {
  }

  /** The submitter bumps rear and stores the job. */
  lemma StoreEnds(r: Trace, r': Trace, t: nat, job: Job) returns (x: Trace)
    requires Extends(r', r) && t < |Last(r').queues| && Last(r').sub == Bump(t, job)
    ensures Extends(x, r) && |x.events| == |r'.events| + 3
    ensures InRegion(Last(r').queues[t], Last(r').queues[t].rear)
    ensures Last(x) == Put(Last(r'), t, Stored(Last(r').queues[t], job), AddCount(t))
  {
    RoomAtBump(r', t);
    var q := Last(r').queues[t];
    StoreSteps(q, t, job);
    x := SubmitterGoes(r, r', t, q.(rear := q.rear + JOB_SIZE));
    x := SubmitterGoes(r, x, t, Stored(q, Job(job.func, q.slots[Index(q.rear)].arg)));
    x := SubmitterGoes(r, x, t, Stored(q, job));
  }

  lemma RoomAtBump(r: Trace, t: nat)
    requires CleanRun(r) && t < |Last(r).queues| && Last(r).sub.Bump? && Last(r).sub.t == t
    ensures var q := Last(r).queues[t]; InRegion(q, q.rear) && U32(q.rear + JOB_SIZE) == q.rear + JOB_SIZE
  {
    InvOverRun(r, |r.states| - 1);
    QueueLive(Last(r), t);
    RoomForJob(Last(r).queues[t]);
  }

  /** The submitter's five steps of publication, taken at once. */
  lemma PublishEnds(r: Trace, r': Trace, t: nat, job: Job) returns (x: Trace)
    requires Extends(r', r) && t < |Last(r').queues| && Last(r').sub == Bump(t, job)
    ensures Extends(x, r) && |x.events| == |r'.events| + 5
    ensures InRegion(Last(r').queues[t], Last(r').queues[t].rear)
    ensures Last(x) == Put(Last(r'), t, WithJob(Last(r').queues[t], job), Idle)
  {
    x := StoreEnds(r, r', t, job);
    var q := Last(x).queues[t];
    x := SubmitterGoes(r, x, t, q.(jobCount := U32(q.jobCount + 1)));
    x := SubmitterGoes(r, x, t, Wake(q.(jobCount := U32(q.jobCount + 1))));
  }

  lemma RoomForJob(q: Queue)
    requires Live(q, Room)
    ensures InRegion(q, q.rear) && U32(q.rear + JOB_SIZE) == q.rear + JOB_SIZE
  {
    U32Fits(q.rear + JOB_SIZE);
  }

  /** The pool when udo_jpool_add_job has chosen a queue and tested whether it is full. */
  function Chosen(s: Pool, job: Job): Pool
    requires s.cur < |s.queues|
  {
    var q := s.queues[s.cur];
    s.(sub := if q.rear + JOB_SIZE >= q.size then Drain(s.cur, Publish(job)) else Bump(s.cur, job),
       cur := (s.cur + 1) % |s.queues|, accepted := s.accepted + [job])
  }

  /** The call, up to there. */
  lemma AddStarts(r: Trace, job: Job) returns (x: Trace)
    requires CleanRun(r) && Last(r).sub == Idle && job.Proper()
    ensures Last(r).cur < |Last(r).queues|
    ensures Extends(x, r) && x.events == r.events + [CallAdd(job), Submitter] && Last(x) == Chosen(Last(r), job)
  {
    var s := Last(r);
    CurQueue(r);
    var t, n := s.cur, |s.queues|;
    var s' := s.(sub := CheckFull(t, job), cur := (t + 1) % n, accepted := s.accepted + [job]);
    ThenExtends(r, r, CallAdd(job), s');
    x := Then(r, CallAdd(job), s');
    WaitsExactlyWhenFull(t, job, s.queues[t], n);
    x := SubmitterGoes(r, x, t, s.queues[t]);
    assert Last(x).queues == s.queues;
  }

  lemma CurQueue(r: Trace)
    requires CleanRun(r) && Last(r).sub == Idle
    ensures var s := Last(r);
            s.cur < |s.queues| && JOB_SIZE <= s.queues[s.cur].size < WORD && s.queues[s.cur].rear < WORD
  {
    InvOverRun(r, |r.states| - 1);
    QueueLive(Last(r), Last(r).cur);
  }

  /** If the queue is not full, udo_jpool_add_job publishes without waiting: seven steps of the
      submitter leave the job in the slot at rear, counted, and the worker awake. */
  lemma AddPublishesAtOnce(r: Trace, job: Job) returns (x: Trace)
    requires CleanRun(r) && Last(r).sub == Idle && job.Proper()
    requires Last(r).cur < |Last(r).queues|
    requires Last(r).queues[Last(r).cur].rear + JOB_SIZE < Last(r).queues[Last(r).cur].size
    ensures var s := Last(r);
            && InRegion(s.queues[s.cur], s.queues[s.cur].rear)
            && Extends(x, r) && |x.events| == |r.events| + 7
            && Last(x) == s.(queues := s.queues[s.cur := WithJob(s.queues[s.cur], job)],
                             cur := (s.cur + 1) % |s.queues|, accepted := s.accepted + [job])
  {
    x := AddStarts(r, job);
    x := PublishEnds(r, x, Last(r).cur, job);
  }

  /** From every state between calls in which a clean run can end, udo_jpool_add_job can be
      called with any proper job, and return with the job accepted. */
  lemma AddCanReturn(r: Trace, job: Job) returns (x: Trace)
    requires CleanRun(r) && Last(r).sub == Idle && job.Proper()
    ensures Extends(x, r) && Last(x).sub == Idle && Last(x).accepted == Last(r).accepted + [job]
  {
    var t := Last(r).cur;
    x := AddStarts(r, job);
    if Last(x).sub.Drain? { x := DrainAndReset(r, x, t, Publish(job)); }
    x := PublishEnds(r, x, t, job);
  }
}
