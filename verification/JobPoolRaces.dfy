/** What can go wrong in the job pool, and exactly when.  The examples are runs of one worker
    and one queue of two slots. */
module JobPoolRaces {
  import opened JobPool
  import opened JobPoolChecks
  import opened JobPoolQueue
  import opened JobPoolRun
  import opened JobPoolTheorems
  import opened RoundRobin
  import opened Runs
  import opened Words

  /** A run in which nothing goes wrong but in the ways of `a`. */
  ghost predicate RunTearing(r: Trace, a: set<Tear>) {
    && IsRun(r) && Roomy(r.states[0])
    && forall i, k :: 0 <= i < |r.events| && Tears(r.states[i], r.events[i], k) ==> k in a
  }

  /** Such a run can end in `s`. */
  ghost predicate Reachable(s: Pool, a: set<Tear>) {
    exists r: Trace :: RunTearing(r, a) && r.states[|r.states| - 1] == s
  }

  /** The pool's promises for queue `t`: first in, first out, exactly once; and until shutdown
      job_count is exact, but for a job that is published and not yet counted, or dequeued
      and not yet published. */
  ghost predicate Promise(s: Pool, t: nat)
    requires t < |s.queues|
  {
    var q, ph := s.queues[t], PhaseOf(s.sub, t);
    && Dealt(s, t) == q.executed + InFlight(q) + Pending(q, ph) + Carried(s.sub, t)
    && (!ShutDown(ph) ==> q.jobCount == CountDue(q, ph))
  }

  ghost predicate PromisedAt(r: Trace, i: nat) {
    i < |r.states| && forall t {:trigger r.states[i].queues[t]} :: 0 <= t < |r.states[i].queues| ==> Promise(r.states[i], t)
  }

  /** A run keeps its promises in every state if and only if it is clean. */
  lemma RunKeepsPromisesExactly(r: Trace)
    requires IsRun(r) && Roomy(r.states[0])
    ensures (forall i :: 0 <= i < |r.states| ==> PromisedAt(r, i)) <==> CleanRun(r)
  {
    if CleanRun(r) {
      forall i | 0 <= i < |r.states|
        ensures PromisedAt(r, i)
      {
        forall t | 0 <= t < |r.states[i].queues|
          ensures Promise(r.states[i], t)
        {
          QueueInvAt(r, i, t);
        }
      }
    }
    if forall i :: 0 <= i < |r.states| ==> PromisedAt(r, i) {
      forall i | 0 <= i < |r.events|
        ensures Clean(r.states[i], r.events[i])
      {
        assert PromisedAt(r, i + 1);
        PromisedSoInv(r, i);
        CleanIfPromised(r, i);
      }
    }
  }

  ghost predicate InvAt(r: Trace, i: nat) { i < |r.states| && PoolInv(r.states[i]) }

  lemma InvStart(r: Trace)
    requires IsRun(r) && Roomy(r.states[0])
    ensures InvAt(r, 0)
  {
    InitHolds(r.states[0]);
  }

  lemma InvStep(r: Trace, i: nat)
    requires IsRun(r) && i < |r.events| && InvAt(r, i) && PromisedAt(r, i + 1)
    ensures InvAt(r, i + 1)
  {
    CleanIfPromised(r, i);
    NextKeeps(r.states[i], r.events[i], r.states[i + 1]);
  }

  /** As long as the promises are kept, the invariant holds. */
  lemma PromisedSoInv(r: Trace, i: nat)
    requires IsRun(r) && Roomy(r.states[0]) && i < |r.states| && forall k :: 0 <= k < |r.states| ==> PromisedAt(r, k)
    ensures InvAt(r, i)
  {
    ghost var p := (m: nat) => InvAt(r, m);
    InvStart(r);
    forall m | 0 <= m < i
      ensures Carries(p, m)
    {
      if p(m) { InvStep(r, m); }
    }
    CarriedOver(p, 0, i);
  }

  lemma CleanIfPromised(r: Trace, i: nat)
    requires IsRun(r) && i < |r.events| && PoolInv(r.states[i]) && PromisedAt(r, i + 1)
    ensures Clean(r.states[i], r.events[i])
  {
    if !Clean(r.states[i], r.events[i]) {
      var w := MishapBreaksPromise(r.states[i], r.events[i], r.states[i + 1]);
    }
  }

  /** The first mishap breaks a promise at once. */
  lemma MishapBreaksPromise(s: Pool, e: Event, s': Pool) returns (w: nat)
    requires PoolInv(s) && Next(s, e, s') && !Clean(s, e)
    ensures w < |s'.queues| && !Promise(s', w)
  {
    w := e.w;
    var ph, acc := PhaseOf(s.sub, w), Share(s.accepted, w, |s.queues|);
    assert QueueFor(s.queues[w], s.sub, w, acc);
    if Tears(s, e, EarlyUse) {
      if s.sub.StoreFunc? { EarlyTestMiscounts(s.queues[w], s'.queues[w], ph); }
      else { EarlyCallAddsToLine(s.queues[w], s'.queues[w], ph); }
    } else {
      EmptyDequeueMiscounts(s.queues[w], s'.queues[w], ph);
    }
  }

  /** The worker finds no function in the slot being stored, and is about to count a job down
      that it has not taken. */
  lemma EarlyTestMiscounts(q: Queue, q': Queue, ph: Phase)
    requires Live(q, ph) && ph.Bumped? && q.pc == TestFunc(ph.off) && WorkerStep(q, q')
    ensures q'.jobCount != CountDue(q', ph)
  {
    assert q' == q.(pc := Decrement);
    assert Pending(q, ph) == [] && Pending(q', ph) == [];
    U32Turn(0);
    U32Fits(0);
    U32Fits(1);
  }

  /** The worker calls a job without its argument. */
  lemma EarlyCallAddsToLine(q: Queue, q': Queue, ph: Phase)
    requires Live(q, ph) && ph.HalfStored? && q.pc == Run(ph.off) && WorkerStep(q, q')
    ensures |Line(q', ph)| == |Line(q, ph)| + 1
  {
    assert Pending(q', ph) == Pending(q, ph) == [] && InFlight(q) == InFlight(q') == [];
  }

  /** The worker holds a job more than has been counted. */
  lemma EmptyDequeueMiscounts(q: Queue, q': Queue, ph: Phase)
    requires Live(q, ph) && !ShutDown(ph) && q.pc.Dequeue? && WorkerStep(q, q')
    requires q.rear <= q.front || (ph.Resetting? && ph.stage == 3)
    ensures q'.jobCount != CountDue(q', ph)
  {
    NothingOutstanding(q, ph);
    assert q'.jobCount == q.jobCount && !Taken(q', ph) && |Pending(q', ph)| <= |q.slots| < WORD - 1;
    OneTooMany(Outstanding(q', ph));
  }

  lemma NothingOutstanding(q: Queue, ph: Phase)
    requires Live(q, ph) && !ShutDown(ph) && q.pc.Dequeue?
    requires q.rear <= q.front || (ph.Resetting? && ph.stage == 3)
    ensures !ph.Bumped? && !ph.HalfStored? && q.jobCount == U32(if ph.Uncounted? then WORD - 1 else 0)
  {
    assert Pending(q, ph) == [];
  }

  lemma OneTooMany(n: nat)
    requires 1 <= n < WORD
    ensures U32(n) != U32(0) && U32(n + (WORD - 1)) != U32(WORD - 1)
  {
    U32Fits(n);
    U32Fits(n - 1);
    U32Turn(n - 1);
    U32Fits(WORD - 1);
  }

  /** The pool keeps its promises as long as nothing goes wrong but in the ways of `a`. */
  ghost predicate Keeps(a: set<Tear>) {
    forall s, t: nat :: Reachable(s, a) && t < |s.queues| ==> Promise(s, t)
  }

  /** The pool keeps its promises if and only if no slot is used early, and either no dequeue
      finds the queue empty or no reset tears a check. */
  lemma PromisesKeptExactly(a: set<Tear>)
    ensures Keeps(a) <==> EarlyUse !in a && !(EmptyDequeue in a && (InsideReset in a || BetweenLoads in a))
  {
    if EarlyUse in a {
      EarlyUseBreaksPromise(a);
    } else if EmptyDequeue in a && InsideReset in a {
      TornResetBreaksPromise(a, InsideReset);
    } else if EmptyDequeue in a && BetweenLoads in a {
      TornResetBreaksPromise(a, BetweenLoads);
    } else {
      forall s, t: nat | Reachable(s, a) && t < |s.queues|
        ensures Promise(s, t)
      {
        var r :| RunTearing(r, a) && r.states[|r.states| - 1] == s;
        HarmlessIsClean(r, a);
        CleanKeepsPromise(r, t);
      }
    }
  }

  lemma HarmlessIsClean(r: Trace, a: set<Tear>)
    requires RunTearing(r, a) && EarlyUse !in a && !(EmptyDequeue in a && (InsideReset in a || BetweenLoads in a))
    ensures CleanRun(r)
  {
    if EmptyDequeue in a {
      assert forall i :: 0 <= i < |r.events| ==> Untorn(r.states[i], r.events[i]);
      UntornIsClean(r);
    } else {
      assert forall i :: 0 <= i < |r.events| ==> Clean(r.states[i], r.events[i]);
    }
  }

  lemma CleanKeepsPromise(r: Trace, t: nat)
    requires CleanRun(r) && t < |Last(r).queues|
    ensures Promise(Last(r), t)
  {
    QueueInvAt(r, |r.states| - 1, t);
  }

  lemma ReachableMono(s: Pool, a: set<Tear>, b: set<Tear>)
    requires Reachable(s, a) && a <= b
    ensures Reachable(s, b)
  {
    var r :| RunTearing(r, a) && r.states[|r.states| - 1] == s;
    assert RunTearing(r, b);
  }

  lemma EarlyUseBreaksPromise(a: set<Tear>)
    requires EarlyUse in a
    ensures !Keeps(a)
  {
    EarlyUseLosesJob();
    var s :| Reachable(s, {EarlyUse}) && LostJob(s);
    ReachableMono(s, {EarlyUse}, a);
    LostJobBreaksPromise(s);
  }

  lemma LostJobBreaksPromise(s: Pool)
    requires LostJob(s)
    ensures !Promise(s, 0)
  {
    ShareStep([], JOB, 0, 1);
    assert [] + [JOB] == [JOB] && Share<Job>([], 0, 1) == [];
    assert Dealt(s, 0) == [JOB];
    assert Pending(s.queues[0], Open) == [];
  }

  lemma TornResetBreaksPromise(a: set<Tear>, k: Tear)
    requires EmptyDequeue in a && k in a && (k == InsideReset || k == BetweenLoads)
    ensures !Keeps(a)
  {
    TornResetWrapsCount(k);
    var s :| Reachable(s, {k, EmptyDequeue}) && WrappedCount(s);
    ReachableMono(s, {k, EmptyDequeue}, a);
    assert !Promise(s, 0);
  }

  /** The queue's only job was accepted and not executed, and nothing is queued or counted. */
  ghost predicate LostJob(s: Pool) {
    && |s.queues| == 1 && s.sub == Idle && s.accepted == [JOB]
    && s.queues[0].executed == [] && s.queues[0].pc == CanLoop
    && s.queues[0].jobCount == 0 && s.queues[0].front == s.queues[0].rear
  }

  /** The queue's only job is done, yet job_count is below zero, and front beyond rear. */
  ghost predicate WrappedCount(s: Pool) {
    && |s.queues| == 1 && s.sub == Idle && s.accepted == [JOB]
    && s.queues[0].executed == [JOB] && s.queues[0].pc == CanLoop
    && s.queues[0].jobCount == WORD - 1 && s.queues[0].front > s.queues[0].rear
  }

  lemma Step(a: set<Tear>, s: Pool, e: Event, s': Pool)
    requires Reachable(s, a) && Next(s, e, s') && (forall k :: Tears(s, e, k) ==> k in a)
    ensures Reachable(s', a)
  {
    var r :| RunTearing(r, a) && r.states[|r.states| - 1] == s;
    var r' := Trace(r.states + [s'], r.events + [e]);
    assert forall i :: 0 <= i < |r.events| ==> r'.events[i] == r.events[i];
    assert forall i :: 0 <= i < |r.states| ==> r'.states[i] == r.states[i];
    assert RunTearing(r', a) && r'.states[|r'.states| - 1] == s';
  }

  /** A step of the only worker. */
  lemma WorkerMoves(a: set<Tear>, s: Pool, s': Pool)
    requires Reachable(s, a)
    requires |s.queues| == 1 && |s'.queues| == 1 && WorkerStep(s.queues[0], s'.queues[0])
    requires s' == s.(queues := [s'.queues[0]])
    requires Tears(s, Worker(0), EarlyUse) ==> EarlyUse in a
    requires Tears(s, Worker(0), EmptyDequeue) ==> EmptyDequeue in a
    requires Tears(s, Worker(0), InsideReset) ==> InsideReset in a
    ensures Reachable(s', a)
  {
    Step(a, s, Worker(0), s');
  }

  /** A step of the submitter on the only queue. */
  lemma SubmitterMoves(a: set<Tear>, s: Pool, s': Pool)
    requires Reachable(s, a)
    requires |s.queues| == 1 && |s'.queues| == 1 && Working(s.sub) && s.sub.t == 0
    requires QueueStep(s.sub, s.queues[0], s'.queues[0])
    requires s' == s.(sub := NextPc(s.sub, s.queues[0], 1), queues := [s'.queues[0]])
    requires Tears(s, Submitter, BetweenLoads) ==> BetweenLoads in a
    ensures Reachable(s', a)
  {
    Step(a, s, Submitter, s');
  }

  /** The submitter enters or leaves a call. */
  lemma Call(a: set<Tear>, s: Pool, e: Event, s': Pool)
    requires Reachable(s, a) && !e.Worker? && !e.Submitter? && Next(s, e, s')
    ensures Reachable(s', a)
  {
    Step(a, s, e, s');
  }

  const JOB: Job := Job(1, 1)

  /** The pool of the examples: one queue of two slots. */
  function One(sub: SubmitterPc, accepted: seq<Job>, count: nat, front: nat, rear: nat,
               slot: Job, pc: WorkerPc, executed: seq<Job>): Pool {
    Pool([Queue(32, 0, count, front, rear, [slot, CLEARED], pc, executed)], 0, sub, accepted)
  }

  lemma Start(a: set<Tear>)
    ensures Reachable(One(Idle, [], 0, 0, 0, CLEARED, CanLoop, []), a)
  {
    var s := One(Idle, [], 0, 0, 0, CLEARED, CanLoop, []);
    var r := Trace([s], []);
    assert RunTearing(r, a) && r.states[|r.states| - 1] == s;
  }

  /** With only rear bumped, the worker dequeues the cleared slot ... */
  lemma SlotTaken()
    ensures Reachable(One(StoreFunc(0, JOB, 0), [JOB], 0, 0, 16, CLEARED, Dequeue, []), {EarlyUse})
  {
    Start({EarlyUse});
    Call({EarlyUse}, One(Idle, [], 0, 0, 0, CLEARED, CanLoop, []), CallAdd(JOB),
      One(CheckFull(0, JOB), [JOB], 0, 0, 0, CLEARED, CanLoop, []));
    SubmitterMoves({EarlyUse}, One(CheckFull(0, JOB), [JOB], 0, 0, 0, CLEARED, CanLoop, []),
      One(Bump(0, JOB), [JOB], 0, 0, 0, CLEARED, CanLoop, []));
    SubmitterMoves({EarlyUse}, One(Bump(0, JOB), [JOB], 0, 0, 0, CLEARED, CanLoop, []),
      One(StoreFunc(0, JOB, 0), [JOB], 0, 0, 16, CLEARED, CanLoop, []));
    WorkerMoves({EarlyUse}, One(StoreFunc(0, JOB, 0), [JOB], 0, 0, 16, CLEARED, CanLoop, []),
      One(StoreFunc(0, JOB, 0), [JOB], 0, 0, 16, CLEARED, LoadRear, []));
    WorkerMoves({EarlyUse}, One(StoreFunc(0, JOB, 0), [JOB], 0, 0, 16, CLEARED, LoadRear, []),
      One(StoreFunc(0, JOB, 0), [JOB], 0, 0, 16, CLEARED, LoadFront(16), []));
    WorkerMoves({EarlyUse}, One(StoreFunc(0, JOB, 0), [JOB], 0, 0, 16, CLEARED, LoadFront(16), []),
      One(StoreFunc(0, JOB, 0), [JOB], 0, 0, 16, CLEARED, Dequeue, []));
  }

  /** ... finds no function in it, and counts it down. */
  lemma SlotTestedEarly()
    ensures Reachable(One(StoreFunc(0, JOB, 0), [JOB], WORD - 1, 16, 16, CLEARED, CanLoop, []), {EarlyUse})
  {
    SlotTaken();
    WorkerMoves({EarlyUse}, One(StoreFunc(0, JOB, 0), [JOB], 0, 0, 16, CLEARED, Dequeue, []),
      One(StoreFunc(0, JOB, 0), [JOB], 0, 16, 16, CLEARED, TestFunc(0), []));
    WorkerMoves({EarlyUse}, One(StoreFunc(0, JOB, 0), [JOB], 0, 16, 16, CLEARED, TestFunc(0), []),
      One(StoreFunc(0, JOB, 0), [JOB], 0, 16, 16, CLEARED, Decrement, []));
    WorkerMoves({EarlyUse}, One(StoreFunc(0, JOB, 0), [JOB], 0, 16, 16, CLEARED, Decrement, []),
      One(StoreFunc(0, JOB, 0), [JOB], WORD - 1, 16, 16, CLEARED, CanLoop, []));
  }

  /** The job is then stored behind front ... */
  lemma SlotStoredLate()
    ensures Reachable(One(AddCount(0), [JOB], WORD - 1, 16, 16, JOB, CanLoop, []), {EarlyUse})
  {
    SlotTestedEarly();
    SubmitterMoves({EarlyUse}, One(StoreFunc(0, JOB, 0), [JOB], WORD - 1, 16, 16, CLEARED, CanLoop, []),
      One(StoreArg(0, JOB, 0), [JOB], WORD - 1, 16, 16, Job(1, 0), CanLoop, []));
    SubmitterMoves({EarlyUse}, One(StoreArg(0, JOB, 0), [JOB], WORD - 1, 16, 16, Job(1, 0), CanLoop, []),
      One(AddCount(0), [JOB], WORD - 1, 16, 16, JOB, CanLoop, []));
  }

  /** ... and counted: job_count is zero, so udo_jpool_wait would return, and the accepted job
      has not been executed. */
  lemma EarlyUseLosesJob()
    ensures exists s: Pool :: Reachable(s, {EarlyUse}) && LostJob(s)
  {
    SlotStoredLate();
    SubmitterMoves({EarlyUse}, One(AddCount(0), [JOB], WORD - 1, 16, 16, JOB, CanLoop, []),
      One(WakeWorker(0), [JOB], 0, 16, 16, JOB, CanLoop, []));
    SubmitterMoves({EarlyUse}, One(WakeWorker(0), [JOB], 0, 16, 16, JOB, CanLoop, []),
      One(Idle, [JOB], 0, 16, 16, JOB, CanLoop, []));
    assert LostJob(One(Idle, [JOB], 0, 16, 16, JOB, CanLoop, []));
  }

  /** One job is half published. */
  lemma JobBumped(a: set<Tear>)
    ensures Reachable(One(StoreFunc(0, JOB, 0), [JOB], 0, 0, 16, CLEARED, CanLoop, []), a)
  {
    Start(a);
    Call(a, One(Idle, [], 0, 0, 0, CLEARED, CanLoop, []), CallAdd(JOB),
      One(CheckFull(0, JOB), [JOB], 0, 0, 0, CLEARED, CanLoop, []));
    SubmitterMoves(a, One(CheckFull(0, JOB), [JOB], 0, 0, 0, CLEARED, CanLoop, []),
      One(Bump(0, JOB), [JOB], 0, 0, 0, CLEARED, CanLoop, []));
    SubmitterMoves(a, One(Bump(0, JOB), [JOB], 0, 0, 0, CLEARED, CanLoop, []),
      One(StoreFunc(0, JOB, 0), [JOB], 0, 0, 16, CLEARED, CanLoop, []));
  }

  /** The rest of a publication past a worker that stays where it is. */
  lemma PublishedPast(pc: WorkerPc, a: set<Tear>)
    requires Reachable(One(StoreFunc(0, JOB, 0), [JOB], 0, 0, 16, CLEARED, pc, []), a)
    ensures Reachable(One(WakeWorker(0), [JOB], 1, 0, 16, JOB, pc, []), a)
  {
    SubmitterMoves(a, One(StoreFunc(0, JOB, 0), [JOB], 0, 0, 16, CLEARED, pc, []),
      One(StoreArg(0, JOB, 0), [JOB], 0, 0, 16, Job(1, 0), pc, []));
    SubmitterMoves(a, One(StoreArg(0, JOB, 0), [JOB], 0, 0, 16, Job(1, 0), pc, []),
      One(AddCount(0), [JOB], 0, 0, 16, JOB, pc, []));
    SubmitterMoves(a, One(AddCount(0), [JOB], 0, 0, 16, JOB, pc, []),
      One(WakeWorker(0), [JOB], 1, 0, 16, JOB, pc, []));
  }

  /** One job has been published. */
  lemma JobPublished(a: set<Tear>)
    ensures Reachable(One(Idle, [JOB], 1, 0, 16, JOB, CanLoop, []), a)
  {
    JobBumped(a);
    PublishedPast(CanLoop, a);
    SubmitterMoves(a, One(WakeWorker(0), [JOB], 1, 0, 16, JOB, CanLoop, []),
      One(Idle, [JOB], 1, 0, 16, JOB, CanLoop, []));
  }

  /** The worker has taken the job. */
  lemma JobTaken(a: set<Tear>)
    ensures Reachable(One(Idle, [JOB], 1, 16, 16, JOB, Run(0), []), a)
  {
    JobPublished(a);
    WorkerMoves(a, One(Idle, [JOB], 1, 0, 16, JOB, CanLoop, []),
      One(Idle, [JOB], 1, 0, 16, JOB, LoadRear, []));
    WorkerMoves(a, One(Idle, [JOB], 1, 0, 16, JOB, LoadRear, []),
      One(Idle, [JOB], 1, 0, 16, JOB, LoadFront(16), []));
    WorkerMoves(a, One(Idle, [JOB], 1, 0, 16, JOB, LoadFront(16), []),
      One(Idle, [JOB], 1, 0, 16, JOB, Dequeue, []));
    WorkerMoves(a, One(Idle, [JOB], 1, 0, 16, JOB, Dequeue, []),
      One(Idle, [JOB], 1, 16, 16, JOB, TestFunc(0), []));
    WorkerMoves(a, One(Idle, [JOB], 1, 16, 16, JOB, TestFunc(0), []),
      One(Idle, [JOB], 1, 16, 16, JOB, Run(0), []));
  }

  /** The worker has called the job function ... */
  lemma JobCalled(a: set<Tear>)
    ensures Reachable(One(Idle, [JOB], 1, 16, 16, JOB, ClearFunc(0), [JOB]), a)
  {
    JobTaken(a);
    WorkerMoves(a, One(Idle, [JOB], 1, 16, 16, JOB, Run(0), []),
      One(Idle, [JOB], 1, 16, 16, JOB, ClearFunc(0), [JOB]));
  }

  /** ... and cleared the slot. */
  lemma JobCleared(a: set<Tear>)
    ensures Reachable(One(Idle, [JOB], 1, 16, 16, CLEARED, Decrement, [JOB]), a)
  {
    JobCalled(a);
    WorkerMoves(a, One(Idle, [JOB], 1, 16, 16, JOB, ClearFunc(0), [JOB]),
      One(Idle, [JOB], 1, 16, 16, Job(0, 1), ClearArg(0), [JOB]));
    WorkerMoves(a, One(Idle, [JOB], 1, 16, 16, Job(0, 1), ClearArg(0), [JOB]),
      One(Idle, [JOB], 1, 16, 16, CLEARED, Decrement, [JOB]));
  }

  /** One job has been executed and the worker is about to look for the next. */
  lemma OneJobDone(a: set<Tear>)
    ensures Reachable(One(Idle, [JOB], 0, 16, 16, CLEARED, LoadRear, [JOB]), a)
  {
    JobCleared(a);
    WorkerMoves(a, One(Idle, [JOB], 1, 16, 16, CLEARED, Decrement, [JOB]),
      One(Idle, [JOB], 0, 16, 16, CLEARED, CanLoop, [JOB]));
    WorkerMoves(a, One(Idle, [JOB], 0, 16, 16, CLEARED, CanLoop, [JOB]),
      One(Idle, [JOB], 0, 16, 16, CLEARED, LoadRear, [JOB]));
  }

  /** front has been reset between the worker's two loads. */
  lemma ResetBetweenLoads(a: set<Tear>)
    requires BetweenLoads in a
    ensures Reachable(One(Reset(0, 3, KeepWaiting), [JOB], 0, 0, 16, CLEARED, LoadFront(16), [JOB]), a)
  {
    OneJobDone(a);
    WorkerMoves(a, One(Idle, [JOB], 0, 16, 16, CLEARED, LoadRear, [JOB]),
      One(Idle, [JOB], 0, 16, 16, CLEARED, LoadFront(16), [JOB]));
    Call(a, One(Idle, [JOB], 0, 16, 16, CLEARED, LoadFront(16), [JOB]), CallWait,
      One(Drain(0, KeepWaiting), [JOB], 0, 16, 16, CLEARED, LoadFront(16), [JOB]));
    SubmitterMoves(a, One(Drain(0, KeepWaiting), [JOB], 0, 16, 16, CLEARED, LoadFront(16), [JOB]),
      One(Reset(0, 0, KeepWaiting), [JOB], 0, 16, 16, CLEARED, LoadFront(16), [JOB]));
    SubmitterMoves(a, One(Reset(0, 0, KeepWaiting), [JOB], 0, 16, 16, CLEARED, LoadFront(16), [JOB]),
      One(Reset(0, 1, KeepWaiting), [JOB], 0, 16, 16, CLEARED, LoadFront(16), [JOB]));
    SubmitterMoves(a, One(Reset(0, 1, KeepWaiting), [JOB], 0, 16, 16, CLEARED, LoadFront(16), [JOB]),
      One(Reset(0, 2, KeepWaiting), [JOB], 0, 16, 16, CLEARED, LoadFront(16), [JOB]));
    SubmitterMoves(a, One(Reset(0, 2, KeepWaiting), [JOB], 0, 16, 16, CLEARED, LoadFront(16), [JOB]),
      One(Reset(0, 3, KeepWaiting), [JOB], 0, 0, 16, CLEARED, LoadFront(16), [JOB]));
  }

  /** The worker has loaded rear between the reset's stores to front and to rear. */
  lemma LoadInsideReset(a: set<Tear>)
    requires InsideReset in a
    ensures Reachable(One(Reset(0, 3, KeepWaiting), [JOB], 0, 0, 16, CLEARED, LoadFront(16), [JOB]), a)
  {
    OneJobDone(a);
    Call(a, One(Idle, [JOB], 0, 16, 16, CLEARED, LoadRear, [JOB]), CallWait,
      One(Drain(0, KeepWaiting), [JOB], 0, 16, 16, CLEARED, LoadRear, [JOB]));
    SubmitterMoves(a, One(Drain(0, KeepWaiting), [JOB], 0, 16, 16, CLEARED, LoadRear, [JOB]),
      One(Reset(0, 0, KeepWaiting), [JOB], 0, 16, 16, CLEARED, LoadRear, [JOB]));
    SubmitterMoves(a, One(Reset(0, 0, KeepWaiting), [JOB], 0, 16, 16, CLEARED, LoadRear, [JOB]),
      One(Reset(0, 1, KeepWaiting), [JOB], 0, 16, 16, CLEARED, LoadRear, [JOB]));
    SubmitterMoves(a, One(Reset(0, 1, KeepWaiting), [JOB], 0, 16, 16, CLEARED, LoadRear, [JOB]),
      One(Reset(0, 2, KeepWaiting), [JOB], 0, 16, 16, CLEARED, LoadRear, [JOB]));
    SubmitterMoves(a, One(Reset(0, 2, KeepWaiting), [JOB], 0, 16, 16, CLEARED, LoadRear, [JOB]),
      One(Reset(0, 3, KeepWaiting), [JOB], 0, 0, 16, CLEARED, LoadRear, [JOB]));
    WorkerMoves(a, One(Reset(0, 3, KeepWaiting), [JOB], 0, 0, 16, CLEARED, LoadRear, [JOB]),
      One(Reset(0, 3, KeepWaiting), [JOB], 0, 0, 16, CLEARED, LoadFront(16), [JOB]));
  }

  /** The worker compares the old rear with the new front and decides to dequeue ... */
  lemma TornCheck(a: set<Tear>)
    requires Reachable(One(Reset(0, 3, KeepWaiting), [JOB], 0, 0, 16, CLEARED, LoadFront(16), [JOB]), a)
    ensures Reachable(One(Idle, [JOB], 0, 0, 0, CLEARED, Dequeue, [JOB]), a)
  {
    SubmitterMoves(a, One(Reset(0, 3, KeepWaiting), [JOB], 0, 0, 16, CLEARED, LoadFront(16), [JOB]),
      One(Waited, [JOB], 0, 0, 0, CLEARED, LoadFront(16), [JOB]));
    Call(a, One(Waited, [JOB], 0, 0, 0, CLEARED, LoadFront(16), [JOB]), Return,
      One(Idle, [JOB], 0, 0, 0, CLEARED, LoadFront(16), [JOB]));
    WorkerMoves(a, One(Idle, [JOB], 0, 0, 0, CLEARED, LoadFront(16), [JOB]),
      One(Idle, [JOB], 0, 0, 0, CLEARED, Dequeue, [JOB]));
  }

  /** ... nothing; then it counts that down. */
  lemma TornCheckWrapsCount(a: set<Tear>)
    requires EmptyDequeue in a
    requires Reachable(One(Reset(0, 3, KeepWaiting), [JOB], 0, 0, 16, CLEARED, LoadFront(16), [JOB]), a)
    ensures Reachable(One(Idle, [JOB], WORD - 1, 16, 0, CLEARED, CanLoop, [JOB]), a)
  {
    TornCheck(a);
    WorkerMoves(a, One(Idle, [JOB], 0, 0, 0, CLEARED, Dequeue, [JOB]),
      One(Idle, [JOB], 0, 16, 0, CLEARED, TestFunc(0), [JOB]));
    WorkerMoves(a, One(Idle, [JOB], 0, 16, 0, CLEARED, TestFunc(0), [JOB]),
      One(Idle, [JOB], 0, 16, 0, CLEARED, Decrement, [JOB]));
    WorkerMoves(a, One(Idle, [JOB], 0, 16, 0, CLEARED, Decrement, [JOB]),
      One(Idle, [JOB], WORD - 1, 16, 0, CLEARED, CanLoop, [JOB]));
  }

  /** A reset between a worker's two loads, or around its load of rear, makes it compare
      the old rear with the new front: it dequeues nothing and job_count wraps below
      zero with no job left, so the next udo_jpool_wait has nothing to wait for. */
  lemma TornResetWrapsCount(k: Tear)
    requires k == BetweenLoads || k == InsideReset
    ensures exists s: Pool :: Reachable(s, {k, EmptyDequeue}) && WrappedCount(s)
  {
    var a := {k, EmptyDequeue};
    if k == BetweenLoads { ResetBetweenLoads(a); } else { LoadInsideReset(a); }
    TornCheckWrapsCount(a);
    assert WrappedCount(One(Idle, [JOB], WORD - 1, 16, 0, CLEARED, CanLoop, [JOB]));
  }

  /** The worker has found nothing to do and no force value. */
  lemma CheckFailed(a: set<Tear>)
    ensures Reachable(One(Idle, [], 0, 0, 0, CLEARED, LoadFree, []), a)
  {
    Start(a);
    WorkerMoves(a, One(Idle, [], 0, 0, 0, CLEARED, CanLoop, []),
      One(Idle, [], 0, 0, 0, CLEARED, LoadRear, []));
    WorkerMoves(a, One(Idle, [], 0, 0, 0, CLEARED, LoadRear, []),
      One(Idle, [], 0, 0, 0, CLEARED, LoadFront(0), []));
    WorkerMoves(a, One(Idle, [], 0, 0, 0, CLEARED, LoadFront(0), []),
      One(Idle, [], 0, 0, 0, CLEARED, TestForce, []));
    WorkerMoves(a, One(Idle, [], 0, 0, 0, CLEARED, TestForce, []),
      One(Idle, [], 0, 0, 0, CLEARED, LoadFree, []));
  }

  /** The queue is drained and about to be shut down. */
  lemma DrainedForDestroy(a: set<Tear>)
    ensures Reachable(One(StoreForce(0), [], 0, 0, 0, CLEARED, LoadFree, []), a)
  {
    CheckFailed(a);
    Call(a, One(Idle, [], 0, 0, 0, CLEARED, LoadFree, []), CallDestroy,
      One(Drain(0, KeepDestroying), [], 0, 0, 0, CLEARED, LoadFree, []));
    SubmitterMoves(a, One(Drain(0, KeepDestroying), [], 0, 0, 0, CLEARED, LoadFree, []),
      One(Reset(0, 0, KeepDestroying), [], 0, 0, 0, CLEARED, LoadFree, []));
    SubmitterMoves(a, One(Reset(0, 0, KeepDestroying), [], 0, 0, 0, CLEARED, LoadFree, []),
      One(Reset(0, 1, KeepDestroying), [], 0, 0, 0, CLEARED, LoadFree, []));
    SubmitterMoves(a, One(Reset(0, 1, KeepDestroying), [], 0, 0, 0, CLEARED, LoadFree, []),
      One(Reset(0, 2, KeepDestroying), [], 0, 0, 0, CLEARED, LoadFree, []));
    SubmitterMoves(a, One(Reset(0, 2, KeepDestroying), [], 0, 0, 0, CLEARED, LoadFree, []),
      One(Reset(0, 3, KeepDestroying), [], 0, 0, 0, CLEARED, LoadFree, []));
    SubmitterMoves(a, One(Reset(0, 3, KeepDestroying), [], 0, 0, 0, CLEARED, LoadFree, []),
      One(StoreForce(0), [], 0, 0, 0, CLEARED, LoadFree, []));
  }
}
