/** The promises of the job pool, over every clean run and in every state of it. */
module JobPoolTheorems {
  import opened JobPool
  import opened JobPoolQueue
  import opened JobPoolRun
  import opened RoundRobin
  import opened Words

  /** Queue `t` in state `i`. */
  function QueueAt(r: Trace, i: nat, t: nat): Queue
    requires i < |r.states| && t < |r.states[i].queues|
  {
    r.states[i].queues[t]
  }

  /** The jobs the round robin has dealt to queue `t` so far. */
  function Dealt(s: Pool, t: nat): seq<Job>
    requires t < |s.queues|
  {
    Share(s.accepted, t, |s.queues|)
  }

  lemma QueueInvAt(r: Trace, i: nat, t: nat)
    requires CleanRun(r) && i < |r.states| && t < |r.states[i].queues|
    ensures QueueFor(QueueAt(r, i, t), r.states[i].sub, t, Dealt(r.states[i], t))
  {
    InvOverRun(r, i);
  }

  /** First in, first out, exactly once: what was dealt to a queue is what its worker
      has executed, then the job in its hands, then the slots from front to rear, then
      the job still being published. */
  lemma FifoExactlyOnce(r: Trace, i: nat, t: nat)
    requires CleanRun(r) && i < |r.states| && t < |r.states[i].queues|
    ensures var s, q := r.states[i], QueueAt(r, i, t);
            Dealt(s, t) == q.executed + InFlight(q) + Pending(q, PhaseOf(s.sub, t)) + Carried(s.sub, t)
  {
    InvOverRun(r, i);
  }

  /** Worker `t` executes the accepted jobs number t, t + n, t + 2n, ... in that order. */
  lemma WorkerExecutesItsStride(r: Trace, i: nat, t: nat, j: nat)
    requires CleanRun(r) && i < |r.states| && t < |r.states[i].queues|
    requires j < |QueueAt(r, i, t).executed|
    ensures var k := t + j * |r.states[i].queues|;
            k < |r.states[i].accepted| && QueueAt(r, i, t).executed[j] == r.states[i].accepted[k]
  {
    FifoExactlyOnce(r, i, t);
    assert Dealt(r.states[i], t)[j] == QueueAt(r, i, t).executed[j];
    ShareIsStride(r.states[i].accepted, t, |r.states[i].queues|, j);
  }

  lemma LiveSlotsInRegion(q: Queue, ph: Phase)
    requires Live(q, ph)
    ensures q.pc.Dequeue? && q.front < q.rear ==> q.front + JOB_SIZE <= q.size
    ensures InSlot(q.pc) ==> q.pc.off + JOB_SIZE <= q.size
    ensures ph.Room? ==> q.rear + JOB_SIZE <= q.size
    ensures ph.Bumped? || ph.HalfStored? ==> ph.off + JOB_SIZE <= q.size
  {
  }

  lemma ShutSlotsInRegion(q: Queue)
    requires Shut(q)
    ensures (q.pc.Dequeue? ==> q.front >= q.rear) && (InSlot(q.pc) ==> q.pc.off + JOB_SIZE <= q.size)
  {
  }

  /** Every slot a worker or the submitter reads or writes lies inside the queue's region. */
  lemma AccessesStayInRegion(r: Trace, i: nat, t: nat)
    requires CleanRun(r) && i < |r.states| && t < |r.states[i].queues|
    ensures var s, q := r.states[i], QueueAt(r, i, t);
            && (q.pc.Dequeue? && q.front < q.rear ==> q.front + JOB_SIZE <= q.size)
            && (InSlot(q.pc) ==> q.pc.off + JOB_SIZE <= q.size)
            && (s.sub.Bump? && s.sub.t == t ==> q.rear + JOB_SIZE <= q.size)
            && ((s.sub.StoreFunc? || s.sub.StoreArg?) && s.sub.t == t ==> s.sub.off + JOB_SIZE <= q.size)
  {
    QueueInvAt(r, i, t);
    var ph, q := PhaseOf(r.states[i].sub, t), QueueAt(r, i, t);
    if ShutDown(ph) { ShutSlotsInRegion(q); } else { LiveSlotsInRegion(q, ph); }
  }

  /** Outside publication and shutdown, job_count is the number of jobs queued or in hand. */
  lemma CountIsOutstanding(r: Trace, i: nat, t: nat)
    requires CleanRun(r) && i < |r.states| && t < |r.states[i].queues|
    requires PhaseOf(r.states[i].sub, t) == Open
    ensures QueueAt(r, i, t).jobCount == Outstanding(QueueAt(r, i, t), Open)
  {
    QueueInvAt(r, i, t);
    CountIsExact(QueueAt(r, i, t));
  }

  /** When p_queue_wait reads zero and goes on to reset the queue, front equals rear, the
      worker holds nothing, every slot is cleared, and all earlier jobs are executed. */
  lemma ResetOnlyWhenDrained(r: Trace, i: nat, t: nat)
    requires CleanRun(r) && i < |r.states| && t < |r.states[i].queues|
    requires r.states[i].sub.Drain? && r.states[i].sub.t == t && QueueAt(r, i, t).jobCount == 0
    ensures var s, q := r.states[i], QueueAt(r, i, t);
            && q.front == q.rear && !Holding(q.pc)
            && (forall k :: 0 <= k < |q.slots| ==> q.slots[k] == CLEARED)
            && Dealt(s, t) == q.executed + Carried(s.sub, t)
  {
    QueueInvAt(r, i, t);
    var s, q := r.states[i], QueueAt(r, i, t);
    ZeroCountMeansDrained(q);
  }

  /** When udo_jpool_wait returns, every job accepted so far has been executed. */
  lemma WaitReturnsAfterAllJobs(r: Trace, i: nat, t: nat)
    requires CleanRun(r) && i < |r.states| && t < |r.states[i].queues|
    requires r.states[i].sub.Waited?
    ensures QueueAt(r, i, t).executed == Dealt(r.states[i], t) && !Holding(QueueAt(r, i, t).pc)
  {
    QueueInvAt(r, i, t);
    var s, q := r.states[i], QueueAt(r, i, t);
    DrainedIsOpen(q);
  }

  /** When udo_jpool_destroy unmaps the queues, every accepted job has been executed and
      every worker has exited, so none touches the queues again. */
  lemma DestroyAfterAllJobs(r: Trace, i: nat, t: nat)
    requires CleanRun(r) && i < |r.states| && t < |r.states[i].queues|
    requires r.states[i].sub.Destroyed?
    ensures QueueAt(r, i, t).executed == Dealt(r.states[i], t) && QueueAt(r, i, t).pc.Exited?
  {
    QueueInvAt(r, i, t);
    var s, q := r.states[i], QueueAt(r, i, t);
  }

  // ------------------------------------------------------------------- shutdown

  /** Does event `m` of the run make worker `t` dequeue? */
  ghost predicate DequeuesAt(r: Trace, t: nat, m: nat) {
    && m < |r.events| && m < |r.states|
    && r.events[m] == Worker(t) && t < |r.states[m].queues| && QueueAt(r, m, t).pc.Dequeue?
  }

  /** How often worker `t` dequeues between states `i` and `k`. */
  ghost function Dequeues(r: Trace, t: nat, i: nat, k: nat): nat
    requires i <= k
    decreases k
  {
    if i == k then 0 else Dequeues(r, t, i, k - 1) + (if DequeuesAt(r, t, k - 1) then 1 else 0)
  }

  lemma ShutSubmitterStep(sub: SubmitterPc, q: Queue, q': Queue)
    requires Working(sub) && ShutDown(PhaseOf(sub, sub.t)) && QueueStep(sub, q, q')
    ensures q'.executed == q.executed && q'.front == q.front
  {
  }

  lemma ShutWorkerStep(q: Queue, q': Queue)
    requires Shut(q) && WorkerStep(q, q')
    ensures q'.executed == q.executed && q'.front == q.front + (if q.pc.Dequeue? then JOB_SIZE else 0)
  {
  }

  lemma ShutDownStays(sub: SubmitterPc, q: Queue, n: nat, t: nat)
    requires Working(sub) && ShutDown(PhaseOf(sub, t)) && SubmitterOk(sub, n) && t < n
    ensures ShutDown(PhaseOf(NextPc(sub, q, n), t))
  {
  }

  lemma ShutDownIsFinal(s: Pool, e: Event, s': Pool, t: nat)
    requires PoolInv(s) && Next(s, e, s') && t < |s.queues| && ShutDown(PhaseOf(s.sub, t))
    ensures |s'.queues| == |s.queues| && ShutDown(PhaseOf(s'.sub, t))
    ensures s'.queues[t].executed == s.queues[t].executed
    ensures s'.queues[t].front == s.queues[t].front +
              (if e == Worker(t) && s.queues[t].pc.Dequeue? then JOB_SIZE else 0)
  {
    var q, q' := s.queues[t], s'.queues[t];
    if e == Worker(t) {
      assert Shut(q) by { assert QueueFor(q, s.sub, t, Share(s.accepted, t, |s.queues|)); }
      ShutWorkerStep(q, q');
    } else if e == Submitter {
      ShutDownStays(s.sub, s.queues[s.sub.t], |s.queues|, t);
      if s.sub.t == t { ShutSubmitterStep(s.sub, q, q'); }
    }
  }

  lemma ShutDownFacts(r: Trace, t: nat, k: nat)
    requires CleanRun(r) && k < |r.states| && t < |r.states[k].queues| && ShutDown(PhaseOf(r.states[k].sub, t))
    ensures var q := QueueAt(r, k, t);
            && q.executed == Dealt(r.states[k], t) && q.front <= JOB_SIZE
            && (InSlot(q.pc) ==> q.pc == TestFunc(0) && InRegion(q, 0) && Slot(q, 0) == CLEARED)
  {
    QueueInvAt(r, k, t);
  }

  lemma ShutDownStep(r: Trace, t: nat, k: nat)
    requires CleanRun(r) && k < |r.events| && t < |r.states[k].queues| && ShutDown(PhaseOf(r.states[k].sub, t))
    ensures t < |r.states[k + 1].queues| && ShutDown(PhaseOf(r.states[k + 1].sub, t))
    ensures QueueAt(r, k + 1, t).executed == QueueAt(r, k, t).executed
    ensures QueueAt(r, k + 1, t).front == QueueAt(r, k, t).front + (if DequeuesAt(r, t, k) then JOB_SIZE else 0)
  {
    InvOverRun(r, k);
    ShutDownIsFinal(r.states[k], r.events[k], r.states[k + 1], t);
  }

  lemma {:induction false} ShutDownPersists(r: Trace, t: nat, i: nat, k: nat)
    requires CleanRun(r) && i <= k < |r.states|
    requires t < |r.states[i].queues| && ShutDown(PhaseOf(r.states[i].sub, t))
    ensures t < |r.states[k].queues| && ShutDown(PhaseOf(r.states[k].sub, t))
    decreases k
  {
    if i < k {
      ShutDownPersists(r, t, i, k - 1);
      ShutDownStep(r, t, k - 1);
    }
  }

  /** Step `m` runs no job, and moves front only if the worker dequeues. */
  ghost predicate RunsNothing(r: Trace, t: nat, m: nat) {
    && m + 1 < |r.states| && t < |r.states[m].queues| && t < |r.states[m + 1].queues|
    && QueueAt(r, m + 1, t).executed == QueueAt(r, m, t).executed
    && QueueAt(r, m + 1, t).front == QueueAt(r, m, t).front + (if DequeuesAt(r, t, m) then JOB_SIZE else 0)
  }

  lemma {:induction false} FrontCountsDequeues(r: Trace, t: nat, i: nat, k: nat)
    requires i <= k < |r.states| && t < |r.states[i].queues| && t < |r.states[k].queues|
    requires forall m :: i <= m < k ==> RunsNothing(r, t, m)
    ensures QueueAt(r, k, t).executed == QueueAt(r, i, t).executed
    ensures QueueAt(r, k, t).front == QueueAt(r, i, t).front + JOB_SIZE * Dequeues(r, t, i, k)
    decreases k
  {
    if i < k {
      assert RunsNothing(r, t, k - 1);
      FrontCountsDequeues(r, t, i, k - 1);
    }
  }

  /** After the force value is stored for a queue, its worker calls no job function: what
      it has executed is all it ever executes, and that is every job dealt to it.  It
      dequeues at most once more, from a cleared slot of its own region. */
  lemma ShutdownIsSafe(r: Trace, t: nat, i: nat, k: nat)
    requires CleanRun(r) && i <= k < |r.states|
    requires t < |r.states[i].queues| && ShutDown(PhaseOf(r.states[i].sub, t))
    ensures t < |r.states[k].queues|
    ensures QueueAt(r, k, t).executed == QueueAt(r, i, t).executed == Dealt(r.states[k], t)
    ensures Dequeues(r, t, i, k) <= 1
    ensures var q := QueueAt(r, k, t); InSlot(q.pc) ==> q.pc == TestFunc(0) && InRegion(q, 0) && Slot(q, 0) == CLEARED
  {
    ShutDownPersists(r, t, i, k);
    forall m | i <= m < k
      ensures RunsNothing(r, t, m)
    {
      ShutDownPersists(r, t, i, m);
      ShutDownStep(r, t, m);
    }
    FrontCountsDequeues(r, t, i, k);
    ShutDownFacts(r, t, k);
  }

  // -------------------------------------------------------------------- draining

  /** How far the worker is from its next decrement, within one job. */
  function Rank(q: Queue): nat {
    match q.pc
    case LoadFront(rear) => if rear > q.front then 7 else 14
    case TestForce => 13
    case LoadFree => 12
    case SleepCall(_) => 11
    case Asleep => 10
    case CanLoop => 9
    case LoadRear => 8
    case Dequeue => 6
    case TestFunc(_) => 5
    case Run(_) => 4
    case ClearFunc(_) => 3
    case ClearArg(_) => 2
    case Decrement => 1
    case Exited => 0
  }

  /** Work left: jobs first, the worker's position second. */
  function Work(q: Queue): nat {
    16 * Outstanding(q, Open) + Rank(q)
  }

  predicate Draining(sub: SubmitterPc, t: nat) {
    (sub.Drain? || sub.DrainWake?) && sub.t == t
  }

  /** While jobs are outstanding, every step of the worker does some of the work. */
  lemma WorkerStepWorks(q: Queue, q': Queue)
    requires Live(q, Open) && q.jobCount != 0 && WorkerStep(q, q')
    ensures Work(q') < Work(q)
  {
    if IdlePc(q.pc) {
      IdleStepKeeps(q, q', Open);
      assert Outstanding(q', Open) == Outstanding(q, Open) == |Pending(q, Open)|;
      IdleStepRank(q, q');
    } else if q.pc.Dequeue? {
      DequeueKeeps(q, q', Open);
      assert |Pending(q, Open)| == 1 + |Pending(q', Open)|;
    } else {
      HoldingStepWorks(q, q');
    }
  }

  lemma IdleStepRank(q: Queue, q': Queue)
    requires IdlePc(q.pc) && q.jobFree == 0 && WorkerStep(q, q') && q.front < q.rear
    ensures Rank(q') < Rank(q)
  {
  }

  lemma HoldingStepRank(q: Queue, q': Queue)
    requires Holding(q.pc) && WorkerStep(q, q')
    requires q.pc.TestFunc? ==> q'.pc.Run?
    ensures if q.pc.Decrement? then !Holding(q'.pc) && Rank(q') == 9 else Holding(q'.pc) && Rank(q') < Rank(q)
  {
  }

  lemma HoldingStepWorks(q: Queue, q': Queue)
    requires Live(q, Open) && Holding(q.pc) && WorkerStep(q, q')
    ensures Work(q') < Work(q)
  {
    if q.pc.Decrement? { DecrementKeeps(q, q', Open); }
    else if q.pc.TestFunc? { TestFuncKeeps(q, q', Open); }
    else if q.pc.Run? { RunKeeps(q, q', Open); }
    else { ClearKeeps(q, q', Open); }
    assert Pending(q', Open) == Pending(q, Open);
    HoldingStepRank(q, q');
  }

  /** While p_queue_wait waits, somebody can always move the queue on: the worker itself,
      or the submitter by its wake. */
  lemma DrainNeverStuck(r: Trace, i: nat, t: nat)
    requires CleanRun(r) && i < |r.states| && t < |r.states[i].queues|
    requires Draining(r.states[i].sub, t) && QueueAt(r, i, t).jobCount != 0
    ensures var s, q := r.states[i], QueueAt(r, i, t);
            && (!q.pc.Asleep? ==> exists q' :: WorkerStep(q, q'))
            && (q.pc.Asleep? && s.sub.Drain? ==> NextPc(s.sub, q, |s.queues|) == DrainWake(t, s.sub.after))
            && (q.pc.Asleep? && s.sub.DrainWake? ==> Work(Wake(q)) < Work(q))
  {
    QueueInvAt(r, i, t);
    var s, q := r.states[i], QueueAt(r, i, t);
    if q.pc.Asleep? { WakeWorks(q); } else { LiveHasStep(q); }
  }

  lemma WakeWorks(q: Queue)
    requires q.pc.Asleep?
    ensures Work(Wake(q)) < Work(q)
  {
    assert Pending(Wake(q), Open) == Pending(q, Open);
  }

  lemma LiveHasStep(q: Queue)
    requires Live(q, Open) && !q.pc.Asleep?
    ensures exists q' :: WorkerStep(q, q')
  {
    var q' := SomeWorkerStep(q);
    assert WorkerStep(q, q');
  }

  /** A worker that is neither asleep nor gone has a step. */
  function SomeWorkerStep(q: Queue): (q': Queue)
    requires !q.pc.Asleep? && !q.pc.Exited?
    requires InSlot(q.pc) ==> InRegion(q, q.pc.off)
    ensures WorkerStep(q, q')
  {
    match q.pc
    case CanLoop => q.(pc := if q.jobFree != FORCE then LoadRear else Exited)
    case LoadRear => q.(pc := LoadFront(q.rear))
    case LoadFront(rear) => q.(pc := if rear > q.front then Dequeue else TestForce)
    case TestForce => q.(pc := if q.jobFree == FORCE then Dequeue else LoadFree)
    case LoadFree => q.(pc := SleepCall(q.jobFree))
    case SleepCall(seen) => q.(pc := if q.jobFree == seen then Asleep else LoadRear)
    case Dequeue => q.(front := U32(q.front + JOB_SIZE), pc := TestFunc(q.front))
    case TestFunc(off) => q.(pc := if Slot(q, off).func != 0 then Run(off) else Decrement)
    case Run(off) => q.(executed := q.executed + [Slot(q, off)], pc := ClearFunc(off))
    case ClearFunc(off) => Store(q, off, Slot(q, off).(func := 0)).(pc := ClearArg(off))
    case ClearArg(off) => Store(q, off, Slot(q, off).(arg := 0)).(pc := Decrement)
    case Decrement => q.(jobCount := U32(q.jobCount + WORD - 1), pc := CanLoop)
  }

  /** In state `m` the submitter waits for queue `t`, which has jobs outstanding. */
  ghost predicate DrainingAt(r: Trace, t: nat, m: nat) {
    && m < |r.states| && t < |r.states[m].queues|
    && Draining(r.states[m].sub, t) && QueueAt(r, m, t).jobCount != 0
  }

  /** How many steps worker `t` takes between states `i` and `k`. */
  ghost function WorkerSteps(r: Trace, t: nat, i: nat, k: nat): nat
    requires i <= k <= |r.events|
    decreases k
  {
    if i == k then 0 else WorkerSteps(r, t, i, k - 1) + (if r.events[k - 1] == Worker(t) then 1 else 0)
  }

  lemma DrainStepWorks(s: Pool, e: Event, s': Pool, t: nat)
    requires Next(s, e, s') && t < |s.queues| && Live(s.queues[t], Open)
    requires Draining(s.sub, t) && s.queues[t].jobCount != 0
    ensures |s'.queues| == |s.queues|
    ensures Work(s'.queues[t]) + (if e == Worker(t) then 1 else 0) <= Work(s.queues[t])
  {
    var q := s.queues[t];
    if e == Worker(t) {
      WorkerStepWorks(q, s'.queues[t]);
    } else if e == Submitter && s.sub.DrainWake? {
      assert Pending(Wake(q), Open) == Pending(q, Open);
    }
  }

  /** From state `m` to the next `rank` does not rise, and falls if the worker takes the step. */
  ghost predicate Falls(r: Trace, t: nat, m: nat, rank: nat -> nat) {
    m < |r.events| && rank(m + 1) + (if r.events[m] == Worker(t) then 1 else 0) <= rank(m)
  }

  lemma {:induction false} RankBoundsSteps(r: Trace, t: nat, i: nat, k: nat, rank: nat -> nat)
    requires i <= k <= |r.events| && forall m :: i <= m < k ==> Falls(r, t, m, rank)
    ensures WorkerSteps(r, t, i, k) + rank(k) <= rank(i)
    decreases k
  {
    if i < k {
      assert Falls(r, t, k - 1, rank);
      RankBoundsSteps(r, t, i, k - 1, rank);
    }
  }

  /** The work left in state `m`. */
  function WorkAt(r: Trace, t: nat, m: nat): nat {
    if m < |r.states| && t < |r.states[m].queues| then Work(r.states[m].queues[t]) else 0
  }

  lemma DrainStepAt(r: Trace, t: nat, m: nat)
    requires CleanRun(r) && m < |r.events| && DrainingAt(r, t, m)
    ensures WorkAt(r, t, m + 1) + (if r.events[m] == Worker(t) then 1 else 0) <= WorkAt(r, t, m)
  {
    QueueInvAt(r, m, t);
    DrainStepWorks(r.states[m], r.events[m], r.states[m + 1], t);
  }

  lemma DrainWorkFalls(r: Trace, t: nat, i: nat, k: nat)
    requires CleanRun(r) && i <= k < |r.states|
    requires forall m :: i <= m < k ==> DrainingAt(r, t, m)
    ensures WorkerSteps(r, t, i, k) + WorkAt(r, t, k) <= WorkAt(r, t, i)
  {
    var rank := (m: nat) => WorkAt(r, t, m);
    forall m | i <= m < k
      ensures Falls(r, t, m, rank)
    {
      DrainStepAt(r, t, m);
    }
    RankBoundsSteps(r, t, i, k, rank);
  }

  lemma DrainWorkBound(r: Trace, t: nat, i: nat)
    requires CleanRun(r) && DrainingAt(r, t, i)
    ensures WorkAt(r, t, i) <= 16 * QueueAt(r, i, t).jobCount + 14
  {
    CountIsOutstanding(r, i, t);
    RankBound(QueueAt(r, i, t));
  }

  /** A drain ends: from any state on, as long as the submitter waits for the queue and
      job_count stays above zero, the worker takes at most 16 steps for each outstanding
      job, and 14 to get going. */
  lemma DrainIsBounded(r: Trace, t: nat, i: nat, k: nat)
    requires CleanRun(r) && i <= k < |r.states|
    requires forall m :: i <= m <= k ==> DrainingAt(r, t, m)
    ensures t < |r.states[i].queues|
    ensures WorkerSteps(r, t, i, k) <= 16 * QueueAt(r, i, t).jobCount + 14
  {
    assert DrainingAt(r, t, i);
    DrainWorkFalls(r, t, i, k);
    DrainWorkBound(r, t, i);
  }

  lemma RankBound(q: Queue)
    ensures Rank(q) <= 14
  {
  }
}
