/** The job pool of src/jpool.c as a step system.

    One submitting thread calls udo_jpool_add_job, udo_jpool_wait and
    udo_jpool_destroy; every queue has one worker running p_run_thread.  Each step
    is one atomic load, store, read-modify-write or futex call of the source, so the
    publication of a job (bump rear, store func, store arg, count it), the four
    stores of p_queue_reset and the two loads of p_queue_can_get_job all interleave
    with the other threads. */
module JobPool {
  import Futex
  import opened Words

  /** sizeof(struct udo_jpool_job). */
  const JOB_SIZE: nat := 16
  /** UDO_FUTEX_UNLOCK_FORCE, stored in job_free to shut a worker down. */
  const FORCE: nat := Futex.FORCE

  /** Offsets are in bytes; slot number `Index(off)` starts at byte `off`. */
  function Index(off: nat): nat { off / 16 }

  predicate Aligned(off: nat) { off % 16 == 0 }

  /** struct udo_jpool_job: a function and its argument, 0 being NULL.
      It is both what is submitted and what a slot of a queue holds. */
  datatype Job = Job(func: nat, arg: nat) {
    /** udo_jpool_add_job rejects a NULL function or argument. */
    predicate Proper() { func != 0 && arg != 0 }
  }

  const CLEARED: Job := Job(0, 0)

  /** Where a worker is in p_run_thread, with udo_futex_wait_cond unfolded. */
  datatype WorkerPc =
    | CanLoop                 // p_queue_can_loop: load job_free
    | LoadRear                // the condition: load rear ...
    | LoadFront(rear: nat)    // ... then load front and compare
    | TestForce               // condition false: load job_free, compare with FORCE
    | LoadFree                // p_udo_futex_wait_cond: load the expected value
    | SleepCall(seen: nat)    // FUTEX_WAIT on that value
    | Asleep
    | Dequeue                 // p_queue_get_job: fetch-and-add on front
    | TestFunc(off: nat)      // if (job->func)
    | Run(off: nat)           // job->func(job->arg)
    | ClearFunc(off: nat)     // p_queue_job_reset
    | ClearArg(off: nat)
    | Decrement               // p_queue_sub_job_count
    | Exited

  /** struct udo_jpool_queue with its worker.  `executed` records the calls made. */
  datatype Queue = Queue(size: nat, jobFree: nat, jobCount: nat, front: nat, rear: nat,
                         slots: seq<Job>, pc: WorkerPc, executed: seq<Job>)

  /** What the submitter does once p_queue_wait returns. */
  datatype After = Publish(job: Job) | KeepWaiting | KeepDestroying

  datatype SubmitterPc =
    | Idle
    | CheckFull(t: nat, job: Job)            // add_job: p_queue_full
    | Drain(t: nat, after: After)            // p_queue_wait: load job_count
    | DrainWake(t: nat, after: After)        // p_queue_wait: wake the worker
    | Reset(t: nat, stage: nat, after: After)  // p_queue_reset: stores 0 to 3
    | Bump(t: nat, job: Job)                 // add_job: fetch-and-add on rear
    | StoreFunc(t: nat, job: Job, off: nat)
    | StoreArg(t: nat, job: Job, off: nat)
    | AddCount(t: nat)
    | WakeWorker(t: nat)
    | Waited                                 // udo_jpool_wait has finished its sweep
    | StoreForce(t: nat)                     // destroy: udo_futex_unlock_force, store ...
    | ForceWake(t: nat)                      // ... and wake
    | CondWake(t: nat)                       // destroy: udo_futex_wake_cond
    | Join(t: nat)                           // pthread_join
    | Destroyed

  /** `accepted` records the jobs add_job took, in order. */
  datatype Pool = Pool(queues: seq<Queue>, cur: nat, sub: SubmitterPc, accepted: seq<Job>)

  /** p_queue_full; the subtraction of a sizeof is one of size_t values. */
  predicate Full(q: Queue) {
    q.rear >= U64(q.size + 0x1_0000_0000_0000_0000 - JOB_SIZE)
  }

  /** Wake-all on job_free: a sleeping worker goes back to its condition. */
  function Wake(q: Queue): Queue {
    if q.pc.Asleep? then q.(pc := LoadRear) else q
  }

  predicate InRegion(q: Queue, off: nat) {
    Index(off) < |q.slots|
  }

  function Slot(q: Queue, off: nat): Job
    requires InRegion(q, off)
  {
    q.slots[Index(off)]
  }

  function Store(q: Queue, off: nat, value: Job): Queue
    requires InRegion(q, off)
  {
    q.(slots := q.slots[Index(off) := value])
  }

  /** One step of a worker.  A wait may return early, as FUTEX_WAIT may. */
  ghost predicate WorkerStep(q: Queue, q': Queue) {
    match q.pc
    case CanLoop => q' == q.(pc := if q.jobFree != FORCE then LoadRear else Exited)
    case LoadRear => q' == q.(pc := LoadFront(q.rear))
    case LoadFront(rear) => q' == q.(pc := if rear > q.front then Dequeue else TestForce)
    case TestForce =>
      if q.jobFree == FORCE then q' == q.(pc := Dequeue)
      else q' == q.(pc := LoadRear) || q' == q.(pc := LoadFree)
    case LoadFree => q' == q.(pc := SleepCall(q.jobFree))
    case SleepCall(seen) => q' == q.(pc := if q.jobFree == seen then Asleep else LoadRear)
    case Asleep => q' == q.(pc := LoadRear)
    case Dequeue => q' == q.(front := U32(q.front + JOB_SIZE), pc := TestFunc(q.front))
    case TestFunc(off) =>
      && InRegion(q, off)
      && q' == q.(pc := if Slot(q, off).func != 0 then Run(off) else Decrement)
    case Run(off) =>
      && InRegion(q, off)
      && q' == q.(executed := q.executed + [Slot(q, off)], pc := ClearFunc(off))
    case ClearFunc(off) =>
      && InRegion(q, off)
      && q' == Store(q, off, Slot(q, off).(func := 0)).(pc := ClearArg(off))
    case ClearArg(off) =>
      && InRegion(q, off)
      && q' == Store(q, off, Slot(q, off).(arg := 0)).(pc := Decrement)
    case Decrement => q' == q.(jobCount := U32(q.jobCount + WORD - 1), pc := CanLoop)
    case Exited => false
  }

  /** The effect on queue `sub.t` of the submitter's next step. */
  ghost predicate QueueStep(sub: SubmitterPc, q: Queue, q': Queue) {
    match sub
    case DrainWake(_, _) => q' == Wake(q)
    case Reset(_, stage, _) =>
      q' == (if stage == 0 then q.(jobFree := 0) else if stage == 1 then q.(jobCount := 0)
             else if stage == 2 then q.(front := 0) else q.(rear := 0))
    case Bump(_, _) => q' == q.(rear := U32(q.rear + JOB_SIZE))
    case StoreFunc(_, job, off) => InRegion(q, off) && q' == Store(q, off, Slot(q, off).(func := job.func))
    case StoreArg(_, job, off) => InRegion(q, off) && q' == Store(q, off, Slot(q, off).(arg := job.arg))
    case AddCount(_) => q' == q.(jobCount := U32(q.jobCount + 1))
    case WakeWorker(_) => q' == Wake(q)
    case StoreForce(_) => q' == q.(jobFree := FORCE)
    case ForceWake(_) => q' == Wake(q)
    case CondWake(_) => q' == Wake(q)
    case Join(_) => q.pc.Exited? && q' == q
    case _ => q' == q
  }

  /** Where the submitter goes next; `q` is the queue it works on and `n` their number. */
  function NextPc(sub: SubmitterPc, q: Queue, n: nat): SubmitterPc {
    match sub
    case CheckFull(t, job) => if Full(q) then Drain(t, Publish(job)) else Bump(t, job)
    case Drain(t, after) => if q.jobCount != 0 then DrainWake(t, after) else Reset(t, 0, after)
    case DrainWake(t, after) => Drain(t, after)
    case Reset(t, stage, after) =>
      if stage < 3 then Reset(t, stage + 1, after)
      else if after.Publish? then Bump(t, after.job)
      else if after.KeepDestroying? then StoreForce(t)
      else if t + 1 < n then Drain(t + 1, KeepWaiting) else Waited
    case Bump(t, job) => StoreFunc(t, job, q.rear)
    case StoreFunc(t, job, off) => StoreArg(t, job, off)
    case StoreArg(t, job, off) => AddCount(t)
    case AddCount(t) => WakeWorker(t)
    case WakeWorker(t) => Idle
    case StoreForce(t) => ForceWake(t)
    case ForceWake(t) => CondWake(t)
    case CondWake(t) => Join(t)
    case Join(t) => if t + 1 < n then Drain(t + 1, KeepDestroying) else Destroyed
    case _ => sub
  }

  /** Is the submitter at work on some queue `sub.t`? */
  predicate Working(sub: SubmitterPc) {
    !sub.Idle? && !sub.Waited? && !sub.Destroyed?
  }

  datatype Event =
    | CallAdd(job: Job)   // udo_jpool_add_job up to the round-robin choice
    | CallWait
    | CallDestroy
    | Return              // udo_jpool_wait returns
    | Submitter           // the submitter's next step inside a call
    | Worker(w: nat)      // a step of worker w

  ghost predicate Next(s: Pool, e: Event, s': Pool) {
    var n := |s.queues|;
    match e
    case CallAdd(job) =>
      && s.sub.Idle? && job.Proper() && s.cur < n
      && s' == s.(sub := CheckFull(s.cur, job), cur := (s.cur + 1) % n, accepted := s.accepted + [job])
    case CallWait => s.sub.Idle? && 0 < n && s' == s.(sub := Drain(0, KeepWaiting))
    case CallDestroy => s.sub.Idle? && 0 < n && s' == s.(sub := Drain(0, KeepDestroying))
    case Return => s.sub.Waited? && s' == s.(sub := Idle)
    case Submitter =>
      && Working(s.sub) && s.sub.t < n && |s'.queues| == n
      && QueueStep(s.sub, s.queues[s.sub.t], s'.queues[s.sub.t])
      && s' == s.(sub := NextPc(s.sub, s.queues[s.sub.t], n),
                  queues := s.queues[s.sub.t := s'.queues[s.sub.t]])
    case Worker(w) =>
      && w < n && |s'.queues| == n
      && WorkerStep(s.queues[w], s'.queues[w])
      && s' == s.(queues := s.queues[w := s'.queues[w]])
  }

  /** A queue as udo_jpool_create leaves it: zeroed, its worker about to loop. */
  ghost predicate Fresh(q: Queue) {
    && q.size < WORD
    && q.jobFree == 0 && q.jobCount == 0 && q.front == 0 && q.rear == 0
    && |q.slots| == Index(q.size)
    && (forall i :: 0 <= i < |q.slots| ==> q.slots[i] == CLEARED)
    && q.pc == CanLoop && q.executed == []
  }

  ghost predicate Init(s: Pool) {
    && 0 < |s.queues|
    && (forall t :: 0 <= t < |s.queues| ==> Fresh(s.queues[t]))
    && s.cur == 0 && s.sub == Idle && s.accepted == []
  }

  /** Every queue's region holds at least one job. */
  ghost predicate Roomy(s: Pool) {
    forall t :: 0 <= t < |s.queues| ==> JOB_SIZE <= s.queues[t].size
  }

  /** A run: states linked by events, from the created pool. */
  datatype Trace = Trace(states: seq<Pool>, events: seq<Event>)

  ghost predicate IsRun(r: Trace) {
    && |r.states| == |r.events| + 1
    && Init(r.states[0])
    && forall i :: 0 <= i < |r.events| ==> Next(r.states[i], r.events[i], r.states[i + 1])
  }

  /** What can go wrong between a worker's check, which is two loads, and its use of what it
      dequeues.  The first two are the harm; the other two are torn checks, by which the
      second comes about. */
  datatype Tear =
    | EarlyUse      // a slot is tested or called while it is still being stored
    | EmptyDequeue  // the worker dequeues although nothing is queued and it is not to exit
    | InsideReset   // rear loaded between the reset's stores to front and to rear
    | BetweenLoads  // front reset while the worker is between its loads of rear and front

  ghost predicate Tears(s: Pool, e: Event, k: Tear) {
    var n := |s.queues|;
    match k
    case EarlyUse =>
      && e.Worker? && e.w < n
      && ((s.sub.StoreFunc? && s.sub.t == e.w && s.queues[e.w].pc == TestFunc(s.sub.off))
          || (s.sub.StoreArg? && s.sub.t == e.w && s.queues[e.w].pc == Run(s.sub.off)))
    case EmptyDequeue =>
      && e.Worker? && e.w < n && s.queues[e.w].pc.Dequeue? && s.queues[e.w].jobFree != FORCE
      && (s.queues[e.w].rear <= s.queues[e.w].front || (s.sub.Reset? && s.sub.stage == 3 && s.sub.t == e.w))
    case InsideReset =>
      && e.Worker? && e.w < n && s.queues[e.w].pc.LoadRear?
      && s.sub.Reset? && s.sub.stage == 3 && s.sub.t == e.w && s.queues[e.w].rear != 0
    case BetweenLoads =>
      && e.Submitter? && s.sub.Reset? && s.sub.stage == 2 && s.sub.t < n
      && s.queues[s.sub.t].pc.LoadFront? && s.queues[s.sub.t].pc.rear != 0
  }

  ghost predicate Clean(s: Pool, e: Event) {
    !Tears(s, e, EarlyUse) && !Tears(s, e, EmptyDequeue)
  }

  ghost predicate CleanEvents(r: Trace)
    requires |r.states| == |r.events| + 1
  {
    forall i :: 0 <= i < |r.events| ==> Clean(r.states[i], r.events[i])
  }

  /** A run, of queues with room for a job, in which no worker uses a slot early or dequeues
      from an empty queue. */
  ghost predicate CleanRun(r: Trace) {
    IsRun(r) && Roomy(r.states[0]) && CleanEvents(r)
  }

  /** The state a run ends in. */
  function Last(r: Trace): Pool
    requires |r.states| > 0
  {
    r.states[|r.states| - 1]
  }

  /** The run with one more step. */
  function Then(r: Trace, e: Event, s: Pool): Trace {
    Trace(r.states + [s], r.events + [e])
  }

  /** `r'` is a clean run that goes on from the end of `r`. */
  ghost predicate Extends(r': Trace, r: Trace) {
    CleanRun(r') && r.states <= r'.states && r.events <= r'.events
  }

  lemma ThenExtends(r: Trace, r': Trace, e: Event, s: Pool)
    requires CleanRun(r') && Extends(r', r) && Next(Last(r'), e, s) && Clean(Last(r'), e)
    ensures Extends(Then(r', e, s), r) && Last(Then(r', e, s)) == s
  {
    var x := Then(r', e, s);
    assert forall i :: 0 <= i < |r'.events| ==> x.events[i] == r'.events[i];
    assert forall i :: 0 <= i < |r'.states| ==> x.states[i] == r'.states[i];
  }
}
