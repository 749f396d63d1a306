/** What one queue of the job pool keeps through every step of its worker and of the
    submitter, given how far the submitter has got with that queue. */
module JobPoolQueue {
  import opened JobPool
  import opened Words

  /** How far the submitter is with one queue. */
  datatype Phase =
    | Open                        // between calls, or draining
    | Room                        // about to bump rear
    | Bumped(job: Job, off: nat)  // rear bumped, slot still cleared
    | HalfStored(job: Job, off: nat)  // func stored, arg not yet
    | Uncounted                   // stored, job_count not yet incremented
    | Resetting(stage: nat)       // job_count seen zero, `stage` reset stores done
    | Drained                     // reset, and not submitted to since
    | Closed                      // the force value is stored
    | Joined                      // ... and the worker has exited

  /** The phase of the queues a sweep over all queues has already passed. */
  function Passed(after: After): Phase {
    match after
    case Publish(_) => Open
    case KeepWaiting => Drained
    case KeepDestroying => Joined
  }

  function PhaseOf(sub: SubmitterPc, t: nat): Phase {
    match sub
    case Bump(u, _) => if t == u then Room else Open
    case StoreFunc(u, job, off) => if t == u then Bumped(job, off) else Open
    case StoreArg(u, job, off) => if t == u then HalfStored(job, off) else Open
    case AddCount(u) => if t == u then Uncounted else Open
    case Drain(u, after) => if t < u then Passed(after) else Open
    case DrainWake(u, after) => if t < u then Passed(after) else Open
    case Reset(u, stage, after) => if t < u then Passed(after) else if t == u then Resetting(stage) else Open
    case Waited => Drained
    case StoreForce(u) => if t < u then Joined else if t == u then Drained else Open
    case ForceWake(u) => if t < u then Joined else if t == u then Closed else Open
    case CondWake(u) => if t < u then Joined else if t == u then Closed else Open
    case Join(u) => if t < u then Joined else if t == u then Closed else Open
    case Destroyed => Joined
    case _ => Open
  }

  /** Has the submitter stored the force value for the queue? */
  predicate ShutDown(ph: Phase) { ph.Closed? || ph.Joined? }

  /** The job accepted for queue `t` that is not yet wholly in a slot. */
  function Carried(sub: SubmitterPc, t: nat): seq<Job> {
    match sub
    case CheckFull(u, job) => if t == u then [job] else []
    case Drain(u, after) => if t == u && after.Publish? then [after.job] else []
    case DrainWake(u, after) => if t == u && after.Publish? then [after.job] else []
    case Reset(u, _, after) => if t == u && after.Publish? then [after.job] else []
    case Bump(u, job) => if t == u then [job] else []
    case StoreFunc(u, job, _) => if t == u then [job] else []
    case StoreArg(u, job, _) => if t == u then [job] else []
    case _ => []
  }

  /** Byte offset of the end of the published jobs. */
  function End(q: Queue, ph: Phase): int {
    if (ph.Bumped? || ph.HalfStored?) && q.front < q.rear then q.rear - JOB_SIZE
    else if ph.Resetting? || ShutDown(ph) then q.front
    else q.rear
  }

  /** The published jobs not yet dequeued: the slots from front to rear. */
  function Pending(q: Queue, ph: Phase): seq<Job> {
    if 0 <= End(q, ph) && Index(q.front) <= Index(End(q, ph)) <= |q.slots|
    then q.slots[Index(q.front)..Index(End(q, ph))] else []
  }

  /** The job the worker has dequeued and not yet called, once it is stored. */
  function InFlight(q: Queue): seq<Job> {
    if (q.pc.TestFunc? || q.pc.Run?) && InRegion(q, q.pc.off) && Slot(q, q.pc.off).Proper()
    then [Slot(q, q.pc.off)] else []
  }

  /** Has the worker dequeued a job it has not yet subtracted from job_count? */
  predicate Holding(pc: WorkerPc) {
    pc.TestFunc? || pc.Run? || pc.ClearFunc? || pc.ClearArg? || pc.Decrement?
  }

  predicate InSlot(pc: WorkerPc) {
    pc.TestFunc? || pc.Run? || pc.ClearFunc? || pc.ClearArg?
  }

  /** Has the worker dequeued the slot that is still being stored? */
  predicate Taken(q: Queue, ph: Phase) {
    InSlot(q.pc) && (ph.Bumped? || ph.HalfStored?) && q.pc.off == ph.off
  }

  /** Jobs that drain must wait for: pending ones and the one in the worker's hands. */
  function Outstanding(q: Queue, ph: Phase): nat {
    |Pending(q, ph)| + (if Holding(q.pc) then 1 else 0)
  }

  /** What job_count is to be: a published job is counted late, a dequeued one that is still
      being stored is not counted yet. */
  function CountDue(q: Queue, ph: Phase): nat {
    U32(Outstanding(q, ph) + (if ph.Uncounted? || Taken(q, ph) then WORD - 1 else 0))
  }

  /** Sizes, alignment of the offsets, and every access inside the region. */
  ghost predicate Shape(q: Queue, ph: Phase) {
    && JOB_SIZE <= q.size < WORD
    && |q.slots| == Index(q.size)
    && Aligned(q.front) && Aligned(q.rear)
    && q.front <= End(q, ph) <= q.rear <= JOB_SIZE * |q.slots|
    && (ph.Room? ==> q.rear + JOB_SIZE <= JOB_SIZE * |q.slots|)
    && (InSlot(q.pc) ==> q.pc.off + JOB_SIZE == q.front)
    && (ph.Bumped? || ph.HalfStored? ==> ph.off + JOB_SIZE == q.rear && (q.front < q.rear || Taken(q, ph)))
  }

  /** Slot `i` is neither pending, nor the worker's, nor being published. */
  ghost predicate Unused(q: Queue, ph: Phase, i: nat) {
    && !(Index(q.front) <= i && JOB_SIZE * i < End(q, ph))
    && !(InSlot(q.pc) && i == Index(q.pc.off))
    && !((ph.Bumped? || ph.HalfStored?) && i == Index(ph.off))
  }

  ghost predicate Filled(q: Queue, ph: Phase)
    requires Shape(q, ph)
  {
    forall i {:trigger q.slots[i]} :: Index(q.front) <= i < Index(End(q, ph)) ==> q.slots[i].Proper()
  }

  ghost predicate Emptied(q: Queue, ph: Phase) {
    forall i {:trigger q.slots[i]} :: 0 <= i < |q.slots| && Unused(q, ph, i) ==> q.slots[i] == CLEARED
  }

  /** What the worker and the submitter have in hand is as far stored or cleared as they are. */
  ghost predicate InHand(q: Queue, ph: Phase)
    requires Shape(q, ph)
  {
    && ((q.pc.TestFunc? || q.pc.Run? || q.pc.ClearFunc?) && !Taken(q, ph) ==> q.slots[Index(q.pc.off)].Proper())
    && (Taken(q, ph) ==> q.pc.TestFunc? || (q.pc.Run? && ph.HalfStored?))
    && (q.pc.ClearArg? ==> q.slots[Index(q.pc.off)].func == 0)
    && (ph.Bumped? ==> q.slots[Index(ph.off)] == CLEARED)
    && (ph.HalfStored? ==> q.slots[Index(ph.off)] == Job(ph.job.func, 0))
    && (ph.Bumped? || ph.HalfStored? ==> ph.job.Proper())
  }

  /** Slots in use hold whole jobs; every other slot is cleared. */
  ghost predicate SlotsOk(q: Queue, ph: Phase)
    requires Shape(q, ph)
  {
    Filled(q, ph) && Emptied(q, ph) && InHand(q, ph)
  }

  /** The worker runs, and a value it is to sleep on is the one job_free has till shutdown. */
  ghost predicate LoopOk(pc: WorkerPc) {
    !pc.Exited? && (pc.SleepCall? ==> pc.seen == 0)
  }

  /** job_count is the number of outstanding jobs, but for a job not yet counted. */
  ghost predicate CountOk(q: Queue, ph: Phase) {
    && q.jobFree == 0
    && q.jobCount == CountDue(q, ph)
    && (ph.Resetting? ==> ph.stage <= 3 && !Holding(q.pc) && q.rear == (if ph.stage < 3 then q.front else q.rear))
    && (ph.Resetting? && ph.stage == 3 ==> q.front == 0)
    && (ph.Drained? ==> !Holding(q.pc) && q.front == 0 && q.rear == 0)
  }

  /** The jobs in the order of their calls: those made, the next one, the pending ones. */
  function Line(q: Queue, ph: Phase): seq<Job> {
    q.executed + InFlight(q) + Pending(q, ph)
  }

  /** The jobs accepted for the queue are those executed, then the one in flight, then
      the pending ones, then the one being published. */
  ghost predicate Fifo(q: Queue, ph: Phase, accepted: seq<Job>, carried: seq<Job>) {
    accepted == Line(q, ph) + carried
  }

  ghost predicate Live(q: Queue, ph: Phase) {
    && Shape(q, ph) && SlotsOk(q, ph) && LoopOk(q.pc) && CountOk(q, ph)
  }

  /** After the force value is stored: nothing left, and at most one empty dequeue. */
  ghost predicate Shut(q: Queue) {
    && JOB_SIZE <= q.size < WORD && |q.slots| == Index(q.size)
    && q.jobFree == FORCE && q.rear == 0
    && (forall i :: 0 <= i < |q.slots| ==> q.slots[i] == CLEARED)
    && (q.front == 0 || q.front == JOB_SIZE)
    && (match q.pc
        case TestFunc(off) => q.front == JOB_SIZE && off == 0
        case Decrement => q.front == JOB_SIZE
        case Run(_) => false
        case ClearFunc(_) => false
        case ClearArg(_) => false
        case CanLoop => true
        case Exited => true
        case _ => q.front == 0)
    && q.jobCount == (if q.front == JOB_SIZE && !Holding(q.pc) then WORD - 1 else 0)
  }

  ghost predicate QueueInv(q: Queue, ph: Phase, accepted: seq<Job>, carried: seq<Job>) {
    && (if ShutDown(ph) then Shut(q) else Live(q, ph))
    && (ph.Joined? ==> q.pc.Exited?)
    && Fifo(q, ph, accepted, carried)
    && (ph.Bumped? || ph.HalfStored? ==> carried == [ph.job])
    && (forall j :: j in carried ==> j.Proper())
  }

  /** `Clean` seen from one queue that is not shut down. */
  ghost predicate SafeStep(q: Queue, ph: Phase) {
    && (q.pc.Dequeue? ==> q.front < q.rear && !(ph.Resetting? && ph.stage == 3))
    && (q.pc.TestFunc? && ph.Bumped? ==> q.pc.off != ph.off)
    && (q.pc.Run? && ph.HalfStored? ==> q.pc.off != ph.off)
  }

  // ---------------------------------------------------------------- worker steps

  lemma WorkerKeepsShut(q: Queue, q': Queue)
    requires Shut(q) && WorkerStep(q, q')
    ensures Shut(q') && q'.executed == q.executed
  {
  }

  predicate IdlePc(pc: WorkerPc) {
    !Holding(pc) && !pc.Dequeue? && !pc.Exited?
  }

  lemma PcOnlySlots(q: Queue, q': Queue, ph: Phase)
    requires Shape(q, ph) && SlotsOk(q, ph) && q' == q.(pc := q'.pc) && !InSlot(q.pc) && !InSlot(q'.pc)
    ensures Shape(q', ph) && SlotsOk(q', ph)
  {
  }

  lemma PcOnlyCount(q: Queue, q': Queue, ph: Phase)
    requires CountOk(q, ph) && q' == q.(pc := q'.pc) && !Holding(q.pc) && !Holding(q'.pc)
    ensures CountOk(q', ph)
  {
  }

  /** The steps outside dequeue to decrement change nothing but the program counter. */
  lemma IdleStep(q: Queue, q': Queue)
    requires IdlePc(q.pc) && WorkerStep(q, q') && q.jobFree == 0
    ensures q' == q.(pc := q'.pc) && (IdlePc(q'.pc) || q'.pc.Dequeue?) && LoopOk(q'.pc)
  {
  }

  lemma IdleStepKeeps(q: Queue, q': Queue, ph: Phase)
    requires Live(q, ph) && !ShutDown(ph) && IdlePc(q.pc) && WorkerStep(q, q')
    ensures Live(q', ph) && q' == q.(pc := q'.pc) && !Holding(q'.pc)
    ensures Pending(q', ph) == Pending(q, ph) && q'.executed == q.executed
    ensures InFlight(q) == [] && InFlight(q') == []
  {
    IdleStep(q, q');
    PcOnlySlots(q, q', ph);
    PcOnlyCount(q, q', ph);
  }

  lemma DequeuePending(q: Queue, q': Queue, ph: Phase)
    requires Shape(q, ph) && q.front < End(q, ph) && !ph.Resetting? && !ShutDown(ph)
    requires q' == q.(front := q.front + JOB_SIZE, pc := TestFunc(q.front))
    ensures Shape(q', ph) && !Taken(q', ph)
    ensures Index(q'.front) == Index(q.front) + 1 && Index(q.front) < |q.slots|
    ensures Pending(q, ph) == [q.slots[Index(q.front)]] + Pending(q', ph)
  {
    assert End(q', ph) == End(q, ph);
    NextSlot(q.front, End(q, ph));
    HeadOfSlice(q.slots, Index(q.front), Index(End(q, ph)));
  }

  lemma NextSlot(front: nat, end: nat)
    requires Aligned(front) && front < end && Aligned(end)
    ensures front + JOB_SIZE <= end && Aligned(front + JOB_SIZE)
    ensures Index(front + JOB_SIZE) == Index(front) + 1 <= Index(end) && JOB_SIZE * Index(end) == end
  {
  }

  lemma HeadOfSlice(s: seq<Job>, x: nat, y: nat)
    requires x < y <= |s|
    ensures s[x..y] == [s[x]] + s[x + 1..y]
  {
  }

  lemma DequeueSlots(q: Queue, q': Queue, ph: Phase)
    requires Shape(q, ph) && SlotsOk(q, ph) && !ph.Resetting? && !ShutDown(ph) && !InSlot(q.pc)
    requires q.front < End(q, ph) || Taken(q', ph)
    requires Shape(q', ph) && Index(q'.front) == Index(q.front) + 1
    requires q' == q.(front := q.front + JOB_SIZE, pc := TestFunc(q.front))
    ensures SlotsOk(q', ph)
  {
    forall i | 0 <= i < |q'.slots| && Unused(q', ph, i)
      ensures q'.slots[i] == CLEARED
    {
      assert Unused(q, ph, i);
    }
  }

  lemma DequeueCount(q: Queue, q': Queue, ph: Phase)
    requires CountOk(q, ph) && q.pc.Dequeue? && !ph.Resetting? && !ph.Drained?
    requires q' == q.(front := q'.front, pc := TestFunc(q.front))
    requires |Pending(q, ph)| == |Pending(q', ph)| + (if Taken(q', ph) then 0 else 1)
    ensures CountOk(q', ph)
  {
    if Taken(q', ph) { U32Turn(Outstanding(q, ph)); }
  }

  lemma DequeueFront(q: Queue, ph: Phase)
    requires Shape(q, ph) && CountOk(q, ph) && q.pc.Dequeue? && SafeStep(q, ph)
    ensures !ph.Resetting? && !ph.Drained? && U32(q.front + JOB_SIZE) == q.front + JOB_SIZE
    ensures Index(q.front + JOB_SIZE) == Index(q.front) + 1 && Index(q.front) < |q.slots|
    ensures q.front >= End(q, ph) && !ShutDown(ph) ==> (ph.Bumped? || ph.HalfStored?) && q.front + JOB_SIZE == q.rear
  {
  }

  lemma DequeueMoves(q: Queue, q': Queue, ph: Phase)
    requires Live(q, ph) && !ShutDown(ph) && q.pc.Dequeue? && WorkerStep(q, q') && SafeStep(q, ph)
    ensures q' == q.(front := q.front + JOB_SIZE, pc := TestFunc(q.front))
    ensures !ph.Resetting? && !ph.Drained? && Index(q'.front) == Index(q.front) + 1
    ensures Index(q.front) < |q.slots|
    ensures q.front < End(q, ph) ==> q.slots[Index(q.front)].Proper()
    ensures q.front >= End(q, ph) ==> (ph.Bumped? || ph.HalfStored?) && q.front + JOB_SIZE == q.rear
  {
    DequeueFront(q, ph);
    if q.front < End(q, ph) { NextSlot(q.front, End(q, ph)); }
  }

  /** The worker dequeues the slot that is being stored: the job stays with the submitter. */
  lemma TakeKeeps(q: Queue, q': Queue, ph: Phase)
    requires Live(q, ph) && q.pc.Dequeue? && (ph.Bumped? || ph.HalfStored?)
    requires q.front + JOB_SIZE == q.rear && Index(q'.front) == Index(q.front) + 1
    requires q' == q.(front := q.front + JOB_SIZE, pc := TestFunc(q.front))
    ensures Live(q', ph)
    ensures Pending(q, ph) == Pending(q', ph) == [] && InFlight(q) == InFlight(q') == []
  {
    assert Taken(q', ph);
    DequeueSlots(q, q', ph);
    DequeueCount(q, q', ph);
  }

  lemma DequeueKeeps(q: Queue, q': Queue, ph: Phase)
    requires Live(q, ph) && !ShutDown(ph) && q.pc.Dequeue? && WorkerStep(q, q') && SafeStep(q, ph)
    ensures Live(q', ph)
    ensures Pending(q, ph) == InFlight(q') + Pending(q', ph) && InFlight(q) == [] && q'.executed == q.executed
  {
    DequeueMoves(q, q', ph);
    if q.front < End(q, ph) {
      DequeuePending(q, q', ph);
      DequeueSlots(q, q', ph);
      DequeueCount(q, q', ph);
      assert InFlight(q') == [q.slots[Index(q.front)]];
    } else {
      TakeKeeps(q, q', ph);
    }
  }

  lemma SameSlotCount(q: Queue, q': Queue, ph: Phase)
    requires CountOk(q, ph) && Holding(q.pc) && Holding(q'.pc) && q'.jobFree == q.jobFree && q'.jobCount == q.jobCount
    requires q'.front == q.front && q'.rear == q.rear && Pending(q', ph) == Pending(q, ph)
    requires Taken(q', ph) == Taken(q, ph)
    ensures CountOk(q', ph)
  {
  }

  predicate SlotMove(q: Queue, q': Queue, ph: Phase) {
    && (q.pc.TestFunc? || q.pc.Run?) && (q'.pc.Run? || q'.pc.ClearFunc?)
    && q'.pc.off == q.pc.off && q' == q.(executed := q'.executed, pc := q'.pc)
    && (Taken(q, ph) ==> q'.pc.Run? && ph.HalfStored?)
  }

  lemma SameSlotShape(q: Queue, q': Queue, ph: Phase)
    requires Shape(q, ph) && SlotMove(q, q', ph)
    ensures Shape(q', ph) && Pending(q', ph) == Pending(q, ph) && Taken(q', ph) == Taken(q, ph)
  {
    PendingMoves(q, q', ph);
  }

  /** The pending slots depend on the slots and the two offsets only. */
  lemma PendingMoves(q: Queue, q': Queue, ph: Phase)
    requires q'.slots == q.slots && q'.front == q.front && q'.rear == q.rear
    ensures End(q', ph) == End(q, ph) && Pending(q', ph) == Pending(q, ph)
  {
  }

  /** The worker moves on inside its slot without touching it. */
  lemma SameSlot(q: Queue, q': Queue, ph: Phase)
    requires Shape(q, ph) && SlotsOk(q, ph) && SlotMove(q, q', ph)
    ensures Shape(q', ph) && SlotsOk(q', ph) && Pending(q', ph) == Pending(q, ph) && Taken(q', ph) == Taken(q, ph)
  {
    SameSlotShape(q, q', ph);
    assert Emptied(q', ph) by { assert forall i :: Unused(q', ph, i) ==> Unused(q, ph, i); }
    assert Filled(q', ph) && InHand(q', ph);
  }

  lemma TestFuncKeeps(q: Queue, q': Queue, ph: Phase)
    requires Live(q, ph) && !ShutDown(ph) && q.pc.TestFunc? && WorkerStep(q, q') && SafeStep(q, ph)
    ensures Live(q', ph) && q'.pc.Run?
    ensures q' == q.(pc := q'.pc) && InFlight(q') == InFlight(q) && Pending(q', ph) == Pending(q, ph)
  {
    assert q' == q.(pc := Run(q.pc.off));
    SameSlot(q, q', ph);
    SameSlotCount(q, q', ph);
  }

  lemma RunKeeps(q: Queue, q': Queue, ph: Phase)
    requires Live(q, ph) && !ShutDown(ph) && q.pc.Run? && WorkerStep(q, q') && SafeStep(q, ph)
    ensures Live(q', ph)
    ensures Pending(q', ph) == Pending(q, ph) && q'.executed == q.executed + InFlight(q) && InFlight(q') == []
  {
    assert !Taken(q, ph);
    assert q' == q.(executed := q.executed + InFlight(q), pc := ClearFunc(q.pc.off));
    SameSlot(q, q', ph);
    SameSlotCount(q, q', ph);
  }

  /** The worker's slot lies before the pending ones and before the one being published. */
  lemma WorkerSlotApart(q: Queue, ph: Phase)
    requires Shape(q, ph) && InSlot(q.pc) && !Taken(q, ph)
    ensures Index(q.pc.off) + 1 == Index(q.front) && Index(q.pc.off) < |q.slots|
    ensures ph.Bumped? || ph.HalfStored? ==> q.front < q.rear && Index(q.pc.off) < Index(ph.off)
  {
  }

  /** Clearing the worker's slot touches no pending slot and not the one being published. */
  lemma ClearSlots(q: Queue, q': Queue, ph: Phase, k: nat, value: Job)
    requires Shape(q, ph) && SlotsOk(q, ph) && InSlot(q.pc) && k == Index(q.pc.off) < |q.slots|
    requires k + 1 == Index(q.front) && (ph.Bumped? || ph.HalfStored? ==> q.front < q.rear && k < Index(ph.off))
    requires value.func == 0 && (q'.pc == ClearArg(q.pc.off) || (q'.pc == Decrement && value == CLEARED))
    requires q' == q.(slots := q.slots[k := value], pc := q'.pc)
    ensures Shape(q', ph) && SlotsOk(q', ph) && !Taken(q', ph)
  {
    forall i | 0 <= i < |q'.slots| && Unused(q', ph, i)
      ensures q'.slots[i] == CLEARED
    {
      assert i != k ==> Unused(q, ph, i);
    }
  }

  lemma ClearPending(q: Queue, q': Queue, ph: Phase, k: nat, value: Job)
    requires k < |q.slots| && k + 1 == Index(q.front)
    requires q' == q.(slots := q.slots[k := value], pc := q'.pc)
    ensures Pending(q', ph) == Pending(q, ph)
  {
  }

  lemma ClearKeeps(q: Queue, q': Queue, ph: Phase)
    requires Live(q, ph) && !ShutDown(ph) && (q.pc.ClearFunc? || q.pc.ClearArg?) && WorkerStep(q, q')
    ensures Live(q', ph)
    ensures Pending(q', ph) == Pending(q, ph) && q'.executed == q.executed
    ensures InFlight(q) == [] && InFlight(q') == []
  {
    var k := Index(q.pc.off);
    WorkerSlotApart(q, ph);
    var value := if q.pc.ClearFunc? then q.slots[k].(func := 0) else CLEARED;
    assert q' == q.(slots := q.slots[k := value], pc := q'.pc);
    ClearSlots(q, q', ph, k, value);
    ClearPending(q, q', ph, k, value);
    SameSlotCount(q, q', ph);
  }

  lemma CountUp(x: nat)
    requires x < WORD
    ensures U32(U32(x + (WORD - 1)) + 1) == x
  {
    U32Add(x + (WORD - 1), 1);
    U32Turn(x);
    U32Fits(x);
  }

  lemma CountDown(x: nat)
    requires 1 <= x
    ensures U32(U32(x) + WORD - 1) == U32(x - 1)
  {
    U32Add(x, WORD - 1);
    U32Turn(x - 1);
  }

  lemma DecrementCount(q: Queue, q': Queue, ph: Phase)
    requires CountOk(q, ph) && q.pc.Decrement? && |Pending(q, ph)| < WORD - 1
    requires q' == q.(jobCount := U32(q.jobCount + WORD - 1), pc := CanLoop)
    ensures CountOk(q', ph)
  {
    assert Pending(q', ph) == Pending(q, ph);
    assert Outstanding(q, ph) == Outstanding(q', ph) + 1;
    CountDown(Outstanding(q, ph));
    CountDown(Outstanding(q, ph) + (WORD - 1));
  }

  lemma DecrementSlots(q: Queue, q': Queue, ph: Phase)
    requires Shape(q, ph) && SlotsOk(q, ph) && q.pc.Decrement? && q' == q.(jobCount := q'.jobCount, pc := CanLoop)
    ensures Shape(q', ph) && SlotsOk(q', ph) && Pending(q', ph) == Pending(q, ph) && |Pending(q, ph)| <= |q.slots|
  {
    PendingMoves(q, q', ph);
    assert Emptied(q', ph) by { assert forall i :: Unused(q', ph, i) ==> Unused(q, ph, i); }
  }

  lemma DecrementKeeps(q: Queue, q': Queue, ph: Phase)
    requires Live(q, ph) && !ShutDown(ph) && q.pc.Decrement? && WorkerStep(q, q')
    ensures Live(q', ph)
    ensures Pending(q', ph) == Pending(q, ph) && q'.executed == q.executed
    ensures InFlight(q) == [] && InFlight(q') == []
  {
    DecrementSlots(q, q', ph);
    DecrementCount(q, q', ph);
  }

  /** Nothing in the line moves, or its parts do from right to left. */
  lemma LineKept(q: Queue, q': Queue, ph: Phase)
    requires
      || (q'.executed == q.executed && InFlight(q) + Pending(q, ph) == InFlight(q') + Pending(q', ph))
      || (q'.executed == q.executed + InFlight(q) && InFlight(q') == [] && Pending(q', ph) == Pending(q, ph))
    ensures Line(q', ph) == Line(q, ph)
  {
    Associative(q.executed, InFlight(q), Pending(q, ph));
    Associative(q'.executed, InFlight(q'), Pending(q', ph));
    Associative(q'.executed, [], Pending(q', ph));
  }

  lemma Associative(x: seq<Job>, y: seq<Job>, z: seq<Job>)
    ensures x + y + z == x + (y + z) && ([] + z == z) && (x + [] == x)
  {
  }

  lemma HoldingKeeps(q: Queue, q': Queue, ph: Phase)
    requires Live(q, ph) && !ShutDown(ph) && WorkerStep(q, q') && SafeStep(q, ph) && InSlot(q.pc)
    ensures Live(q', ph) && Line(q', ph) == Line(q, ph)
  {
    if q.pc.TestFunc? { TestFuncKeeps(q, q', ph); }
    else if q.pc.Run? { RunKeeps(q, q', ph); }
    else { ClearKeeps(q, q', ph); }
    LineKept(q, q', ph);
  }

  /** A worker step moves a job along the line from slot to hand to log, in order. */
  lemma WorkerKeepsLive(q: Queue, q': Queue, ph: Phase)
    requires Live(q, ph) && !ShutDown(ph) && WorkerStep(q, q') && SafeStep(q, ph)
    ensures Live(q', ph)
    ensures Line(q', ph) == Line(q, ph)
  {
    if InSlot(q.pc) {
      HoldingKeeps(q, q', ph);
    } else {
      if IdlePc(q.pc) { IdleStepKeeps(q, q', ph); }
      else if q.pc.Dequeue? { DequeueKeeps(q, q', ph); }
      else { DecrementKeeps(q, q', ph); }
      LineKept(q, q', ph);
    }
  }

  lemma WorkerKeeps(q: Queue, q': Queue, ph: Phase, accepted: seq<Job>, carried: seq<Job>)
    requires QueueInv(q, ph, accepted, carried) && WorkerStep(q, q')
    requires !ShutDown(ph) ==> SafeStep(q, ph)
    ensures QueueInv(q', ph, accepted, carried)
  {
    if ShutDown(ph) { WorkerKeepsShut(q, q'); } else { WorkerKeepsLive(q, q', ph); }
  }

  // ------------------------------------------------------------- submitter steps

  lemma CountIsExact(q: Queue)
    requires Live(q, Open)
    ensures q.jobCount == Outstanding(q, Open) <= |q.slots| + 1
  {
    assert |Pending(q, Open)| <= |q.slots|;
  }

  /** p_queue_wait has read a job_count of zero: nothing is queued or in hand. */
  lemma ZeroCountMeansDrained(q: Queue)
    requires Live(q, Open) && q.jobCount == 0
    ensures Outstanding(q, Open) == 0 && q.front == q.rear
    ensures Live(q, Resetting(0)) && Pending(q, Resetting(0)) == Pending(q, Open) == [] && InFlight(q) == []
    ensures forall i :: 0 <= i < |q.slots| ==> q.slots[i] == CLEARED
  {
    CountIsExact(q);
    assert Index(q.front) == Index(q.rear);
  }

  lemma NotFullMeansRoom(q: Queue)
    requires Live(q, Open) && !Full(q)
    ensures Live(q, Room) && Pending(q, Room) == Pending(q, Open)
  {
    U64Turn(q.size - JOB_SIZE);
    U64Fits(q.size - JOB_SIZE);
    assert q.rear < q.size - JOB_SIZE;
    PendingSame(q, Open, Room);
  }

  lemma PendingSame(q: Queue, ph: Phase, ph': Phase)
    requires End(q, ph) == End(q, ph')
    ensures Pending(q, ph) == Pending(q, ph')
  {
  }

  lemma WakeKeeps(q: Queue, ph: Phase)
    requires if ShutDown(ph) then Shut(q) else Live(q, ph)
    ensures if ShutDown(ph) then Shut(Wake(q)) else Live(Wake(q), ph)
    ensures Pending(Wake(q), ph) == Pending(q, ph) && InFlight(Wake(q)) == InFlight(q)
    ensures Wake(q).executed == q.executed
  {
    if q.pc.Asleep? && !ShutDown(ph) {
      PcOnlySlots(q, Wake(q), ph);
      PcOnlyCount(q, Wake(q), ph);
    }
  }

  /** The four stores of p_queue_reset on a drained queue. */
  lemma ResetKeeps(q: Queue, q': Queue, stage: nat)
    requires Live(q, Resetting(stage)) && stage < 3
    requires q' == (if stage == 0 then q.(jobFree := 0) else if stage == 1 then q.(jobCount := 0) else q.(front := 0))
    ensures Live(q', Resetting(stage + 1))
    ensures Pending(q', Resetting(stage + 1)) == Pending(q, Resetting(stage)) == [] && InFlight(q') == InFlight(q) == []
  {
    assert forall i :: 0 <= i < |q.slots| ==> q.slots[i] == CLEARED;
  }

  lemma ResetDone(q: Queue, ph: Phase)
    requires Live(q, Resetting(3)) && (ph.Room? || ph.Drained?)
    ensures var q' := q.(rear := 0); Live(q', ph) && Pending(q', ph) == [] && InFlight(q') == []
    ensures Pending(q, Resetting(3)) == [] && InFlight(q) == []
  {
    assert forall i :: 0 <= i < |q.slots| ==> q.slots[i] == CLEARED;
  }

  lemma BumpSlots(q: Queue, q': Queue, job: Job)
    requires Shape(q, Room) && SlotsOk(q, Room) && job.Proper() && q' == q.(rear := q.rear + JOB_SIZE)
    ensures var ph := Bumped(job, q.rear);
            && Shape(q', ph) && SlotsOk(q', ph) && !Taken(q', ph)
            && Pending(q', ph) == Pending(q, Room)
  {
    var ph := Bumped(job, q.rear);
    assert Unused(q, Room, Index(q.rear));
    assert End(q', ph) == End(q, Room);
    assert Emptied(q', ph) by { assert forall i :: Unused(q', ph, i) ==> Unused(q, Room, i); }
  }

  lemma BumpKeeps(q: Queue, job: Job)
    requires Live(q, Room) && job.Proper()
    ensures var q', ph := q.(rear := U32(q.rear + JOB_SIZE)), Bumped(job, q.rear);
            Live(q', ph) && Pending(q', ph) == Pending(q, Room) && InFlight(q') == InFlight(q)
  {
    var q', ph := q.(rear := U32(q.rear + JOB_SIZE)), Bumped(job, q.rear);
    assert q'.rear == q.rear + JOB_SIZE;
    BumpSlots(q, q', job);
  }

  lemma StoreFuncKeeps(q: Queue, job: Job, off: nat)
    requires Live(q, Bumped(job, off))
    ensures InRegion(q, off)
    ensures var q' := Store(q, off, Slot(q, off).(func := job.func));
            && Live(q', HalfStored(job, off))
            && Pending(q', HalfStored(job, off)) == Pending(q, Bumped(job, off)) && InFlight(q') == InFlight(q)
  {
    var q', ph, ph' := Store(q, off, Slot(q, off).(func := job.func)), Bumped(job, off), HalfStored(job, off);
    assert forall i :: Unused(q', ph', i) ==> Unused(q, ph, i);
    assert Pending(q', ph') == Pending(q, ph);
  }

  lemma StoreArgSlots(q: Queue, job: Job, off: nat)
    requires Shape(q, HalfStored(job, off)) && SlotsOk(q, HalfStored(job, off))
    ensures InRegion(q, off)
    ensures var q' := Store(q, off, Slot(q, off).(arg := job.arg));
            && Shape(q', Uncounted) && SlotsOk(q', Uncounted) && Slot(q', off) == job
  {
    var q', ph := Store(q, off, Slot(q, off).(arg := job.arg)), HalfStored(job, off);
    assert Index(q.rear) == Index(off) + 1;
    assert q'.slots[Index(off)] == job;
    assert forall i :: Unused(q', Uncounted, i) ==> Unused(q, ph, i);
  }

  /** The job stored, it is the last pending one, or in flight if the worker has its slot. */
  lemma StoreArgPending(q: Queue, q': Queue, job: Job, off: nat)
    requires Shape(q, HalfStored(job, off)) && SlotsOk(q, HalfStored(job, off)) && InRegion(q, off) && job.Proper()
    requires q' == Store(q, off, Slot(q, off).(arg := job.arg)) && Slot(q', off) == job
    ensures Pending(q', Uncounted) == Pending(q, HalfStored(job, off)) + (if Taken(q, HalfStored(job, off)) then [] else [job])
    ensures InFlight(q') == InFlight(q) + (if Taken(q, HalfStored(job, off)) then [job] else [])
    ensures Taken(q, HalfStored(job, off)) ==> Pending(q', Uncounted) == []
  {
    assert Index(q.rear) == Index(off) + 1;
  }

  lemma StoreArgKeeps(q: Queue, job: Job, off: nat)
    requires Live(q, HalfStored(job, off))
    ensures InRegion(q, off)
    ensures var q' := Store(q, off, Slot(q, off).(arg := job.arg));
            && Live(q', Uncounted)
            && Line(q', Uncounted) == Line(q, HalfStored(job, off)) + [job]
  {
    StoreArgSlots(q, job, off);
    var q', ph := Store(q, off, Slot(q, off).(arg := job.arg)), HalfStored(job, off);
    StoreArgPending(q, q', job, off);
    assert Outstanding(q', Uncounted) == Outstanding(q, ph) + (if Taken(q, ph) then 0 else 1);
    if !Taken(q, ph) { U32Turn(Outstanding(q, ph)); }
  }

  lemma AddCountSlots(q: Queue, q': Queue)
    requires Shape(q, Uncounted) && SlotsOk(q, Uncounted) && q' == q.(jobCount := q'.jobCount)
    ensures Shape(q', Open) && SlotsOk(q', Open)
    ensures Pending(q', Open) == Pending(q, Uncounted) && Outstanding(q, Uncounted) <= |q.slots| + 1 < WORD
  {
    assert Emptied(q', Open) by { assert forall i :: Unused(q', Open, i) ==> Unused(q, Uncounted, i); }
  }

  lemma AddCountCount(q: Queue, q': Queue)
    requires CountOk(q, Uncounted) && q' == q.(jobCount := U32(q.jobCount + 1))
    requires Pending(q', Open) == Pending(q, Uncounted) && Outstanding(q, Uncounted) < WORD
    ensures CountOk(q', Open)
  {
    CountUp(Outstanding(q, Uncounted));
  }

  lemma AddCountKeeps(q: Queue)
    requires Live(q, Uncounted)
    ensures var q' := q.(jobCount := U32(q.jobCount + 1));
            Live(q', Open) && Pending(q', Open) == Pending(q, Uncounted) && InFlight(q') == InFlight(q)
  {
    var q' := q.(jobCount := U32(q.jobCount + 1));
    AddCountSlots(q, q');
    AddCountCount(q, q');
  }

  lemma DrainedIsOpen(q: Queue)
    requires Live(q, Drained)
    ensures Live(q, Open) && Pending(q, Open) == Pending(q, Drained) == [] && InFlight(q) == []
  {
  }

  lemma StoreForceKeeps(q: Queue)
    requires Live(q, Drained)
    ensures Shut(q.(jobFree := FORCE)) && InFlight(q.(jobFree := FORCE)) == []
    ensures Pending(q, Drained) == Pending(q.(jobFree := FORCE), Closed) == [] && InFlight(q) == []
  {
  }
}
