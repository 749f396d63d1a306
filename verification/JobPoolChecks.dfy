/** How a worker comes to dequeue from an empty queue: only by a check of rear and front that
    a reset of the queue has torn. */
module JobPoolChecks {
  import opened JobPool
  import opened JobPoolQueue
  import opened JobPoolRun
  import opened RoundRobin

  /** There is something to dequeue. */
  predicate HasJob(q: Queue, ph: Phase) {
    q.front < q.rear && !(ph.Resetting? && ph.stage == 3)
  }

  /** A worker that has decided to dequeue, or is about to, has something to dequeue. */
  ghost predicate CheckOk(q: Queue, ph: Phase) {
    && (q.pc.Dequeue? ==> HasJob(q, ph))
    && (q.pc.LoadFront? && q.pc.rear > q.front ==> HasJob(q, ph))
  }

  ghost predicate CheckFor(q: Queue, sub: SubmitterPc, t: nat) {
    !ShutDown(PhaseOf(sub, t)) ==> CheckOk(q, PhaseOf(sub, t))
  }

  ghost predicate ChecksOk(s: Pool) {
    forall t {:trigger s.queues[t]} :: 0 <= t < |s.queues| ==> CheckFor(s.queues[t], s.sub, t)
  }

  /** The event tears no check and uses no slot early. */
  ghost predicate Untorn(s: Pool, e: Event) {
    !Tears(s, e, EarlyUse) && !Tears(s, e, InsideReset) && !Tears(s, e, BetweenLoads)
  }

  lemma WorkerKeepsCheck(q: Queue, q': Queue, ph: Phase)
    requires Live(q, ph) && CheckOk(q, ph) && !ShutDown(ph) && WorkerStep(q, q')
    requires q.pc.LoadRear? && ph.Resetting? && ph.stage == 3 ==> q.rear == 0
    ensures CheckOk(q', ph)
  {
  }

  /** What the submitter's step does to a check in progress on its queue. */
  lemma SubmitterKeepsCheck(sub: SubmitterPc, q: Queue, q': Queue, n: nat)
    requires Working(sub) && SubmitterOk(sub, n) && !ShutDown(PhaseOf(sub, sub.t))
    requires Live(q, PhaseOf(sub, sub.t)) && CheckOk(q, PhaseOf(sub, sub.t)) && QueueStep(sub, q, q')
    requires sub.Reset? && sub.stage == 2 && q.pc.LoadFront? ==> q.pc.rear == 0
    ensures CheckFor(q', NextPc(sub, q, n), sub.t)
  {
    if sub.Reset? { ResetKeepsCheck(sub, q, q', n); }
    else if sub.Drain? && q.jobCount == 0 { ZeroCountMeansDrained(q); }
    else if sub.Bump? { assert q'.rear == q.rear + JOB_SIZE; }
  }

  lemma ResetKeepsCheck(sub: SubmitterPc, q: Queue, q': Queue, n: nat)
    requires sub.Reset? && SubmitterOk(sub, n)
    requires Live(q, Resetting(sub.stage)) && CheckOk(q, Resetting(sub.stage)) && QueueStep(sub, q, q')
    requires sub.stage == 2 && q.pc.LoadFront? ==> q.pc.rear == 0
    ensures CheckFor(q', NextPc(sub, q, n), sub.t)
  {
  }

  lemma QueueLive(s: Pool, t: nat)
    requires PoolInv(s) && t < |s.queues|
    ensures if ShutDown(PhaseOf(s.sub, t)) then Shut(s.queues[t]) else Live(s.queues[t], PhaseOf(s.sub, t))
  {
    assert QueueFor(s.queues[t], s.sub, t, Share(s.accepted, t, |s.queues|));
  }

  lemma OtherKeepsCheck(s: Pool, s': Pool, u: nat)
    requires PoolInv(s) && ChecksOk(s) && Next(s, Submitter, s') && u < |s.queues| && u != s.sub.t
    ensures CheckFor(s'.queues[u], s'.sub, u)
  {
    OtherQueuePhase(s.sub, s.queues[s.sub.t], |s.queues|, u);
    assert CheckFor(s.queues[u], s.sub, u);
  }

  lemma SubmitterEventKeepsChecks(s: Pool, s': Pool)
    requires PoolInv(s) && ChecksOk(s) && Next(s, Submitter, s') && Untorn(s, Submitter)
    ensures ChecksOk(s')
  {
    var n, t := |s.queues|, s.sub.t;
    QueueLive(s, t);
    assert CheckFor(s.queues[t], s.sub, t);
    forall u | 0 <= u < n
      ensures CheckFor(s'.queues[u], s'.sub, u)
    {
      if u != t { OtherKeepsCheck(s, s', u); }
      else if ShutDown(PhaseOf(s.sub, t)) { assert ShutDown(PhaseOf(s'.sub, t)); }
      else { SubmitterKeepsCheck(s.sub, s.queues[t], s'.queues[t], n); }
    }
  }

  lemma WorkerEventKeepsChecks(s: Pool, w: nat, s': Pool)
    requires PoolInv(s) && ChecksOk(s) && Next(s, Worker(w), s') && Untorn(s, Worker(w))
    ensures ChecksOk(s')
  {
    QueueLive(s, w);
    assert CheckFor(s.queues[w], s.sub, w);
    forall u | 0 <= u < |s.queues|
      ensures CheckFor(s'.queues[u], s'.sub, u)
    {
      if u != w { assert CheckFor(s.queues[u], s.sub, u); }
      else if !ShutDown(PhaseOf(s.sub, w)) { WorkerKeepsCheck(s.queues[w], s'.queues[w], PhaseOf(s.sub, w)); }
    }
  }

  lemma CallKeepsChecks(s: Pool, e: Event, s': Pool)
    requires PoolInv(s) && ChecksOk(s) && Next(s, e, s') && !e.Submitter? && !e.Worker?
    ensures ChecksOk(s')
  {
    forall u | 0 <= u < |s.queues|
      ensures CheckFor(s'.queues[u], s'.sub, u)
    {
      assert CheckFor(s.queues[u], s.sub, u);
    }
  }

  lemma NextKeepsChecks(s: Pool, e: Event, s': Pool)
    requires PoolInv(s) && ChecksOk(s) && Next(s, e, s') && Untorn(s, e)
    ensures ChecksOk(s')
  {
    match e
    case Submitter => SubmitterEventKeepsChecks(s, s');
    case Worker(w) => WorkerEventKeepsChecks(s, w, s');
    case _ => CallKeepsChecks(s, e, s');
  }

  /** With no check torn, no dequeue finds the queue empty. */
  lemma ChecksPreventEmptyDequeue(s: Pool, e: Event)
    requires PoolInv(s) && ChecksOk(s)
    ensures !Tears(s, e, EmptyDequeue)
  {
    if e.Worker? && e.w < |s.queues| {
      QueueLive(s, e.w);
      assert CheckFor(s.queues[e.w], s.sub, e.w);
    }
  }

  ghost predicate UntornRun(r: Trace) {
    && IsRun(r) && Roomy(r.states[0])
    && forall i :: 0 <= i < |r.events| ==> Untorn(r.states[i], r.events[i])
  }

  lemma {:induction false} ChecksOverRun(r: Trace, i: nat)
    requires UntornRun(r) && i < |r.states|
    ensures PoolInv(r.states[i]) && ChecksOk(r.states[i])
  {
    if i == 0 {
      InitHolds(r.states[0]);
    } else {
      ChecksOverRun(r, i - 1);
      ChecksPreventEmptyDequeue(r.states[i - 1], r.events[i - 1]);
      NextKeeps(r.states[i - 1], r.events[i - 1], r.states[i]);
      NextKeepsChecks(r.states[i - 1], r.events[i - 1], r.states[i]);
    }
  }

  /** A run that tears no check and uses no slot early is clean: an empty dequeue comes about
      by a reset between a worker's two loads, or around its load of rear, and no other way. */
  lemma UntornIsClean(r: Trace)
    requires UntornRun(r)
    ensures CleanRun(r)
  {
    forall i | 0 <= i < |r.events|
      ensures Clean(r.states[i], r.events[i])
    {
      ChecksOverRun(r, i);
      ChecksPreventEmptyDequeue(r.states[i], r.events[i]);
      assert Untorn(r.states[i], r.events[i]);
    }
  }
}
