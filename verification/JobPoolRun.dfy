/** Every clean run of the job pool: what holds in each of its states. */
module JobPoolRun {
  import opened JobPool
  import opened JobPoolQueue
  import opened RoundRobin

  ghost predicate SubmitterOk(sub: SubmitterPc, n: nat) {
    && (Working(sub) ==> sub.t < n)
    && (sub.Reset? ==> sub.stage <= 3)
  }

  /** Queue `q` has number `t`, and `acc` are the jobs dealt to it so far. */
  ghost predicate QueueFor(q: Queue, sub: SubmitterPc, t: nat, acc: seq<Job>) {
    QueueInv(q, PhaseOf(sub, t), acc, Carried(sub, t))
  }

  ghost predicate PoolInv(s: Pool) {
    var n := |s.queues|;
    && 0 < n && s.cur == |s.accepted| % n
    && SubmitterOk(s.sub, n)
    && forall t {:trigger s.queues[t]} :: 0 <= t < n ==>
         QueueFor(s.queues[t], s.sub, t, Share(s.accepted, t, n))
  }

  lemma InitHolds(s: Pool)
    requires Init(s) && Roomy(s)
    ensures PoolInv(s)
  {
    var n := |s.queues|;
    forall t | 0 <= t < n
      ensures QueueFor(s.queues[t], s.sub, t, Share(s.accepted, t, n))
    {
      FreshIsLive(s.queues[t]);
    }
  }

  lemma FreshIsLive(q: Queue)
    requires Fresh(q) && JOB_SIZE <= q.size
    ensures QueueInv(q, Open, [], [])
  {
    assert Pending(q, Open) == [];
  }

  predicate IsWake(sub: SubmitterPc) {
    sub.DrainWake? || sub.WakeWorker? || sub.ForceWake? || sub.CondWake? || sub.Join?
  }

  predicate IsPublish(sub: SubmitterPc) {
    sub.Bump? || sub.StoreFunc? || sub.StoreArg? || sub.AddCount?
  }

  /** A wake moves a sleeping worker and nothing else. */
  lemma OwnQueueWake(sub: SubmitterPc, q: Queue, q': Queue, n: nat, acc: seq<Job>)
    requires IsWake(sub) && SubmitterOk(sub, n)
    requires QueueFor(q, sub, sub.t, acc) && QueueStep(sub, q, q')
    ensures QueueFor(q', NextPc(sub, q, n), sub.t, acc)
  {
    var ph := PhaseOf(sub, sub.t);
    if !sub.Join? {
      assert PhaseOf(NextPc(sub, q, n), sub.t) == ph && Carried(NextPc(sub, q, n), sub.t) == Carried(sub, sub.t);
      WakeKeeps(q, ph);
    }
  }

  lemma OwnQueueBump(sub: SubmitterPc, q: Queue, q': Queue, n: nat, acc: seq<Job>)
    requires sub.Bump? && SubmitterOk(sub, n)
    requires QueueFor(q, sub, sub.t, acc) && QueueStep(sub, q, q')
    ensures QueueFor(q', NextPc(sub, q, n), sub.t, acc)
  {
    assert sub.job in Carried(sub, sub.t);
    BumpKeeps(q, sub.job);
  }

  lemma OwnQueueStoreFunc(sub: SubmitterPc, q: Queue, q': Queue, n: nat, acc: seq<Job>)
    requires sub.StoreFunc? && SubmitterOk(sub, n)
    requires QueueFor(q, sub, sub.t, acc) && QueueStep(sub, q, q')
    ensures QueueFor(q', NextPc(sub, q, n), sub.t, acc)
  {
    assert PhaseOf(sub, sub.t) == Bumped(sub.job, sub.off);
    assert PhaseOf(NextPc(sub, q, n), sub.t) == HalfStored(sub.job, sub.off);
    StoreFuncKeeps(q, sub.job, sub.off);
  }

  lemma OwnQueueStoreArg(sub: SubmitterPc, q: Queue, q': Queue, n: nat, acc: seq<Job>)
    requires sub.StoreArg? && SubmitterOk(sub, n)
    requires QueueFor(q, sub, sub.t, acc) && QueueStep(sub, q, q')
    ensures QueueFor(q', NextPc(sub, q, n), sub.t, acc)
  {
    assert PhaseOf(sub, sub.t) == HalfStored(sub.job, sub.off);
    assert PhaseOf(NextPc(sub, q, n), sub.t) == Uncounted && Carried(NextPc(sub, q, n), sub.t) == [];
    StoreArgKeeps(q, sub.job, sub.off);
    assert Carried(sub, sub.t) == [sub.job];
  }

  lemma OwnQueueAddCount(sub: SubmitterPc, q: Queue, q': Queue, n: nat, acc: seq<Job>)
    requires sub.AddCount? && SubmitterOk(sub, n)
    requires QueueFor(q, sub, sub.t, acc) && QueueStep(sub, q, q')
    ensures QueueFor(q', NextPc(sub, q, n), sub.t, acc)
  {
    AddCountKeeps(q);
  }

  /** The four steps that publish a job. */
  lemma OwnQueuePublish(sub: SubmitterPc, q: Queue, q': Queue, n: nat, acc: seq<Job>)
    requires IsPublish(sub) && SubmitterOk(sub, n)
    requires QueueFor(q, sub, sub.t, acc) && QueueStep(sub, q, q')
    ensures QueueFor(q', NextPc(sub, q, n), sub.t, acc)
  {
    if sub.Bump? { OwnQueueBump(sub, q, q', n, acc); }
    else if sub.StoreFunc? { OwnQueueStoreFunc(sub, q, q', n, acc); }
    else if sub.StoreArg? { OwnQueueStoreArg(sub, q, q', n, acc); }
    else { OwnQueueAddCount(sub, q, q', n, acc); }
  }

  /** The submitter's tests of the queue it works on. */
  lemma OwnQueueTest(sub: SubmitterPc, q: Queue, n: nat, acc: seq<Job>)
    requires (sub.CheckFull? || sub.Drain?) && SubmitterOk(sub, n)
    requires QueueFor(q, sub, sub.t, acc)
    ensures QueueFor(q, NextPc(sub, q, n), sub.t, acc)
  {
    if sub.CheckFull? && !Full(q) { NotFullMeansRoom(q); }
    if sub.Drain? && q.jobCount == 0 { ZeroCountMeansDrained(q); }
  }

  lemma OwnQueueResetStore(sub: SubmitterPc, q: Queue, q': Queue, n: nat, acc: seq<Job>)
    requires sub.Reset? && sub.stage < 3 && SubmitterOk(sub, n)
    requires QueueFor(q, sub, sub.t, acc) && QueueStep(sub, q, q')
    ensures QueueFor(q', NextPc(sub, q, n), sub.t, acc)
  {
    var next := NextPc(sub, q, n);
    assert PhaseOf(sub, sub.t) == Resetting(sub.stage) && PhaseOf(next, sub.t) == Resetting(sub.stage + 1);
    assert Carried(next, sub.t) == Carried(sub, sub.t);
    ResetKeeps(q, q', sub.stage);
    assert q'.executed == q.executed;
  }

  lemma OwnQueueResetLast(sub: SubmitterPc, q: Queue, q': Queue, n: nat, acc: seq<Job>, ph: Phase)
    requires sub.Reset? && sub.stage == 3 && SubmitterOk(sub, n)
    requires QueueFor(q, sub, sub.t, acc) && QueueStep(sub, q, q')
    requires ph == if sub.after.Publish? then Room else Drained
    ensures QueueInv(q', ph, acc, Carried(sub, sub.t))
  {
    assert PhaseOf(sub, sub.t) == Resetting(3);
    ResetDone(q, ph);
    assert q' == q.(rear := 0);
  }

  lemma OwnQueueReset(sub: SubmitterPc, q: Queue, q': Queue, n: nat, acc: seq<Job>)
    requires sub.Reset? && SubmitterOk(sub, n)
    requires QueueFor(q, sub, sub.t, acc) && QueueStep(sub, q, q')
    ensures QueueFor(q', NextPc(sub, q, n), sub.t, acc)
  {
    if sub.stage < 3 {
      OwnQueueResetStore(sub, q, q', n, acc);
    } else {
      OwnQueueResetLast(sub, q, q', n, acc, if sub.after.Publish? then Room else Drained);
      AfterReset(sub, q, n);
    }
  }

  /** Where the submitter goes after the last store of a reset. */
  lemma AfterReset(sub: SubmitterPc, q: Queue, n: nat)
    requires sub.Reset? && sub.stage == 3
    ensures PhaseOf(NextPc(sub, q, n), sub.t) == if sub.after.Publish? then Room else Drained
    ensures Carried(NextPc(sub, q, n), sub.t) == Carried(sub, sub.t)
  {
  }

  /** The submitter's step leaves the phase of every other queue as it is. */
  lemma OtherQueuePhase(sub: SubmitterPc, q: Queue, n: nat, u: nat)
    requires Working(sub) && SubmitterOk(sub, n) && u < n && u != sub.t
    ensures PhaseOf(NextPc(sub, q, n), u) == PhaseOf(sub, u)
    ensures Carried(NextPc(sub, q, n), u) == Carried(sub, u)
  {
  }

  lemma OwnQueueKeeps(sub: SubmitterPc, q: Queue, q': Queue, n: nat, acc: seq<Job>)
    requires Working(sub) && SubmitterOk(sub, n)
    requires QueueFor(q, sub, sub.t, acc) && QueueStep(sub, q, q')
    ensures QueueFor(q', NextPc(sub, q, n), sub.t, acc)
  {
    if sub.Reset? { OwnQueueReset(sub, q, q', n, acc); }
    else if sub.CheckFull? || sub.Drain? { OwnQueueTest(sub, q, n, acc); }
    else if IsWake(sub) { OwnQueueWake(sub, q, q', n, acc); }
    else if IsPublish(sub) { OwnQueuePublish(sub, q, q', n, acc); }
    else { StoreForceKeeps(q); }
  }

  lemma OtherQueueKeeps(sub: SubmitterPc, q: Queue, n: nat, u: nat, other: Queue, acc: seq<Job>)
    requires Working(sub) && SubmitterOk(sub, n) && u < n && u != sub.t && QueueFor(other, sub, u, acc)
    ensures QueueFor(other, NextPc(sub, q, n), u, acc)
  {
    OtherQueuePhase(sub, q, n, u);
  }

  lemma NextPcOk(sub: SubmitterPc, q: Queue, n: nat)
    requires Working(sub) && SubmitterOk(sub, n)
    ensures SubmitterOk(NextPc(sub, q, n), n)
  {
  }

  lemma SubmitterKeeps(s: Pool, s': Pool)
    requires PoolInv(s) && Next(s, Submitter, s')
    ensures PoolInv(s')
  {
    var n, t := |s.queues|, s.sub.t;
    var q, q' := s.queues[t], s'.queues[t];
    NextPcOk(s.sub, q, n);
    OwnQueueKeeps(s.sub, q, q', n, Share(s.accepted, t, n));
    forall u | 0 <= u < n
      ensures QueueFor(s'.queues[u], s'.sub, u, Share(s.accepted, u, n))
    {
      if u != t { OtherQueueKeeps(s.sub, q, n, u, s.queues[u], Share(s.accepted, u, n)); }
    }
  }

  lemma CleanIsSafe(s: Pool, w: nat)
    requires PoolInv(s) && w < |s.queues| && Clean(s, Worker(w)) && !ShutDown(PhaseOf(s.sub, w))
    ensures SafeStep(s.queues[w], PhaseOf(s.sub, w))
  {
    assert QueueFor(s.queues[w], s.sub, w, Share(s.accepted, w, |s.queues|));
  }

  lemma WorkerEventKeeps(s: Pool, w: nat, s': Pool)
    requires PoolInv(s) && Next(s, Worker(w), s') && Clean(s, Worker(w))
    ensures PoolInv(s')
  {
    var n := |s.queues|;
    if !ShutDown(PhaseOf(s.sub, w)) { CleanIsSafe(s, w); }
    WorkerKeeps(s.queues[w], s'.queues[w], PhaseOf(s.sub, w), Share(s.accepted, w, n), Carried(s.sub, w));
  }

  lemma CurStep(k: nat, cur: nat, n: nat)
    requires 0 < n && cur == k % n
    ensures (cur + 1) % n == (k + 1) % n
  {
    DivModStep(k, n);
    DivModStep(cur, n);
  }

  /** The round robin gives the accepted job to queue `cur`, and to no other. */
  lemma CallAddQueue(s: Pool, job: Job, t: nat)
    requires PoolInv(s) && s.sub.Idle? && job.Proper() && t < |s.queues|
    ensures QueueInv(s.queues[t], Open, Share(s.accepted + [job], t, |s.queues|), if t == s.cur then [job] else [])
  {
    ShareStep(s.accepted, job, t, |s.queues|);
    assert QueueInv(s.queues[t], Open, Share(s.accepted, t, |s.queues|), []);
  }

  lemma CallAddKeeps(s: Pool, job: Job, s': Pool)
    requires PoolInv(s) && Next(s, CallAdd(job), s')
    ensures PoolInv(s')
  {
    var n := |s.queues|;
    CurStep(|s.accepted|, s.cur, n);
    forall t | 0 <= t < n
      ensures QueueFor(s'.queues[t], s'.sub, t, Share(s'.accepted, t, n))
    {
      CallAddQueue(s, job, t);
    }
  }

  lemma DrainedQueueIsOpen(q: Queue, acc: seq<Job>)
    requires QueueInv(q, Drained, acc, [])
    ensures QueueInv(q, Open, acc, [])
  {
    DrainedIsOpen(q);
  }

  lemma ReturnKeeps(s: Pool, s': Pool)
    requires PoolInv(s) && Next(s, Return, s')
    ensures PoolInv(s')
  {
    forall t | 0 <= t < |s.queues|
      ensures QueueInv(s'.queues[t], Open, Share(s.accepted, t, |s.queues|), [])
    {
      DrainedQueueIsOpen(s.queues[t], Share(s.accepted, t, |s.queues|));
    }
  }

  lemma NextKeeps(s: Pool, e: Event, s': Pool)
    requires PoolInv(s) && Next(s, e, s') && Clean(s, e)
    ensures PoolInv(s')
  {
    match e
    case CallAdd(job) => CallAddKeeps(s, job, s');
    case Return => ReturnKeeps(s, s');
    case Submitter => SubmitterKeeps(s, s');
    case Worker(w) => WorkerEventKeeps(s, w, s');
    case _ =>
  }

  lemma {:induction false} InvOverRun(r: Trace, i: nat)
    requires CleanRun(r) && i < |r.states|
    ensures PoolInv(r.states[i]) && |r.states[i].queues| == |r.states[0].queues|
  {
    if i == 0 {
      InitHolds(r.states[0]);
    } else {
      InvOverRun(r, i - 1);
      NextKeeps(r.states[i - 1], r.events[i - 1], r.states[i]);
    }
  }
}
