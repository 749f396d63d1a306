/** Whether a worker can sleep on although udo_jpool_add_job has published a job for it and
    woken it.

    The wake-up does nothing to a worker that is awake.  If at that moment the worker is past
    its look at the queue, on its way to sleep, it sleeps on with the job queued, until a
    later wake-up; if it is anywhere else, it does not fall asleep before the job is taken. */
module JobPoolIdle {
  import opened JobPool
  import opened JobPoolQueue
  import opened JobPoolRun
  import opened JobPoolTheorems
  import opened JobPoolChecks
  import opened JobPoolShutdown
  import opened JobPoolRaces
  import opened Runs

  /** The worker has looked at the queue, seen nothing, and is on its way to sleep. */
  predicate PastLook(q: Queue) {
    q.pc.TestForce? || q.pc.LoadFree? || q.pc.SleepCall? || (q.pc.LoadFront? && q.pc.rear <= q.front)
  }

  /** Event `m` is the wake-up at the end of a publication on queue `t`. */
  ghost predicate WakesAt(r: Trace, m: nat, t: nat) {
    m < |r.events| && m < |r.states| && r.events[m] == Submitter && r.states[m].sub == WakeWorker(t)
  }

  predicate Publishing(sub: SubmitterPc, t: nat) {
    (sub.StoreFunc? || sub.StoreArg? || sub.AddCount? || sub.WakeWorker?) && sub.t == t
  }

  /** The worker will not sleep over what is queued. */
  predicate Attentive(q: Queue, sub: SubmitterPc, t: nat) {
    Publishing(sub, t) || (HasJob(q, PhaseOf(sub, t)) ==> !PastLook(q) && !q.pc.Asleep?)
  }

  lemma WorkerKeepsAttentive(q: Queue, q': Queue, sub: SubmitterPc, t: nat)
    requires if ShutDown(PhaseOf(sub, t)) then Shut(q) else Live(q, PhaseOf(sub, t))
    requires Attentive(q, sub, t) && WorkerStep(q, q')
    ensures Attentive(q', sub, t)
  {
  }

  lemma SubmitterKeepsAttentive(sub: SubmitterPc, q: Queue, q': Queue, n: nat)
    requires Working(sub) && SubmitterOk(sub, n) && Attentive(q, sub, sub.t) && QueueStep(sub, q, q')
    requires if ShutDown(PhaseOf(sub, sub.t)) then Shut(q) else Live(q, PhaseOf(sub, sub.t))
    requires !sub.WakeWorker?
    ensures Attentive(q', NextPc(sub, q, n), sub.t)
  {
  }

  lemma NextKeepsAttentive(s: Pool, e: Event, s': Pool, t: nat)
    requires PoolInv(s) && Next(s, e, s') && t < |s.queues| && Attentive(s.queues[t], s.sub, t)
    requires !(e == Submitter && s.sub == WakeWorker(t))
    ensures |s'.queues| == |s.queues| && Attentive(s'.queues[t], s'.sub, t)
  {
    QueueLive(s, t);
    if e == Worker(t) {
      WorkerKeepsAttentive(s.queues[t], s'.queues[t], s.sub, t);
    } else if e == Submitter {
      if s.sub.t == t { SubmitterKeepsAttentive(s.sub, s.queues[t], s'.queues[t], |s.queues|); }
      else { OtherQueuePhase(s.sub, s.queues[s.sub.t], |s.queues|, t); }
    }
  }

  ghost predicate AttentiveAt(r: Trace, k: nat, t: nat) {
    k < |r.states| && t < |r.states[k].queues| && Attentive(r.states[k].queues[t], r.states[k].sub, t)
  }

  lemma AttentiveStep(r: Trace, k: nat, t: nat)
    requires CleanRun(r) && k < |r.events| && AttentiveAt(r, k, t) && !WakesAt(r, k, t)
    ensures AttentiveAt(r, k + 1, t)
  {
    InvOverRun(r, k);
    NextKeepsAttentive(r.states[k], r.events[k], r.states[k + 1], t);
  }

  lemma AttentiveOverRun(r: Trace, i: nat, k: nat, t: nat)
    requires CleanRun(r) && i <= k < |r.states| && AttentiveAt(r, i, t)
    requires forall m :: i <= m < k ==> !WakesAt(r, m, t)
    ensures AttentiveAt(r, k, t)
  {
    ghost var p := (m: nat) => AttentiveAt(r, m, t);
    forall m | i <= m < k
      ensures Carries(p, m)
    {
      if p(m) { AttentiveStep(r, m, t); }
    }
    CarriedOver(p, i, k);
  }

  /** Between calls, the worker is asleep and a job is queued. */
  ghost predicate SleepsOver(s: Pool, t: nat) {
    s.sub == Idle && t < |s.queues| && s.queues[t].pc.Asleep? && s.queues[t].front < s.queues[t].rear
  }

  /** A worker that sleeps over a queued job was on its way to sleep at the last wake-up. */
  lemma SleeperWasPastLook(r: Trace, m: nat, k: nat, t: nat)
    requires CleanRun(r) && WakesAt(r, m, t) && m < k < |r.states| && SleepsOver(r.states[k], t)
    requires forall j :: m < j < k ==> !WakesAt(r, j, t)
    ensures t < |r.states[m].queues| && PastLook(QueueAt(r, m, t))
    ensures QueueAt(r, m, t).front < QueueAt(r, m, t).rear
  {
    assert Next(r.states[m], r.events[m], r.states[m + 1]);
    InvOverRun(r, m);
    InvOverRun(r, k);
    if !(PastLook(QueueAt(r, m, t)) && QueueAt(r, m, t).front < QueueAt(r, m, t).rear) {
      AttentiveOverRun(r, m + 1, k, t);
    }
  }

  /** From a state between calls, a worker past its look goes to sleep. */
  lemma {:induction false} GoesToSleep(r: Trace, r': Trace, t: nat) returns (x: Trace)
    requires Extends(r', r) && Last(r').sub == Idle && t < |Last(r').queues|
    requires PastLook(Last(r').queues[t]) || Last(r').queues[t].pc.Asleep?
    requires Last(r').queues[t].front < Last(r').queues[t].rear
    requires forall j :: |r.events| <= j < |r'.events| ==> r'.events[j] == Worker(t)
    ensures Extends(x, r) && SleepsOver(Last(x), t)
    ensures forall j :: |r.events| <= j < |x.events| ==> x.events[j] == Worker(t)
    decreases StepsToSleep(Last(r').queues[t].pc)
  {
    var q := Last(r').queues[t];
    if q.pc.Asleep? {
      x := r';
    } else {
      InvOverRun(r', |r'.states| - 1);
      QueueLive(Last(r'), t);
      x := WorkerGoes(r, r', t, Closer(q));
      x := GoesToSleep(r, x, t);
    }
  }

  function StepsToSleep(pc: WorkerPc): nat {
    match pc
    case LoadFront(_) => 4
    case TestForce => 3
    case LoadFree => 2
    case SleepCall(_) => 1
    case _ => 0
  }

  /** The queue after the worker's next step towards sleep. */
  function Closer(q: Queue): (q': Queue)
    requires PastLook(q) && q.jobFree == 0 && LoopOk(q.pc)
    ensures WorkerStep(q, q') && q' == q.(pc := q'.pc)
    ensures (PastLook(q') || q'.pc.Asleep?) && StepsToSleep(q'.pc) < StepsToSleep(q.pc)
  {
    q.(pc := match q.pc
             case LoadFront(_) => TestForce
             case TestForce => LoadFree
             case LoadFree => SleepCall(0)
             case _ => Asleep)
  }

  /** After the wake-up of a publication, and with no later one on the queue, the worker can
      come to sleep over a queued job if and only if it was on its way to sleep. */
  lemma IdleWorkerCanSleepOver(r: Trace, m: nat, t: nat)
    requires CleanRun(r) && WakesAt(r, m, t) && m + 1 == |r.events|
    ensures t < |r.states[m].queues|
    ensures (exists r' :: Extends(r', r) && SleepsOver(Last(r'), t) && (forall j :: m < j < |r'.events| ==> !WakesAt(r', j, t)))
       <==> PastLook(QueueAt(r, m, t)) && QueueAt(r, m, t).front < QueueAt(r, m, t).rear
  {
    assert Next(r.states[m], r.events[m], r.states[m + 1]);
    var q := QueueAt(r, m, t);
    if PastLook(q) && q.front < q.rear {
      var x := GoesToSleep(r, r, t);
      assert forall j :: m < j < |x.events| ==> !WakesAt(x, j, t);
    }
    forall r' | Extends(r', r) && SleepsOver(Last(r'), t) && (forall j :: m < j < |r'.events| ==> !WakesAt(r', j, t))
      ensures PastLook(q) && q.front < q.rear
    {
      assert r'.states[m] == r.states[m] && r'.states[m + 1] == r.states[m + 1] && r'.events[m] == r.events[m];
      SleeperWasPastLook(r', m, |r'.states| - 1, t);
    }
  }

  /** A worker that finds neither a job nor the force value need not go on to sleep, and one
      that is asleep can be let go early: either way it looks again. */
  lemma WorkerCanLookAgain(q: Queue)
    requires q.pc.Asleep? || (q.pc.TestForce? && q.jobFree != FORCE)
    ensures WorkerStep(q, q.(pc := LoadRear))
    ensures q.pc.TestForce? ==> WorkerStep(q, q.(pc := LoadFree))
    ensures forall q' :: WorkerStep(q, q') ==> q' == q.(pc := LoadRear) || (q.pc.TestForce? && q' == q.(pc := LoadFree))
  {
  }

  /** A job is published while the worker is on its way to sleep. */
  lemma PublishedUnseen()
    ensures Reachable(One(WakeWorker(0), [JOB], 1, 0, 16, JOB, LoadFree, []), {})
  {
    CheckFailed({});
    Call({}, One(Idle, [], 0, 0, 0, CLEARED, LoadFree, []), CallAdd(JOB),
      One(CheckFull(0, JOB), [JOB], 0, 0, 0, CLEARED, LoadFree, []));
    SubmitterMoves({}, One(CheckFull(0, JOB), [JOB], 0, 0, 0, CLEARED, LoadFree, []),
      One(Bump(0, JOB), [JOB], 0, 0, 0, CLEARED, LoadFree, []));
    SubmitterMoves({}, One(Bump(0, JOB), [JOB], 0, 0, 0, CLEARED, LoadFree, []),
      One(StoreFunc(0, JOB, 0), [JOB], 0, 0, 16, CLEARED, LoadFree, []));
    PublishedPast(LoadFree, {});
  }

  /** So a clean run can end with the worker asleep over the only job. */
  lemma IdleWorkerSleepsOver()
    ensures exists r: Trace :: CleanRun(r) && SleepsOver(Last(r), 0)
  {
    PublishedUnseen();
    var s := One(WakeWorker(0), [JOB], 1, 0, 16, JOB, LoadFree, []);
    var r :| RunTearing(r, {}) && r.states[|r.states| - 1] == s;
    HarmlessIsClean(r, {});
    var x := SubmitterGoes(r, r, 0, s.queues[0]);
    var y := GoesToSleep(x, x, 0);
  }
}
