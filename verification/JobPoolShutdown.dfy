/** Whether udo_jpool_destroy can be left waiting in pthread_join for a worker that sleeps.

    The worker sleeps on the value that p_udo_futex_wait_cond loads, whatever it is.  If it
    is about to load it when the force value is stored, it can sleep on the force value
    itself, after both wake-ups; if it is anywhere else, it exits within eight steps. */
module JobPoolShutdown {
  import opened JobPool
  import opened JobPoolQueue
  import opened JobPoolRun
  import opened JobPoolTheorems
  import opened JobPoolChecks
  import opened JobPoolRaces
  import opened Runs

  /** Event `i` stores the force value for queue `t`. */
  ghost predicate StoresForce(r: Trace, i: nat, t: nat) {
    && i < |r.events| && i + 1 < |r.states| && t < |r.states[i].queues|
    && r.events[i] == Submitter && r.states[i].sub == StoreForce(t)
  }

  /** The worker is on its way out: it cannot fall asleep on the force value. */
  ghost predicate Leaving(q: Queue, sub: SubmitterPc, t: nat) {
    && !q.pc.LoadFree?
    && (q.pc.Asleep? ==> sub == ForceWake(t))
    && (q.pc.SleepCall? ==> q.pc.seen != FORCE)
  }

  /** How many steps the worker of a queue that is shut down can be from its exit. */
  function StepsToExit(q: Queue): nat {
    match q.pc
    case Exited => 0
    case CanLoop => 1
    case Decrement => 2
    case TestFunc(_) => 3
    case Dequeue => 4
    case TestForce => 5
    case LoadFront(_) => 6
    case LoadRear => 7
    case _ => 8
  }

  lemma WorkerKeepsLeaving(q: Queue, q': Queue, sub: SubmitterPc, t: nat)
    requires Shut(q) && Leaving(q, sub, t) && WorkerStep(q, q')
    ensures Leaving(q', sub, t) && StepsToExit(q') < StepsToExit(q)
  {
  }

  lemma SubmitterKeepsLeaving(sub: SubmitterPc, q: Queue, q': Queue, n: nat)
    requires Working(sub) && ShutDown(PhaseOf(sub, sub.t)) && Leaving(q, sub, sub.t) && QueueStep(sub, q, q')
    ensures Leaving(q', NextPc(sub, q, n), sub.t) && StepsToExit(q') <= StepsToExit(q)
  {
  }

  lemma OthersKeepLeaving(sub: SubmitterPc, q: Queue, other: Queue, n: nat, t: nat)
    requires Working(sub) && ShutDown(PhaseOf(sub, t)) && t != sub.t && Leaving(q, sub, t)
    ensures Leaving(q, NextPc(sub, other, n), t)
  {
  }

  lemma NextKeepsLeaving(s: Pool, e: Event, s': Pool, t: nat)
    requires PoolInv(s) && Next(s, e, s') && t < |s.queues| && ShutDown(PhaseOf(s.sub, t))
    requires Leaving(s.queues[t], s.sub, t)
    ensures |s'.queues| == |s.queues| && Leaving(s'.queues[t], s'.sub, t)
    ensures (if e == Worker(t) then 1 else 0) + StepsToExit(s'.queues[t]) <= StepsToExit(s.queues[t])
  {
    QueueLive(s, t);
    if e == Worker(t) {
      WorkerKeepsLeaving(s.queues[t], s'.queues[t], s.sub, t);
    } else if e == Submitter {
      if s.sub.t == t { SubmitterKeepsLeaving(s.sub, s.queues[t], s'.queues[t], |s.queues|); }
      else { OthersKeepLeaving(s.sub, s.queues[t], s.queues[s.sub.t], |s.queues|, t); }
    }
  }

  ghost predicate LeavingAt(r: Trace, k: nat, t: nat) {
    && k < |r.states| && t < |r.states[k].queues| && ShutDown(PhaseOf(r.states[k].sub, t))
    && Leaving(r.states[k].queues[t], r.states[k].sub, t)
  }

  lemma ForceStoreLeaves(q: Queue, q': Queue, t: nat)
    requires Live(q, Drained) && !q.pc.LoadFree? && q' == q.(jobFree := FORCE)
    ensures Leaving(q', ForceWake(t), t)
  {
  }

  lemma ForceStoreEvent(s: Pool, s': Pool, t: nat)
    requires PoolInv(s) && Next(s, Submitter, s') && s.sub == StoreForce(t) && t < |s.queues|
    ensures |s'.queues| == |s.queues| && s'.sub == ForceWake(t)
    ensures Live(s.queues[t], Drained) && s'.queues[t] == s.queues[t].(jobFree := FORCE)
  {
    QueueLive(s, t);
  }

  lemma StoreForceLeaves(r: Trace, i: nat, t: nat)
    requires CleanRun(r) && StoresForce(r, i, t) && !QueueAt(r, i, t).pc.LoadFree?
    ensures LeavingAt(r, i + 1, t)
  {
    InvOverRun(r, i);
    ForceStoreEvent(r.states[i], r.states[i + 1], t);
    ForceStoreLeaves(r.states[i].queues[t], r.states[i + 1].queues[t], t);
  }

  lemma LeavingStep(r: Trace, k: nat, t: nat)
    requires CleanRun(r) && k < |r.events| && LeavingAt(r, k, t)
    ensures LeavingAt(r, k + 1, t)
    ensures (if r.events[k] == Worker(t) then 1 else 0) + StepsToExit(QueueAt(r, k + 1, t)) <= StepsToExit(QueueAt(r, k, t))
  {
    InvOverRun(r, k);
    ShutDownIsFinal(r.states[k], r.events[k], r.states[k + 1], t);
    NextKeepsLeaving(r.states[k], r.events[k], r.states[k + 1], t);
  }

  lemma LeavingPersists(r: Trace, i: nat, k: nat, t: nat)
    requires CleanRun(r) && i <= k < |r.states| && LeavingAt(r, i, t)
    ensures LeavingAt(r, k, t)
  {
    ghost var p := (m: nat) => LeavingAt(r, m, t);
    forall m | i <= m < k
      ensures Carries(p, m)
    {
      if p(m) { LeavingStep(r, m, t); }
    }
    CarriedOver(p, i, k);
  }

  function StepsToExitAt(r: Trace, t: nat, m: nat): nat {
    if m < |r.states| && t < |r.states[m].queues| then StepsToExit(r.states[m].queues[t]) else 0
  }

  lemma LeavingIsBounded(r: Trace, i: nat, k: nat, t: nat)
    requires CleanRun(r) && i <= k < |r.states| && LeavingAt(r, i, t)
    ensures WorkerSteps(r, t, i, k) + StepsToExitAt(r, t, k) <= StepsToExitAt(r, t, i)
  {
    var rank := (m: nat) => StepsToExitAt(r, t, m);
    forall m | i <= m < k
      ensures Falls(r, t, m, rank)
    {
      LeavingPersists(r, i, m, t);
      LeavingStep(r, m, t);
    }
    RankBoundsSteps(r, t, i, k, rank);
  }

  /** A worker that is not about to load job_free when the force value is stored exits: it
      takes at most eight steps more, and while destroy joins it and it has not exited, it
      has a step to take. */
  lemma WorkerExits(r: Trace, i: nat, k: nat, t: nat)
    requires CleanRun(r) && StoresForce(r, i, t) && !QueueAt(r, i, t).pc.LoadFree? && i < k < |r.states|
    ensures t < |r.states[k].queues|
    ensures WorkerSteps(r, t, i + 1, k) <= 8
    ensures WorkerSteps(r, t, i + 1, k) == 8 ==> QueueAt(r, k, t).pc.Exited?
    ensures r.states[k].sub == Join(t) && !QueueAt(r, k, t).pc.Exited? ==> exists q' :: WorkerStep(QueueAt(r, k, t), q')
  {
    StoreForceLeaves(r, i, t);
    LeavingPersists(r, i + 1, k, t);
    LeavingIsBounded(r, i + 1, k, t);
    StepsBound(QueueAt(r, i + 1, t));
    StepsBound(QueueAt(r, k, t));
    InvOverRun(r, k);
    if r.states[k].sub == Join(t) && !QueueAt(r, k, t).pc.Exited? {
      QueueLive(r.states[k], t);
      ShutHasStep(QueueAt(r, k, t));
    }
  }

  lemma StepsBound(q: Queue)
    ensures StepsToExit(q) <= 8 && (StepsToExit(q) == 0 <==> q.pc.Exited?)
  {
  }

  lemma ShutHasStep(q: Queue)
    requires Shut(q) && !q.pc.Asleep? && !q.pc.Exited?
    ensures exists q' :: WorkerStep(q, q')
  {
    var q' := SomeWorkerStep(q);
    assert WorkerStep(q, q');
  }

  /** Destroy waits for a worker that is asleep. */
  ghost predicate JoinsSleeper(s: Pool, t: nat) {
    s.sub == Join(t) && t < |s.queues| && s.queues[t].pc.Asleep?
  }

  /** ... and then the submitter has no step. */
  lemma JoinIsStuck(s: Pool, t: nat)
    requires JoinsSleeper(s, t)
    ensures forall e, s' :: Next(s, e, s') ==> e.Worker?
  {
  }

  /** `s` with other states of queue `t` and of the submitter. */
  function Put(s: Pool, t: nat, q: Queue, sub: SubmitterPc): Pool
    requires t < |s.queues|
  {
    s.(queues := s.queues[t := q], sub := sub)
  }

  lemma SubmitterGoes(r: Trace, r': Trace, t: nat, q': Queue) returns (x: Trace)
    requires CleanRun(r') && Extends(r', r) && t < |Last(r').queues| && Working(Last(r').sub) && Last(r').sub.t == t
    requires QueueStep(Last(r').sub, Last(r').queues[t], q')
    ensures Extends(x, r)
    ensures Last(x) == Put(Last(r'), t, q', NextPc(Last(r').sub, Last(r').queues[t], |Last(r').queues|))
    ensures x.events == r'.events + [Submitter] && |x.states| == |r'.states| + 1
  {
    var s' := Put(Last(r'), t, q', NextPc(Last(r').sub, Last(r').queues[t], |Last(r').queues|));
    ThenExtends(r, r', Submitter, s');
    x := Then(r', Submitter, s');
  }

  lemma WorkerGoes(r: Trace, r': Trace, t: nat, q': Queue) returns (x: Trace)
    requires CleanRun(r') && Extends(r', r) && t < |Last(r').queues|
    requires WorkerStep(Last(r').queues[t], q') && Clean(Last(r'), Worker(t))
    ensures Extends(x, r)
    ensures Last(x) == Put(Last(r'), t, q', Last(r').sub)
    ensures x.events == r'.events + [Worker(t)] && |x.states| == |r'.states| + 1
  {
    var s' := Put(Last(r'), t, q', Last(r').sub);
    assert Next(Last(r'), Worker(t), s');
    ThenExtends(r, r', Worker(t), s');
    x := Then(r', Worker(t), s');
  }

  /** The worker loads the force value, both wake-ups pass, and it falls asleep. */
  lemma FallsAsleep(r: Trace, t: nat) returns (x: Trace)
    requires CleanRun(r) && Last(r).sub == ForceWake(t) && t < |Last(r).queues|
    requires Last(r).queues[t].pc.LoadFree? && Last(r).queues[t].jobFree == FORCE
    ensures Extends(x, r) && JoinsSleeper(Last(x), t)
  {
    var q := Last(r).queues[t];
    x := WorkerGoes(r, r, t, q.(pc := SleepCall(FORCE)));
    x := SubmitterGoes(r, x, t, q.(pc := SleepCall(FORCE)));
    x := SubmitterGoes(r, x, t, q.(pc := SleepCall(FORCE)));
    x := WorkerGoes(r, x, t, q.(pc := Asleep));
  }

  lemma NoSleeperWithoutLoad(r: Trace, r': Trace, i: nat, t: nat)
    requires CleanRun(r) && StoresForce(r, i, t) && i + 1 == |r.events| && !QueueAt(r, i, t).pc.LoadFree?
    requires Extends(r', r)
    ensures !JoinsSleeper(Last(r'), t)
  {
    assert r'.states[i] == r.states[i] && r'.states[i + 1] == r.states[i + 1] && r'.events[i] == r.events[i];
    StoreForceLeaves(r', i, t);
    LeavingPersists(r', i + 1, |r'.states| - 1, t);
  }

  /** From the store of the force value, destroy can come to wait for a sleeping worker if
      and only if the worker was about to load job_free as the value to sleep on. */
  lemma JoinCanWaitForSleeper(r: Trace, i: nat, t: nat)
    requires CleanRun(r) && StoresForce(r, i, t) && i + 1 == |r.events|
    ensures (exists r' :: Extends(r', r) && JoinsSleeper(Last(r'), t)) <==> QueueAt(r, i, t).pc.LoadFree?
  {
    if QueueAt(r, i, t).pc.LoadFree? {
      assert Next(r.states[i], r.events[i], r.states[i + 1]);
      var x := FallsAsleep(r, t);
    } else {
      forall r' | Extends(r', r)
        ensures !JoinsSleeper(Last(r'), t)
      {
        NoSleeperWithoutLoad(r, r', i, t);
      }
    }
  }

  /** If destroy ever joins a sleeping worker, that worker was about to load job_free when the
      force value was stored. */
  lemma SleeperLoadedForce(r: Trace, i: nat, k: nat, t: nat)
    requires CleanRun(r) && StoresForce(r, i, t) && i < k < |r.states| && JoinsSleeper(r.states[k], t)
    ensures QueueAt(r, i, t).pc.LoadFree?
  {
    if !QueueAt(r, i, t).pc.LoadFree? {
      StoreForceLeaves(r, i, t);
      LeavingPersists(r, i + 1, k, t);
    }
  }

  /** That does come about. */
  lemma ForceStoredTooEarly()
    ensures exists r: Trace, i: nat :: CleanRun(r) && StoresForce(r, i, 0) && i + 1 == |r.events| && QueueAt(r, i, 0).pc.LoadFree?
  {
    DrainedForDestroy({});
    var s := One(StoreForce(0), [], 0, 0, 0, CLEARED, LoadFree, []);
    var r :| RunTearing(r, {}) && r.states[|r.states| - 1] == s;
    HarmlessIsClean(r, {});
    var x := SubmitterGoes(r, r, 0, s.queues[0].(jobFree := FORCE));
    assert x.states[|r.events|] == s && x.events[|r.events|] == Submitter;
    assert StoresForce(x, |r.events|, 0);
  }
}
