/** The futex word of src/futex.c and its threads as a step system.

    Any number of threads lock, wait, unlock, force and wake one 32-bit word.  A store
    and the wake-all after it are two steps; so are a failed test of the word and the
    FUTEX_WAIT after it.  The kernel's compare-and-sleep and wake-all are one step each. */
module Futex {

  const UNLOCK: nat := 0
  const LOCK: nat := 1
  const FORCE: nat := 0x66AFB55C
  /** Tries before a caller starts to sleep. */
  const CONTENTION: nat := 999999999

  type Tid = nat

  /** Which call a sleeping thread is in. */
  datatype Sleeper = ForLock | ForValue(desired: nat) | ForCond

  datatype Pc =
    | Idle
    | LockCas(i: nat)                              // udo_futex_lock: try number i, 0 -> 1
    | LockTest(i: nat)                             // it failed: load, compare with FORCE
    | LockSleep                                    // FUTEX_WAIT on LOCK
    | WaitLoad(desired: nat, i: nat)               // udo_futex_wait: load, compare with desired
    | WaitTest(desired: nat, i: nat, seen: nat)    // differs: load again, compare with FORCE
    | WaitSleep(desired: nat, seen: nat)           // FUTEX_WAIT on the first value loaded
    | CondLoad                                     // p_udo_futex_wait_cond: load
    | CondSleep(seen: nat)                         // FUTEX_WAIT on it
    | Asleep(why: Sleeper, expected: nat)
    | Storing(value: nat)                          // udo_futex_unlock, _unlock_force, _wake
    | Waking                                       // FUTEX_WAKE of all still to come

  /** `owners` are the threads holding the lock; `acquired` and `released` count the
      successful returns of udo_futex_lock and the stores of UNLOCK. */
  datatype State = State(word: nat, pcs: map<Tid, Pc>, owners: set<Tid>, acquired: nat, released: nat)

  datatype Event =
    | CallLock(p: Tid)
    | CallWait(p: Tid, desired: nat)
    | CallWaitCond(p: Tid)
    | CallStore(p: Tid, value: nat)   // unlock: 0, unlock_force: FORCE, wake: any
    | CallWakeCond(p: Tid)
    | Step(p: Tid)                    // the thread's next step
    | Spurious(p: Tid)                // a weak compare-and-swap or a wait gives up early

  /** Where a woken thread goes on. */
  function Resume(pc: Pc): Pc {
    match pc
    case Asleep(ForLock, _) => LockCas(CONTENTION)
    case Asleep(ForValue(desired), _) => WaitLoad(desired, CONTENTION)
    case Asleep(ForCond, _) => Idle
    case _ => pc
  }

  /** Where a thread goes whose FUTEX_WAIT on `expected` is called when the word is `word`. */
  function Sleep(word: nat, why: Sleeper, expected: nat): Pc {
    if word == expected then Asleep(why, expected) else Resume(Asleep(why, expected))
  }

  function Goto(s: State, p: Tid, pc: Pc): State {
    s.(pcs := s.pcs[p := pc])
  }

  /** A step of a thread inside one of the calls. */
  function StepOf(s: State, p: Tid): State
    requires p in s.pcs
  {
    match s.pcs[p]
    case Idle => s
    case LockCas(i) =>
      if s.word == UNLOCK
      then Goto(s, p, Idle).(word := LOCK, owners := s.owners + {p}, acquired := s.acquired + 1)
      else Goto(s, p, LockTest(i))
    case LockTest(i) =>
      Goto(s, p, if s.word == FORCE then Idle else if i < CONTENTION then LockCas(i + 1) else LockSleep)
    case LockSleep => Goto(s, p, Sleep(s.word, ForLock, LOCK))
    case WaitLoad(desired, i) =>
      Goto(s, p, if s.word == desired then Idle else WaitTest(desired, i, s.word))
    case WaitTest(desired, i, seen) =>
      Goto(s, p, if s.word == FORCE then Idle
                 else if i < CONTENTION then WaitLoad(desired, i + 1) else WaitSleep(desired, seen))
    case WaitSleep(desired, seen) => Goto(s, p, Sleep(s.word, ForValue(desired), seen))
    case CondLoad => Goto(s, p, CondSleep(s.word))
    case CondSleep(seen) => Goto(s, p, Sleep(s.word, ForCond, seen))
    case Asleep(_, _) => s
    case Storing(value) =>
      Goto(s, p, Waking).(word := value, owners := s.owners - {p},
                          released := s.released + (if value == UNLOCK then 1 else 0))
    case Waking => s.(pcs := map t | t in s.pcs :: if t == p then Idle else Resume(s.pcs[t]))
  }

  /** Where a call starts. */
  function Entry(e: Event): Pc {
    match e
    case CallLock(_) => LockCas(0)
    case CallWait(_, desired) => WaitLoad(desired, 0)
    case CallWaitCond(_) => CondLoad
    case CallStore(_, value) => Storing(value)
    case CallWakeCond(_) => Waking
    case _ => Idle
  }

  ghost predicate Next(s: State, e: Event, s': State) {
    && e.p in s.pcs
    && match e
       case Step(p) => !s.pcs[p].Idle? && !s.pcs[p].Asleep? && s' == StepOf(s, p)
       case Spurious(p) =>
         || (s.pcs[p].Asleep? && s' == Goto(s, p, Resume(s.pcs[p])))
         || (s.pcs[p].LockCas? && s.pcs[p].i < CONTENTION && s' == Goto(s, p, LockTest(s.pcs[p].i)))
       case _ => s.pcs[e.p].Idle? && s' == Goto(s, e.p, Entry(e))
  }

  /** udo_futex_create leaves the word locked, on behalf of its creator. */
  ghost predicate Init(s: State) {
    && s.word == LOCK && (forall p :: p in s.pcs ==> s.pcs[p] == Idle)
    && (exists creator :: creator in s.pcs && s.owners == {creator})
    && s.acquired == 0 && s.released == 0
  }

  datatype Trace = Trace(states: seq<State>, events: seq<Event>)

  ghost predicate IsRun(r: Trace) {
    && |r.states| == |r.events| + 1
    && Init(r.states[0])
    && forall i :: 0 <= i < |r.events| ==> Next(r.states[i], r.events[i], r.states[i + 1])
  }

  ghost predicate Reachable(s: State) {
    exists r: Trace :: IsRun(r) && r.states[|r.states| - 1] == s
  }

  // ------------------------------------------------------------ no lost wake-up

  ghost predicate WakePending(s: State) {
    exists p :: p in s.pcs && s.pcs[p].Waking?
  }

  ghost predicate IsAsleep(s: State, p: Tid) {
    p in s.pcs && s.pcs[p].Asleep?
  }

  /** What holds of every thread in every state. */
  ghost predicate ThreadOk(pc: Pc) {
    match pc
    case WaitTest(desired, i, seen) => seen != desired
    case WaitSleep(desired, seen) => seen != desired
    case Asleep(ForLock, expected) => expected == LOCK
    case Asleep(ForValue(desired), expected) => expected != desired
    case _ => true
  }

  ghost predicate WakeInv(s: State) {
    && (forall p :: p in s.pcs ==> ThreadOk(s.pcs[p]))
    && (forall p :: IsAsleep(s, p) ==> s.word == s.pcs[p].expected || s.word == LOCK || WakePending(s))
    && s.acquired + (if s.word == UNLOCK then 1 else 0) <= s.released
  }

  lemma GotoKeepsWaking(s: State, s': State, p: Tid)
    requires p in s.pcs && p in s'.pcs && !s.pcs[p].Waking? && s'.pcs == s.pcs[p := s'.pcs[p]]
    ensures WakePending(s) ==> WakePending(s')
  {
    if WakePending(s) {
      var w :| w in s.pcs && s.pcs[w].Waking?;
      assert w in s'.pcs && s'.pcs[w].Waking?;
    }
  }

  lemma NextKeepsWakeInv(s: State, e: Event, s': State)
    requires WakeInv(s) && Next(s, e, s')
    ensures WakeInv(s')
  {
    var p := e.p;
    if s.pcs[p].Waking? {
      assert forall t :: t in s.pcs ==> !Resume(s.pcs[t]).Asleep?;
    } else {
      GotoKeepsWaking(s, s', p);
      if s.pcs[p].Storing? && e.Step? {
        assert p in s'.pcs && s'.pcs[p].Waking?;
        assert WakePending(s');
      }
      forall t | IsAsleep(s', t)
        ensures s'.word == s'.pcs[t].expected || s'.word == LOCK || WakePending(s')
      {
        if t != p { assert IsAsleep(s, t); }
      }
    }
  }

  lemma {:induction false} WakeInvOverRun(r: Trace, i: nat)
    requires IsRun(r) && i < |r.states|
    ensures WakeInv(r.states[i])
  {
    if i > 0 {
      WakeInvOverRun(r, i - 1);
      NextKeepsWakeInv(r.states[i - 1], r.events[i - 1], r.states[i]);
    }
  }

  lemma ReachableWakeInv(s: State)
    requires Reachable(s)
    ensures WakeInv(s)
  {
    var r :| IsRun(r) && r.states[|r.states| - 1] == s;
    WakeInvOverRun(r, |r.states| - 1);
  }

  /** No lost wake-up: a thread asleep on a value that is neither in the word nor
      LOCK's is going to be woken by a thread whose wake-all is still to come. */
  lemma NoLostWakeup(s: State, p: Tid)
    requires Reachable(s) && IsAsleep(s, p) && s.word != s.pcs[p].expected && s.word != LOCK
    ensures WakePending(s)
  {
    ReachableWakeInv(s);
  }

  /** Once every wake-all is done, a thread asleep in udo_futex_lock sleeps on a lock that is held. */
  lemma LockerSleepsOnHeldLock(s: State, p: Tid)
    requires Reachable(s) && !WakePending(s) && IsAsleep(s, p) && s.pcs[p].why.ForLock?
    ensures s.word == LOCK
  {
    ReachableWakeInv(s);
    assert ThreadOk(s.pcs[p]);
  }

  // ------------------------------------------------------------- building runs

  lemma Reach(s: State, e: Event, s': State)
    requires Reachable(s) && Next(s, e, s')
    ensures Reachable(s')
  {
    var r :| IsRun(r) && r.states[|r.states| - 1] == s;
    var r' := Trace(r.states + [s'], r.events + [e]);
    assert forall i :: 0 <= i < |r.events| ==> r'.events[i] == r.events[i];
    assert forall i :: 0 <= i < |r.states| ==> r'.states[i] == r.states[i];
    assert IsRun(r') && r'.states[|r'.states| - 1] == s';
  }

  /** Two threads: thread 0, which created the futex, and thread 1. */
  function Two(word: nat, pc0: Pc, pc1: Pc, owners: set<Tid>, acquired: nat, released: nat): State {
    State(word, map[0 := pc0, 1 := pc1], owners, acquired, released)
  }

  lemma StartTwo()
    ensures Reachable(Two(LOCK, Idle, Idle, {0}, 0, 0))
  {
    var s := Two(LOCK, Idle, Idle, {0}, 0, 0);
    assert 0 in s.pcs && s.owners == {0};
    var r := Trace([s], []);
    assert IsRun(r) && r.states[|r.states| - 1] == s;
  }

  lemma StepOne(s: State)
    requires Reachable(s) && 1 in s.pcs && !s.pcs[1].Idle? && !s.pcs[1].Asleep?
    ensures Reachable(StepOf(s, 1))
  {
    Reach(s, Step(1), StepOf(s, 1));
  }

  lemma StepZero(s: State)
    requires Reachable(s) && 0 in s.pcs && !s.pcs[0].Idle? && !s.pcs[0].Asleep?
    ensures Reachable(StepOf(s, 0))
  {
    Reach(s, Step(0), StepOf(s, 0));
  }

  /** Thread 1 in udo_futex_wait spins to its last try while the word stays as it is. */
  lemma {:induction false} SpinToTheEnd(word: nat, desired: nat, owners: set<Tid>, released: nat, i: nat)
    requires word != desired && word != FORCE && i <= CONTENTION
    requires Reachable(Two(word, Idle, WaitLoad(desired, 0), owners, 0, released))
    ensures Reachable(Two(word, Idle, WaitLoad(desired, i), owners, 0, released))
  {
    if i > 0 {
      SpinToTheEnd(word, desired, owners, released, i - 1);
      var s := Two(word, Idle, WaitLoad(desired, i - 1), owners, 0, released);
      StepOne(s);
      assert StepOf(s, 1) == Two(word, Idle, WaitTest(desired, i - 1, word), owners, 0, released);
      StepOne(StepOf(s, 1));
      assert StepOf(StepOf(s, 1), 1) == Two(word, Idle, WaitLoad(desired, i), owners, 0, released);
    }
  }

  // ------------------------------------------------------------ udo_futex_wait

  /** A thread asleep in udo_futex_wait(desired) although the word is `value` and every
      wake-all is done. */
  ghost predicate LeftAsleep(s: State, p: Tid, desired: nat, value: nat) {
    && IsAsleep(s, p) && s.pcs[p].why == ForValue(desired)
    && s.word == value && !WakePending(s)
  }

  /** udo_futex_wait(desired) never leaves its caller asleep once the word is `desired` ... */
  ghost predicate WaitIsReliable(desired: nat) {
    forall s, p :: Reachable(s) ==> !LeftAsleep(s, p, desired, desired)
  }

  /** ... exactly when the caller does not wait for LOCK: the lock is taken by a
      compare-and-swap that wakes nobody. */
  lemma WaitIsReliableUnlessForLock(desired: nat)
    ensures WaitIsReliable(desired) <==> desired != LOCK
  {
    if desired != LOCK {
      forall s, p | Reachable(s)
        ensures !LeftAsleep(s, p, desired, desired)
      {
        ReachableWakeInv(s);
        if IsAsleep(s, p) { assert ThreadOk(s.pcs[p]); }
      }
    } else {
      LockTakenUnseen();
      assert LeftAsleep(Two(LOCK, Idle, Asleep(ForValue(LOCK), UNLOCK), {0}, 1, 1), 1, LOCK, LOCK);
    }
  }

  /** Thread 0 has unlocked; thread 1 starts to wait for the word to be LOCK. */
  lemma Unlocked()
    ensures Reachable(Two(UNLOCK, Idle, WaitLoad(LOCK, 0), {}, 0, 1))
  {
    StartTwo();
    var s := Two(LOCK, Idle, Idle, {0}, 0, 0);
    Reach(s, CallStore(0, UNLOCK), Two(LOCK, Storing(UNLOCK), Idle, {0}, 0, 0));
    StepZero(Two(LOCK, Storing(UNLOCK), Idle, {0}, 0, 0));
    assert StepOf(Two(LOCK, Storing(UNLOCK), Idle, {0}, 0, 0), 0) == Two(UNLOCK, Waking, Idle, {}, 0, 1);
    StepZero(Two(UNLOCK, Waking, Idle, {}, 0, 1));
    assert StepOf(Two(UNLOCK, Waking, Idle, {}, 0, 1), 0) == Two(UNLOCK, Idle, Idle, {}, 0, 1);
    Reach(Two(UNLOCK, Idle, Idle, {}, 0, 1), CallWait(1, LOCK), Two(UNLOCK, Idle, WaitLoad(LOCK, 0), {}, 0, 1));
  }

  /** Thread 1 has fallen asleep on UNLOCK and thread 0 has then locked. */
  lemma LockTakenUnseen()
    ensures Reachable(Two(LOCK, Idle, Asleep(ForValue(LOCK), UNLOCK), {0}, 1, 1))
  {
    Unlocked();
    SpinToTheEnd(UNLOCK, LOCK, {}, 1, CONTENTION);
    FallAsleep(UNLOCK, LOCK, {}, 1);
    var s := Two(UNLOCK, Idle, Asleep(ForValue(LOCK), UNLOCK), {}, 0, 1);
    var s' := Two(UNLOCK, LockCas(0), Asleep(ForValue(LOCK), UNLOCK), {}, 0, 1);
    Reach(s, CallLock(0), s');
    StepZero(s');
    assert StepOf(s', 0) == Two(LOCK, Idle, Asleep(ForValue(LOCK), UNLOCK), {0}, 1, 1);
  }

  lemma FallAsleep(word: nat, desired: nat, owners: set<Tid>, released: nat)
    requires word != desired && word != FORCE
    requires Reachable(Two(word, Idle, WaitLoad(desired, CONTENTION), owners, 0, released))
    ensures Reachable(Two(word, Idle, Asleep(ForValue(desired), word), owners, 0, released))
  {
    var s := Two(word, Idle, WaitLoad(desired, CONTENTION), owners, 0, released);
    StepOne(s);
    assert StepOf(s, 1) == Two(word, Idle, WaitTest(desired, CONTENTION, word), owners, 0, released);
    StepOne(Two(word, Idle, WaitTest(desired, CONTENTION, word), owners, 0, released));
    assert StepOf(Two(word, Idle, WaitTest(desired, CONTENTION, word), owners, 0, released), 1)
        == Two(word, Idle, WaitSleep(desired, word), owners, 0, released);
    StepOne(Two(word, Idle, WaitSleep(desired, word), owners, 0, released));
    assert StepOf(Two(word, Idle, WaitSleep(desired, word), owners, 0, released), 1)
        == Two(word, Idle, Asleep(ForValue(desired), word), owners, 0, released);
  }

  // ------------------------------------------------------------ forced unlocking

  /** Once a forced unlock and its wake-all are done, whoever is still asleep sleeps on
      the force value itself; in particular nobody is asleep in udo_futex_lock. */
  lemma ForceWakesLockers(s: State, p: Tid)
    requires Reachable(s) && !WakePending(s) && s.word == FORCE && IsAsleep(s, p)
    ensures s.pcs[p].expected == FORCE && !s.pcs[p].why.ForLock?
  {
    ReachableWakeInv(s);
    assert ThreadOk(s.pcs[p]);
  }

  /** In the run, nobody ever overwrites the force value. */
  ghost predicate ForceSticks(r: Trace) {
    forall i :: 0 <= i < |r.events| && i + 1 < |r.states| && r.states[i].word == FORCE ==> r.states[i + 1].word == FORCE
  }

  ghost predicate NotOnForce(s: State, pc: Pc) {
    match pc
    case WaitTest(_, _, seen) => seen == FORCE ==> s.word == FORCE
    case WaitSleep(_, seen) => seen != FORCE
    case Asleep(ForValue(_), expected) => expected != FORCE
    case _ => true
  }

  lemma NextKeepsNotOnForce(s: State, e: Event, s': State)
    requires Next(s, e, s') && (s.word == FORCE ==> s'.word == FORCE)
    requires forall p :: p in s.pcs ==> NotOnForce(s, s.pcs[p])
    ensures forall p :: p in s'.pcs ==> NotOnForce(s', s'.pcs[p])
  {
    forall p | p in s'.pcs
      ensures NotOnForce(s', s'.pcs[p])
    {
      assert NotOnForce(s, s.pcs[p]);
    }
  }

  lemma {:induction false} NobodyWaitsOnForce(r: Trace, i: nat)
    requires IsRun(r) && ForceSticks(r) && i < |r.states|
    ensures forall p :: p in r.states[i].pcs ==> NotOnForce(r.states[i], r.states[i].pcs[p])
  {
    if i > 0 {
      NobodyWaitsOnForce(r, i - 1);
      NextKeepsNotOnForce(r.states[i - 1], r.events[i - 1], r.states[i]);
    }
  }

  /** If the force value is never overwritten, a forced unlock leaves nobody asleep in
      udo_futex_wait either. */
  lemma ForceWakesWaiters(r: Trace, i: nat, p: Tid, desired: nat)
    requires IsRun(r) && ForceSticks(r) && i < |r.states|
    ensures !LeftAsleep(r.states[i], p, desired, FORCE)
  {
    NobodyWaitsOnForce(r, i);
    WakeInvOverRun(r, i);
    var s := r.states[i];
    if IsAsleep(s, p) { assert NotOnForce(s, s.pcs[p]); }
  }

  /** A forced unlock leaves no caller of udo_futex_wait(desired) asleep ... */
  ghost predicate ForceIsReliable(desired: nat) {
    forall s, p :: Reachable(s) ==> !LeftAsleep(s, p, desired, FORCE)
  }

  /** ... exactly when the caller waits for the force value itself.  Any other waiter can load
      the force value, find another one when it tests for force, and sleep on the force
      value stored anew. */
  lemma ForceIsReliableForForceOnly(desired: nat)
    ensures ForceIsReliable(desired) <==> desired == FORCE
  {
    if desired == FORCE {
      forall s, p | Reachable(s)
        ensures !LeftAsleep(s, p, desired, FORCE)
      {
        ReachableWakeInv(s);
        if IsAsleep(s, p) { assert ThreadOk(s.pcs[p]); }
      }
    } else {
      SleepyWaiter(desired, Other(desired));
      assert LeftAsleep(Two(FORCE, Idle, Asleep(ForValue(desired), FORCE), {}, 0, 0), 1, desired, FORCE);
    }
  }

  /** A value to store that is neither special nor desired. */
  function Other(desired: nat): nat {
    if desired == 2 then 3 else 2
  }

  /** Thread 1 is at its last try; thread 0 stores `value` and wakes. */
  lemma StoreAndWake(word: nat, value: nat, pc1: Pc, owners: set<Tid>, released: nat)
    requires Reachable(Two(word, Idle, pc1, owners, 0, released)) && !pc1.Asleep? && value != UNLOCK
    ensures Reachable(Two(value, Idle, pc1, owners - {0}, 0, released))
  {
    Reach(Two(word, Idle, pc1, owners, 0, released), CallStore(0, value), Two(word, Storing(value), pc1, owners, 0, released));
    StepZero(Two(word, Storing(value), pc1, owners, 0, released));
    assert StepOf(Two(word, Storing(value), pc1, owners, 0, released), 0) == Two(value, Waking, pc1, owners - {0}, 0, released);
    StepZero(Two(value, Waking, pc1, owners - {0}, 0, released));
    assert StepOf(Two(value, Waking, pc1, owners - {0}, 0, released), 0) == Two(value, Idle, pc1, owners - {0}, 0, released);
  }

  lemma NobodyOwns()
    ensures var none: set<Tid> := {}; {0} - {0} == none && none - {0} == none
  {
  }

  /** Thread 1 waits for `desired`, the word being `v`, and has come to its last try. */
  lemma LastTry(desired: nat, v: nat)
    requires v != desired && v != UNLOCK && v != FORCE
    ensures Reachable(Two(v, Idle, WaitLoad(desired, CONTENTION), {}, 0, 0))
  {
    StartTwo();
    StoreAndWake(LOCK, v, Idle, {0}, 0);
    NobodyOwns();
    Reach(Two(v, Idle, Idle, {}, 0, 0), CallWait(1, desired), Two(v, Idle, WaitLoad(desired, 0), {}, 0, 0));
    SpinToTheEnd(v, desired, {}, 0, CONTENTION);
  }

  /** It has loaded the force value, but another one is there when it tests for force. */
  lemma ForceSeenThenOverwritten(desired: nat, v: nat)
    requires v != desired && v != UNLOCK && v != FORCE && desired != FORCE
    ensures Reachable(Two(v, Idle, WaitTest(desired, CONTENTION, FORCE), {}, 0, 0))
  {
    LastTry(desired, v);
    NobodyOwns();
    StoreAndWake(v, FORCE, WaitLoad(desired, CONTENTION), {}, 0);
    StepOne(Two(FORCE, Idle, WaitLoad(desired, CONTENTION), {}, 0, 0));
    assert StepOf(Two(FORCE, Idle, WaitLoad(desired, CONTENTION), {}, 0, 0), 1)
        == Two(FORCE, Idle, WaitTest(desired, CONTENTION, FORCE), {}, 0, 0);
    StoreAndWake(FORCE, v, WaitTest(desired, CONTENTION, FORCE), {}, 0);
  }

  /** Then it sleeps on the force value, stored again in the meantime. */
  lemma SleepyWaiter(desired: nat, v: nat)
    requires v != desired && v != UNLOCK && v != FORCE && desired != FORCE
    ensures Reachable(Two(FORCE, Idle, Asleep(ForValue(desired), FORCE), {}, 0, 0))
  {
    ForceSeenThenOverwritten(desired, v);
    NobodyOwns();
    StepOne(Two(v, Idle, WaitTest(desired, CONTENTION, FORCE), {}, 0, 0));
    assert StepOf(Two(v, Idle, WaitTest(desired, CONTENTION, FORCE), {}, 0, 0), 1)
        == Two(v, Idle, WaitSleep(desired, FORCE), {}, 0, 0);
    StoreAndWake(v, FORCE, WaitSleep(desired, FORCE), {}, 0);
    StepOne(Two(FORCE, Idle, WaitSleep(desired, FORCE), {}, 0, 0));
    assert StepOf(Two(FORCE, Idle, WaitSleep(desired, FORCE), {}, 0, 0), 1)
        == Two(FORCE, Idle, Asleep(ForValue(desired), FORCE), {}, 0, 0);
  }

  // ------------------------------------------------------------- lock accounting

  /** From the locked initial state, successful returns of udo_futex_lock never exceed the
      stores of UNLOCK, and an unlocked word is a store not yet used up. */
  lemma LocksNeverExceedUnlocks(s: State)
    requires Reachable(s)
    ensures s.acquired + (if s.word == UNLOCK then 1 else 0) <= s.released
  {
    ReachableWakeInv(s);
  }

  /** Only a current owner stores, and it stores UNLOCK. */
  ghost predicate Disciplined(r: Trace) {
    forall i :: 0 <= i < |r.events| && i < |r.states| && r.events[i].CallStore? ==>
      r.events[i].value == UNLOCK && r.events[i].p in r.states[i].owners
  }

  ghost predicate MutexInv(s: State) {
    && (if s.word == UNLOCK then s.owners == {} else s.word == LOCK && exists p :: s.owners == {p})
    && forall p :: p in s.pcs && s.pcs[p].Storing? ==> s.pcs[p].value == UNLOCK && p in s.owners
  }

  lemma NextKeepsMutex(s: State, e: Event, s': State)
    requires MutexInv(s) && Next(s, e, s')
    requires e.CallStore? ==> e.value == UNLOCK && e.p in s.owners
    ensures MutexInv(s')
  {
    var p := e.p;
    if e.Step? && s.pcs[p].LockCas? && s.word == UNLOCK {
      assert s'.owners == {p};
    } else if e.Step? && s.pcs[p].Storing? {
      assert s'.owners == {};
    }
  }

  lemma {:induction false} MutexOverRun(r: Trace, i: nat)
    requires IsRun(r) && Disciplined(r) && i < |r.states|
    ensures MutexInv(r.states[i])
  {
    if i > 0 {
      MutexOverRun(r, i - 1);
      NextKeepsMutex(r.states[i - 1], r.events[i - 1], r.states[i]);
    }
  }

  /** Mutual exclusion: when only owners unlock and nobody forces, there is never more
      than one owner, and there is none exactly when the word is UNLOCK. */
  lemma AtMostOneOwner(r: Trace, i: nat, p: Tid, q: Tid)
    requires IsRun(r) && Disciplined(r) && i < |r.states|
    ensures p in r.states[i].owners && q in r.states[i].owners ==> p == q
    ensures r.states[i].owners == {} <==> r.states[i].word == UNLOCK
  {
    MutexOverRun(r, i);
  }
}
