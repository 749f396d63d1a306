/** What the futex calls mean to their callers: when they return, when they sleep, and what
    a store and a wake-up do to the others. */
module FutexCalls {
  import opened Futex

  predicate InLock(pc: Pc) {
    match pc
    case LockCas(_) => true
    case LockTest(_) => true
    case LockSleep => true
    case Asleep(why, _) => why.ForLock?
    case _ => false
  }

  predicate InWait(pc: Pc, desired: nat) {
    match pc
    case WaitLoad(d, _) => d == desired
    case WaitTest(d, _, _) => d == desired
    case WaitSleep(d, _) => d == desired
    case Asleep(why, _) => why == ForValue(desired)
    case _ => false
  }

  predicate InWaitCond(pc: Pc) {
    match pc
    case CondLoad => true
    case CondSleep(_) => true
    case Asleep(why, _) => why.ForCond?
    case _ => false
  }

  /** Calls begin where they should, and can be made by a thread that is in none. */
  lemma CallsStart(s: State, e: Event)
    requires e.p in s.pcs && s.pcs[e.p] == Idle && !e.Step? && !e.Spurious?
    ensures exists s' :: Next(s, e, s')
    ensures forall s' :: Next(s, e, s') ==>
              && e.p in s'.pcs && s'.word == s.word && s'.owners == s.owners
              && (e.CallLock? ==> InLock(s'.pcs[e.p]) && !s'.pcs[e.p].Asleep?)
              && (e.CallWait? ==> InWait(s'.pcs[e.p], e.desired) && !s'.pcs[e.p].Asleep?)
              && (e.CallWaitCond? ==> InWaitCond(s'.pcs[e.p]) && !s'.pcs[e.p].Asleep?)
              && (e.CallStore? ==> s'.pcs[e.p] == Storing(e.value))
              && (e.CallWakeCond? ==> s'.pcs[e.p] == Waking)
  {
    assert Next(s, e, Goto(s, e.p, Entry(e)));
  }

  /** udo_futex_lock goes on until the caller has taken the lock, by a step that finds the
      word unlocked, or has seen the force value; then it returns. */
  lemma LockReturns(s: State, e: Event, s': State, p: Tid)
    requires Next(s, e, s') && p in s.pcs && InLock(s.pcs[p])
    ensures p in s'.pcs
    ensures InLock(s'.pcs[p]) ||
              (s'.pcs[p] == Idle && e == Step(p) &&
               ((s.word == UNLOCK && s'.word == LOCK && p in s'.owners && s'.acquired == s.acquired + 1)
                || (s.word == FORCE && s'.word == FORCE && s'.owners == s.owners && s'.acquired == s.acquired)))
    ensures e == Step(p) && s.pcs[p].LockCas? && s.word == UNLOCK ==> s'.pcs[p] == Idle
    ensures e == Step(p) && s.pcs[p].LockTest? && s.word == FORCE ==> s'.pcs[p] == Idle
  {
  }

  /** udo_futex_wait goes on until a step of its caller finds the desired value or the force
      value in the word; then it returns. */
  lemma WaitReturns(s: State, e: Event, s': State, p: Tid, desired: nat)
    requires Next(s, e, s') && p in s.pcs && InWait(s.pcs[p], desired)
    ensures p in s'.pcs
    ensures InWait(s'.pcs[p], desired) ||
              (s'.pcs[p] == Idle && e == Step(p) && (s.word == desired || s.word == FORCE)
               && s'.word == s.word && s'.owners == s.owners)
    ensures e == Step(p) && s.pcs[p].WaitLoad? && s.word == desired ==> s'.pcs[p] == Idle
    ensures e == Step(p) && s.pcs[p].WaitTest? && s.word == FORCE ==> s'.pcs[p] == Idle
  {
  }

  /** A single wait on a condition ends when it is woken, when the kernel lets it return early,
      or at once if the word has changed since it was loaded. */
  lemma WaitCondReturns(s: State, e: Event, s': State, p: Tid)
    requires Next(s, e, s') && p in s.pcs && InWaitCond(s.pcs[p])
    ensures p in s'.pcs
    ensures InWaitCond(s'.pcs[p]) ||
              (s'.pcs[p] == Idle &&
               if s.pcs[p].Asleep? then e == Spurious(p) || (e.Step? && s.pcs[e.p] == Waking)
               else e == Step(p) && s.pcs[p].CondSleep? && s.word != s.pcs[p].seen)
    ensures e == Step(p) && s.pcs[p].CondLoad? ==> s'.pcs[p] == CondSleep(s.word)
    ensures e == Step(p) && s.pcs[p].CondSleep? && s.word == s.pcs[p].seen ==> s'.pcs[p].Asleep?
  {
  }

  /** A thread falls asleep by its own step only, and only while the word is the value it
      expects; the word and the owners stay as they are. */
  lemma SleepsOnExpectedOnly(s: State, e: Event, s': State, p: Tid)
    requires Next(s, e, s') && !IsAsleep(s, p) && IsAsleep(s', p)
    ensures e == Step(p) && s.word == s'.word == s'.pcs[p].expected && s'.owners == s.owners
  {
  }

  /** A store puts its value in the word, and its caller goes on to wake. */
  lemma StoreTakesEffect(s: State, p: Tid, s': State)
    requires Next(s, Step(p), s') && s.pcs[p].Storing?
    ensures s'.word == s.pcs[p].value && p in s'.pcs && s'.pcs[p] == Waking && p !in s'.owners
    ensures forall t :: t in s.pcs && t != p ==> t in s'.pcs && s'.pcs[t] == s.pcs[t]
  {
  }

  /** A woken caller of lock or wait has one more try before it sleeps again; a single wait on
      a condition is over. */
  predicate WokenUp(pc: Pc, pc': Pc) {
    && !pc'.Asleep?
    && (InLock(pc) ==> InLock(pc') && TriesLeft(pc') == 2)
    && (pc.Asleep? && pc.why.ForValue? ==> InWait(pc', pc.why.desired) && TriesLeft(pc') == 2)
    && (InWaitCond(pc) ==> pc' == Idle)
  }

  /** Besides its own steps, a thread can be let go early from its sleep, as if woken, and a
      compare-and-swap in the spinning phase of udo_futex_lock, which is a weak one, can
      fail; there is no other step of that kind. */
  lemma GivesUpEarly(s: State, p: Tid)
    requires p in s.pcs
    ensures (exists s' :: Next(s, Spurious(p), s')) <==>
              s.pcs[p].Asleep? || (s.pcs[p].LockCas? && s.pcs[p].i < CONTENTION)
    ensures forall s' :: Next(s, Spurious(p), s') ==>
              && p in s'.pcs && s'.word == s.word && s'.owners == s.owners
              && (if s.pcs[p].Asleep? then WokenUp(s.pcs[p], s'.pcs[p]) else s'.pcs[p] == LockTest(s.pcs[p].i))
  {
    if s.pcs[p].Asleep? { assert Next(s, Spurious(p), Goto(s, p, Resume(s.pcs[p]))); }
    if s.pcs[p].LockCas? && s.pcs[p].i < CONTENTION { assert Next(s, Spurious(p), Goto(s, p, LockTest(s.pcs[p].i))); }
  }

  /** A wake-all leaves nobody asleep: lockers and waiters go on in their calls, and whoever
      was awake stays where it is. */
  lemma WakeAllWakesAll(s: State, p: Tid, s': State)
    requires Next(s, Step(p), s') && s.pcs[p].Waking?
    ensures s'.word == s.word && s'.owners == s.owners && s'.pcs.Keys == s.pcs.Keys && s'.pcs[p] == Idle
    ensures forall t :: t in s.pcs ==> !s'.pcs[t].Asleep?
    ensures forall t :: t in s.pcs && t != p ==>
              && (if s.pcs[t].Asleep? then WokenUp(s.pcs[t], s'.pcs[t]) else s'.pcs[t] == s.pcs[t])
              && (InLock(s.pcs[t]) ==> InLock(s'.pcs[t]))
              && (forall d :: InWait(s.pcs[t], d) ==> InWait(s'.pcs[t], d))
  {
  }

  /** A thread inside a call and awake always has a step. */
  lemma AwakeHasStep(s: State, p: Tid)
    requires p in s.pcs && s.pcs[p] != Idle && !s.pcs[p].Asleep?
    ensures exists s' :: Next(s, Step(p), s')
  {
    assert Next(s, Step(p), StepOf(s, p));
  }

  /** How many steps a caller is from trying to sleep. */
  function TriesLeft(pc: Pc): nat {
    match pc
    case LockCas(i) => if i <= CONTENTION then 2 * (CONTENTION - i) + 2 else 2
    case LockTest(i) => if i <= CONTENTION then 2 * (CONTENTION - i) + 1 else 1
    case WaitLoad(_, i) => if i <= CONTENTION then 2 * (CONTENTION - i) + 2 else 2
    case WaitTest(_, i, _) => if i <= CONTENTION then 2 * (CONTENTION - i) + 1 else 1
    case _ => 0
  }

  /** A caller of lock or wait tries a bounded number of times before it tries to sleep. */
  lemma TriesAreBounded(s: State, e: Event, s': State, p: Tid)
    requires Next(s, e, s') && e == Step(p) && TriesLeft(s.pcs[p]) > 0
    ensures p in s'.pcs && TriesLeft(s'.pcs[p]) < TriesLeft(s.pcs[p])
    ensures TriesLeft(s'.pcs[p]) == 0 <==> s'.pcs[p] == Idle || s'.pcs[p].LockSleep? || s'.pcs[p].WaitSleep?
  {
  }

  /** Thread 1 in udo_futex_lock spins to its last try while thread 0 holds the lock. */
  lemma {:induction false} SpinOnLock(i: nat)
    requires i <= CONTENTION
    ensures Reachable(Two(LOCK, Idle, LockCas(i), {0}, 0, 0))
  {
    if i == 0 {
      StartTwo();
      Reach(Two(LOCK, Idle, Idle, {0}, 0, 0), CallLock(1), Two(LOCK, Idle, LockCas(0), {0}, 0, 0));
    } else {
      SpinOnLock(i - 1);
      var s := Two(LOCK, Idle, LockCas(i - 1), {0}, 0, 0);
      StepOne(s);
      assert StepOf(s, 1) == Two(LOCK, Idle, LockTest(i - 1), {0}, 0, 0);
      StepOne(StepOf(s, 1));
      assert StepOf(StepOf(s, 1), 1) == Two(LOCK, Idle, LockCas(i), {0}, 0, 0);
    }
  }

  /** Then it sleeps. */
  lemma LockerSleeps()
    ensures Reachable(Two(LOCK, Idle, Asleep(ForLock, LOCK), {0}, 0, 0))
  {
    SpinOnLock(CONTENTION);
    var s := Two(LOCK, Idle, LockCas(CONTENTION), {0}, 0, 0);
    StepOne(s);
    assert StepOf(s, 1) == Two(LOCK, Idle, LockTest(CONTENTION), {0}, 0, 0);
    StepOne(StepOf(s, 1));
    assert StepOf(StepOf(s, 1), 1) == Two(LOCK, Idle, LockSleep, {0}, 0, 0);
    StepOne(Two(LOCK, Idle, LockSleep, {0}, 0, 0));
    assert StepOf(Two(LOCK, Idle, LockSleep, {0}, 0, 0), 1) == Two(LOCK, Idle, Asleep(ForLock, LOCK), {0}, 0, 0);
  }
}
