/** What the calls of udo_shm_data_read and udo_shm_data_write do: whole transfers of the length
    asked for, or an error with nothing transferred. */
module ShmCalls {
  import opened Runs
  import opened ShmChannel

  // -------------------------------------------------------------- single steps

  /** The process is inside a call to read `n` words of segment `i`. */
  predicate InRead(pc: Pc, i: nat, n: nat) {
    match pc
    case LockRead(j, m) => j == i && m == n
    case GotRead(j, m) => j == i && m == n
    case LoadWord(j, m, buf) => j == i && m == n && |buf| <= n
    case ClearWord(j, m, buf) => j == i && m == n && 0 < |buf| <= n
    case _ => false
  }

  /** The process is inside a call to write `msg` to segment `i`. */
  predicate InWrite(pc: Pc, i: nat, msg: seq<Word>) {
    match pc
    case LockWrite(j, m) => j == i && m == msg
    case GotWrite(j, m) => j == i && m == msg
    case StoreWord(j, m, k) => j == i && m == msg && k <= |msg|
    case _ => false
  }

  /** The records of segment `i` are as before. */
  predicate SameRecords(s: Channel, s': Channel, i: nat)
    requires i < |s.segs| && i < |s'.segs|
  {
    s'.segs[i].sent == s.segs[i].sent && s'.segs[i].received == s.segs[i].received
  }

  /** A read has returned: with one more message of `n` words received and the segment handed
      to the writers, or with EINTR in errno and nothing transferred. */
  ghost predicate ReadReturned(s: Channel, s': Channel, p: Pid, i: nat, n: nat) {
    && i < |s.segs| && i < |s'.segs| && p in s'.procs
    && ((SameRecords(s, s', i) && s'.procs[p].eintr)
        || (s'.segs[i].sent == s.segs[i].sent && s'.segs[i].wr == UNLOCK
            && |s'.segs[i].received| == |s.segs[i].received| + 1
            && s'.segs[i].received[..|s.segs[i].received|] == s.segs[i].received
            && |s'.segs[i].received[|s.segs[i].received|]| == n))
  }

  /** A write has returned: with its message sent and the segment handed to the readers, or
      with EINTR in errno and nothing transferred. */
  ghost predicate WriteReturned(s: Channel, s': Channel, p: Pid, i: nat, msg: seq<Word>) {
    && i < |s.segs| && i < |s'.segs| && p in s'.procs
    && ((SameRecords(s, s', i) && s'.procs[p].eintr)
        || (s'.segs[i].received == s.segs[i].received && s'.segs[i].rd == UNLOCK
            && s'.segs[i].sent == s.segs[i].sent + [msg]))
  }

  /** A step inside a read stays inside it and records nothing, or returns. */
  lemma ReadStep(s: Channel, p: Pid, junk: Word, s': Channel, i: nat, n: nat)
    requires p in s.procs && InRead(s.procs[p].pc, i, n) && ProcStep(s, p, junk, s')
    ensures p in s'.procs && i < |s.segs| && i < |s'.segs|
    ensures if s'.procs[p].pc.Idle? then ReadReturned(s, s', p, i, n)
            else InRead(s'.procs[p].pc, i, n) && SameRecords(s, s', i)
  {
  }

  lemma WriteStep(s: Channel, p: Pid, junk: Word, s': Channel, i: nat, msg: seq<Word>)
    requires p in s.procs && InWrite(s.procs[p].pc, i, msg) && ProcStep(s, p, junk, s')
    ensures p in s'.procs && i < |s.segs| && i < |s'.segs|
    ensures if s'.procs[p].pc.Idle? then WriteReturned(s, s', p, i, msg)
            else InWrite(s'.procs[p].pc, i, msg) && SameRecords(s, s', i)
  {
  }

  /** No other event moves a process that is inside a call. */
  lemma OthersLeaveCall(s: Channel, e: Event, s': Channel, p: Pid)
    requires Next(s, e, s') && p in s.procs && !s.procs[p].pc.Idle? && !(e.Step? && e.p == p)
    ensures p in s'.procs && s'.procs[p].pc == s.procs[p].pc
  {
    if e.Step? { StepFrame(s, e.p, e.junk, s'); }
  }

  // ------------------------------------------------------------------- calls

  /** Process `p` is inside the call it made at event `m`, up to state `k`. */
  ghost predicate InsideFrom(r: Trace, p: Pid, m: nat, k: nat) {
    && k < |r.states|
    && forall j :: m < j <= k ==> p in r.states[j].procs && !r.states[j].procs[p].pc.Idle?
  }

  ghost predicate ReadingAt(r: Trace, p: Pid, k: nat, i: nat, n: nat) {
    k < |r.states| && p in r.states[k].procs && InRead(r.states[k].procs[p].pc, i, n)
  }

  ghost predicate WritingAt(r: Trace, p: Pid, k: nat, i: nat, msg: seq<Word>) {
    k < |r.states| && p in r.states[k].procs && InWrite(r.states[k].procs[p].pc, i, msg)
  }

  lemma ReadGoesOn(r: Trace, p: Pid, k: nat, i: nat, n: nat)
    requires IsRun(r) && k < |r.events| && ReadingAt(r, p, k, i, n)
    ensures p in r.states[k + 1].procs
    ensures !r.states[k + 1].procs[p].pc.Idle? ==> ReadingAt(r, p, k + 1, i, n)
    ensures r.states[k + 1].procs[p].pc.Idle? ==> ReadReturned(r.states[k], r.states[k + 1], p, i, n)
  {
    var e := r.events[k];
    if e.Step? && e.p == p { ReadStep(r.states[k], p, e.junk, r.states[k + 1], i, n); }
    else { OthersLeaveCall(r.states[k], e, r.states[k + 1], p); }
  }

  lemma WriteGoesOn(r: Trace, p: Pid, k: nat, i: nat, msg: seq<Word>)
    requires IsRun(r) && k < |r.events| && WritingAt(r, p, k, i, msg)
    ensures p in r.states[k + 1].procs
    ensures !r.states[k + 1].procs[p].pc.Idle? ==> WritingAt(r, p, k + 1, i, msg)
    ensures r.states[k + 1].procs[p].pc.Idle? ==> WriteReturned(r.states[k], r.states[k + 1], p, i, msg)
  {
    var e := r.events[k];
    if e.Step? && e.p == p { WriteStep(r.states[k], p, e.junk, r.states[k + 1], i, msg); }
    else { OthersLeaveCall(r.states[k], e, r.states[k + 1], p); }
  }

  lemma ReadStarts(r: Trace, p: Pid, m: nat, i: nat, n: nat)
    requires IsRun(r) && m < |r.events| && r.events[m] == CallRead(p, i, n)
    ensures ReadingAt(r, p, m + 1, i, n)
  {
    assert Next(r.states[m], r.events[m], r.states[m + 1]);
  }

  lemma WriteStarts(r: Trace, p: Pid, m: nat, i: nat, msg: seq<Word>)
    requires IsRun(r) && m < |r.events| && r.events[m] == CallWrite(p, i, msg)
    ensures WritingAt(r, p, m + 1, i, msg)
  {
    assert Next(r.states[m], r.events[m], r.states[m + 1]);
  }

  lemma ReadPersists(r: Trace, p: Pid, m: nat, k: nat, i: nat, n: nat)
    requires IsRun(r) && m < |r.events| && r.events[m] == CallRead(p, i, n) && m < k && InsideFrom(r, p, m, k)
    ensures ReadingAt(r, p, k, i, n)
  {
    ghost var q := (j: nat) => ReadingAt(r, p, j, i, n);
    ReadStarts(r, p, m, i, n);
    forall j | m + 1 <= j < k
      ensures Carries(q, j)
    {
      if q(j) { ReadGoesOn(r, p, j, i, n); }
    }
    CarriedOver(q, m + 1, k);
  }

  lemma WritePersists(r: Trace, p: Pid, m: nat, k: nat, i: nat, msg: seq<Word>)
    requires IsRun(r) && m < |r.events| && r.events[m] == CallWrite(p, i, msg) && m < k && InsideFrom(r, p, m, k)
    ensures WritingAt(r, p, k, i, msg)
  {
    ghost var q := (j: nat) => WritingAt(r, p, j, i, msg);
    WriteStarts(r, p, m, i, msg);
    forall j | m + 1 <= j < k
      ensures Carries(q, j)
    {
      if q(j) { WriteGoesOn(r, p, j, i, msg); }
    }
    CarriedOver(q, m + 1, k);
  }

  /** The step of event `k` ends the call of process `p` made at event `m`. */
  ghost predicate ReturnsAt(r: Trace, p: Pid, m: nat, k: nat) {
    && m < k < |r.events| && k + 1 < |r.states| && InsideFrom(r, p, m, k)
    && p in r.states[k + 1].procs && r.states[k + 1].procs[p].pc.Idle?
  }

  /** A call to read `n` words returns with exactly `n` words more received, or with an error
      and nothing received. */
  lemma ReadDelivers(r: Trace, p: Pid, m: nat, k: nat, i: nat, n: nat)
    requires IsRun(r) && m < |r.events| && r.events[m] == CallRead(p, i, n) && ReturnsAt(r, p, m, k)
    ensures ReadReturned(r.states[k], r.states[k + 1], p, i, n)
  {
    ReadPersists(r, p, m, k, i, n);
    ReadGoesOn(r, p, k, i, n);
  }

  /** A call to write `msg` returns with exactly `msg` sent, or with an error and nothing sent. */
  lemma WriteDelivers(r: Trace, p: Pid, m: nat, k: nat, i: nat, msg: seq<Word>)
    requires IsRun(r) && m < |r.events| && r.events[m] == CallWrite(p, i, msg) && ReturnsAt(r, p, m, k)
    ensures WriteReturned(r.states[k], r.states[k + 1], p, i, msg)
  {
    WritePersists(r, p, m, k, i, msg);
    WriteGoesOn(r, p, k, i, msg);
  }

  /** So a read of as many words as the message has that is there to be read, if it returns
      without an error, has received that message. */
  lemma ReadReceivesMessage(r: Trace, p: Pid, m: nat, k: nat, i: nat, msg: seq<Word>)
    requires IsRun(r) && m < |r.events| && r.events[m] == CallRead(p, i, |msg|) && ReturnsAt(r, p, m, k)
    requires !r.states[k + 1].procs[p].eintr && i < |r.states[k].segs|
    requires var g := r.states[k].segs[i]; |g.received| < |g.sent| && g.sent[|g.received|] == msg
    ensures i < |r.states[k + 1].segs|
    ensures r.states[k + 1].segs[i].received == r.states[k].segs[i].received + [msg]
  {
    ReadDelivers(r, p, m, k, i, |msg|);
    var g, g' := r.states[k].segs[i], r.states[k + 1].segs[i];
    FaithfulDelivery(r, k + 1, i, |g.received|);
    assert g'.received == g.received + [g'.received[|g.received|]];
  }

  /** There always is such a message when a read returns without an error. */
  lemma ReadFollowsWrite(r: Trace, p: Pid, m: nat, k: nat, i: nat, n: nat)
    requires IsRun(r) && m < |r.events| && r.events[m] == CallRead(p, i, n) && ReturnsAt(r, p, m, k)
    requires !r.states[k + 1].procs[p].eintr && i < |r.states[k].segs|
    ensures |r.states[k].segs[i].received| < |r.states[k].segs[i].sent|
  {
    ReadDelivers(r, p, m, k, i, n);
    WritesAndReadsAlternate(r, k + 1, i);
  }

  // ----------------------------------------------------------------- progress

  /** How many steps a process inside is from its return. */
  function StepsLeft(pc: Pc): nat {
    match pc
    case GotRead(_, n) => 2 * n + 2
    case LoadWord(_, n, buf) => if |buf| <= n then 2 * (n - |buf|) + 1 else 0
    case ClearWord(_, n, buf) => if |buf| <= n then 2 * (n - |buf|) + 2 else 0
    case GotWrite(_, msg) => |msg| + 2
    case StoreWord(_, msg, k) => if k <= |msg| then |msg| - k + 1 else 0
    case _ => 0
  }

  /** A process that has the token always has a step, and each one brings it nearer to its
      return: a read of n words takes 2n + 2 at most, a write of n words n + 2. */
  lemma InsideGetsOn(r: Trace, k: nat, p: Pid, i: nat)
    requires IsRun(r) && k < |r.states| && Inside(r.states[k], p, i)
    ensures exists s' :: Next(r.states[k], Step(p, 0), s')
    ensures forall junk, s' :: Next(r.states[k], Step(p, junk), s') ==>
              p in s'.procs && StepsLeft(s'.procs[p].pc) < StepsLeft(r.states[k].procs[p].pc)
  {
    DeliveryOverRun(r, k);
    var s := r.states[k];
    forall junk, s' | Next(s, Step(p, junk), s')
      ensures p in s'.procs && StepsLeft(s'.procs[p].pc) < StepsLeft(s.procs[p].pc)
    {
      StepFalls(s, p, junk, s');
    }
    var s' := StepInside(s, p, i);
  }

  lemma StepFalls(s: Channel, p: Pid, junk: Word, s': Channel)
    requires p in s.procs && !s.procs[p].pc.Idle? && !s.procs[p].pc.LockRead? && !s.procs[p].pc.LockWrite? && ProcStep(s, p, junk, s')
    requires s.procs[p].pc.seg < |s.segs| && ProcessOk(s.segs[s.procs[p].pc.seg], s.procs[p].pc)
    ensures p in s'.procs && StepsLeft(s'.procs[p].pc) < StepsLeft(s.procs[p].pc)
  {
  }

  lemma StepInside(s: Channel, p: Pid, i: nat) returns (s': Channel)
    requires DeliveryInv(s) && Inside(s, p, i)
    ensures Next(s, Step(p, 0), s')
  {
    var pc := s.procs[p].pc;
    var g := s.segs[i];
    assert ProcessOk(g, pc);
    match pc
    case GotRead(_, n) => s' := if s.procs[p].eintr then Dropped(s, p, i) else SetPc(s, p, LoadWord(i, n, []));
    case LoadWord(_, n, buf) =>
      s' := if |buf| < n then SetPc(s, p, ClearWord(i, n, buf + [g.data[|buf|]]))
            else SetPc(SetSeg(s, i, g.(wr := UNLOCK, received := g.received + [buf])), p, Idle);
    case ClearWord(_, n, buf) =>
      s' := SetPc(SetSeg(s, i, g.(data := g.data[|buf| - 1 := 0])), p, LoadWord(i, n, buf));
    case GotWrite(_, msg) => s' := if s.procs[p].eintr then Dropped(s, p, i) else SetPc(s, p, StoreWord(i, msg, 0));
    case StoreWord(_, msg, k) =>
      s' := if k < |msg| then SetPc(SetSeg(s, i, g.(data := g.data[k := msg[k]])), p, StoreWord(i, msg, k + 1))
            else SetPc(SetSeg(s, i, g.(rd := UNLOCK, sent := g.sent + [msg])), p, Idle);
  }

  /** A reader at its lock gets the token, or returns with EINTR in errno. */
  ghost predicate ReadLockOutcome(s: Channel, p: Pid, s': Channel, i: nat) {
    && p in s'.procs && i < |s.segs| && i < |s'.segs|
    && (if s.segs[i].rd == UNLOCK then s'.procs[p].pc.GotRead? && s'.segs[i] == s.segs[i].(rd := LOCK)
        else s'.procs[p].pc.Idle? && s'.procs[p].eintr && s'.segs[i] == s.segs[i])
  }

  /** It has a step exactly if the futex is unlocked or forced. */
  lemma ReadLockGetsOn(s: Channel, p: Pid, i: nat, n: nat)
    requires p in s.procs && i < |s.segs| && s.procs[p].pc == LockRead(i, n)
    ensures (exists s' :: Next(s, Step(p, 0), s')) <==> s.segs[i].rd == UNLOCK || s.segs[i].rd == FORCE
    ensures forall s' :: Next(s, Step(p, 0), s') ==> ReadLockOutcome(s, p, s', i)
  {
    var g := s.segs[i];
    if g.rd == UNLOCK { assert Next(s, Step(p, 0), SetPc(SetSeg(s, i, g.(rd := LOCK)), p, GotRead(i, n))); }
    if g.rd == FORCE { assert Next(s, Step(p, 0), s.(procs := s.procs[p := Process(Idle, true)])); }
  }

  /** The same for a writer. */
  ghost predicate WriteLockOutcome(s: Channel, p: Pid, s': Channel, i: nat) {
    && p in s'.procs && i < |s.segs| && i < |s'.segs|
    && (if s.segs[i].wr == UNLOCK then s'.procs[p].pc.GotWrite? && s'.segs[i] == s.segs[i].(wr := LOCK)
        else s'.procs[p].pc.Idle? && s'.procs[p].eintr && s'.segs[i] == s.segs[i])
  }

  lemma WriteLockGetsOn(s: Channel, p: Pid, i: nat, msg: seq<Word>)
    requires p in s.procs && i < |s.segs| && s.procs[p].pc == LockWrite(i, msg)
    ensures (exists s' :: Next(s, Step(p, 0), s')) <==> s.segs[i].wr == UNLOCK || s.segs[i].wr == FORCE
    ensures forall s' :: Next(s, Step(p, 0), s') ==> WriteLockOutcome(s, p, s', i)
  {
    var g := s.segs[i];
    if g.wr == UNLOCK { assert Next(s, Step(p, 0), SetPc(SetSeg(s, i, g.(wr := LOCK)), p, GotWrite(i, msg))); }
    if g.wr == FORCE { assert Next(s, Step(p, 0), s.(procs := s.procs[p := Process(Idle, true)])); }
  }

  /** Forcing a futex puts the force value there and changes nothing else of the transfer. */
  lemma ForceTakesEffect(s: Channel, i: nat, read: bool, s': Channel)
    requires Next(s, Force(i, read), s') && i < |s.segs|
    ensures |s'.segs| == |s.segs| && s'.procs == s.procs && SameRecords(s, s', i) && s'.segs[i].data == s.segs[i].data
    ensures if read then s'.segs[i].rd == FORCE && s'.segs[i].wr == s.segs[i].wr
            else s'.segs[i].wr == FORCE && s'.segs[i].rd == s.segs[i].rd
    ensures forall j :: 0 <= j < |s.segs| && j != i ==> s'.segs[j] == s.segs[j]
  {
  }

  /** Between calls a process can call to read or write whatever fits the segment. */
  lemma CallsAreAccepted(s: Channel, p: Pid, i: nat, n: nat, msg: seq<Word>)
    requires p in s.procs && s.procs[p].pc.Idle? && i < |s.segs|
    ensures (exists s' :: Next(s, CallRead(p, i, n), s')) <==> n <= |s.segs[i].data|
    ensures (exists s' :: Next(s, CallWrite(p, i, msg), s')) <==> |msg| <= |s.segs[i].data|
  {
    if n <= |s.segs[i].data| { assert Next(s, CallRead(p, i, n), SetPc(s, p, LockRead(i, n))); }
    if |msg| <= |s.segs[i].data| { assert Next(s, CallWrite(p, i, msg), SetPc(s, p, LockWrite(i, msg))); }
  }
}
