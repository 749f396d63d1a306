/** The shared-memory channel of src/shm.c: udo_shm_data_write and udo_shm_data_read on the
    segments of one mapping, by any number of processes, word by word.

    A segment carries a read futex and a write futex.  Whoever turns one of them from 0
    to 1 holds the segment's token until it stores 0 into the other.  Sleeping inside
    udo_futex_lock is the business of module Futex; here a lock is tried until the
    compare-and-swap succeeds or the force value is seen. */
module ShmChannel {
  import opened Runs
  import Futex
  import ShmLayout

  const UNLOCK: nat := Futex.UNLOCK
  const LOCK: nat := Futex.LOCK
  const FORCE: nat := Futex.FORCE

  type Word = int
  type Pid = nat

  /** `sent` and `received` record the completed transfers, `lost` the tokens lost. */
  datatype Segment = Segment(rd: nat, wr: nat, data: seq<Word>,
                             sent: seq<seq<Word>>, received: seq<seq<Word>>, lost: nat)

  datatype Pc =
    | Idle
    | LockRead(seg: nat, n: nat)                      // udo_futex_lock(rd_fux)
    | GotRead(seg: nat, n: nat)                       // ... returned with the lock: errno?
    | LoadWord(seg: nat, n: nat, buf: seq<Word>)      // load a word into the caller's buffer
    | ClearWord(seg: nat, n: nat, buf: seq<Word>)     // __atomic_clear on that word
    | LockWrite(seg: nat, msg: seq<Word>)             // udo_futex_lock(wr_fux)
    | GotWrite(seg: nat, msg: seq<Word>)
    | StoreWord(seg: nat, msg: seq<Word>, k: nat)     // store word number k

  /** A process, and whether its errno is EINTR; no function of the library resets it. */
  datatype Process = Process(pc: Pc, eintr: bool)

  datatype Channel = Channel(segs: seq<Segment>, procs: map<Pid, Process>)

  datatype Event =
    | CallRead(p: Pid, seg: nat, n: nat)          // to read n words
    | CallWrite(p: Pid, seg: nat, msg: seq<Word>)
    | Step(p: Pid, junk: Word)                    // `junk`: what a clear leaves behind
    | SetErrno(p: Pid, eintr: bool)               // errno changes outside the library
    | Force(seg: nat, read: bool)                 // udo_futex_unlock_force on a futex
    | Attach(seg: nat)                            // the compare-and-swaps of p_shm_create

  function SetPc(s: Channel, p: Pid, pc: Pc): Channel
    requires p in s.procs
  {
    s.(procs := s.procs[p := s.procs[p].(pc := pc)])
  }

  function SetSeg(s: Channel, i: nat, g: Segment): Channel
    requires i < |s.segs|
  {
    s.(segs := s.segs[i := g])
  }

  /** Why a lock returned: it has the token, or it saw the force value.  Either way the
      caller returns at once if errno is EINTR, which a forced return sets. */
  ghost predicate LockReadStep(s: Channel, p: Pid, s': Channel)
    requires p in s.procs && s.procs[p].pc.LockRead? && s.procs[p].pc.seg < |s.segs|
  {
    var pc := s.procs[p].pc;
    var g := s.segs[pc.seg];
    || (g.rd == UNLOCK && s' == SetPc(SetSeg(s, pc.seg, g.(rd := LOCK)), p, GotRead(pc.seg, pc.n)))
    || (g.rd == FORCE && s' == s.(procs := s.procs[p := Process(Idle, true)]))
  }

  ghost predicate LockWriteStep(s: Channel, p: Pid, s': Channel)
    requires p in s.procs && s.procs[p].pc.LockWrite? && s.procs[p].pc.seg < |s.segs|
  {
    var pc := s.procs[p].pc;
    var g := s.segs[pc.seg];
    || (g.wr == UNLOCK && s' == SetPc(SetSeg(s, pc.seg, g.(wr := LOCK)), p, GotWrite(pc.seg, pc.msg)))
    || (g.wr == FORCE && s' == s.(procs := s.procs[p := Process(Idle, true)]))
  }

  /** `if (errno == EINTR) return` after the lock was taken: the token is gone. */
  function Dropped(s: Channel, p: Pid, i: nat): Channel
    requires p in s.procs && i < |s.segs|
  {
    SetPc(SetSeg(s, i, s.segs[i].(lost := s.segs[i].lost + 1)), p, Idle)
  }

  ghost predicate ProcStep(s: Channel, p: Pid, junk: Word, s': Channel)
    requires p in s.procs
  {
    var pc := s.procs[p].pc;
    !pc.Idle? && pc.seg < |s.segs| &&
    var g := s.segs[pc.seg];
    match pc
    case LockRead(i, n) => LockReadStep(s, p, s')
    case GotRead(i, n) => s' == (if s.procs[p].eintr then Dropped(s, p, i) else SetPc(s, p, LoadWord(i, n, [])))
    case LoadWord(i, n, buf) =>
      if |buf| < n
      then |buf| < |g.data| && s' == SetPc(s, p, ClearWord(i, n, buf + [g.data[|buf|]]))
      else s' == SetPc(SetSeg(s, i, g.(wr := UNLOCK, received := g.received + [buf])), p, Idle)
    case ClearWord(i, n, buf) =>
      && 0 < |buf| <= |g.data|
      && s' == SetPc(SetSeg(s, i, g.(data := g.data[|buf| - 1 := junk])), p, LoadWord(i, n, buf))
    case LockWrite(i, msg) => LockWriteStep(s, p, s')
    case GotWrite(i, msg) => s' == (if s.procs[p].eintr then Dropped(s, p, i) else SetPc(s, p, StoreWord(i, msg, 0)))
    case StoreWord(i, msg, k) =>
      if k < |msg|
      then k < |g.data| && s' == SetPc(SetSeg(s, i, g.(data := g.data[k := msg[k]])), p, StoreWord(i, msg, k + 1))
      else s' == SetPc(SetSeg(s, i, g.(rd := UNLOCK, sent := g.sent + [msg])), p, Idle)
  }

  /** Calls may be made on attached segments, for transfers that fit the segment. */
  ghost predicate Next(s: Channel, e: Event, s': Channel) {
    match e
    case CallRead(p, i, n) =>
      p in s.procs && s.procs[p].pc.Idle? && i < |s.segs| && n <= |s.segs[i].data| && s' == SetPc(s, p, LockRead(i, n))
    case CallWrite(p, i, msg) =>
      p in s.procs && s.procs[p].pc.Idle? && i < |s.segs| && |msg| <= |s.segs[i].data| && s' == SetPc(s, p, LockWrite(i, msg))
    case Step(p, junk) => p in s.procs && ProcStep(s, p, junk, s')
    case SetErrno(p, eintr) => p in s.procs && s' == s.(procs := s.procs[p := s.procs[p].(eintr := eintr)])
    case Force(i, read) =>
      && i < |s.segs|
      && var g := s.segs[i];
         s' == SetSeg(s, i, if read
                            then g.(rd := FORCE, lost := g.lost + (if g.rd == UNLOCK then 1 else 0))
                            else g.(wr := FORCE, lost := g.lost + (if g.wr == UNLOCK then 1 else 0)))
    case Attach(i) =>
      && i < |s.segs|
      && var g := s.segs[i];
         s' == SetSeg(s, i, g.(rd := ShmLayout.LockIfUnlocked(g.rd), lost := g.lost + (if g.rd == UNLOCK then 1 else 0)))
  }

  /** As the first udo_shm_create leaves the segments: read futexes locked, write futexes
      unlocked, and nobody inside. */
  ghost predicate Init(s: Channel) {
    && (forall i :: 0 <= i < |s.segs| ==>
          var g := s.segs[i]; g.rd == LOCK && g.wr == UNLOCK && g.sent == [] && g.received == [] && g.lost == 0)
    && (forall p :: p in s.procs ==> s.procs[p].pc.Idle?)
  }

  datatype Trace = Trace(states: seq<Channel>, events: seq<Event>)

  ghost predicate IsRun(r: Trace) {
    && |r.states| == |r.events| + 1
    && Init(r.states[0])
    && forall i :: 0 <= i < |r.events| ==> Next(r.states[i], r.events[i], r.states[i + 1])
  }

  // ----------------------------------------------------------------- the token

  predicate Writing(pc: Pc, i: nat) {
    (pc.GotWrite? || pc.StoreWord?) && pc.seg == i
  }

  predicate Reading(pc: Pc, i: nat) {
    (pc.GotRead? || pc.LoadWord? || pc.ClearWord?) && pc.seg == i
  }

  function Writers(s: Channel, i: nat): set<Pid> {
    set p | p in s.procs && Writing(s.procs[p].pc, i)
  }

  function Readers(s: Channel, i: nat): set<Pid> {
    set p | p in s.procs && Reading(s.procs[p].pc, i)
  }

  /** Where the tokens of segment `i` are. */
  function Tokens(s: Channel, i: nat): nat
    requires i < |s.segs|
  {
    (if s.segs[i].rd == UNLOCK then 1 else 0) + (if s.segs[i].wr == UNLOCK then 1 else 0)
    + |Writers(s, i)| + |Readers(s, i)|
  }

  ghost predicate Located(s: Channel) {
    forall p :: p in s.procs && !s.procs[p].pc.Idle? ==> s.procs[p].pc.seg < |s.segs|
  }

  ghost predicate TokenInv(s: Channel) {
    && (forall i :: 0 <= i < |s.segs| ==> Tokens(s, i) + s.segs[i].lost == 1)
    && Located(s)
  }

  /** When only process `p` moves, only its own membership can change. */
  lemma HoldersChange(s: Channel, s': Channel, p: Pid, i: nat)
    requires p in s.procs && p in s'.procs && s'.procs == s.procs[p := s'.procs[p]]
    ensures |Writers(s', i)| == |Writers(s, i)| + (if Writing(s'.procs[p].pc, i) then 1 else 0)
                                                - (if Writing(s.procs[p].pc, i) then 1 else 0)
    ensures |Readers(s', i)| == |Readers(s, i)| + (if Reading(s'.procs[p].pc, i) then 1 else 0)
                                                - (if Reading(s.procs[p].pc, i) then 1 else 0)
  {
    assert Writers(s', i) - {p} == Writers(s, i) - {p};
    assert Readers(s', i) - {p} == Readers(s, i) - {p};
    Without(Writers(s, i), p);
    Without(Writers(s', i), p);
    Without(Readers(s, i), p);
    Without(Readers(s', i), p);
  }

  lemma Without(a: set<Pid>, p: Pid)
    ensures |a - {p}| == |a| - (if p in a then 1 else 0)
  {
    if p in a { assert a == (a - {p}) + {p}; } else { assert a - {p} == a; }
  }

  predicate Inside(s: Channel, p: Pid, i: nat) {
    p in s.procs && (Writing(s.procs[p].pc, i) || Reading(s.procs[p].pc, i))
  }

  /** The step touches no other process and no other segment, and its own segment only
      while the process is inside or takes a token that lies in a futex. */
  lemma StepFrame(s: Channel, p: Pid, junk: Word, s': Channel)
    requires p in s.procs && ProcStep(s, p, junk, s')
    ensures p in s'.procs && s'.procs == s.procs[p := s'.procs[p]]
    ensures |s'.segs| == |s.segs| && s'.segs == s.segs[s.procs[p].pc.seg := s'.segs[s.procs[p].pc.seg]]
    ensures var i := s.procs[p].pc.seg;
            && (s'.procs[p].pc.Idle? || s'.procs[p].pc.seg == i)
            && (s'.segs[i] != s.segs[i] ==> Inside(s, p, i) || s.segs[i].rd == UNLOCK || s.segs[i].wr == UNLOCK)
  {
  }

  /** A step of process `p` moves the token of its segment between the two futexes and its
      own hands ... */
  lemma OwnStepKeepsTokens(s: Channel, p: Pid, junk: Word, s': Channel, i: nat)
    requires p in s.procs && ProcStep(s, p, junk, s') && i == s.procs[p].pc.seg && |s'.segs| == |s.segs|
    requires Tokens(s, i) + s.segs[i].lost == 1
    ensures Tokens(s', i) + s'.segs[i].lost == 1
  {
    HoldersChange(s, s', p, i);
    if Writing(s.procs[p].pc, i) { assert p in Writers(s, i); }
    if Reading(s.procs[p].pc, i) { assert p in Readers(s, i); }
  }

  /** ... and leaves the other segments alone. */
  lemma StepKeepsTokens(s: Channel, p: Pid, junk: Word, s': Channel, i: nat)
    requires TokenInv(s) && p in s.procs && ProcStep(s, p, junk, s') && i < |s.segs|
    ensures |s'.segs| == |s.segs| && Tokens(s', i) + s'.segs[i].lost == 1
  {
    assert Tokens(s, i) + s.segs[i].lost == 1;
    StepFrame(s, p, junk, s');
    if i == s.procs[p].pc.seg {
      OwnStepKeepsTokens(s, p, junk, s', i);
    } else {
      HoldersChange(s, s', p, i);
    }
  }

  /** Forcing and attaching are where a token in a futex gets lost. */
  lemma OutsideKeepsTokens(s: Channel, e: Event, s': Channel, i: nat)
    requires TokenInv(s) && (e.Force? || e.Attach?) && Next(s, e, s') && i < |s.segs|
    ensures |s'.segs| == |s.segs| && s'.procs == s.procs && Tokens(s', i) + s'.segs[i].lost == 1
  {
    assert Tokens(s, i) + s.segs[i].lost == 1;
    assert Writers(s', i) == Writers(s, i) && Readers(s', i) == Readers(s, i);
  }

  lemma CallKeepsTokens(s: Channel, e: Event, s': Channel, i: nat)
    requires TokenInv(s) && (e.CallRead? || e.CallWrite? || e.SetErrno?) && Next(s, e, s') && i < |s.segs|
    ensures |s'.segs| == |s.segs| && Tokens(s', i) + s'.segs[i].lost == 1
  {
    assert Tokens(s, i) + s.segs[i].lost == 1;
    HoldersChange(s, s', e.p, i);
  }

  lemma NextKeepsSegs(s: Channel, e: Event, s': Channel)
    requires Located(s) && Next(s, e, s')
    ensures |s'.segs| == |s.segs| && Located(s')
  {
    if e.Step? { StepFrame(s, e.p, e.junk, s'); }
  }

  lemma NextKeepsTokens(s: Channel, e: Event, s': Channel)
    requires TokenInv(s) && Next(s, e, s')
    ensures TokenInv(s') && |s'.segs| == |s.segs|
  {
    NextKeepsSegs(s, e, s');
    forall i | 0 <= i < |s.segs|
      ensures Tokens(s', i) + s'.segs[i].lost == 1
    {
      if e.Force? || e.Attach? { OutsideKeepsTokens(s, e, s', i); }
      else if e.Step? { StepKeepsTokens(s, e.p, e.junk, s', i); }
      else { CallKeepsTokens(s, e, s', i); }
    }
  }

  lemma InitTokens(s: Channel)
    requires Init(s)
    ensures TokenInv(s)
  {
    forall i | 0 <= i < |s.segs|
      ensures Tokens(s, i) + s.segs[i].lost == 1
    {
      assert Writers(s, i) == {} && Readers(s, i) == {};
    }
  }

  lemma {:induction false} TokensOverRun(r: Trace, k: nat)
    requires IsRun(r) && k < |r.states|
    ensures TokenInv(r.states[k])
  {
    if k == 0 {
      InitTokens(r.states[0]);
    } else {
      TokensOverRun(r, k - 1);
      NextKeepsTokens(r.states[k - 1], r.events[k - 1], r.states[k]);
    }
  }

  /** Token conservation: in every state of every run, each segment has exactly one token,
      in its read futex, in its write futex, with a writer or with a reader, or it has lost
      it; so it never has two, and it has none exactly after one loss. */
  lemma OneTokenOrLost(r: Trace, k: nat, i: nat)
    requires IsRun(r) && k < |r.states| && i < |r.states[k].segs|
    ensures Tokens(r.states[k], i) + r.states[k].segs[i].lost == 1
  {
    TokensOverRun(r, k);
  }

  lemma SmallSet(a: set<Pid>, p: Pid, q: Pid)
    requires |a| <= 1 && p in a && q in a
    ensures p == q
  {
    Without(a, p);
    assert a - {p} == {};
  }

  lemma Apart(a: set<Pid>, b: set<Pid>, p: Pid, q: Pid)
    requires |a| + |b| <= 1 && p in a
    ensures q !in b && (q in a ==> p == q)
  {
    if q in b { Without(b, q); Without(a, p); }
    if q in a { SmallSet(a, p, q); }
  }

  /** Two processes are never inside the same segment, whatever errno and forcing do. */
  lemma Exclusive(r: Trace, k: nat, i: nat, p: Pid, q: Pid)
    requires IsRun(r) && k < |r.states| && i < |r.states[k].segs|
    requires Inside(r.states[k], p, i) && Inside(r.states[k], q, i)
    ensures p == q
  {
    OneTokenOrLost(r, k, i);
    var s := r.states[k];
    if p in Writers(s, i) { Apart(Writers(s, i), Readers(s, i), p, q); }
    else { Apart(Readers(s, i), Writers(s, i), p, q); }
  }

  // -------------------------------------------------------------- losing a token

  /** The ways a segment loses its token: a process that took it returns because its errno
      was EINTR already; a futex in which it lies is forced; or a process attaches while a
      message is waiting to be read. */
  ghost predicate Loses(s: Channel, e: Event, i: nat)
    requires i < |s.segs|
  {
    match e
    case Step(p, _) => p in s.procs && s.procs[p].eintr && (s.procs[p].pc.GotRead? || s.procs[p].pc.GotWrite?) && s.procs[p].pc.seg == i
    case Force(j, read) => j == i && (if read then s.segs[i].rd else s.segs[i].wr) == UNLOCK
    case Attach(j) => j == i && s.segs[i].rd == UNLOCK
    case _ => false
  }

  lemma LossCauses(s: Channel, e: Event, s': Channel, i: nat)
    requires Next(s, e, s') && i < |s.segs| && i < |s'.segs|
    ensures s'.segs[i].lost == s.segs[i].lost + (if Loses(s, e, i) then 1 else 0)
  {
  }

  ghost predicate LosesAt(r: Trace, m: nat, i: nat) {
    m < |r.events| && m < |r.states| && i < |r.states[m].segs| && Loses(r.states[m], r.events[m], i)
  }

  lemma {:induction false} SameSegments(r: Trace, k: nat)
    requires IsRun(r) && k < |r.states|
    ensures |r.states[k].segs| == |r.states[0].segs|
  {
    if k > 0 {
      SameSegments(r, k - 1);
      TokensOverRun(r, k - 1);
      NextKeepsSegs(r.states[k - 1], r.events[k - 1], r.states[k]);
    }
  }

  lemma LossAt(r: Trace, k: nat, i: nat)
    requires IsRun(r) && k < |r.events| && i < |r.states[0].segs|
    ensures i < |r.states[k].segs| && i < |r.states[k + 1].segs|
    ensures r.states[k + 1].segs[i].lost == r.states[k].segs[i].lost + (if LosesAt(r, k, i) then 1 else 0)
  {
    SameSegments(r, k);
    SameSegments(r, k + 1);
    LossCauses(r.states[k], r.events[k], r.states[k + 1], i);
  }

  /** No step before state `k` has lost the token of segment `i`. */
  ghost predicate NoLossBefore(r: Trace, k: nat, i: nat) {
    forall m :: 0 <= m < k ==> !LosesAt(r, m, i)
  }

  lemma NoLossStep(r: Trace, k: nat, i: nat)
    ensures NoLossBefore(r, k + 1, i) <==> NoLossBefore(r, k, i) && !LosesAt(r, k, i)
  {
  }

  /** How many steps before state `k` have lost it. */
  ghost function Losses(r: Trace, k: nat, i: nat): nat {
    if k == 0 then 0 else Losses(r, k - 1, i) + (if LosesAt(r, k - 1, i) then 1 else 0)
  }

  lemma {:induction false} NoLosses(r: Trace, k: nat, i: nat)
    ensures Losses(r, k, i) == 0 <==> NoLossBefore(r, k, i)
  {
    if k > 0 {
      NoLosses(r, k - 1, i);
      NoLossStep(r, k - 1, i);
    }
  }

  ghost predicate LostAt(r: Trace, k: nat, i: nat) {
    k < |r.states| && i < |r.states[k].segs| && r.states[k].segs[i].lost == Losses(r, k, i)
  }

  lemma LostStep(r: Trace, k: nat, i: nat)
    requires IsRun(r) && k < |r.events| && i < |r.states[0].segs| && LostAt(r, k, i)
    ensures LostAt(r, k + 1, i)
  {
    LossAt(r, k, i);
  }

  lemma LostIsLosses(r: Trace, k: nat, i: nat)
    requires IsRun(r) && k < |r.states| && i < |r.states[0].segs|
    ensures LostAt(r, k, i)
  {
    ghost var p := (m: nat) => LostAt(r, m, i);
    forall m | 0 <= m < k
      ensures Carries(p, m)
    {
      if p(m) { LostStep(r, m, i); }
    }
    CarriedOver(p, 0, k);
  }

  /** A segment has exactly one token if and only if no step so far has lost it. */
  lemma TokenConservedUnlessLost(r: Trace, k: nat, i: nat)
    requires IsRun(r) && k < |r.states| && i < |r.states[0].segs|
    ensures i < |r.states[k].segs|
    ensures Tokens(r.states[k], i) == 1 <==> NoLossBefore(r, k, i)
  {
    LostIsLosses(r, k, i);
    NoLosses(r, k, i);
    OneTokenOrLost(r, k, i);
  }

  /** What is lost stays lost: a segment without a token transfers nothing any more. */
  ghost predicate DeadSince(r: Trace, k: nat, m: nat, i: nat) {
    && m < |r.states| && i < |r.states[m].segs| && k < |r.states| && i < |r.states[k].segs|
    && Tokens(r.states[m], i) == 0
    && r.states[m].segs[i].sent == r.states[k].segs[i].sent && r.states[m].segs[i].received == r.states[k].segs[i].received
  }

  lemma DeadStays(s: Channel, e: Event, s': Channel, i: nat)
    requires TokenInv(s) && Next(s, e, s') && i < |s.segs| && i < |s'.segs| && Tokens(s, i) == 0
    ensures s'.segs[i].sent == s.segs[i].sent && s'.segs[i].received == s.segs[i].received
    ensures s'.segs[i].lost >= s.segs[i].lost
  {
    LossCauses(s, e, s', i);
    if e.Step? {
      StepFrame(s, e.p, e.junk, s');
      if Inside(s, e.p, i) { assert e.p in Writers(s, i) || e.p in Readers(s, i); }
    }
  }

  lemma DeadStep(r: Trace, k: nat, m: nat, i: nat)
    requires IsRun(r) && m < |r.events| && i < |r.states[0].segs| && DeadSince(r, k, m, i)
    ensures DeadSince(r, k, m + 1, i)
  {
    SameSegments(r, m);
    SameSegments(r, m + 1);
    TokensOverRun(r, m);
    OneTokenOrLost(r, m, i);
    OneTokenOrLost(r, m + 1, i);
    DeadStays(r.states[m], r.events[m], r.states[m + 1], i);
  }

  /** Once a segment has no token, it has none in any later state, and nothing more is sent
      or received through it. */
  lemma LostTokenNeverReturns(r: Trace, k: nat, m: nat, i: nat)
    requires IsRun(r) && k <= m < |r.states| && i < |r.states[0].segs| && i < |r.states[k].segs| && Tokens(r.states[k], i) == 0
    ensures DeadSince(r, k, m, i)
  {
    ghost var p := (j: nat) => DeadSince(r, k, j, i);
    forall j | k <= j < m
      ensures Carries(p, j)
    {
      if p(j) { DeadStep(r, k, j, i); }
    }
    CarriedOver(p, k, m);
  }

  lemma Reach(s: Channel, e: Event, s': Channel)
    requires ReachedUnforced(s) && Next(s, e, s') && !e.Force? && !e.Attach?
    ensures ReachedUnforced(s')
  {
    var r :| IsRun(r) && Unforced(r) && r.states[|r.states| - 1] == s;
    var r' := Trace(r.states + [s'], r.events + [e]);
    assert forall i :: 0 <= i < |r.events| ==> r'.events[i] == r.events[i];
    assert forall i :: 0 <= i < |r.states| ==> r'.states[i] == r.states[i];
    assert IsRun(r') && Unforced(r') && r'.states[|r'.states| - 1] == s';
  }

  /** Nobody forces a futex or attaches. */
  ghost predicate Unforced(r: Trace) {
    forall i :: 0 <= i < |r.events| ==> !r.events[i].Force? && !r.events[i].Attach?
  }

  ghost predicate ReachedUnforced(s: Channel) {
    exists r: Trace :: IsRun(r) && Unforced(r) && r.states[|r.states| - 1] == s
  }

  /** One process and one empty segment. */
  function One(wr: nat, lost: nat, pc: Pc, eintr: bool): Channel {
    Channel([Segment(LOCK, wr, [], [], [], lost)], map[0 := Process(pc, eintr)])
  }

  lemma StartOne()
    ensures ReachedUnforced(One(UNLOCK, 0, Idle, false))
  {
    var r := Trace([One(UNLOCK, 0, Idle, false)], []);
    assert IsRun(r) && Unforced(r);
  }

  lemma CallWithStaleErrno()
    ensures ReachedUnforced(One(UNLOCK, 0, LockWrite(0, []), true))
  {
    StartOne();
    Reach(One(UNLOCK, 0, Idle, false), SetErrno(0, true), One(UNLOCK, 0, Idle, true));
    Reach(One(UNLOCK, 0, Idle, true), CallWrite(0, 0, []), One(UNLOCK, 0, LockWrite(0, []), true));
  }

  lemma TakeAndDrop()
    ensures ReachedUnforced(One(LOCK, 1, Idle, true))
  {
    CallWithStaleErrno();
    Reach(One(UNLOCK, 0, LockWrite(0, []), true), Step(0, 0), One(LOCK, 0, GotWrite(0, []), true));
    Reach(One(LOCK, 0, GotWrite(0, []), true), Step(0, 0), One(LOCK, 1, Idle, true));
  }

  /** errno is sticky: a process whose errno is EINTR from some earlier call takes the
      token of a fresh segment and returns an error, without any force or attach. */
  lemma StaleErrnoLosesToken()
    ensures exists s: Channel :: ReachedUnforced(s) && Unusable(s)
  {
    TakeAndDrop();
    var s := One(LOCK, 1, Idle, true);
    var r :| IsRun(r) && Unforced(r) && r.states[|r.states| - 1] == s;
    OneTokenOrLost(r, |r.states| - 1, 0);
    forall r', k: nat, m: nat | IsRun(r') && k <= m < |r'.states| && r'.states[k] == s
      ensures NothingSent(r', m)
    {
      SameSegments(r', k);
      SameSegments(r', m);
      LostTokenNeverReturns(r', k, m, 0);
    }
  }

  ghost predicate NothingSent(r: Trace, m: nat) {
    m < |r.states| && |r.states[m].segs| == 1 && r.states[m].segs[0].sent == [] && r.states[m].segs[0].received == []
  }

  /** The only segment is without a token, and no continuation ever transfers anything. */
  ghost predicate Unusable(s: Channel) {
    && |s.segs| == 1 && Tokens(s, 0) == 0
    && forall r, k: nat, m: nat {:trigger r.states[k], NothingSent(r, m)} ::
         IsRun(r) && k <= m < |r.states| && r.states[k] == s ==> NothingSent(r, m)
  }

  // ------------------------------------------------------------------- delivery

  /** `a` and `b` agree as far as both go. */
  ghost predicate Agree(a: seq<Word>, b: seq<Word>) {
    forall j :: 0 <= j < |a| && j < |b| ==> a[j] == b[j]
  }

  /** From word `c` on, the segment still holds the message. */
  ghost predicate HoldsFrom(data: seq<Word>, msg: seq<Word>, c: nat) {
    forall j :: c <= j < |msg| && j < |data| ==> data[j] == msg[j]
  }

  /** A message has been sent and not yet received. */
  ghost predicate Full(g: Segment) {
    |g.sent| == |g.received| + 1
  }

  ghost predicate SegmentOk(g: Segment) {
    && |g.received| <= |g.sent| <= |g.received| + 1
    && (forall k :: 0 <= k < |g.received| ==> Agree(g.received[k], g.sent[k]))
    && (g.rd == UNLOCK ==> Full(g) && HoldsFrom(g.data, g.sent[|g.received|], 0))
    && (g.wr == UNLOCK ==> !Full(g))
  }

  /** What a process inside, or on its way into, segment `g` may rely on. */
  ghost predicate ProcessOk(g: Segment, pc: Pc) {
    match pc
    case Idle => true
    case LockRead(_, n) => n <= |g.data|
    case GotRead(_, n) => n <= |g.data| && Full(g) && HoldsFrom(g.data, g.sent[|g.received|], 0)
    case LoadWord(_, n, buf) =>
      && |buf| <= n <= |g.data| && Full(g)
      && Agree(buf, g.sent[|g.received|]) && HoldsFrom(g.data, g.sent[|g.received|], |buf|)
    case ClearWord(_, n, buf) =>
      && 0 < |buf| <= n <= |g.data| && Full(g)
      && Agree(buf, g.sent[|g.received|]) && HoldsFrom(g.data, g.sent[|g.received|], |buf|)
    case LockWrite(_, msg) => |msg| <= |g.data|
    case GotWrite(_, msg) => |msg| <= |g.data| && !Full(g)
    case StoreWord(_, msg, k) => k <= |msg| <= |g.data| && !Full(g) && g.data[..k] == msg[..k]
  }

  ghost predicate DeliveryInv(s: Channel) {
    && (forall i :: 0 <= i < |s.segs| ==> SegmentOk(s.segs[i]))
    && (forall p :: p in s.procs && !s.procs[p].pc.Idle? ==>
          s.procs[p].pc.seg < |s.segs| && ProcessOk(s.segs[s.procs[p].pc.seg], s.procs[p].pc))
  }

  /** What a step of the process leaves of its own segment. */
  ghost predicate Delivers(g: Segment, g': Segment, i: nat, pc': Pc) {
    SegmentOk(g') && |g'.data| == |g.data| && (!pc'.Idle? ==> pc'.seg == i && ProcessOk(g', pc'))
  }

  lemma ReaderDelivers(s: Channel, p: Pid, junk: Word, s': Channel)
    requires p in s.procs && ProcStep(s, p, junk, s') && (s.procs[p].pc.GotRead? || s.procs[p].pc.LoadWord? || s.procs[p].pc.ClearWord?)
    requires var g := s.segs[s.procs[p].pc.seg]; SegmentOk(g) && ProcessOk(g, s.procs[p].pc) && g.rd != UNLOCK && g.wr != UNLOCK
    ensures p in s'.procs && |s'.segs| == |s.segs|
    ensures var i := s.procs[p].pc.seg; Delivers(s.segs[i], s'.segs[i], i, s'.procs[p].pc)
  {
  }

  lemma WriterDelivers(s: Channel, p: Pid, junk: Word, s': Channel)
    requires p in s.procs && ProcStep(s, p, junk, s') && (s.procs[p].pc.GotWrite? || s.procs[p].pc.StoreWord?)
    requires var g := s.segs[s.procs[p].pc.seg]; SegmentOk(g) && ProcessOk(g, s.procs[p].pc) && g.rd != UNLOCK && g.wr != UNLOCK
    ensures p in s'.procs && |s'.segs| == |s.segs|
    ensures var i := s.procs[p].pc.seg; Delivers(s.segs[i], s'.segs[i], i, s'.procs[p].pc)
  {
  }

  lemma LockerDelivers(s: Channel, p: Pid, junk: Word, s': Channel)
    requires p in s.procs && ProcStep(s, p, junk, s') && (s.procs[p].pc.LockRead? || s.procs[p].pc.LockWrite?)
    requires var g := s.segs[s.procs[p].pc.seg]; SegmentOk(g) && ProcessOk(g, s.procs[p].pc)
    ensures p in s'.procs && |s'.segs| == |s.segs|
    ensures var i := s.procs[p].pc.seg; Delivers(s.segs[i], s'.segs[i], i, s'.procs[p].pc)
  {
  }

  /** The process's own step, on its own segment. */
  lemma OwnStepDelivers(s: Channel, p: Pid, junk: Word, s': Channel)
    requires TokenInv(s) && DeliveryInv(s) && p in s.procs && ProcStep(s, p, junk, s')
    ensures p in s'.procs && |s'.segs| == |s.segs|
    ensures var i := s.procs[p].pc.seg; Delivers(s.segs[i], s'.segs[i], i, s'.procs[p].pc)
  {
    var i := s.procs[p].pc.seg;
    assert Tokens(s, i) + s.segs[i].lost == 1;
    if Writing(s.procs[p].pc, i) {
      assert p in Writers(s, i);
      WriterDelivers(s, p, junk, s');
    } else if Reading(s.procs[p].pc, i) {
      assert p in Readers(s, i);
      ReaderDelivers(s, p, junk, s');
    } else {
      LockerDelivers(s, p, junk, s');
    }
  }

  /** While `p` moves the token of its segment, nobody else is inside. */
  lemma OthersOutside(s: Channel, p: Pid, q: Pid, i: nat)
    requires TokenInv(s) && i < |s.segs| && p != q && q in s.procs
    requires Inside(s, p, i) || s.segs[i].rd == UNLOCK || s.segs[i].wr == UNLOCK
    ensures !Inside(s, q, i)
  {
    assert Tokens(s, i) + s.segs[i].lost == 1;
    if Inside(s, q, i) {
      assert q in Writers(s, i) || q in Readers(s, i);
      if p in Writers(s, i) { Apart(Writers(s, i), Readers(s, i), p, q); }
      if p in Readers(s, i) { Apart(Readers(s, i), Writers(s, i), p, q); }
    }
  }

  /** On its way in, a process relies on the size of the segment only. */
  lemma OutsideRelies(g: Segment, g': Segment, pc: Pc)
    requires !pc.Idle? && !Writing(pc, pc.seg) && !Reading(pc, pc.seg)
    requires ProcessOk(g, pc) && |g'.data| == |g.data|
    ensures ProcessOk(g', pc)
  {
  }

  lemma OtherStaysOk(s: Channel, p: Pid, junk: Word, s': Channel, q: Pid)
    requires TokenInv(s) && DeliveryInv(s) && p in s.procs && ProcStep(s, p, junk, s')
    requires q in s.procs && q != p && !s.procs[q].pc.Idle?
    ensures q in s'.procs && s'.procs[q] == s.procs[q] && s.procs[q].pc.seg < |s'.segs|
    ensures ProcessOk(s'.segs[s.procs[q].pc.seg], s.procs[q].pc)
  {
    var i := s.procs[p].pc.seg;
    StepFrame(s, p, junk, s');
    OwnStepDelivers(s, p, junk, s');
    if s.procs[q].pc.seg == i && s'.segs[i] != s.segs[i] {
      OthersOutside(s, p, q, i);
      OutsideRelies(s.segs[i], s'.segs[i], s.procs[q].pc);
    }
  }

  lemma StepKeepsDelivery(s: Channel, p: Pid, junk: Word, s': Channel)
    requires TokenInv(s) && DeliveryInv(s) && p in s.procs && ProcStep(s, p, junk, s')
    ensures DeliveryInv(s')
  {
    StepFrame(s, p, junk, s');
    OwnStepDelivers(s, p, junk, s');
    forall q | q in s'.procs && !s'.procs[q].pc.Idle?
      ensures s'.procs[q].pc.seg < |s'.segs| && ProcessOk(s'.segs[s'.procs[q].pc.seg], s'.procs[q].pc)
    {
      if q != p { OtherStaysOk(s, p, junk, s', q); }
    }
  }

  /** Forcing and attaching touch the futexes only, and only ever lock them. */
  lemma OutsideKeepsDelivery(s: Channel, e: Event, s': Channel)
    requires DeliveryInv(s) && (e.Force? || e.Attach?) && Next(s, e, s')
    ensures DeliveryInv(s')
  {
    var i := e.seg;
    var g, g' := s.segs[i], s'.segs[i];
    assert g' == g.(rd := g'.rd, wr := g'.wr, lost := g'.lost);
    forall q | q in s'.procs && !s'.procs[q].pc.Idle?
      ensures ProcessOk(s'.segs[s'.procs[q].pc.seg], s'.procs[q].pc)
    {
      FutexesDoNotMatter(g, g', s.procs[q].pc);
    }
  }

  lemma FutexesDoNotMatter(g: Segment, g': Segment, pc: Pc)
    requires g' == g.(rd := g'.rd, wr := g'.wr, lost := g'.lost)
    ensures ProcessOk(g, pc) == ProcessOk(g', pc)
  {
  }

  lemma CallKeepsDelivery(s: Channel, e: Event, s': Channel)
    requires DeliveryInv(s) && (e.CallRead? || e.CallWrite? || e.SetErrno?) && Next(s, e, s')
    ensures DeliveryInv(s')
  {
  }

  lemma NextKeepsDelivery(s: Channel, e: Event, s': Channel)
    requires TokenInv(s) && DeliveryInv(s) && Next(s, e, s')
    ensures DeliveryInv(s')
  {
    if e.Step? { StepKeepsDelivery(s, e.p, e.junk, s'); }
    else if e.Force? || e.Attach? { OutsideKeepsDelivery(s, e, s'); }
    else { CallKeepsDelivery(s, e, s'); }
  }

  ghost predicate DeliveryAt(r: Trace, k: nat) { k < |r.states| && DeliveryInv(r.states[k]) }

  lemma DeliveryStep(r: Trace, k: nat)
    requires IsRun(r) && k < |r.events| && DeliveryAt(r, k)
    ensures DeliveryAt(r, k + 1)
  {
    TokensOverRun(r, k);
    NextKeepsDelivery(r.states[k], r.events[k], r.states[k + 1]);
  }

  lemma DeliveryOverRun(r: Trace, k: nat)
    requires IsRun(r) && k < |r.states|
    ensures DeliveryInv(r.states[k])
  {
    ghost var p := (m: nat) => DeliveryAt(r, m);
    forall m | 0 <= m < k
      ensures Carries(p, m)
    {
      if p(m) { DeliveryStep(r, m); }
    }
    CarriedOver(p, 0, k);
  }

  /** Faithful delivery: for any interleaving of word steps by any number of processes, and
      whatever the clears leave behind, the k-th completed read of a segment agrees with
      the k-th completed write as far as both go; if they have the same length, it is
      that write, word for word, and never a mix of two. */
  lemma FaithfulDelivery(r: Trace, m: nat, i: nat, k: nat)
    requires IsRun(r) && m < |r.states| && i < |r.states[m].segs| && k < |r.states[m].segs[i].received|
    ensures var g := r.states[m].segs[i];
            && k < |g.sent| && Agree(g.received[k], g.sent[k])
            && (|g.received[k]| == |g.sent[k]| ==> g.received[k] == g.sent[k])
  {
    DeliveryOverRun(r, m);
  }

  /** Writes and reads of a segment alternate, a write first. */
  lemma WritesAndReadsAlternate(r: Trace, m: nat, i: nat)
    requires IsRun(r) && m < |r.states| && i < |r.states[m].segs|
    ensures var g := r.states[m].segs[i]; |g.received| <= |g.sent| <= |g.received| + 1
  {
    DeliveryOverRun(r, m);
  }

  /** Where the token is tells what the segment holds: with the readers a message to be
      received, with the writers none. */
  lemma TokenTellsTurn(r: Trace, m: nat, i: nat)
    requires IsRun(r) && m < |r.states| && i < |r.states[m].segs| && r.states[m].segs[i].lost == 0
    ensures var s := r.states[m];
            (s.segs[i].rd == UNLOCK || Readers(s, i) != {}) <==> Full(s.segs[i])
  {
    DeliveryOverRun(r, m);
    OneTokenOrLost(r, m, i);
    var s := r.states[m];
    forall p | p in Readers(s, i) ensures Full(s.segs[i]) { assert ProcessOk(s.segs[i], s.procs[p].pc); }
    forall p | p in Writers(s, i) ensures !Full(s.segs[i]) { assert ProcessOk(s.segs[i], s.procs[p].pc); }
    if s.segs[i].rd != UNLOCK && Readers(s, i) == {} && s.segs[i].wr != UNLOCK {
      assert |Writers(s, i)| == 1;
      var p :| p in Writers(s, i);
    }
    if Readers(s, i) != {} { var p :| p in Readers(s, i); }
  }
}
