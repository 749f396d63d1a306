/** The job pool in its memory: the slots its threads touch, at their places in the mapping. */
module JobPoolMemory {
  import opened JobPool
  import opened JobPoolQueue
  import opened JobPoolTheorems
  import opened JobPoolLayout
  import opened Words

  /** The pool was made with `size` bytes for each of `count` queues. */
  ghost predicate MadeWith(s: Pool, size: nat, count: nat) {
    && Accepted(size, count) && DataStart(count) <= MappedSize(size, count)
    && |s.queues| == count
    && forall t :: 0 <= t < count ==> s.queues[t].size == QueueSpec(size, count, t).size
  }

  /** The queue in a region of zeros. */
  function ZeroedQueue(q: QueueLayout): Queue {
    Queue(q.size, 0, 0, 0, 0, seq(Index(q.size), i => CLEARED), CanLoop, [])
  }

  /** The pool that has the queues laid out by udo_jpool_create, in zeroed memory. */
  function MadeFrom(queues: seq<QueueLayout>): Pool {
    Pool(seq(|queues|, t requires 0 <= t < |queues| => ZeroedQueue(queues[t])), 0, Idle, [])
  }

  lemma RegionSizeIsWord(size: nat, count: nat)
    requires Accepted(size, count)
    ensures RegionSize(size, count) < WORD
  {
    var m, start := MappedSize(size, count), DataStart(count);
    U32Turn(U32(m) + WORD - start);
    PieceFits(0, DataBytes(m, start), count, 0);
  }

  /** What udo_jpool_create returns, in zeroed memory, is an initial pool, and its regions
      have room for a job if and only if RegionSize says so. */
  lemma CreatedPoolIsInitial(size: nat, count: nat, queues: seq<QueueLayout>)
    requires Accepted(size, count) && DataStart(count) <= MappedSize(size, count)
    requires |queues| == count && InPlace(queues, count, RegionSize(size, count))
    ensures Init(MadeFrom(queues)) && MadeWith(MadeFrom(queues), size, count)
    ensures Roomy(MadeFrom(queues)) <==> JOB_SIZE <= RegionSize(size, count)
  {
    RegionSizeIsWord(size, count);
    var s := MadeFrom(queues);
    forall t | 0 <= t < count
      ensures Fresh(s.queues[t]) && s.queues[t].size == RegionSize(size, count)
    {
      assert s.queues[t] == ZeroedQueue(queues[t]);
    }
    assert s.queues[0].size == RegionSize(size, count);
  }

  lemma NextKeepsSizes(s: Pool, e: Event, s': Pool, t: nat)
    requires Next(s, e, s') && t < |s.queues|
    ensures |s'.queues| == |s.queues| && s'.queues[t].size == s.queues[t].size
  {
  }

  lemma {:induction false} SizeStays(r: Trace, i: nat, t: nat)
    requires IsRun(r) && i < |r.states| && t < |r.states[0].queues|
    ensures |r.states[i].queues| == |r.states[0].queues| && QueueAt(r, i, t).size == QueueAt(r, 0, t).size
  {
    if i > 0 {
      SizeStays(r, i - 1, t);
      NextKeepsSizes(r.states[i - 1], r.events[i - 1], r.states[i], t);
    }
  }

  /** The slot at byte `off` of region `q`. */
  predicate SlotInside(q: QueueLayout, off: nat, mapped: nat) {
    q.data + off + JOB_SIZE <= q.data + q.size <= mapped
  }

  /** Regions `a` and `b` have no byte in common. */
  predicate Apart(a: QueueLayout, b: QueueLayout) {
    a.data + a.size <= b.data || b.data + b.size <= a.data
  }

  /** Each slot in use by the worker of queue `t`, or by the submitter on it, lies in that
      queue's region of the mapping and in no other's. */
  ghost predicate OwnSlots(s: Pool, t: nat, size: nat, count: nat)
    requires Accepted(size, count) && t < |s.queues|
  {
    var a, m := QueueSpec(size, count, t), MappedSize(size, count);
    && (InSlot(s.queues[t].pc) ==> SlotInside(a, s.queues[t].pc.off, m))
    && ((s.sub.StoreFunc? || s.sub.StoreArg?) && s.sub.t == t ==> SlotInside(a, s.sub.off, m))
    && forall u {:trigger QueueSpec(size, count, u)} :: 0 <= u < count && u != t ==> Apart(a, QueueSpec(size, count, u))
  }

  lemma SlotsStayInOwnRegion(r: Trace, i: nat, t: nat, size: nat, count: nat)
    requires CleanRun(r) && i < |r.states| && MadeWith(r.states[0], size, count) && t < |r.states[i].queues|
    ensures OwnSlots(r.states[i], t, size, count)
  {
    SizeStays(r, i, 0);
    SizeStays(r, i, t);
    AccessesStayInRegion(r, i, t);
    QueueIsPlaced(size, count, t);
    forall u | 0 <= u < count && u != t
      ensures Apart(QueueSpec(size, count, t), QueueSpec(size, count, u))
    {
      if t < u { LayoutIsDisjoint(size, count, t, u); } else { LayoutIsDisjoint(size, count, u, t); }
    }
  }

  /** If `r` is a run of a pool made so, without a mishap, all slots in use stay in their own
      regions. */
  ghost predicate SafeRun(r: Trace, size: nat, count: nat)
    requires Accepted(size, count)
  {
    IsRun(r) && CleanEvents(r) && MadeWith(r.states[0], size, count) ==>
      forall i, t: nat :: 0 <= i < |r.states| && t < |r.states[i].queues| ==> OwnSlots(r.states[i], t, size, count)
  }

  /** That is so for every run if and only if the regions have room for a job. */
  lemma SlotsAreSafeExactly(size: nat, count: nat)
    requires Accepted(size, count) && DataStart(count) <= MappedSize(size, count)
    ensures (forall r :: SafeRun(r, size, count)) <==> JOB_SIZE <= RegionSize(size, count)
  {
    if JOB_SIZE <= RegionSize(size, count) {
      forall r
        ensures SafeRun(r, size, count)
      {
        RoomyRunIsSafe(r, size, count);
      }
    } else {
      var r := SmallRegionRun(size, count);
    }
  }

  lemma RoomyRunIsSafe(r: Trace, size: nat, count: nat)
    requires Accepted(size, count) && JOB_SIZE <= RegionSize(size, count)
    ensures SafeRun(r, size, count)
  {
    if IsRun(r) && CleanEvents(r) && MadeWith(r.states[0], size, count) {
      forall i, t: nat | 0 <= i < |r.states| && t < |r.states[i].queues|
        ensures OwnSlots(r.states[i], t, size, count)
      {
        SlotsStayInOwnRegion(r, i, t, size, count);
      }
    }
  }

  /** The pool `s` after the first three steps of submitting a job to it. */
  function Submitted(s: Pool, sub: SubmitterPc, rear: nat): Pool
    requires |s.queues| > 0
  {
    Pool(s.queues[0 := s.queues[0].(rear := rear)], 1 % |s.queues|, sub, [Job(1, 1)])
  }

  lemma SubmitSteps(s: Pool)
    requires Init(s) && s.queues[0].size < JOB_SIZE
    ensures Next(s, CallAdd(Job(1, 1)), Submitted(s, CheckFull(0, Job(1, 1)), 0))
    ensures Next(Submitted(s, CheckFull(0, Job(1, 1)), 0), Submitter, Submitted(s, Bump(0, Job(1, 1)), 0))
  {
    assert Fresh(s.queues[0]);
    assert s.queues[0 := s.queues[0].(rear := 0)] == s.queues;
    NeverFull(s.queues[0]);
  }

  lemma BumpStep(s: Pool)
    requires |s.queues| > 0
    ensures Next(Submitted(s, Bump(0, Job(1, 1)), 0), Submitter, Submitted(s, StoreFunc(0, Job(1, 1), 0), JOB_SIZE))
  {
    U32Fits(JOB_SIZE);
  }

  /** If they do not, the first job submitted is stored beyond its region: the test for a
      full queue subtracts the size of a job from a smaller number. */
  lemma SmallRegionRun(size: nat, count: nat) returns (r: Trace)
    requires Accepted(size, count) && DataStart(count) <= MappedSize(size, count) && RegionSize(size, count) < JOB_SIZE
    ensures !SafeRun(r, size, count)
  {
    var queues := seq(count, t requires 0 <= t < count => QueueSpec(size, count, t));
    CreatedPoolIsInitial(size, count, queues);
    var s0 := MadeFrom(queues);
    assert s0.queues[0].size == QueueSpec(size, count, 0).size;
    r := SubmittedRun(s0);
    StoredOutside(Last(r), size, count);
    assert r.states[3] == Last(r);
  }

  lemma SubmittedRun(s: Pool) returns (r: Trace)
    requires Init(s) && s.queues[0].size < JOB_SIZE
    ensures IsRun(r) && CleanEvents(r) && |r.states| == 4 && r.states[0] == s
    ensures |Last(r).queues| == |s.queues| && Last(r).sub == StoreFunc(0, Job(1, 1), 0)
  {
    SubmitSteps(s);
    BumpStep(s);
    r := Trace([s, Submitted(s, CheckFull(0, Job(1, 1)), 0), Submitted(s, Bump(0, Job(1, 1)), 0),
                Submitted(s, StoreFunc(0, Job(1, 1), 0), JOB_SIZE)],
               [CallAdd(Job(1, 1)), Submitter, Submitter]);
  }

  lemma StoredOutside(s: Pool, size: nat, count: nat)
    requires Accepted(size, count) && RegionSize(size, count) < JOB_SIZE
    requires |s.queues| > 0 && s.sub == StoreFunc(0, Job(1, 1), 0)
    ensures !OwnSlots(s, 0, size, count)
  {
  }

  lemma NeverFull(q: Queue)
    requires q.size < JOB_SIZE && q.rear < WORD
    ensures !Full(q)
  {
    U64Fits(q.size + SIZE_LIMIT - JOB_SIZE);
  }

  /** Such pools are made: one byte for each of 511 queues leaves them eight. */
  lemma SmallRegionsAreMade()
    ensures Accepted(1, 511) && DataStart(511) <= MappedSize(1, 511) && RegionSize(1, 511) == 8
  {
    MappingHoldsControlWords(1, 511);
    assert Need(1, 511) == 8691 && IdealSize(1, 511) == 12288;
    DataEnd(12288, 8180);
    U32Fits(12288);
  }
}
