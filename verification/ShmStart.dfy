/** The channel in its memory: what attaching makes of the words of the mapping is what the
    protocol starts from. */
module ShmStart {
  import opened ShmLayout
  import opened ShmChannel

  /** Cleared words. */
  function Cleared(n: nat): (r: seq<Word>)
    ensures |r| == n && forall k :: 0 <= k < n ==> r[k] == 0
  {
    seq(n, _ => 0)
  }

  /** The segment laid out at `q`, its futexes in the words of the mapping. */
  function SegmentAt(mem: seq<nat>, q: ProcLayout): Segment
    requires q.rd / 4 < |mem| && q.wr / 4 < |mem|
  {
    Segment(mem[q.rd / 4], mem[q.wr / 4], Cleared(q.size / 4), [], [], 0)
  }

  ghost predicate FutexesInside(mem: seq<nat>, procs: seq<ProcLayout>) {
    forall p :: 0 <= p < |procs| ==> procs[p].rd / 4 < |mem| && procs[p].wr / 4 < |mem|
  }

  function ChannelAt(mem: seq<nat>, procs: seq<ProcLayout>, users: map<Pid, Process>): Channel
    requires FutexesInside(mem, procs)
  {
    Channel(seq(|procs|, p requires 0 <= p < |procs| => SegmentAt(mem, procs[p])), users)
  }

  /** On fresh memory the first attach makes an initial channel. */
  lemma FirstAttachIsInitial(now: seq<nat>, before: seq<nat>, procs: seq<ProcLayout>, shmSize: nat, procCount: nat,
                             users: map<Pid, Process>)
    requires 0 < procCount < SHM_PROC_MAX && FutexesDone(now, before, procCount)
    requires |procs| == procCount && forall q :: 0 <= q < procCount ==> procs[q] == ProcSpec(shmSize, procCount, q)
    requires forall j :: 0 <= j < |before| ==> before[j] == 0
    requires forall p :: p in users ==> users[p].pc.Idle?
    ensures FutexesInside(now, procs) && Init(ChannelAt(now, procs, users))
  {
    FirstAttachAll(now, before, procs, shmSize, procCount);
  }

  lemma FutexesAreInside(mem: seq<nat>, procs: seq<ProcLayout>, shmSize: nat, procCount: nat)
    requires 0 < procCount < SHM_PROC_MAX && 2 * procCount < |mem|
    requires |procs| == procCount && forall q :: 0 <= q < procCount ==> procs[q] == ProcSpec(shmSize, procCount, q)
    ensures FutexesInside(mem, procs)
  {
    forall q | 0 <= q < procCount
      ensures procs[q].rd / 4 == 2 * q + 1 && procs[q].wr / 4 == 2 * q + 2
    {
      FutexWords(shmSize, procCount, q);
    }
  }

  /** A later attach does to each segment what the protocol's event does, the count of lost
      tokens aside: an unlocked read futex becomes locked, and nothing else changes. */
  lemma LaterAttachIsEvent(now: seq<nat>, before: seq<nat>, procs: seq<ProcLayout>, shmSize: nat, procCount: nat, p: nat,
                           s: Channel, s': Channel, i: nat)
    requires 0 < procCount < SHM_PROC_MAX && FutexesDone(now, before, procCount) && p < procCount
    requires |procs| == procCount && forall q :: 0 <= q < procCount ==> procs[q] == ProcSpec(shmSize, procCount, q)
    requires FutexesInside(before, procs) && i < |s.segs| && s.segs[i] == SegmentAt(before, procs[p])
    requires Next(s, Attach(i), s')
    ensures FutexesInside(now, procs) && i < |s'.segs| && s'.segs[i].(lost := 0) == SegmentAt(now, procs[p])
  {
    FutexesAreInside(now, procs, shmSize, procCount);
    FutexWords(shmSize, procCount, p);
    AttachedWords(now, before, procCount, p);
    AttachEvent(s, s', i);
  }

  lemma AttachedWords(now: seq<nat>, before: seq<nat>, procCount: nat, p: nat)
    requires FutexesDone(now, before, procCount) && p < procCount
    ensures 2 * p + 2 < |now| == |before|
    ensures now[2 * p + 1] == if before[2 * p + 1] == UNLOCK then LOCK else before[2 * p + 1]
    ensures now[2 * p + 2] == before[2 * p + 2]
  {
  }

  lemma AttachEvent(s: Channel, s': Channel, i: nat)
    requires i < |s.segs| && Next(s, Attach(i), s')
    ensures i < |s'.segs|
    ensures s'.segs[i].(lost := 0) == s.segs[i].(lost := 0, rd := if s.segs[i].rd == UNLOCK then LOCK else s.segs[i].rd)
  {
  }
}
