/** p_shm_create of src/shm.c: the layout of the shared mapping and the initialisation of
    its futexes, by every process that attaches. */
module ShmLayout {
  import opened Arithmetic
  import opened Options
  import opened Words
  import Futex

  const SHM_PROC_MAX: nat := 16

  /** Byte offsets of a process's futexes and data segment, and the segment's size. */
  datatype ProcLayout = ProcLayout(rd: nat, wr: nat, data: nat, size: nat)

  /** The length of a mapping in 32-bit words; mappings are made of whole pages. */
  function MappedWords(shmSize: nat): nat {
    PageUp(shmSize) / 4
  }

  /** The words of the mapping cover the size asked for, and less than a page more. */
  lemma MappingCoversSize(shmSize: nat)
    ensures shmSize <= 4 * MappedWords(shmSize) < shmSize + 4096
  {
    PageUpBounds(shmSize);
    assert PageUp(shmSize) == 4 * ((shmSize + 4095) / 4096 * 1024);
  }

  /** Offset of the first data segment: behind the process counter and all futexes. */
  function DataStart(procCount: nat): nat {
    4 + 8 * procCount
  }

  /** (shm->data_sz - data_off) / proc_count, in size_t arithmetic. */
  function SegmentSize(shmSize: nat, procCount: nat): nat
    requires 0 < procCount < SHM_PROC_MAX
  {
    Quotient(U64(shmSize + 0x1_0000_0000_0000_0000 - DataStart(procCount)), procCount)
  }

  function ProcSpec(shmSize: nat, procCount: nat, p: nat): ProcLayout
    requires 0 < procCount < SHM_PROC_MAX
  {
    var size := SegmentSize(shmSize, procCount);
    ProcLayout(4 + 8 * p, 8 + 8 * p, U64(Offset(DataStart(procCount), size, p)), size)
  }

  /** The compare-and-swap on a read futex: an unlocked one becomes locked. */
  function LockIfUnlocked(word: nat): nat {
    if word == Futex.UNLOCK then Futex.LOCK else word
  }

  /** The futexes after `p` rounds, next to what they were before: unlocked read futexes have
      become locked, and nothing else has changed. */
  ghost predicate FutexesDone(now: seq<nat>, before: seq<nat>, p: nat) {
    && |now| == |before| && 2 * p < |now|
    && (forall j :: 0 < j <= 2 * p ==> now[j] == if j % 2 == 1 && before[j] == Futex.UNLOCK then Futex.LOCK else before[j])
    && (forall j :: 2 * p < j < |now| ==> now[j] == before[j])
  }

  lemma NextFutexes(now: seq<nat>, was: seq<nat>, before: seq<nat>, p: nat)
    requires FutexesDone(was, before, p) && 2 * p + 2 < |was|
    requires now == was[2 * p + 1 := LockIfUnlocked(was[2 * p + 1])]
    ensures FutexesDone(now, before, p + 1)
  {
  }

  /** The two compare-and-swaps on the futexes at word `f`; the second changes nothing. */
  method InitFutexes(mem: array<nat>, f: nat)
    requires f + 1 < mem.Length
    modifies mem
    ensures mem[..] == old(mem[..])[f := LockIfUnlocked(old(mem[f]))]
  {
    if mem[f] == Futex.UNLOCK {
      mem[f] := Futex.LOCK;
    }
    if mem[f + 1] == Futex.UNLOCK {
      mem[f + 1] := Futex.UNLOCK;
    }
  }

  /** `mem` is the mapping that mmap gave, word by word: word 0 counts processes, words 2p + 1
      and 2p + 2 are the read and write futex of process p.  `ioOk` is whether the name is
      well-formed and shm_open and ftruncate succeed. */
  method Attach(mem: array<nat>, shmSize: nat, procCount: nat, ioOk: bool) returns (r: Option<seq<ProcLayout>>)
    requires shmSize < SIZE_LIMIT && procCount < WORD
    requires mem.Length == MappedWords(shmSize)
    modifies mem
    ensures r.Some? <==> 0 < procCount < SHM_PROC_MAX && shmSize != 0 && ioOk && old(mem[0]) < procCount
    ensures r.None? ==> mem[..] == old(mem[..])
    ensures r.Some? ==>
              && |r.value| == procCount
              && (forall p :: 0 <= p < procCount ==> r.value[p] == ProcSpec(shmSize, procCount, p))
    ensures r.Some? ==>
              && mem[0] == old(mem[0]) + 1
              && FutexesDone(mem[..], old(mem[..]), procCount)
    ensures r.Some? && (forall j :: 0 <= j < mem.Length ==> old(mem[j]) == 0) ==>
              Initialised(mem[..], r.value)
  {
    if procCount == 0 || procCount >= SHM_PROC_MAX || shmSize == 0 || !ioOk {
      return None;
    }
    if mem[0] >= procCount {
      return None;
    }
    ghost var before := mem[..];
    mem[0] := mem[0] + 1;
    var fuxOff, dataOff := 4, 4 + 8 * procCount;
    var segmentSz := Quotient(U64(shmSize + 0x1_0000_0000_0000_0000 - dataOff), procCount);
    var procs: seq<ProcLayout> := [];
    var p := 0;
    U64Fits(dataOff);
    while p < procCount
      invariant p <= procCount && |procs| == p && fuxOff == 4 + 8 * p
      invariant dataOff == U64(Offset(DataStart(procCount), segmentSz, p))
      invariant forall q :: 0 <= q < p ==> procs[q] == ProcSpec(shmSize, procCount, q)
      invariant mem[0] == old(mem[0]) + 1 && FutexesDone(mem[..], before, p)
    {
      procs := procs + [ProcLayout(fuxOff, fuxOff + 4, dataOff, segmentSz)];
      ghost var was := mem[..];
      InitFutexes(mem, fuxOff / 4);
      NextFutexes(mem[..], was, before, p);
      U64Offset(DataStart(procCount), segmentSz, p);
      dataOff := U64(dataOff + segmentSz);
      fuxOff := fuxOff + 8;
      p := p + 1;
    }
    r := Some(procs);
    FirstAttachAll(mem[..], before, procs, shmSize, procCount);
  }

  /** Every read futex is locked, every write futex unlocked. */
  ghost predicate Initialised(mem: seq<nat>, procs: seq<ProcLayout>) {
    forall p :: 0 <= p < |procs| ==>
      && procs[p].rd / 4 < |mem| && procs[p].wr / 4 < |mem|
      && mem[procs[p].rd / 4] == Futex.LOCK && mem[procs[p].wr / 4] == Futex.UNLOCK
  }

  lemma FirstAttachAll(now: seq<nat>, before: seq<nat>, procs: seq<ProcLayout>, shmSize: nat, procCount: nat)
    requires 0 < procCount < SHM_PROC_MAX && FutexesDone(now, before, procCount)
    requires |procs| == procCount && forall q :: 0 <= q < procCount ==> procs[q] == ProcSpec(shmSize, procCount, q)
    ensures (forall j :: 0 <= j < |before| ==> before[j] == 0) ==> Initialised(now, procs)
  {
    if forall j :: 0 <= j < |before| ==> before[j] == 0 {
      forall p | 0 <= p < procCount
        ensures procs[p].rd / 4 < |now| && procs[p].wr / 4 < |now|
        ensures now[procs[p].rd / 4] == Futex.LOCK && now[procs[p].wr / 4] == Futex.UNLOCK
      {
        FirstAttach(now, before, procs, shmSize, procCount, p);
      }
    }
  }

  /** On fresh memory the first attach leaves every read futex locked and every write futex
      unlocked, at the places it returns. */
  lemma FirstAttach(now: seq<nat>, before: seq<nat>, procs: seq<ProcLayout>, shmSize: nat, procCount: nat, p: nat)
    requires 0 < procCount < SHM_PROC_MAX && FutexesDone(now, before, procCount) && p < procCount
    requires |procs| == procCount && forall q :: 0 <= q < procCount ==> procs[q] == ProcSpec(shmSize, procCount, q)
    requires forall j :: 0 <= j < |before| ==> before[j] == 0
    ensures procs[p].rd / 4 < |now| && procs[p].wr / 4 < |now|
    ensures now[procs[p].rd / 4] == Futex.LOCK && now[procs[p].wr / 4] == Futex.UNLOCK
  {
    FutexWords(shmSize, procCount, p);
  }

  lemma FutexWords(shmSize: nat, procCount: nat, p: nat)
    requires 0 < procCount < SHM_PROC_MAX
    ensures ProcSpec(shmSize, procCount, p).rd / 4 == 2 * p + 1 && ProcSpec(shmSize, procCount, p).wr / 4 == 2 * p + 2
  {
  }

  /** What belongs to process `p` lies inside a mapping of `shmSize` bytes. */
  ghost predicate Inside(q: ProcLayout, shmSize: nat) {
    q.rd + 4 <= shmSize && q.wr + 4 <= shmSize && q.data + q.size <= shmSize
  }

  /** Futexes and data segments all lie inside the mapping if and only if the mapping has
      room for the counter and the futexes. */
  lemma LayoutFitsExactly(shmSize: nat, procCount: nat)
    requires 0 < procCount < SHM_PROC_MAX && shmSize < SIZE_LIMIT
    ensures (forall p :: 0 <= p < procCount ==> Inside(ProcSpec(shmSize, procCount, p), shmSize))
       <==> DataStart(procCount) <= shmSize
  {
    if DataStart(procCount) <= shmSize {
      forall p | 0 <= p < procCount
        ensures Inside(ProcSpec(shmSize, procCount, p), shmSize)
      {
        SegmentPlace(shmSize, procCount, p);
      }
    } else {
      assert ProcSpec(shmSize, procCount, procCount - 1).wr + 4 == DataStart(procCount);
    }
  }

  lemma SegmentSizeExact(shmSize: nat, procCount: nat)
    requires 0 < procCount < SHM_PROC_MAX && DataStart(procCount) <= shmSize < SIZE_LIMIT
    ensures SegmentSize(shmSize, procCount) == Quotient(shmSize - DataStart(procCount), procCount)
  {
    U64Turn(shmSize - DataStart(procCount));
    U64Fits(shmSize - DataStart(procCount));
  }

  /** Segment `p` starts `p` segment sizes behind the futexes, without wrap-around. */
  lemma SegmentPlace(shmSize: nat, procCount: nat, p: nat)
    requires 0 < procCount < SHM_PROC_MAX && DataStart(procCount) <= shmSize < SIZE_LIMIT && p < procCount
    ensures Inside(ProcSpec(shmSize, procCount, p), shmSize)
    ensures var q := ProcSpec(shmSize, procCount, p);
            q.data == Offset(DataStart(procCount), q.size, p) && DataStart(procCount) <= q.data
  {
    SegmentSizeExact(shmSize, procCount);
    PieceFits(DataStart(procCount), shmSize - DataStart(procCount), procCount, p);
    U64Fits(Offset(DataStart(procCount), SegmentSize(shmSize, procCount), p));
  }

  /** The segments use up the mapping, but for fewer bytes than there are processes. */
  lemma SegmentsFillMapping(shmSize: nat, procCount: nat)
    requires 0 < procCount < SHM_PROC_MAX && DataStart(procCount) <= shmSize < SIZE_LIMIT
    ensures var q := ProcSpec(shmSize, procCount, procCount - 1);
            q.data + q.size <= shmSize < q.data + q.size + procCount
  {
    var bytes := shmSize - DataStart(procCount);
    SegmentSizeExact(shmSize, procCount);
    SegmentPlace(shmSize, procCount, procCount - 1);
    PiecesFill(DataStart(procCount), bytes, procCount);
  }

  /** Then the counter, the futexes of all processes and their data segments are also
      pairwise disjoint. */
  lemma LayoutIsDisjoint(shmSize: nat, procCount: nat, p: nat, u: nat)
    requires 0 < procCount < SHM_PROC_MAX && DataStart(procCount) <= shmSize < SIZE_LIMIT
    requires p <= u < procCount
    ensures var a, b := ProcSpec(shmSize, procCount, p), ProcSpec(shmSize, procCount, u);
            && 4 <= a.rd && a.rd + 4 <= a.wr && b.rd + 4 <= b.wr && b.wr + 4 <= DataStart(procCount) <= a.data
            && b.data + b.size <= shmSize
            && (p < u ==> a.wr + 4 <= b.rd && a.data + a.size <= b.data)
  {
    SegmentPlace(shmSize, procCount, p);
    SegmentPlace(shmSize, procCount, u);
    if p < u { OffsetsInOrder(DataStart(procCount), SegmentSize(shmSize, procCount), p, u); }
  }
}
