/** The memory layout made by udo_jpool_create: where in the mapping the control words and
    the data region of each queue lie, in the machine's unsigned arithmetic. */
module JobPoolLayout {
  import opened Arithmetic
  import opened Macros
  import opened Options
  import opened Words

  /** Byte offsets from the start of the mapping; the first four bytes are cur_thread. */
  datatype QueueLayout = QueueLayout(jobFree: nat, jobCount: nat, front: nat, rear: nat, data: nat, size: nat)

  /** `mapped` is the length asked of mmap, `queueSz` the 32-bit field that keeps it. */
  datatype Layout = Layout(mapped: nat, queueSz: nat, queues: seq<QueueLayout>)

  const THREADS_MAX: nat := 512

  predicate Accepted(size: nat, count: nat) {
    size != 0 && count != 0 && count < THREADS_MAX
  }

  /** Offset of the first data region: behind cur_thread, of four bytes, and the four
      control words of each queue. */
  function DataStart(count: nat): nat {
    4 + 16 * count
  }

  lemma Pow2Of64()
    ensures Pow2(64) == 0x1_0000_0000_0000_0000 && Pow2(12) == 4096
  {
    assert Pow2(8) == 256;
    Pow2Sum(8, 8);
    Pow2Sum(16, 16);
    Pow2Sum(32, 32);
    PageSizeIsPow2();
  }

  lemma {:induction false} Pow2Sum(j: nat, k: nat)
    ensures Pow2(j + k) == Pow2(j) * Pow2(k)
  {
    if k > 0 { Pow2Sum(j, k - 1); }
  }

  /** UDO_BYTE_ALIGN(need, UDO_PAGE_SIZE) in size_t arithmetic, for the `need` bytes of
      control words and data regions. */
  function PageRound(need: nat): nat {
    Pow2Of64();
    ByteAlign(64, U64(need), PAGE_SHIFT)
  }

  function Need(size: nat, count: nat): nat {
    DataStart(count) + size * count
  }

  /** futex_info.size. */
  function MappedSize(size: nat, count: nat): nat {
    PageRound(Need(size, count))
  }

  /** queue_sz - data_off, in 32-bit arithmetic. */
  function DataBytes(mapped: nat, start: nat): nat
    requires start <= 0x1_0000_0000
  {
    U32(U32(mapped) + 0x1_0000_0000 - start)
  }

  /** ... divided by thread_count. */
  function RegionSize(size: nat, count: nat): nat
    requires Accepted(size, count)
  {
    Quotient(DataBytes(MappedSize(size, count), DataStart(count)), count)
  }

  /** The place of queue `t` of `count` if regions have `regionSz` bytes. */
  function Place(count: nat, regionSz: nat, t: nat): QueueLayout {
    var o := 4 + 16 * t;
    QueueLayout(o, o + 4, o + 8, o + 12, U32(Offset(DataStart(count), regionSz, t)), regionSz)
  }

  /** What the loop is to give queue `t`. */
  function QueueSpec(size: nat, count: nat, t: nat): QueueLayout
    requires Accepted(size, count)
  {
    Place(count, RegionSize(size, count), t)
  }

  /** The queues are at their places. */
  ghost predicate InPlace(queues: seq<QueueLayout>, count: nat, regionSz: nat) {
    forall u :: 0 <= u < |queues| ==> queues[u] == Place(count, regionSz, u)
  }

  /** The loop of udo_jpool_create. */
  method LayOut(count: nat, regionSz: nat) returns (queues: seq<QueueLayout>)
    requires count < THREADS_MAX
    ensures |queues| == count && InPlace(queues, count, regionSz)
  {
    var offset := 4;
    var dataOff := offset + 16 * count;
    queues := [];
    var t := 0;
    U32Fits(dataOff);
    while t < count
      invariant t <= count && |queues| == t
      invariant offset == 4 + 16 * t
      invariant dataOff == U32(Offset(DataStart(count), regionSz, t))
      invariant InPlace(queues, count, regionSz)
    {
      queues := queues + [QueueLayout(offset, offset + 4, offset + 8, offset + 12, dataOff, regionSz)];
      U32Offset(DataStart(count), regionSz, t);
      dataOff := U32(dataOff + regionSz);
      offset := offset + 16;
      t := t + 1;
    }
  }

  /** udo_jpool_create up to starting the threads; `mmapOk` is whether mmap succeeds. */
  method Create(size: nat, count: nat, mmapOk: bool) returns (r: Option<Layout>)
    requires size < SIZE_LIMIT && count < WORD
    ensures r.Some? <==> Accepted(size, count) && MappedSize(size, count) != 0 && mmapOk
    ensures r.Some? ==>
              && r.value.mapped == MappedSize(size, count) && r.value.queueSz == U32(MappedSize(size, count))
              && |r.value.queues| == count && InPlace(r.value.queues, count, RegionSize(size, count))
  {
    if size == 0 || count == 0 || count >= THREADS_MAX {
      return None;
    }
    var mapped := MappedSize(size, count);
    if mapped == 0 || !mmapOk {
      return None;
    }
    var queues := LayOut(count, Quotient(DataBytes(mapped, DataStart(count)), count));
    r := Some(Layout(mapped, U32(mapped), queues));
  }

  /** The size the mapping should have, in unbounded arithmetic: the data regions asked
      for and what precedes them, rounded up to whole pages. */
  function IdealSize(size: nat, count: nat): nat {
    PageUp(Need(size, count))
  }

  lemma PageRoundIsIdeal(need: nat)
    requires need + 4095 < 0x1_0000_0000_0000_0000
    ensures PageRound(need) == PageUp(need)
    ensures need <= PageRound(need) < need + 4096
  {
    Pow2Of64();
    U64Fits(need);
    PageAlign(64, need);
    PageUpBounds(need);
  }

  lemma DivAtLeast(x: nat, count: nat, size: nat)
    requires count > 0
    ensures Quotient(x, count) >= size <==> x >= size * count
  {
    DivModIdentity(x, count);
    if x / count >= size { MulMono(size, x / count, count); }
    else { MulMono(x / count + 1, size, count); Distribute(x / count, -1, count); }
  }

  /** The 32-bit subtraction is exact when the difference fits, and short by 4 GiB or more
      when it does not. */
  lemma DataBytesExact(m: nat, start: nat)
    requires start <= m && start < 0x1_0000
    ensures m - start < 0x1_0000_0000 ==> DataBytes(m, start) == m - start
    ensures m - start >= 0x1_0000_0000 ==> DataBytes(m, start) <= m - start - 0x1_0000_0000
  {
  }

  lemma SmallNeedSuffices(need: nat, start: nat)
    requires start < 0x1_0000 && start <= need && need + 4095 < 0x1_0000_0000_0000_0000
    ensures DataBytes(PageRound(need), start) >= need - start <==> PageUp(need) - start < 0x1_0000_0000
  {
    PageRoundIsIdeal(need);
    PageUpBounds(need);
    var m := PageRound(need);
    DataBytesExact(m, start);
  }

  lemma HugeNeedFails(need: nat, start: nat)
    requires start < 0x1_0000 && need + 4095 >= 0x1_0000_0000_0000_0000
    ensures DataBytes(PageRound(need), start) < need - start && PageUp(need) - start >= 0x1_0000_0000
  {
    U32Turn(U32(PageRound(need)) + 0x1_0000_0000 - start);
    PageUpBounds(need);
  }

  /** The bytes left for the data regions cover what was asked for if and only if the true
      difference fits 32 bits. */
  lemma NeedSuffices(need: nat, start: nat, count: nat, size: nat)
    requires count > 0 && start < 0x1_0000 && need == start + size * count
    ensures Quotient(DataBytes(PageRound(need), start), count) >= size
       <==> PageUp(need) - start < 0x1_0000_0000
  {
    MulNonNegative(size, count);
    if need + 4095 < 0x1_0000_0000_0000_0000 { SmallNeedSuffices(need, start); } else { HugeNeedFails(need, start); }
    DivAtLeast(DataBytes(PageRound(need), start), count, size);
  }

  /** Each queue gets at least the size its caller asked for if and only if the data
      regions with their padding take less than 4 GiB. */
  lemma RegionIsLargeEnough(size: nat, count: nat)
    requires Accepted(size, count)
    ensures RegionSize(size, count) >= size <==> IdealSize(size, count) - DataStart(count) < 0x1_0000_0000
  {
    NeedSuffices(Need(size, count), DataStart(count), count, size);
  }

  /** One queue of 4 GiB does not: its region has fewer bytes than asked for. */
  lemma HugeQueueIsTooSmall()
    ensures Accepted(0x1_0000_0000, 1) && RegionSize(0x1_0000_0000, 1) < 0x1_0000_0000
  {
    assert Need(0x1_0000_0000, 1) == 0x1_0000_0000 + 20;
    PageUpBounds(Need(0x1_0000_0000, 1));
    RegionIsLargeEnough(0x1_0000_0000, 1);
  }

  /** All of the layout of queue `t` lies inside the mapping, control words first. */
  ghost predicate Placed(q: QueueLayout, count: nat, mapped: nat) {
    && 4 <= q.jobFree && q.jobCount == q.jobFree + 4 && q.front == q.jobCount + 4 && q.rear == q.front + 4
    && q.rear + 4 <= DataStart(count) <= q.data && q.data + q.size <= mapped
  }

  /** The end of the data regions: the mapping's size modulo 2^32, or that size and 2^32 if
      the 32-bit subtraction borrows. */
  lemma DataEnd(m: nat, start: nat)
    requires start <= m && start < WORD
    ensures var u, bytes := U32(m), DataBytes(m, start);
            && u < WORD
            && (u >= start ==> bytes == u - start && u <= m)
            && (u < start ==> bytes == u + WORD - start && u + WORD <= m)
  {
    var u := U32(m);
    U32Turn(m);
    DivModIdentity(m, 0x1_0000_0000);
    if u >= start { U32Turn(u - start); U32Fits(u - start); } else { U32Fits(u + WORD - start); }
  }

  /** No region starts at or beyond 2^32. */
  lemma RegionStartFits(m: nat, count: nat, t: nat)
    requires 0 < count < THREADS_MAX && DataStart(count) <= m && t < count
    ensures var q := Quotient(DataBytes(m, DataStart(count)), count);
            Offset(DataStart(count), q, t) < WORD && Offset(DataStart(count), q, t) + q <= m
  {
    var start := DataStart(count);
    var bytes := DataBytes(m, start);
    DataEnd(m, start);
    PieceFits(start, bytes, count, t);
    if U32(m) < start { DivAtLeast(bytes, count, 8192); }
    else if U32(m) >= start { assert Offset(start, Quotient(bytes, count), t) <= U32(m); }
  }

  lemma QueueIsPlaced(size: nat, count: nat, t: nat)
    requires Accepted(size, count) && DataStart(count) <= MappedSize(size, count) && t < count
    ensures var q := QueueSpec(size, count, t);
            Placed(q, count, MappedSize(size, count)) && q.data == Offset(DataStart(count), q.size, t)
  {
    var q := RegionSize(size, count);
    RegionStartFits(MappedSize(size, count), count, t);
    U32Fits(Offset(DataStart(count), q, t));
    OffsetsInOrder(DataStart(count), q, t, t + 1);
  }

  /** Control words and regions of all queues lie inside the mapping if and only if it has
      room for the control words, whatever its size. */
  lemma LayoutFitsExactly(size: nat, count: nat)
    requires Accepted(size, count)
    ensures (forall t :: 0 <= t < count ==> Placed(QueueSpec(size, count, t), count, MappedSize(size, count)))
       <==> DataStart(count) <= MappedSize(size, count)
  {
    if DataStart(count) <= MappedSize(size, count) {
      forall t | 0 <= t < count
        ensures Placed(QueueSpec(size, count, t), count, MappedSize(size, count))
      {
        QueueIsPlaced(size, count, t);
      }
    } else {
      assert !Placed(QueueSpec(size, count, 0), count, MappedSize(size, count));
    }
  }

  lemma SmallMappingBytes(m: nat, start: nat)
    requires start <= m < WORD
    ensures DataBytes(m, start) == m - start
  {
    U32Fits(m);
    DataEnd(m, start);
  }

  lemma RegionSizeExact(size: nat, count: nat)
    requires Accepted(size, count) && DataStart(count) <= MappedSize(size, count) < WORD
    ensures RegionSize(size, count) == Quotient(MappedSize(size, count) - DataStart(count), count)
  {
    SmallMappingBytes(MappedSize(size, count), DataStart(count));
  }

  /** The regions use up a mapping of less than 4 GiB, but for fewer bytes than there are queues. */
  lemma RegionsFillMapping(size: nat, count: nat)
    requires Accepted(size, count) && DataStart(count) <= MappedSize(size, count) < WORD
    ensures var q, m := QueueSpec(size, count, count - 1), MappedSize(size, count);
            q.data + q.size <= m < q.data + q.size + count
  {
    RegionSizeExact(size, count);
    QueueIsPlaced(size, count, count - 1);
    var q := QueueSpec(size, count, count - 1);
    LastPieceFills(DataStart(count), MappedSize(size, count), count, q.size, q.data);
  }

  lemma LastPieceFills(start: nat, m: nat, count: nat, size: nat, data: nat)
    requires count > 0 && start <= m && size == Quotient(m - start, count) && data == Offset(start, size, count - 1)
    ensures data + size <= m < data + size + count
  {
    PiecesFill(start, m - start, count);
  }

  /** It has, unless the size computed for the mapping wraps size_t. */
  lemma MappingHoldsControlWords(size: nat, count: nat)
    requires Accepted(size, count) && Need(size, count) + 4095 < SIZE_LIMIT
    ensures DataStart(count) <= Need(size, count) <= MappedSize(size, count) == IdealSize(size, count)
  {
    MulNonNegative(size, count);
    PageRoundIsIdeal(Need(size, count));
  }

  /** Then cur_thread, the control words of all queues and their data regions are also
      pairwise disjoint. */
  lemma LayoutIsDisjoint(size: nat, count: nat, t: nat, u: nat)
    requires Accepted(size, count) && DataStart(count) <= MappedSize(size, count) && t < u < count
    ensures var a, b, m := QueueSpec(size, count, t), QueueSpec(size, count, u), MappedSize(size, count);
            && Placed(a, count, m) && Placed(b, count, m)
            && a.rear + 4 <= b.jobFree && a.data + a.size <= b.data
  {
    QueueIsPlaced(size, count, t);
    QueueIsPlaced(size, count, u);
    OffsetsInOrder(DataStart(count), RegionSize(size, count), t, u);
  }
}
