/** The bump allocator of src/mm.c: one mapping that holds the allocator's own header and
    then size-prefixed blocks, with growth and a compacting free.  It refines a list of
    byte strings, `blocks`. */
module MemoryMap {
  import opened ByteBlocks
  import opened Options
  import opened Words

  /** sizeof(struct udo_mm): the first block starts here. */
  const HEADER: nat := 552

  class Mapping {
    /** The mapping, in whole pages; its first HEADER bytes stand for the struct. */
    var buf: array<Byte>
    var buffSz: nat
    var dataSz: nat
    var abSz: nat
    var offset: nat
    /** The byte strings handed out since the last growth and not freed, in order. */
    ghost var blocks: seq<seq<Byte>>

    /** The running account of used and available bytes. */
    ghost predicate Accounted()
      reads this
    {
      && HEADER <= offset && buffSz < SIZE_LIMIT
      && buffSz <= buf.Length == PageUp(buffSz)
      && buffSz == HEADER + dataSz
      && abSz + (offset - HEADER) == dataSz
    }

    /** The bytes from the header to the offset are the blocks. */
    ghost predicate Valid()
      reads this, buf
    {
      Accounted() && Holds(buf[..], HEADER, offset, blocks)
    }

    /** Nothing has been written behind the offset. */
    ghost predicate RestClear()
      reads this, buf
    {
      ClearFrom(buf[..], offset)
    }

    /** The address udo_mm_sub_alloc returned for block `k`, as it is now. */
    ghost function Address(k: nat): nat
      requires k < |blocks|
      reads this
    {
      HEADER + Start(blocks, k) + PREFIX
    }

    /** udo_mm_alloc(NULL, size), when mmap succeeds.  The sum with the header can wrap. */
    constructor (size: nat)
      requires size < SIZE_LIMIT
      ensures fresh(buf) && blocks == [] && RestClear()
      ensures buffSz == U64(HEADER + size) && buf.Length == PageUp(buffSz)
      ensures dataSz == size && abSz == size && offset == HEADER
      ensures Valid() <==> HEADER + size < SIZE_LIMIT
    {
      var n := U64(HEADER + size);
      TotalSize(size);
      PageUpBounds(n);
      buf := new Byte[PageUp(n)](_ => 0);
      buffSz, dataSz, abSz, offset := n, Minus(n, HEADER), Minus(n, HEADER), HEADER;
      blocks := [];
    }

    /** udo_mm_alloc on an existing mapping; `mmapOk` is whether mmap succeeds if called.
        Growth copies every byte, and forgets the blocks.  The sum can wrap: as long as the
        copy stays inside the new mapping, the account then holds if there is room for the
        header. */
    method Alloc(size: nat, mmapOk: bool) returns (ok: bool)
      requires Accounted() && size < SIZE_LIMIT
      requires dataSz <= size && mmapOk ==> CopyInside(buffSz, size)
      modifies this
      ensures ok <==> old(dataSz) > size || mmapOk
      ensures old(dataSz) > size || !mmapOk ==> unchanged(this)
      ensures old(dataSz) <= size && mmapOk ==>
                && fresh(buf) && buffSz == U64(old(buffSz) + size)
                && buf.Length == PageUp(buffSz) && old(buffSz) <= buf.Length
                && buf[..old(buffSz)] == old(buf[..buffSz])
                && (forall i :: old(buffSz) <= i < buf.Length ==> buf[i] == 0)
                && blocks == [] && offset == HEADER && abSz == dataSz == Minus(buffSz, HEADER)
                && (Valid() <==> HEADER <= buffSz)
    {
      ok := true;
      if dataSz <= size {
        if !mmapOk { return false; }
        var before, n := buf, U64(buffSz + size);
        U64Turn(buffSz + size);
        PageUpBounds(n);
        var grown := new Byte[PageUp(n)](_ => 0);
        Memcpy(grown, before, buffSz);
        buf := grown;
        offset := HEADER;
        buffSz := n;
        dataSz := Minus(n, HEADER);
        abSz := dataSz;
        blocks := [];
      }
    }

    /** The size stored at the offset, and the offset moved on. */
    method Carve(total: nat)
      requires Accounted() && total <= abSz && offset + PREFIX <= buf.Length
      modifies this`abSz, this`offset, buf
      ensures Accounted() && buf == old(buf) && offset == old(offset) + total
      ensures buf[..] == WithPrefix(old(buf[..]), old(offset), total)
    {
      StoreSize(buf, offset, total);
      abSz := abSz - total;
      offset := offset + total;
    }

    /** udo_mm_sub_alloc, within the bounds of the mapping: a new block behind the others,
        with the bytes that were there.  If the size with its prefix wraps, only the wrapped
        number of bytes is taken, and the buffer no longer parses unless that is zero. */
    method SubAlloc(size: nat) returns (data: Option<nat>)
      requires Accounted() && size < SIZE_LIMIT
      requires size + PREFIX < SIZE_LIMIT || U64(size + PREFIX) >= abSz || offset + PREFIX <= buf.Length
      modifies this`abSz, this`offset, this`blocks, buf
      ensures Accounted() && buf == old(buf)
      ensures data.Some? <==> U64(size + PREFIX) < old(abSz)
      ensures data.None? ==> unchanged(this) && buf[..] == old(buf[..])
      ensures data.Some? ==>
                && data.value == old(offset) + PREFIX && offset == old(offset) + U64(size + PREFIX)
                && buf[..old(offset)] == old(buf[..offset]) && buf[data.value..] == old(buf[..])[data.value..]
      ensures data.Some? && size + PREFIX < SIZE_LIMIT ==>
                && offset == data.value + size
                && blocks == old(blocks) + [old(buf[..])[data.value..offset]]
                && (old(Valid()) ==> Valid() && data.value == Address(|old(blocks)|))
                && (old(RestClear()) ==> RestClear())
      ensures data.Some? && size + PREFIX >= SIZE_LIMIT ==>
                && blocks == old(blocks)
                && (old(Valid()) ==> (Valid() <==> U64(size + PREFIX) == 0))
    {
      var total := U64(size + PREFIX);
      if abSz <= total {
        return None;
      }
      ghost var s, at := buf[..], offset;
      data := Some(offset + PREFIX);
      Prefixed(size);
      Carve(total);
      SubAllocEffect(s, buf[..], blocks, at, size, total);
      if size + PREFIX < SIZE_LIMIT {
        ghost var payload := s[at + PREFIX..offset];
        assert (blocks + [payload])[..|blocks|] == blocks;
        blocks := blocks + [payload];
      }
    }

    /** udo_mm_sub_alloc_get_size on a live block. */
    method GetSize(data: nat, ghost k: nat) returns (size: nat)
      requires Valid() && k < |blocks| && data == Address(k)
      ensures size == |blocks[k]|
    {
      BlockIn(buf[..], HEADER, offset, blocks, k);
      PrefixRoundTrip(|blocks[k]| + PREFIX);
      var total := LoadSize(buf, data - PREFIX);
      size := total - PREFIX;
    }

    /** Where the bytes of a live block are. */
    lemma BlockBytes(k: nat)
      requires Valid() && k < |blocks|
      ensures Address(k) + |blocks[k]| <= offset && buf[Address(k)..Address(k) + |blocks[k]|] == blocks[k]
    {
      BlockIn(buf[..], HEADER, offset, blocks, k);
    }

    /** Live blocks are disjoint and lie inside the buffer. */
    lemma LiveBlocksDisjoint(j: nat, k: nat)
      requires Valid() && j < k < |blocks|
      ensures HEADER + PREFIX <= Address(j) && Address(j) + |blocks[j]| + PREFIX <= Address(k)
      ensures Address(k) + |blocks[k]| <= offset <= buffSz <= buf.Length
    {
      BlocksInOrder(blocks, j, k);
      BlocksInOrder(blocks, k, |blocks|);
    }

    /** The caller writes byte `i` of its block `k`. */
    method Write(data: nat, i: nat, value: Byte, ghost k: nat)
      requires Valid() && k < |blocks| && data == Address(k) && i < |blocks[k]|
      modifies this`blocks, buf
      ensures Valid() && blocks == old(blocks)[k := SetByte(old(blocks)[k], i, value)]
      ensures old(RestClear()) ==> RestClear()
    {
      WriteIn(buf[..], HEADER, offset, blocks, k, i, value);
      buf[data + i] := value;
      assert buf[..] == SetByte(old(buf[..]), data + i, value);
      blocks := blocks[k := SetByte(blocks[k], i, value)];
    }

    /** The first two library calls of udo_mm_free. */
    method Shift(p: nat, d: nat)
      requires p + d <= offset && offset + d <= buf.Length
      modifies buf
      ensures buf[..] == Shifted(old(buf[..]), p, d, offset)
    {
      Memset(buf, p, d);
      Memmove(buf, p, p + d, offset - p);
    }

    /** All three, on the block of `d` bytes at `p`. */
    method Compact(p: nat, d: nat)
      requires Accounted() && HEADER <= p && p + d <= offset && CallsInside(buf.Length, HEADER, p, d, offset)
      modifies this`abSz, this`offset, buf
      ensures Accounted() && buf == old(buf) && offset == old(offset) - d
      ensures buf[..] == Freed(old(buf[..]), HEADER, p, d, old(offset))
    {
      ghost var s, from := buf[..], offset;
      Shift(p, d);
      abSz := abSz + d;
      offset := offset - d;
      var n := dataSz - abSz;
      assert n == from - d - HEADER;
      assert buf[..] == Shifted(s, p, d, from);
      Memset(buf, p + d, n);
    }

    /** Block `k`, of `d` bytes with its prefix, lies in the buffer from `p` on. */
    ghost predicate IsBlock(p: nat, d: nat, k: nat)
      reads this
    {
      k < |blocks| && p == HEADER + Start(blocks, k) && d == PREFIX + |blocks[k]|
    }

    /** `d` is the size found before `data`, and freeing that much there stays in bounds. */
    ghost predicate CanFree(data: nat, d: nat)
      reads this, buf
    {
      && Accounted() && HEADER + PREFIX <= data <= buf.Length
      && d == SizeOf(buf[..][data - PREFIX..data]) && data - PREFIX + d <= offset
      && CallsInside(buf.Length, HEADER, data - PREFIX, d, offset)
    }

    /** udo_mm_free on the bytes, within the bounds of the mapping. */
    method Release(data: nat, ghost d: nat)
      requires CanFree(data, d)
      modifies this`abSz, this`offset, buf
      ensures Accounted() && buf == old(buf) && offset == old(offset) - d
      ensures buf[..] == Freed(old(buf[..]), HEADER, data - PREFIX, d, old(offset))
    {
      var p := data - PREFIX;
      var size := LoadSize(buf, p);
      assert size == d;
      Compact(p, size);
    }

    /** udo_mm_free on the blocks.  If `data` is block `k`, the live bytes are then the list
        without the block if and only if the bytes from two block sizes on were all zero; so
        they are if no more bytes follow the block than it has itself. */
    method Free(data: nat, ghost d: nat, ghost k: nat)
      requires CanFree(data, d)
      modifies this`abSz, this`offset, this`blocks, buf
      ensures Accounted() && buf == old(buf) && offset == old(offset) - d
      ensures old(Valid()) && old(IsBlock(data - PREFIX, d, k)) ==>
                && blocks == Removed(old(blocks), k)
                && (Valid() <==> ClearBetween(old(buf[..]), data - PREFIX + 2 * d, old(offset)))
                && (old(offset) - (data - PREFIX + d) <= d ==> Valid())
      ensures old(RestClear()) ==> RestClear()
    {
      ghost var s, was, from, p := buf[..], blocks, offset, data - PREFIX;
      Release(data, d);
      FreeEffect(s, buf[..], was, k, p, d, from);
      blocks := Removed(was, k);
    }

    /** What udo_mm_free finds before a live block is that block's size. */
    lemma FindsBlock(data: nat, k: nat)
      requires Valid() && k < |blocks| && data == Address(k)
      ensures HEADER + PREFIX <= data <= buf.Length
      ensures IsBlock(data - PREFIX, SizeOf(buf[..][data - PREFIX..data]), k)
    {
      BlockIn(buf[..], HEADER, offset, blocks, k);
      PrefixRoundTrip(|blocks[k]| + PREFIX);
    }
  }

  /** What udo_mm_sub_alloc makes of the bytes `s` of a mapping is `r`; that, in terms of blocks. */
  lemma SubAllocEffect(s: seq<Byte>, r: seq<Byte>, blocks: seq<seq<Byte>>, at: nat, size: nat, total: nat)
    requires HEADER <= at && at + PREFIX <= |s| && at + total <= |s| && r == WithPrefix(s, at, total)
    requires total == if size + PREFIX < SIZE_LIMIT then size + PREFIX else size + PREFIX - SIZE_LIMIT
    ensures |r| == |s| && r[..at] == s[..at] && r[at + PREFIX..] == s[at + PREFIX..]
    ensures total == size + PREFIX ==>
              && (Holds(s, HEADER, at, blocks) ==> Holds(r, HEADER, at + total, blocks + [s[at + PREFIX..at + total]]))
              && (ClearFrom(s, at) ==> ClearFrom(r, at + total))
    ensures Holds(s, HEADER, at, blocks) ==> (Holds(r, HEADER, at + total, blocks) <==> total == 0)
  {
    PrefixFrame(s, at, total);
    if total == size + PREFIX {
      if ClearFrom(s, at) { PrefixKeepsRestClear(s, at, total, at + total); }
      if Holds(s, HEADER, at, blocks) { AppendBlock(s, blocks, HEADER, at, size); }
    }
    if Holds(s, HEADER, at, blocks) { HoldsOnlyThere(r, s, HEADER, at, at + total, blocks); }
  }

  /** The list without block `k`, if there is one. */
  function Removed(blocks: seq<seq<Byte>>, k: nat): seq<seq<Byte>> {
    if k < |blocks| then blocks[..k] + blocks[k + 1..] else blocks
  }

  /** What udo_mm_free makes of the bytes `s` of a mapping is `r`; that, in terms of blocks. */
  lemma FreeEffect(s: seq<Byte>, r: seq<Byte>, blocks: seq<seq<Byte>>, k: nat, p: nat, d: nat, offset: nat)
    requires HEADER <= p && p + d <= offset && CallsInside(|s|, HEADER, p, d, offset)
    requires r == Freed(s, HEADER, p, d, offset)
    ensures ClearFrom(s, offset) ==> ClearFrom(r, offset - d)
    ensures Holds(s, HEADER, offset, blocks) && k < |blocks| && p == HEADER + Start(blocks, k) && d == PREFIX + |blocks[k]| ==>
              && (Holds(r, HEADER, offset - d, Removed(blocks, k)) <==> ClearBetween(s, p + 2 * d, offset))
              && (offset - (p + d) <= d ==> Holds(r, HEADER, offset - d, Removed(blocks, k)))
  {
    if ClearFrom(s, offset) { FreedKeepsRestClear(s, HEADER, p, d, offset); }
    if Holds(s, HEADER, offset, blocks) && k < |blocks| && p == HEADER + Start(blocks, k) && d == PREFIX + |blocks[k]| {
      FreedBlocks(s, HEADER, offset, blocks, k, p, d);
    }
  }

  /** The two sums of udo_mm_alloc and udo_mm_sub_alloc: header or prefix, and size. */
  lemma TotalSize(size: nat)
    requires size < SIZE_LIMIT
    ensures Minus(U64(HEADER + size), HEADER) == size
    ensures U64(HEADER + size) == HEADER + size <==> HEADER + size < SIZE_LIMIT
  {
    if HEADER + size < SIZE_LIMIT { U64Fits(HEADER + size); }
    else { U64Turn(HEADER + size - SIZE_LIMIT); U64Fits(HEADER + size - SIZE_LIMIT); }
  }

  lemma Prefixed(size: nat)
    requires size < SIZE_LIMIT
    ensures U64(size + PREFIX) == if size + PREFIX < SIZE_LIMIT then size + PREFIX else size + PREFIX - SIZE_LIMIT
  {
    if size + PREFIX < SIZE_LIMIT { U64Fits(size + PREFIX); }
    else { U64Turn(size + PREFIX - SIZE_LIMIT); U64Fits(size + PREFIX - SIZE_LIMIT); }
  }

  /** A list of blocks ends at one offset only. */
  lemma HoldsOnlyThere(r: seq<Byte>, s: seq<Byte>, h: nat, at: nat, end: nat, blocks: seq<seq<Byte>>)
    requires Holds(s, h, at, blocks) && at <= end <= |r| && |r| == |s| && r[..at] == s[..at]
    ensures Holds(r, h, end, blocks) <==> end == at
  {
    assert r[h..at] == r[..at][h..] && s[h..at] == s[..at][h..];
  }

  /** Does the memcpy of growth by `size` stay inside the new mapping? */
  predicate CopyInside(buffSz: nat, size: nat) {
    buffSz <= PageUp(U64(buffSz + size))
  }

  /** It does if and only if the sum does not wrap, or wraps to a size that ends on the page
      on which the old mapping ends. */
  lemma GrowthStaysInside(buffSz: nat, size: nat)
    requires 0 < buffSz < SIZE_LIMIT && size < SIZE_LIMIT
    ensures CopyInside(buffSz, size) <==>
              buffSz + size < SIZE_LIMIT || PageUp(buffSz + size - SIZE_LIMIT) == PageUp(buffSz)
  {
    var n := buffSz + size;
    if n < SIZE_LIMIT {
      U64Fits(n);
      PageUpBounds(n);
    } else {
      U64Turn(n - SIZE_LIMIT);
      U64Fits(n - SIZE_LIMIT);
      SamePage(n - SIZE_LIMIT, buffSz);
    }
  }

  lemma SamePage(x: nat, y: nat)
    requires x <= y
    ensures y <= PageUp(x) <==> PageUp(x) == PageUp(y)
  {
    PageUpBounds(y);
  }

  /** A mapping of two pages and a request for which it does not. */
  method GrowthCanLeaveMapping() returns (m: Mapping, size: nat)
    ensures fresh(m) && m.Valid() && m.buffSz == 8192 && size < SIZE_LIMIT
    ensures m.dataSz <= size && U64(m.buffSz + size) != 0 && !CopyInside(m.buffSz, size)
  {
    m := new Mapping(7640);
    size := SIZE_LIMIT - 8191;
    U64Fits(HEADER + 7640);
    U64Turn(1);
    GrowthStaysInside(8192, size);
  }

  /** The calls of udo_mm_free on a live block stay inside a mapping of `size` bytes if and
      only if there are as many bytes behind the live ones as the block has, and the block is
      as far from the end of the mapping as the live bytes are long. */
  lemma FreeStaysInside(size: nat, p: nat, d: nat, offset: nat)
    requires HEADER <= p && p + d <= offset <= size
    ensures CallsInside(size, HEADER, p, d, offset) <==> offset + d <= size && p + (offset - HEADER) <= size
  {
  }

  /** In a mapping of one page, a block of 3000 bytes has fewer bytes behind it. */
  method LargeBlockCannotBeFreed() returns (m: Mapping, data: nat)
    ensures fresh(m) && m.Valid() && |m.blocks| == 1 && |m.blocks[0]| == 3000
    ensures m.buffSz == m.buf.Length == 4096
    ensures data == m.Address(0) && HEADER <= data - PREFIX && data + 3000 <= m.offset
    ensures !CallsInside(m.buf.Length, HEADER, data - PREFIX, PREFIX + 3000, m.offset)
  {
    m := new Mapping(3544);
    U64Fits(HEADER + 3544);
    Prefixed(3000);
    var r := m.SubAlloc(3000);
    data := r.value;
  }

  /** Freeing the first of three one-byte blocks clears the byte of the third: the buffer no
      longer holds the other two. */
  method FreeClearsThirdBlock() returns (m: Mapping)
    ensures fresh(m) && m.Accounted() && |m.blocks| == 2 && m.blocks[1] == [1]
    ensures !m.Valid()
  {
    m := new Mapping(100);
    var a := FillThree(m);
    m.FindsBlock(a, 0);
    assert !ClearBetween(m.buf[..], HEADER + 18, m.offset) by { assert m.buf[..][HEADER + 26] == 1; }
    m.Free(a, 9, 0);
  }

  /** Three blocks of one byte, the third holding a 1. */
  method FillThree(m: Mapping) returns (a: nat)
    requires m.Valid() && m.blocks == [] && m.dataSz == 100
    modifies m, m.buf
    ensures m.Valid() && m.buf == old(m.buf) && m.offset == HEADER + 27 && |m.blocks| == 3
    ensures |m.blocks[0]| == 1 && m.blocks[2] == [1] && m.buf[HEADER + 26] == 1
    ensures a == m.Address(0) == HEADER + PREFIX
  {
    a := OneByte(m);
    var b := OneByte(m);
    var c := OneByte(m);
    m.Write(c, 0, 1, 2);
    m.BlockBytes(2);
    assert m.buf[c..c + 1] == [1];
    assert m.blocks[..0] == [];
  }

  method OneByte(m: Mapping) returns (data: nat)
    requires m.Valid() && m.abSz > 9
    modifies m`abSz, m`offset, m`blocks, m.buf
    ensures m.Valid() && m.buf == old(m.buf) && m.offset == old(m.offset) + 9
    ensures |m.blocks| == |old(m.blocks)| + 1 && m.blocks[..|old(m.blocks)|] == old(m.blocks)
    ensures |m.blocks[|old(m.blocks)|]| == 1
    ensures data == m.Address(|old(m.blocks)|) == old(m.offset) + PREFIX
  {
    var r := m.SubAlloc(1);
    data := r.value;
  }

  /** memcpy(target, source, n). */
  method Memcpy(target: array<Byte>, source: array<Byte>, n: nat)
    requires n <= source.Length && n <= target.Length && target != source
    modifies target
    ensures target[..] == source[..n] + old(target[n..])
  {
    forall i | 0 <= i < n { target[i] := source[i]; }
  }

  /** *((size_t*) (a + at)). */
  method LoadSize(a: array<Byte>, at: nat) returns (n: nat)
    requires at + PREFIX <= a.Length
    ensures n == SizeOf(a[..][at..at + PREFIX])
  {
    n := SizeOf(a[at..at + PREFIX]);
    assert a[at..at + PREFIX] == a[..][at..at + PREFIX];
  }

  /** *((size_t*) (a + at)) = n. */
  method StoreSize(a: array<Byte>, at: nat, n: nat)
    requires at + PREFIX <= a.Length
    modifies a
    ensures a[..] == WithPrefix(old(a[..]), at, n)
  {
    var bytes := SizeBytes(n, 8);
    forall i | 0 <= i < 8 { a[at + i] := bytes[i]; }
  }

  /** memset(a + at, 0, n). */
  method Memset(a: array<Byte>, at: nat, n: nat)
    requires at + n <= a.Length
    modifies a
    ensures a[..] == Zeroed(old(a[..]), at, n)
  {
    ghost var s := a[..];
    var i := 0;
    while i < n
      invariant i <= n && a[..] == Zeroed(s, at, i)
    {
      a[at + i] := 0;
      i := i + 1;
    }
  }

  /** memmove(a + to, a + from, n). */
  method Memmove(a: array<Byte>, to: nat, from: nat, n: nat)
    requires to + n <= a.Length && from + n <= a.Length
    modifies a
    ensures a[..] == Moved(old(a[..]), to, from, n)
  {
    forall i | to <= i < to + n { a[i] := a[from + (i - to)]; }
  }
}
