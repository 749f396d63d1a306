/** Size-prefixed blocks: how udo_mm lays a list of byte strings out in its buffer. */
module ByteBlocks {
  import opened Words

  type Byte = x: nat | x < 256

  /** sizeof(size_t), the prefix of every block. */
  const PREFIX: nat := 8

  /** The k low bytes of n, least significant first. */
  function SizeBytes(n: nat, k: nat): (r: seq<Byte>)
    ensures |r| == k
  {
    if k == 0 then [] else [n % 256] + SizeBytes(n / 256, k - 1)
  }

  function SizeOf(s: seq<Byte>): nat {
    if s == [] then 0 else s[0] + 256 * SizeOf(s[1..])
  }

  function Pow256(k: nat): nat {
    if k == 0 then 1 else 256 * Pow256(k - 1)
  }

  lemma {:induction false} SizeRoundTrip(n: nat, k: nat)
    requires n < Pow256(k)
    ensures SizeOf(SizeBytes(n, k)) == n
  {
    if k > 0 {
      SizeRoundTrip(n / 256, k - 1);
      assert SizeBytes(n, k)[1..] == SizeBytes(n / 256, k - 1);
    }
  }

  /** A stored size_t reads back as it was written. */
  lemma PrefixRoundTrip(n: nat)
    requires n < SIZE_LIMIT
    ensures SizeOf(SizeBytes(n, 8)) == n
  {
    assert Pow256(4) == 0x1_0000_0000;
    assert Pow256(8) == SIZE_LIMIT;
    SizeRoundTrip(n, 8);
  }

  /** A block as it lies in the buffer: its whole size, then its bytes. */
  function Encode(block: seq<Byte>): (r: seq<Byte>)
    ensures |r| == |block| + PREFIX
  {
    SizeBytes(|block| + PREFIX, 8) + block
  }

  function Flatten(blocks: seq<seq<Byte>>): seq<Byte> {
    if blocks == [] then [] else Encode(blocks[0]) + Flatten(blocks[1..])
  }

  lemma Associative(x: seq<Byte>, y: seq<Byte>, z: seq<Byte>)
    ensures x + (y + z) == (x + y) + z
  {
  }

  lemma {:induction false} FlattenConcat(a: seq<seq<Byte>>, b: seq<seq<Byte>>)
    ensures Flatten(a + b) == Flatten(a) + Flatten(b)
  {
    if a == [] {
      assert a + b == b;
    } else {
      FlattenConcat(a[1..], b);
      assert (a + b)[1..] == a[1..] + b && (a + b)[0] == a[0];
      Associative(Encode(a[0]), Flatten(a[1..]), Flatten(b));
    }
  }

  /** The bytes of `s` from `h` to `offset` are the blocks. */
  ghost predicate Holds(s: seq<Byte>, h: nat, offset: nat, blocks: seq<seq<Byte>>) {
    h <= offset <= |s| && s[h..offset] == Flatten(blocks)
  }

  /** The bytes of `s` from `offset` on are zero. */
  ghost predicate ClearFrom(s: seq<Byte>, offset: nat) {
    forall i :: offset <= i < |s| ==> s[i] == 0
  }

  /** The bytes of `s` from `from` to before `to` are zero. */
  ghost predicate ClearBetween(s: seq<Byte>, from: nat, to: nat)
    requires to <= |s|
  {
    forall i :: from <= i < to ==> s[i] == 0
  }

  lemma FlattenOne(b: seq<Byte>)
    ensures Flatten([b]) == Encode(b)
  {
    var one := [b];
    assert Flatten(one[1..]) == [];
  }

  /** Byte `i` of a block changed. */
  function SetByte(b: seq<Byte>, i: nat, value: Byte): (r: seq<Byte>)
    requires i < |b|
    ensures |r| == |b| && forall j :: 0 <= j < |b| ==> r[j] == if j == i then value else b[j]
  {
    b[..i] + [value] + b[i + 1..]
  }

  /** Where block `k` starts, from the start of the first block. */
  function Start(blocks: seq<seq<Byte>>, k: nat): nat
    requires k <= |blocks|
  {
    |Flatten(blocks[..k])|
  }

  lemma FlattenCons(b: seq<Byte>, rest: seq<seq<Byte>>)
    ensures Flatten([b] + rest) == Encode(b) + Flatten(rest)
  {
    assert ([b] + rest)[1..] == rest;
  }

  /** Block `k` lies between the blocks before it and the blocks after it. */
  lemma Split(blocks: seq<seq<Byte>>, k: nat)
    requires k < |blocks|
    ensures Flatten(blocks) == Flatten(blocks[..k]) + (Encode(blocks[k]) + Flatten(blocks[k + 1..]))
    ensures Start(blocks, k + 1) == Start(blocks, k) + PREFIX + |blocks[k]| <= |Flatten(blocks)|
  {
    var b, rest := blocks[k], blocks[k + 1..];
    assert blocks == blocks[..k] + ([b] + rest);
    FlattenConcat(blocks[..k], [b] + rest);
    FlattenCons(b, rest);
    assert blocks[..k + 1] == blocks[..k] + [b];
    FlattenConcat(blocks[..k], [b]);
    FlattenOne(b);
  }

  /** The bytes of block `k` where it starts: its size, then its contents. */
  lemma BlockAt(blocks: seq<seq<Byte>>, k: nat)
    requires k < |blocks|
    ensures var s, a := Flatten(blocks), Start(blocks, k);
            && a + PREFIX + |blocks[k]| <= |s|
            && s[a..a + PREFIX] == SizeBytes(|blocks[k]| + PREFIX, 8)
            && s[a + PREFIX..a + PREFIX + |blocks[k]|] == blocks[k]
  {
    Split(blocks, k);
  }

  /** Removing block `k` from the bytes removes it from the list. */
  lemma RemoveBlock(blocks: seq<seq<Byte>>, k: nat)
    requires k < |blocks|
    ensures var s, a, d := Flatten(blocks), Start(blocks, k), PREFIX + |blocks[k]|;
            a + d <= |s| && s[..a] + s[a + d..] == Flatten(blocks[..k] + blocks[k + 1..])
  {
    Split(blocks, k);
    FlattenConcat(blocks[..k], blocks[k + 1..]);
    CutMiddle(Flatten(blocks[..k]), Encode(blocks[k]), Flatten(blocks[k + 1..]));
  }

  lemma CutMiddle(a: seq<Byte>, e: seq<Byte>, b: seq<Byte>)
    ensures var s := a + (e + b); s[..|a|] == a && s[|a|..|a| + |e|] == e && s[|a| + |e|..] == b
  {
  }

  lemma SetInMiddle(a: seq<Byte>, e: seq<Byte>, b: seq<Byte>, i: nat, value: Byte)
    requires i < |e|
    ensures a + (SetByte(e, i, value) + b) == SetByte(a + (e + b), |a| + i, value)
  {
  }

  lemma SetInBlock(block: seq<Byte>, i: nat, value: Byte)
    requires i < |block|
    ensures Encode(SetByte(block, i, value)) == SetByte(Encode(block), PREFIX + i, value)
  {
  }

  /** Changing a byte of block `k` changes it in the bytes. */
  lemma WriteBlock(blocks: seq<seq<Byte>>, k: nat, i: nat, value: Byte)
    requires k < |blocks| && i < |blocks[k]|
    ensures Start(blocks, k) + PREFIX + i < |Flatten(blocks)|
    ensures SetByte(Flatten(blocks), Start(blocks, k) + PREFIX + i, value)
         == Flatten(blocks[k := SetByte(blocks[k], i, value)])
  {
    var blocks' := blocks[k := SetByte(blocks[k], i, value)];
    Split(blocks, k);
    Split(blocks', k);
    assert blocks'[..k] == blocks[..k] && blocks'[k + 1..] == blocks[k + 1..];
    SetInBlock(blocks[k], i, value);
    SetInMiddle(Flatten(blocks[..k]), Encode(blocks[k]), Flatten(blocks[k + 1..]), PREFIX + i, value);
  }

  /** `s` with a block size stored at `at`. */
  function WithPrefix(s: seq<Byte>, at: nat, n: nat): (r: seq<Byte>)
    requires at + PREFIX <= |s|
  {
    s[..at] + SizeBytes(n, 8) + s[at + PREFIX..]
  }

  lemma PrefixFrame(s: seq<Byte>, at: nat, n: nat)
    requires at + PREFIX <= |s|
    ensures var r := WithPrefix(s, at, n);
            && |r| == |s| && r[..at] == s[..at] && r[at + PREFIX..] == s[at + PREFIX..]
            && r[at..at + PREFIX] == SizeBytes(n, 8)
  {
  }

  lemma PrefixKeepsRestClear(s: seq<Byte>, at: nat, n: nat, end: nat)
    requires at + PREFIX <= end <= |s| && ClearFrom(s, at)
    ensures ClearFrom(WithPrefix(s, at, n), end)
  {
  }

  lemma SliceJoin(s: seq<Byte>, x: nat, y: nat, z: nat)
    requires x <= y <= z <= |s|
    ensures s[x..z] == s[x..y] + s[y..z]
  {
  }

  /** A slice of the front, or of the back, is a slice of the whole. */
  lemma SliceOfPart(s: seq<Byte>, x: nat, y: nat, z: nat)
    requires x <= y <= z <= |s|
    ensures s[..y][x..] == s[x..y] && s[y..][..z - y] == s[y..z]
  {
  }

  lemma PrefixEncodes(s: seq<Byte>, h: nat, at: nat, size: nat)
    requires h <= at && at + PREFIX + size <= |s|
    ensures var r, end := WithPrefix(s, at, size + PREFIX), at + PREFIX + size;
            r[h..end] == s[h..at] + Encode(s[at + PREFIX..end])
  {
    var r, mid, end := WithPrefix(s, at, size + PREFIX), at + PREFIX, at + PREFIX + size;
    PrefixFrame(s, at, size + PREFIX);
    SliceOfPart(r, h, at, end);
    SliceOfPart(s, h, at, end);
    SliceOfPart(r, h, mid, end);
    SliceOfPart(s, h, mid, end);
    SliceJoin(r, h, at, end);
    SliceJoin(r, at, mid, end);
  }

  /** A prefix stored behind the blocks makes the bytes behind it one more block. */
  lemma AppendBlock(s: seq<Byte>, blocks: seq<seq<Byte>>, h: nat, at: nat, size: nat)
    requires Holds(s, h, at, blocks) && at + PREFIX + size <= |s|
    ensures var end := at + PREFIX + size;
            Holds(WithPrefix(s, at, size + PREFIX), h, end, blocks + [s[at + PREFIX..end]])
  {
    var payload := s[at + PREFIX..at + PREFIX + size];
    FlattenConcat(blocks, [payload]);
    FlattenOne(payload);
    PrefixEncodes(s, h, at, size);
  }

  lemma Slice(s: seq<Byte>, h: nat, o: nat, x: nat, y: nat)
    requires h <= o <= |s| && x <= y && h + y <= o
    ensures s[h..o][x..y] == s[h + x..h + y]
  {
    var t := s[h..o];
    assert forall i :: x <= i < y ==> t[i] == s[h + i];
  }

  /** The bytes of block `k` in a buffer that holds the blocks. */
  lemma BlockIn(s: seq<Byte>, h: nat, offset: nat, blocks: seq<seq<Byte>>, k: nat)
    requires Holds(s, h, offset, blocks) && k < |blocks|
    ensures var a := h + Start(blocks, k) + PREFIX;
            && a + |blocks[k]| <= offset
            && s[a - PREFIX..a] == SizeBytes(|blocks[k]| + PREFIX, 8) && s[a..a + |blocks[k]|] == blocks[k]
  {
    BlockAt(blocks, k);
    var a := Start(blocks, k);
    Slice(s, h, offset, a, a + PREFIX);
    Slice(s, h, offset, a + PREFIX, a + PREFIX + |blocks[k]|);
  }

  /** Writing byte `i` of block `k` in such a buffer. */
  lemma WriteIn(s: seq<Byte>, h: nat, offset: nat, blocks: seq<seq<Byte>>, k: nat, i: nat, value: Byte)
    requires Holds(s, h, offset, blocks) && k < |blocks| && i < |blocks[k]|
    ensures var a := h + Start(blocks, k) + PREFIX + i;
            a < offset && Holds(SetByte(s, a, value), h, offset, blocks[k := SetByte(blocks[k], i, value)])
  {
    WriteBlock(blocks, k, i, value);
    var a := Start(blocks, k) + PREFIX + i;
    assert SetByte(s, h + a, value)[h..offset] == SetByte(s[h..offset], a, value);
  }

  /** Blocks do not overlap: an earlier one ends before a later one starts. */
  lemma {:induction false} BlocksInOrder(blocks: seq<seq<Byte>>, j: nat, k: nat)
    requires j < k <= |blocks|
    ensures Start(blocks, j) + PREFIX + |blocks[j]| <= Start(blocks, k) <= |Flatten(blocks)|
  {
    if k == |blocks| { assert blocks[..k] == blocks; }
    if k < |blocks| { Split(blocks, k); }
    if j + 1 == k {
      Split(blocks, j);
    } else {
      BlocksInOrder(blocks, j, k - 1);
      Split(blocks, k - 1);
    }
  }

  ghost predicate Storable(blocks: seq<seq<Byte>>) {
    forall b :: b in blocks ==> |b| + PREFIX < SIZE_LIMIT
  }

  /** The buffer determines the blocks: it parses in one way only. */
  lemma {:induction false} ParseIsUnique(a: seq<seq<Byte>>, b: seq<seq<Byte>>)
    requires Storable(a) && Storable(b) && Flatten(a) == Flatten(b)
    ensures a == b
  {
    if a != [] && b != [] {
      var s := Flatten(a);
      PrefixRoundTrip(|a[0]| + PREFIX);
      PrefixRoundTrip(|b[0]| + PREFIX);
      assert s[..8] == SizeBytes(|a[0]| + PREFIX, 8);
      assert s[..8] == SizeBytes(|b[0]| + PREFIX, 8);
      var n := |a[0]|;
      assert s[8..8 + n] == a[0];
      assert s[8..8 + n] == b[0];
      assert s[8 + n..] == Flatten(a[1..]);
      assert s[8 + n..] == Flatten(b[1..]);
      ParseIsUnique(a[1..], b[1..]);
      assert a == [a[0]] + a[1..] && b == [b[0]] + b[1..];
    }
  }

  // ------------------------------------------------------ the bytes of udo_mm_free

  /** memset(s + at, 0, n). */
  function Zeroed(s: seq<Byte>, at: nat, n: nat): (r: seq<Byte>)
    requires at + n <= |s|
    ensures |r| == |s|
  {
    if n == 0 then s else Zeroed(s, at, n - 1)[at + n - 1 := 0]
  }

  /** memmove(s + to, s + from, n). */
  function Moved(s: seq<Byte>, to: nat, from: nat, n: nat): (r: seq<Byte>)
    requires to + n <= |s| && from + n <= |s|
    ensures |r| == |s|
  {
    s[..to] + s[from..from + n] + s[to + n..]
  }

  lemma {:induction false} ZeroedAt(s: seq<Byte>, at: nat, n: nat, i: nat)
    requires at + n <= |s| && i < |s|
    ensures Zeroed(s, at, n)[i] == if at <= i < at + n then 0 else s[i]
  {
    if n > 0 { ZeroedAt(s, at, n - 1, i); }
  }

  lemma MovedAt(s: seq<Byte>, to: nat, from: nat, n: nat, i: nat)
    requires to + n <= |s| && from + n <= |s| && i < |s|
    ensures Moved(s, to, from, n)[i] == if to <= i < to + n then s[from + (i - to)] else s[i]
  {
  }

  /** The buffer after the first two calls of udo_mm_free. */
  function Shifted(s: seq<Byte>, p: nat, d: nat, offset: nat): (r: seq<Byte>)
    requires p + d <= offset && offset + d <= |s|
    ensures |r| == |s|
  {
    Moved(Zeroed(s, p, d), p, p + d, offset - p)
  }

  /** The buffer after udo_mm_free of the block of `d` bytes at `p`, where the live bytes are
      those from `h` to `offset`. */
  function Freed(s: seq<Byte>, h: nat, p: nat, d: nat, offset: nat): (r: seq<Byte>)
    requires h <= p && p + d <= offset && offset + d <= |s| && p + offset - h <= |s|
    ensures |r| == |s|
  {
    Zeroed(Shifted(s, p, d, offset), p + d, offset - d - h)
  }

  /** Do the calls of udo_mm_free on the block of `d` bytes at `p` stay inside the mapping? */
  predicate CallsInside(size: nat, h: nat, p: nat, d: nat, offset: nat)
    requires h <= p && p + d <= offset
  {
    && p + d <= size                        // the first memset
    && p + d + (offset - p) <= size         // the bytes memmove reads
    && p + (offset - p) <= size             // the bytes it writes
    && p + d + (offset - d - h) <= size     // the last memset
  }

  /** Byte `i` after the three calls. */
  lemma FreedAt(s: seq<Byte>, h: nat, p: nat, d: nat, offset: nat, i: nat)
    requires h <= p && p + d <= offset && offset + d <= |s| && p + offset - h <= |s| && i < |s|
    ensures Freed(s, h, p, d, offset)[i] ==
              if p + d <= i < p + offset - h then 0 else if p <= i < offset then s[i + d] else s[i]
  {
    var s1 := Zeroed(s, p, d);
    var s2 := Moved(s1, p, p + d, offset - p);
    ZeroedAt(s2, p + d, offset - d - h, i);
    MovedAt(s1, p, p + d, offset - p, i);
    if p <= i < offset { ZeroedAt(s, p, d, i + d); } else { ZeroedAt(s, p, d, i); }
  }

  /** What freeing should leave live: the bytes before the block, then those after it. */
  function Without(s: seq<Byte>, h: nat, p: nat, d: nat, offset: nat): seq<Byte>
    requires h <= p && p + d <= offset <= |s|
  {
    s[h..p] + s[p + d..offset]
  }

  /** udo_mm_free removes exactly the block if and only if all live bytes from p + 2d on are
      zero: the last memset clears from p + d, where these bytes have been moved. */
  lemma FreedExactly(s: seq<Byte>, h: nat, p: nat, d: nat, offset: nat)
    requires h <= p && p + d <= offset && offset + d <= |s| && p + offset - h <= |s|
    ensures Freed(s, h, p, d, offset)[h..offset - d] == Without(s, h, p, d, offset)
       <==> forall i :: p + 2 * d <= i < offset ==> s[i] == 0
  {
    var r, w := Freed(s, h, p, d, offset)[h..offset - d], Without(s, h, p, d, offset);
    assert |r| == |w|;
    forall i | 0 <= i < |r|
      ensures w[i] == if h + i < p then s[h + i] else s[h + i + d]
      ensures r[i] == if h + i < p + d then w[i] else 0
    {
      FreedAt(s, h, p, d, offset, h + i);
    }
    if r == w {
      forall i | p + 2 * d <= i < offset
        ensures s[i] == 0
      {
        assert r[i - d - h] == 0 && w[i - d - h] == s[i];
      }
    }
  }

  lemma WithoutIsCut(s: seq<Byte>, live: seq<Byte>, h: nat, a: nat, d: nat, offset: nat)
    requires h <= offset <= |s| && live == s[h..offset] && a + d <= |live|
    ensures Without(s, h, h + a, d, offset) == live[..a] + live[a + d..]
  {
  }

  /** ... that is, on blocks: the buffer then holds the list without block `k`. */
  lemma FreedBlocks(s: seq<Byte>, h: nat, offset: nat, blocks: seq<seq<Byte>>, k: nat, p: nat, d: nat)
    requires Holds(s, h, offset, blocks) && k < |blocks|
    requires p == h + Start(blocks, k) && d == PREFIX + |blocks[k]|
    requires offset + d <= |s| && p + offset - h <= |s|
    ensures p + d <= offset
    ensures Holds(Freed(s, h, p, d, offset), h, offset - d, blocks[..k] + blocks[k + 1..])
       <==> ClearBetween(s, p + 2 * d, offset)
  {
    RemoveBlock(blocks, k);
    WithoutIsCut(s, Flatten(blocks), h, p - h, d, offset);
    assert Without(s, h, p, d, offset) == Flatten(blocks[..k] + blocks[k + 1..]);
    FreedExactly(s, h, p, d, offset);
  }

  /** Bytes behind the live ones that are zero before are zero afterwards. */
  lemma FreedKeepsRestClear(s: seq<Byte>, h: nat, p: nat, d: nat, offset: nat)
    requires h <= p && p + d <= offset && offset + d <= |s| && p + offset - h <= |s|
    requires ClearFrom(s, offset)
    ensures ClearFrom(Freed(s, h, p, d, offset), offset - d)
  {
    forall i | offset - d <= i < |s|
      ensures Freed(s, h, p, d, offset)[i] == 0
    {
      FreedAt(s, h, p, d, offset, i);
    }
  }
}
