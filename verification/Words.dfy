/** Unsigned machine words: arithmetic modulo 2^32 and 2^64. */
module Words {
  import opened Arithmetic

  /** One more than the greatest 32-bit word. */
  const WORD: nat := 0x1_0000_0000
  /** One more than the greatest size_t. */
  const SIZE_LIMIT: nat := 0x1_0000_0000_0000_0000

  function U32(x: nat): nat { x % 0x1_0000_0000 }

  function U64(x: nat): nat { x % 0x1_0000_0000_0000_0000 }

  lemma U32Fits(x: nat)
    requires x < WORD
    ensures U32(x) == x
  {
  }

  lemma U64Fits(x: nat)
    requires x < SIZE_LIMIT
    ensures U64(x) == x
  {
  }

  lemma U32Turn(x: nat)
    ensures U32(x) < WORD && U32(x + 0x1_0000_0000) == U32(x)
  {
    DivModIdentity(x, 0x1_0000_0000);
    Distribute(x / 0x1_0000_0000, -1, 0x1_0000_0000);
    DivModUnique(x + 0x1_0000_0000, 0x1_0000_0000, x / 0x1_0000_0000 + 1, x % 0x1_0000_0000);
  }

  lemma U64Turn(x: nat)
    ensures U64(x) < SIZE_LIMIT && U64(x + 0x1_0000_0000_0000_0000) == U64(x)
  {
    DivModIdentity(x, 0x1_0000_0000_0000_0000);
    Distribute(x / 0x1_0000_0000_0000_0000, -1, 0x1_0000_0000_0000_0000);
    DivModUnique(x + 0x1_0000_0000_0000_0000, 0x1_0000_0000_0000_0000,
                 x / 0x1_0000_0000_0000_0000 + 1, x % 0x1_0000_0000_0000_0000);
  }

  /** A reduction before an addition makes no difference after it. */
  lemma U32Add(x: nat, y: nat)
    ensures U32(U32(x) + y) == U32(x + y)
  {
    ModAdd(x, y, 0x1_0000_0000);
  }

  lemma U64Add(x: nat, y: nat)
    ensures U64(U64(x) + y) == U64(x + y)
  {
    ModAdd(x, y, 0x1_0000_0000_0000_0000);
  }

  /** Subtraction of size_t values. */
  function Minus(x: nat, y: nat): (r: nat)
    requires x < SIZE_LIMIT && y < SIZE_LIMIT
    ensures r == if x >= y then x - y else x + SIZE_LIMIT - y
  {
    MinusWraps(x, y);
    U64(x + 0x1_0000_0000_0000_0000 - y)
  }

  lemma MinusWraps(x: nat, y: nat)
    requires x < SIZE_LIMIT && y < SIZE_LIMIT
    ensures U64(x + 0x1_0000_0000_0000_0000 - y) == if x >= y then x - y else x + SIZE_LIMIT - y
  {
    if x >= y { U64Turn(x - y); U64Fits(x - y); } else { U64Fits(x + SIZE_LIMIT - y); }
  }

  /** Where piece `p` starts if pieces of one size follow each other from `start`. */
  function Offset(start: nat, size: nat, p: nat): nat {
    start + p * size
  }

  lemma OffsetStep(start: nat, size: nat, p: nat)
    ensures Offset(start, size, p) + size == Offset(start, size, p + 1)
  {
    Distribute(p, -1, size);
  }

  /** Pieces lie in order. */
  lemma OffsetsInOrder(start: nat, size: nat, p: nat, u: nat)
    requires p < u
    ensures start <= Offset(start, size, p) && Offset(start, size, p) + size <= Offset(start, size, u)
  {
    MulNonNegative(p, size);
    OffsetStep(start, size, p);
    MulMono(p + 1, u, size);
  }

  /** `count` pieces of the `count`-th part of `bytes` fit in `bytes`. */
  lemma PieceFits(start: nat, bytes: nat, count: nat, p: nat)
    requires p < count
    ensures start <= Offset(start, Quotient(bytes, count), p)
    ensures Offset(start, Quotient(bytes, count), p) + Quotient(bytes, count) <= start + bytes
  {
    var q := Quotient(bytes, count);
    DivModIdentity(bytes, count);
    MulMono(p + 1, count, q);
    MulNonNegative(p, q);
    OffsetStep(start, q, p);
  }

  /** They use up all but fewer than `count` of the bytes. */
  lemma PiecesFill(start: nat, bytes: nat, count: nat)
    requires count > 0
    ensures var q := Quotient(bytes, count);
            Offset(start, q, count - 1) + q <= start + bytes < Offset(start, q, count - 1) + q + count
  {
    DivModIdentity(bytes, count);
    OffsetStep(start, Quotient(bytes, count), count - 1);
  }

  /** The next piece's start, where the sum wraps after each piece. */
  lemma U32Offset(start: nat, size: nat, p: nat)
    ensures U32(U32(Offset(start, size, p)) + size) == U32(Offset(start, size, p + 1))
  {
    OffsetStep(start, size, p);
    U32Add(Offset(start, size, p), size);
  }

  lemma U64Offset(start: nat, size: nat, p: nat)
    ensures U64(U64(Offset(start, size, p)) + size) == U64(Offset(start, size, p + 1))
  {
    OffsetStep(start, size, p);
    U64Add(Offset(start, size, p), size);
  }

  /** `x` rounded up to whole pages. */
  function PageUp(x: nat): nat {
    (x + 4095) / 4096 * 4096
  }

  lemma PageUpBounds(x: nat)
    ensures x <= PageUp(x) < x + 4096
  {
  }
}
