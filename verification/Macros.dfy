/** The alignment macros of include/macros.h: UDO_BYTE_ALIGN and UDO_PAGE_GET.

    The macros are mask tricks on machine words.  A word of `w` bits is a natural
    number below Pow2(w), and the bitwise operators are defined bit by bit, so the
    theorems below hold for every word width and every power-of-two alignment. */
module Macros {
  import opened Arithmetic

  function Pow2(k: nat): (r: nat)
    ensures r > 0
  {
    if k == 0 then 1 else 2 * Pow2(k - 1)
  }

  /** Bitwise AND. */
  function And(x: nat, y: nat): nat {
    if x == 0 || y == 0 then 0
    else 2 * And(x / 2, y / 2) + (if x % 2 == 1 && y % 2 == 1 then 1 else 0)
  }

  /** Bitwise complement of a word of w bits. */
  function Not(w: nat, x: nat): nat
    requires x < Pow2(w)
  {
    Pow2(w) - 1 - x
  }

  /** Bit number `i` of `x`. */
  predicate Bit(x: nat, i: nat) {
    if i == 0 then x % 2 == 1 else Bit(x / 2, i - 1)
  }

  /** UDO_BYTE_ALIGN(bytes, 2^k) on words of w bits; the addition wraps. */
  function ByteAlign(w: nat, bytes: nat, k: nat): nat
    requires bytes < Pow2(w) && Pow2(k) <= Pow2(w)
  {
    And((bytes + (Pow2(k) - 1)) % Pow2(w), Not(w, Pow2(k) - 1))
  }

  const PAGE_SHIFT: nat := 12
  const PAGE_SIZE: nat := 4096

  /** UDO_PAGE_GET(ptr) on addresses of w bits. */
  function PageGet(w: nat, ptr: nat): nat
    requires ptr < Pow2(w) && PAGE_SHIFT <= w
  {
    PageSizeIsPow2();
    Pow2Mono(PAGE_SHIFT, w);
    And(ptr, Not(w, PAGE_SIZE - 1))
  }

  lemma PageSizeIsPow2()
    ensures Pow2(PAGE_SHIFT) == PAGE_SIZE
  {
    assert Pow2(4) == 16;
    assert Pow2(8) == 256;
    assert Pow2(12) == 4096;
  }

  lemma {:induction false} Pow2Mono(j: nat, k: nat)
    requires j <= k
    ensures Pow2(j) <= Pow2(k)
  {
    if j < k { Pow2Mono(j, k - 1); }
  }

  /** `And` is the bitwise conjunction and `Not` the bitwise complement. */
  lemma {:induction false} AndIsBitwise(x: nat, y: nat, i: nat)
    ensures Bit(And(x, y), i) <==> Bit(x, i) && Bit(y, i)
  {
    if i > 0 {
      AndIsBitwise(x / 2, y / 2, i - 1);
      assert And(x, y) / 2 == And(x / 2, y / 2);
    } 
    if x == 0 || y == 0 { ZeroHasNoBits(i); }
  }

  lemma {:induction false} ZeroHasNoBits(i: nat)
    ensures !Bit(0, i)
  {
    if i > 0 { ZeroHasNoBits(i - 1); }
  }

  lemma {:induction false} NotIsBitwise(w: nat, x: nat, i: nat)
    requires x < Pow2(w) && i < w
    ensures Bit(Not(w, x), i) <==> !Bit(x, i)
  {
    if i > 0 {
      NotIsBitwise(w - 1, x / 2, i - 1);
      assert Not(w, x) / 2 == Not(w - 1, x / 2);
    }
  }

  /** Masking with the complement of 2^k - 1 clears the low k bits, that is,
      it rounds down to a multiple of 2^k. */
  lemma {:induction false} MaskRoundsDown(w: nat, x: nat, k: nat)
    requires x < Pow2(w) && k <= w
    ensures Pow2(k) <= Pow2(w)
    ensures And(x, Not(w, Pow2(k) - 1)) == x - x % Pow2(k)
  {
    Pow2Mono(k, w);
    if k == 0 {
      MaskAllOnes(w, x);
    } else {
      MaskRoundsDown(w - 1, x / 2, k - 1);
      MaskHalf(w, k);
      AndEven(x, Not(w - 1, Pow2(k - 1) - 1));
      HalfMod(x, Pow2(k - 1));
      MaskStep(x, Pow2(k - 1));
    }
  }

  lemma MaskHalf(w: nat, k: nat)
    requires 0 < k <= w && Pow2(k - 1) <= Pow2(w - 1)
    ensures Not(w, Pow2(k) - 1) == 2 * Not(w - 1, Pow2(k - 1) - 1)
  {
  }

  lemma AndEven(x: nat, m: nat)
    ensures And(x, 2 * m) == 2 * And(x / 2, m)
  {
    assert (2 * m) / 2 == m && (2 * m) % 2 == 0;
  }

  lemma MaskStep(x: nat, h: nat)
    requires h > 0 && x % (2 * h) == 2 * ((x / 2) % h) + x % 2
    ensures x - x % (2 * h) == 2 * (x / 2 - (x / 2) % h)
  {
  }

  lemma {:induction false} MaskAllOnes(w: nat, x: nat)
    requires x < Pow2(w)
    ensures And(x, Pow2(w) - 1) == x
  {
    if w > 0 && x > 0 {
      MaskAllOnes(w - 1, x / 2);
      assert (Pow2(w) - 1) / 2 == Pow2(w - 1) - 1;
    }
  }

  lemma HalfMod(x: nat, m: nat)
    requires m > 0
    ensures x % (2 * m) == 2 * ((x / 2) % m) + x % 2
  {
    var q, r := (x / 2) / m, (x / 2) % m;
    assert x == 2 * (q * m + r) + x % 2;
    assert x == q * (2 * m) + (2 * r + x % 2);
    DivModUnique(x, 2 * m, q, 2 * r + x % 2);
  }

  /** The macro's promise: the least multiple of the alignment not below `bytes`. */
  ghost predicate IsAlignUp(bytes: nat, a: nat, r: nat)
    requires a > 0
  {
    && r % a == 0
    && bytes <= r
    && forall m: nat :: m % a == 0 && bytes <= m ==> r <= m
  }

  lemma MultipleSplit(m: nat, a: nat)
    requires a > 0 && m % a == 0
    ensures m == (m / a) * a
  {
  }

  /** Rounding down `bytes + a - 1` gives the least multiple of `a` not below `bytes`. */
  lemma RoundUpIsLeast(bytes: nat, a: nat)
    requires a > 0
    ensures var t := bytes + a - 1; IsAlignUp(bytes, a, t - t % a)
    ensures var t := bytes + a - 1; t - t % a < bytes + a
  {
    var t := bytes + a - 1;
    var r := t - t % a;
    assert r == (t / a) * a;
    DivModUnique(r, a, t / a, 0);
    forall m: nat | m % a == 0 && bytes <= m
      ensures r <= m
    {
      MultipleSplit(m, a);
      QuotientAtMost(t, a, m / a);
    }
  }

  /** UDO_BYTE_ALIGN keeps its promise exactly when the addition does not wrap. */
  lemma ByteAlignMeetsPromise(w: nat, bytes: nat, k: nat)
    requires bytes < Pow2(w) && k <= w
    ensures Pow2(k) <= Pow2(w)
    ensures IsAlignUp(bytes, Pow2(k), ByteAlign(w, bytes, k)) <==> bytes + Pow2(k) - 1 < Pow2(w)
  {
    Pow2Mono(k, w);
    if bytes + Pow2(k) - 1 < Pow2(w) {
      ByteAlignFits(w, bytes, k);
    } else {
      ByteAlignWraps(w, bytes, k);
      AlignUpNotBelow(bytes, Pow2(k), ByteAlign(w, bytes, k));
    }
  }

  lemma AlignUpNotBelow(bytes: nat, a: nat, r: nat)
    requires a > 0 && r < bytes
    ensures !IsAlignUp(bytes, a, r)
  {
  }

  lemma ByteAlignFits(w: nat, bytes: nat, k: nat)
    requires k <= w && bytes + Pow2(k) - 1 < Pow2(w)
    ensures bytes < Pow2(w) && Pow2(k) <= Pow2(w)
    ensures IsAlignUp(bytes, Pow2(k), ByteAlign(w, bytes, k))
  {
    var a := ByteAlignUp(w, bytes, k);
  }

  lemma ByteAlignUp(w: nat, bytes: nat, k: nat) returns (a: nat)
    requires k <= w && bytes + Pow2(k) - 1 < Pow2(w)
    ensures bytes < Pow2(w) && a == Pow2(k) <= Pow2(w)
    ensures IsAlignUp(bytes, a, ByteAlign(w, bytes, k))
  {
    ByteAlignRoundsDown(w, bytes, k);
    a := Pow2(k);
    var r := ByteAlign(w, bytes, k);
    RoundedUp(bytes, a, r);
  }

  lemma RoundedUp(bytes: nat, a: nat, r: nat)
    requires a > 0 && r == (bytes + a - 1) - (bytes + a - 1) % a
    ensures IsAlignUp(bytes, a, r)
  {
    RoundUpIsLeast(bytes, a);
  }

  lemma ByteAlignRoundsDown(w: nat, bytes: nat, k: nat)
    requires k <= w && bytes + Pow2(k) - 1 < Pow2(w)
    ensures bytes < Pow2(w) && Pow2(k) <= Pow2(w)
    ensures var t := bytes + Pow2(k) - 1; ByteAlign(w, bytes, k) == t - t % Pow2(k)
  {
    Pow2Mono(k, w);
    var t := bytes + Pow2(k) - 1;
    MaskRoundsDown(w, t, k);
    DivModUnique(t, Pow2(w), 0, t);
  }

  /** When the addition wraps the macro yields zero. */
  lemma ByteAlignWraps(w: nat, bytes: nat, k: nat)
    requires bytes < Pow2(w) && k <= w && Pow2(w) <= bytes + Pow2(k) - 1
    ensures Pow2(k) <= Pow2(w)
    ensures ByteAlign(w, bytes, k) == 0 < bytes
  {
    Pow2Mono(k, w);
    var t := bytes + Pow2(k) - 1;
    DivModUnique(t, Pow2(w), 1, t - Pow2(w));
    MaskRoundsDown(w, t - Pow2(w), k);
    DivModUnique(t - Pow2(w), Pow2(k), 0, t - Pow2(w));
  }

  /** The mask form of the macro equals its division form. */
  lemma ByteAlignIsDivision(w: nat, bytes: nat, k: nat)
    requires k <= w && bytes + Pow2(k) - 1 < Pow2(w)
    ensures bytes < Pow2(w) && Pow2(k) <= Pow2(w)
    ensures ByteAlign(w, bytes, k) == (bytes + Pow2(k) - 1) / Pow2(k) * Pow2(k)
    ensures bytes <= ByteAlign(w, bytes, k) < bytes + Pow2(k)
  {
    ByteAlignRoundsDown(w, bytes, k);
    var a := Pow2(k);
    var t := bytes + a - 1;
    RoundUpIsLeast(bytes, a);
    DivModIdentity(t, a);
  }

  lemma RoundUpTo4096(x: nat, a: nat)
    requires a == 4096
    ensures (x + a - 1) / a * a == (x + 4095) / 4096 * 4096
  {
  }

  /** Aligning to a page, in plain arithmetic. */
  lemma PageAlign(w: nat, bytes: nat)
    requires PAGE_SHIFT <= w && bytes + 4095 < Pow2(w)
    ensures bytes < Pow2(w) && Pow2(PAGE_SHIFT) <= Pow2(w)
    ensures ByteAlign(w, bytes, PAGE_SHIFT) == (bytes + 4095) / 4096 * 4096
  {
    PageSizeIsPow2();
    ByteAlignIsDivision(w, bytes, PAGE_SHIFT);
    RoundUpTo4096(bytes, Pow2(PAGE_SHIFT));
  }

  /** UDO_PAGE_GET yields the greatest multiple of the page size not above the address. */
  lemma PageGetIsPageStart(w: nat, ptr: nat)
    requires ptr < Pow2(w) && PAGE_SHIFT <= w
    ensures var r := PageGet(w, ptr);
            && r % PAGE_SIZE == 0 && r <= ptr < r + PAGE_SIZE
            && r == ptr / PAGE_SIZE * PAGE_SIZE
            && forall m: nat :: m % PAGE_SIZE == 0 && m <= ptr ==> m <= r
  {
    PageSizeIsPow2();
    MaskRoundsDown(w, ptr, PAGE_SHIFT);
    RoundDownIsGreatest(ptr);
  }

  lemma RoundDownIsGreatest(x: nat)
    ensures var r := x - x % 4096;
            && r % 4096 == 0 && r <= x < r + 4096 && r == x / 4096 * 4096
            && forall m: nat :: m % 4096 == 0 && m <= x ==> m <= r
  {
    DivModIdentity(x, 4096);
  }
}
