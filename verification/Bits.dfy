/**
 * Single bits of 64-bit words, and counting them: masks, what setting one bit changes, and the bits of an exclusive
 * or of two words.
 */
module Bits {

  /** One shifted left `k` times. */
  function Mask(k: nat): bv64 {
    if k == 0 then 1 else Mask(k - 1) << 1
  }

  predicate Bit(w: bv64, k: nat) { Hits(w, Mask(k)) }

  /** At most one bit is set. */
  predicate Single(m: bv64) { m & (m - 1) == 0 }

  /** All bits of `a` are below the single bit `m`. */
  predicate Under(a: bv64, m: bv64) { a & (m - 1) == a }

  predicate Apart(a: bv64, b: bv64) { a & b == 0 }

  lemma ShiftSingle(m: bv64)
    requires Single(m)
    ensures Single(m << 1) && Under(m, m << 1)
  {}

  lemma ShiftUnder(a: bv64, m: bv64)
    requires Single(m) && Under(a, m)
    ensures Under(a, m << 1)
  {}

  lemma UnderApart(a: bv64, m: bv64)
    requires Single(m) && Under(a, m)
    ensures Apart(a, m) && Apart(m, a)
  {}

  lemma {:induction false} MaskSingle(k: nat)
    ensures Single(Mask(k))
  {
    if k > 0 {
      hide Single;
      MaskSingle(k - 1);
      ShiftSingle(Mask(k - 1));
    }
  }

  /** A lower mask lies among the bits below a higher one. */
  lemma {:induction false} MaskBelow(j: nat, k: nat)
    requires j < k
    ensures Under(Mask(j), Mask(k))
  {
    hide Single, Under;
    MaskSingle(k - 1);
    if j == k - 1 {
      ShiftSingle(Mask(j));
    } else {
      MaskBelow(j, k - 1);
      ShiftUnder(Mask(j), Mask(k - 1));
    }
  }

  lemma MasksApart(j: nat, k: nat)
    requires j != k
    ensures Apart(Mask(j), Mask(k))
  {
    hide Single, Under, Apart, Mask;
    MaskSingle(j);
    MaskSingle(k);
    if j < k {
      MaskBelow(j, k);
      UnderApart(Mask(j), Mask(k));
    } else {
      MaskBelow(k, j);
      UnderApart(Mask(k), Mask(j));
    }
  }

  lemma {:induction false} ZeroStays(k: nat, n: nat)
    requires k <= n && Mask(k) == 0
    ensures Mask(n) == 0
  {
    if k < n {
      ZeroStays(k, n - 1);
    }
  }

  lemma TopMask()
    ensures Mask(63) == 0x8000_0000_0000_0000
  {
    assert Mask(8) == 0x100;
    assert Mask(16) == 0x1_0000;
    assert Mask(24) == 0x100_0000;
    assert Mask(32) == 0x1_0000_0000;
    assert Mask(40) == 0x100_0000_0000;
    assert Mask(48) == 0x1_0000_0000_0000;
    assert Mask(56) == 0x100_0000_0000_0000;
  }

  lemma MaskNonzero(k: nat)
    requires k < 64
    ensures Mask(k) != 0
  {
    TopMask();
    if Mask(k) == 0 {
      ZeroStays(k, 63);
    }
  }

  predicate Hits(w: bv64, m: bv64) { w & m != 0 }

  function With(w: bv64, m: bv64): bv64 { w | m }

  lemma SetSame(w: bv64, m: bv64)
    requires m != 0
    ensures Hits(With(w, m), m)
  {}

  lemma SetOther(w: bv64, m: bv64, other: bv64)
    requires Apart(m, other)
    ensures Hits(With(w, m), other) == Hits(w, other)
  {}

  lemma OwnBit(w: bv64, k: nat)
    requires k < 64
    ensures Bit(With(w, Mask(k)), k)
  {
    hide Hits, With;
    MaskNonzero(k);
    SetSame(w, Mask(k));
  }

  /** Setting a bit sets that bit and no other. */
  lemma BitSet(w: bv64, k: nat, j: nat)
    requires k < 64
    ensures Bit(With(w, Mask(k)), j) <==> j == k || Bit(w, j)
  {
    hide Mask, Hits, Apart, With;
    if j == k {
      OwnBit(w, k);
    } else {
      MasksApart(k, j);
      SetOther(w, Mask(k), Mask(j));
    }
  }

  lemma XorOne(a: bv64, b: bv64, m: bv64)
    requires Single(m)
    ensures Hits(a ^ b, m) <==> Hits(a, m) != Hits(b, m)
  {}

  lemma BitXor(a: bv64, b: bv64, k: nat)
    ensures Bit(a ^ b, k) <==> Bit(a, k) != Bit(b, k)
  {
    hide Mask, Hits, Single;
    MaskSingle(k);
    XorOne(a, b, Mask(k));
  }

  lemma ZeroMisses(m: bv64)
    ensures !Hits(0, m)
  {}

  lemma BitZero(k: nat)
    ensures !Bit(0, k)
  {
    ZeroMisses(Mask(k));
  }

  /** How many of the lowest `n` bits are set. */
  function OnesBelow(w: bv64, n: nat): nat {
    if n == 0 then 0 else OnesBelow(w, n - 1) + if Bit(w, n - 1) then 1 else 0
  }

  function CountOnes(w: bv64): nat { OnesBelow(w, 64) }

  /** The number of differing bits of two equally long lists of words. */
  function XorCount(a: seq<bv64>, b: seq<bv64>): nat
    requires |a| == |b|
  {
    if a == [] then 0 else XorCount(a[..|a| - 1], b[..|b| - 1]) + CountOnes(a[|a| - 1] ^ b[|b| - 1])
  }
}
