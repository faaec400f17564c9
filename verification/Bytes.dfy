/** Bytes and fixed-width little-endian integers. */
module Bytes {
  import opened Arithmetic

  type Byte = b: nat | b < 256

  function Pow256(width: nat): (p: nat)
    ensures p > 0
  {
    if width == 0 then 1 else 256 * Pow256(width - 1)
  }

  /** The low `width` bytes of a number, least significant first. */
  function Le(n: nat, width: nat): (bytes: seq<Byte>)
    ensures |bytes| == width
  {
    if width == 0 then [] else [n % 256] + Le(n / 256, width - 1)
  }

  function FromLe(bytes: seq<Byte>): nat {
    if bytes == [] then 0 else bytes[0] + 256 * FromLe(bytes[1..])
  }

  const U16: nat := 65536
  const U32: nat := 4294967296
  const U64: nat := 18446744073709551616
  const U128: nat := 340282366920938463463374607431768211456

  lemma Widths()
    ensures Pow256(2) == U16 && Pow256(4) == U32 && Pow256(8) == U64 && Pow256(16) == U128
  {
    assert Pow256(1) == 256;
    assert Pow256(2) == U16;
    assert Pow256(3) == 256 * U16;
    assert Pow256(4) == U32;
    assert Pow256(5) == 256 * U32;
    assert Pow256(6) == 65536 * U32;
    assert Pow256(7) == 16777216 * U32;
    assert Pow256(8) == U64;
    assert Pow256(9) == 256 * U64;
    assert Pow256(10) == 65536 * U64;
    assert Pow256(11) == 16777216 * U64;
    assert Pow256(12) == U32 * U64;
    assert Pow256(13) == 256 * (U32 * U64);
    assert Pow256(14) == 65536 * (U32 * U64);
    assert Pow256(15) == 16777216 * (U32 * U64);
    assert Pow256(16) == U128;
  }

  lemma ModStep(n: nat, p: nat)
    requires p > 0
    ensures n % (256 * p) == n % 256 + 256 * ((n / 256) % p)
  {
    var m, low := n / 256, n % 256;
    var q, high := m / p, m % p;
    assert m == p * q + high;
    MulShift(p, q);
    DivUnique(n, 256 * p, q, 256 * high + low);
  }

  lemma MulShift(p: nat, q: nat)
    ensures 256 * (p * q) == (256 * p) * q
  {}

  /** Reading back what was written truncates to the width and loses nothing else. */
  lemma {:induction false} LeRoundTrip(n: nat, width: nat)
    ensures FromLe(Le(n, width)) == n % Pow256(width)
  {
    if width > 0 {
      LeRoundTrip(n / 256, width - 1);
      assert Le(n, width)[1..] == Le(n / 256, width - 1);
      ModStep(n, Pow256(width - 1));
    }
  }

  lemma LeExact(n: nat, width: nat)
    requires n < Pow256(width)
    ensures FromLe(Le(n, width)) == n
  {
    LeRoundTrip(n, width);
    DivUnique(n, Pow256(width), 0, n);
  }

  lemma {:induction false} FromLeBound(bytes: seq<Byte>)
    ensures FromLe(bytes) < Pow256(|bytes|)
  {
    if bytes != [] {
      FromLeBound(bytes[1..]);
    }
  }
}
