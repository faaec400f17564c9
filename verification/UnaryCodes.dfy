/**
 * Packed unary codes: one level per dimension, written as a run of ones at the dimension's own place, and compared by
 * counting differing bits.
 */
module UnaryCodes {
  import opened Arithmetic
  import opened Bits
  import opened Common

  const WORD: nat := 64

  /** Words needed for that many dimensions of that many bits. */
  function QuantizedLen(dimensions: nat, bits: nat): nat { (dimensions * bits + WORD - 1) / WORD }

  /** The bit at a position counted across all words. */
  predicate BitOf(words: seq<bv64>, p: nat) {
    p / WORD < |words| && Bit(words[p / WORD], p % WORD)
  }

  /** Dimension `i` owns the positions from `i * stride`; its first `levels[i]` ones are lit. */
  predicate Lit(levels: seq<nat>, stride: nat, p: nat) {
    stride > 0 && p / stride < |levels| && p % stride < levels[p / stride]
  }

  ghost predicate Within(levels: seq<nat>, stride: nat) {
    forall i :: 0 <= i < |levels| ==> levels[i] <= stride
  }

  /** The words hold exactly the unary codes of the levels: no other bit is set anywhere. */
  ghost predicate Encodes(words: seq<bv64>, levels: seq<nat>, stride: nat) {
    forall p: nat :: BitOf(words, p) <==> Lit(levels, stride, p)
  }

  // ----- writing -----

  method SetBit(words: array<bv64>, p: nat)
    requires p / WORD < words.Length
    modifies words
    ensures forall q: nat :: BitOf(words[..], q) <==> q == p || BitOf(old(words[..]), q)
  {
    hide Bit, With, Mask;
    ghost var was := words[..];
    var w, k := p / WORD, p % WORD;
    words[w] := With(words[w], Mask(k));
    forall q: nat ensures BitOf(words[..], q) <==> q == p || BitOf(was, q) {
      if q / WORD == w {
        BitSet(was[w], k, q % WORD);
        assert q == WORD * w + q % WORD && p == WORD * w + k;
      }
    }
  }

  /** Writes a run of ones at the start of dimension `i`. */
  method EncodeLevel(words: array<bv64>, i: nat, stride: nat, level: nat)
    requires level <= stride && (i + 1) * stride <= WORD * words.Length
    modifies words
    ensures forall p: nat :: BitOf(words[..], p) <==> BitOf(old(words[..]), p) || i * stride <= p < i * stride + level
  {
    hide BitOf;
    var start := i * stride;
    assert (i + 1) * stride == start + stride;
    ghost var was := words[..];
    for j := 0 to level
      invariant forall p: nat :: BitOf(words[..], p) <==> BitOf(was, p) || start <= p < start + j
    {
      WordInside(start + j, words.Length);
      SetBit(words, start + j);
    }
  }

  lemma WordInside(p: nat, length: nat)
    requires p < WORD * length
    ensures p / WORD < length
  {
    DivUnique(p, WORD, p / WORD, p % WORD);
    MulStep(WORD, length, p / WORD);
  }

  /** Positions of one more dimension. */
  lemma LitSnoc(levels: seq<nat>, level: nat, stride: nat, p: nat)
    requires level <= stride
    ensures Lit(levels + [level], stride, p) <==> Lit(levels, stride, p) || |levels| * stride <= p < |levels| * stride + level
  {
    if stride > 0 {
      var q, r := p / stride, p % stride;
      assert p == stride * q + r;
      MulStep(stride, |levels|, q);
      MulStep(stride, q, |levels|);
      assert |levels| * stride == stride * |levels|;
    }
  }

  // ----- comparing -----

  function Gap(a: nat, b: nat): nat { if a <= b then b - a else a - b }

  /** The sum over all dimensions of the difference of levels. */
  function LevelDistance(a: seq<nat>, b: seq<nat>): nat
    requires |a| == |b|
  {
    if a == [] then 0 else LevelDistance(a[..|a| - 1], b[..|b| - 1]) + Gap(a[|a| - 1], b[|b| - 1])
  }

  /** How many of the first `n` positions are lit in one code and not in the other. */
  function Differing(a: seq<nat>, b: seq<nat>, stride: nat, n: nat): nat {
    if n == 0 then 0
    else Differing(a, b, stride, n - 1) + if Lit(a, stride, n - 1) != Lit(b, stride, n - 1) then 1 else 0
  }

  lemma {:induction false} WordDiffers(wa: seq<bv64>, wb: seq<bv64>, a: seq<nat>, b: seq<nat>, stride: nat, w: nat, k: nat)
    requires Encodes(wa, a, stride) && Encodes(wb, b, stride) && w < |wa| == |wb| && k <= WORD
    ensures Differing(a, b, stride, WORD * w + k) == Differing(a, b, stride, WORD * w) + OnesBelow(wa[w] ^ wb[w], k)
  {
    hide Bit, Lit;
    if k > 0 {
      var p := WORD * w + (k - 1);
      WordDiffers(wa, wb, a, b, stride, w, k - 1);
      DivUnique(p, WORD, w, k - 1);
      BitXor(wa[w], wb[w], k - 1);
      assert BitOf(wa, p) <==> Lit(a, stride, p);
      assert BitOf(wb, p) <==> Lit(b, stride, p);
    }
  }

  lemma {:induction false} WordsDiffer(wa: seq<bv64>, wb: seq<bv64>, a: seq<nat>, b: seq<nat>, stride: nat, w: nat)
    requires Encodes(wa, a, stride) && Encodes(wb, b, stride) && w <= |wa| == |wb|
    ensures XorCount(wa[..w], wb[..w]) == Differing(a, b, stride, WORD * w)
  {
    hide Encodes, OnesBelow;
    if w > 0 {
      WordsDiffer(wa, wb, a, b, stride, w - 1);
      WordDiffers(wa, wb, a, b, stride, w - 1, WORD);
      assert wa[..w][..w - 1] == wa[..w - 1] && wb[..w][..w - 1] == wb[..w - 1];
    }
  }

  /** Within one dimension, unary codes differ in as many positions as the levels are apart. */
  lemma {:induction false} RunDiffers(a: seq<nat>, b: seq<nat>, stride: nat, i: nat, j: nat)
    requires i < |a| == |b| && j <= stride
    ensures Differing(a, b, stride, stride * i + j) == Differing(a, b, stride, stride * i) + Gap(Min(a[i], j), Min(b[i], j))
  {
    if j > 0 {
      var p := stride * i + (j - 1);
      RunDiffers(a, b, stride, i, j - 1);
      DivUnique(p, stride, i, j - 1);
    }
  }

  lemma {:induction false} RunsDiffer(a: seq<nat>, b: seq<nat>, stride: nat, i: nat)
    requires i <= |a| == |b| && Within(a, stride) && Within(b, stride)
    ensures Differing(a, b, stride, stride * i) == LevelDistance(a[..i], b[..i])
  {
    if i > 0 {
      RunsDiffer(a, b, stride, i - 1);
      RunDiffers(a, b, stride, i - 1, stride);
      assert stride * i == stride * (i - 1) + stride;
      assert a[..i][..i - 1] == a[..i - 1] && b[..i][..i - 1] == b[..i - 1];
    }
  }

  /** Beyond the last dimension nothing is lit. */
  lemma NotLit(levels: seq<nat>, stride: nat, p: nat)
    requires p >= stride * |levels|
    ensures !Lit(levels, stride, p)
  {
    if stride > 0 {
      assert p == stride * (p / stride) + p % stride;
      MulStep(stride, p / stride, |levels|);
    }
  }

  lemma {:induction false} NothingBeyond(a: seq<nat>, b: seq<nat>, stride: nat, from: nat, n: nat)
    requires |a| == |b| && from == stride * |a| && n >= from
    ensures Differing(a, b, stride, n) == Differing(a, b, stride, from)
  {
    hide Lit;
    if n > from {
      NothingBeyond(a, b, stride, from, n - 1);
      NotLit(a, stride, n - 1);
      NotLit(b, stride, n - 1);
    }
  }

  /** Counting the differing bits of two packed codes gives the sum of the differences of their levels. */
  lemma XorIsLevelDistance(wa: seq<bv64>, wb: seq<bv64>, a: seq<nat>, b: seq<nat>, stride: nat)
    requires Encodes(wa, a, stride) && Encodes(wb, b, stride) && Within(a, stride) && Within(b, stride)
    requires |a| == |b| && |wa| == |wb| && stride * |a| <= WORD * |wa|
    ensures XorCount(wa, wb) == LevelDistance(a, b)
  {
    hide Encodes, XorCount, LevelDistance, Differing;
    WordsDiffer(wa, wb, a, b, stride, |wa|);
    NothingBeyond(a, b, stride, stride * |a|, WORD * |wa|);
    RunsDiffer(a, b, stride, |a|);
    assert wa[..|wa|] == wa && wb[..|wb|] == wb && a[..|a|] == a && b[..|b|] == b;
  }

  /** The kernel over words. */
  method DistanceXor(a: seq<bv64>, b: seq<bv64>) returns (d: nat)
    requires |a| == |b|
    ensures d == XorCount(a, b)
  {
    d := 0;
    for i := 0 to |a|
      invariant d == XorCount(a[..i], b[..i])
    {
      assert a[..i + 1][..i] == a[..i] && b[..i + 1][..i] == b[..i];
      d := d + CountOnes(a[i] ^ b[i]);
    }
    assert a[..|a|] == a && b[..|b|] == b;
  }
}
