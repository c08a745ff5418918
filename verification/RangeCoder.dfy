/** What the adaptive binary range coders of Bcj2.c, Bcj2Enc.c and LzmaDec.c share. */
module RangeCoder {
  import opened Bytes

  const TOP: int := 0x100_0000
  const BIT_MODEL_TOTAL: int := 2048

  /** A probability that has only been through UPDATE_0 and UPDATE_1. */
  type prob = p: int | 31 <= p <= 2017 witness 1024

  function Update(p: prob, bit: bool): (q: prob) {
    if bit then p - p / 32 else p + (BIT_MODEL_TOTAL - p) / 32
  }

  function Bound(range: int, p: prob): int {
    range / BIT_MODEL_TOTAL * p
  }

  /** Both halves of a normalised range are large enough for one shift to normalise them again. */
  lemma BoundInside(range: int, p: prob)
    requires TOP <= range < TWO32
    ensures 0x1_0000 <= Bound(range, p)
    ensures Bound(range, p) + 0x1_0000 <= range
  {
    var q := range / BIT_MODEL_TOTAL;
    assert range == BIT_MODEL_TOTAL * q + range % BIT_MODEL_TOTAL;
    MulMonotone(q, 31, p);
    MulMonotone(q, p, 2017);
  }

  /** The number that a big-endian byte string denotes. */
  function Val(s: seq<byte>): (v: nat) {
    if s == [] then 0 else 256 * Val(s[..|s| - 1]) + s[|s| - 1]
  }

  function Pow256(n: nat): (v: nat)
    ensures v > 0
  {
    if n == 0 then 1 else 256 * Pow256(n - 1)
  }

  lemma ValAppend(s: seq<byte>, b: byte)
    ensures Val(s + [b]) == 256 * Val(s) + b as int
  {
    assert (s + [b])[..|s|] == s;
  }

  lemma {:induction false} ValConcat(a: seq<byte>, b: seq<byte>)
    ensures Val(a + b) == Val(a) * Pow256(|b|) + Val(b)
    ensures Val(b) < Pow256(|b|)
    decreases |b|
  {
    if b == [] {
      assert a + b == a;
    } else {
      var b0, l := b[..|b| - 1], b[|b| - 1];
      ValConcat(a, b0);
      assert a + b == (a + b0) + [l];
      assert b == b0 + [l];
      ValAppend(a + b0, l);
      assert 256 * (Val(a) * Pow256(|b0|)) == Val(a) * (256 * Pow256(|b0|));
    }
  }
}
