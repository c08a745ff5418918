/** Machine integers of the LZMA SDK, modelled on unbounded `int`. */
module Bytes {
  type byte = b: int | 0 <= b < 256

  const TWO32: int := 0x1_0000_0000

  /** A value that fits the SDK's UInt32. */
  type u32 = v: int | 0 <= v < 0x1_0000_0000

  function Pow2(k: nat): (r: nat)
    ensures r > 0
  {
    if k == 0 then 1 else 2 * Pow2(k - 1)
  }

  lemma DivModUnique(x: int, d: int, q: int, r: int)
    requires d > 0 && 0 <= r < d && x == d * q + r
    ensures x / d == q && x % d == r
  {
    var q', r' := x / d, x % d;
    assert x == d * q' + r';
    if q' < q {
      MulMonotone(d, q' + 1, q);
    } else if q < q' {
      MulMonotone(d, q + 1, q');
    }
  }

  lemma MulMonotone(d: int, a: int, b: int)
    requires d >= 0 && a <= b
    ensures d * a <= d * b
  {}

  lemma ModAddMultiple(x: int, d: int, k: int)
    requires d > 0
    ensures (x + d * k) / d == x / d + k && (x + d * k) % d == x % d
  {
    assert d * (x / d + k) == d * (x / d) + d * k;
    DivModUnique(x + d * k, d, x / d + k, x % d);
  }

  /** Division in two steps. */
  lemma DivTwice(x: int, d: int, e: int)
    requires d > 0 && e > 0
    ensures d * e > 0
    ensures x / d / e == x / (d * e) && x / d % e == x % (d * e) / d
  {
    var q, r := x / d, x % d;
    var q', r' := q / e, q % e;
    assert x == d * q + r && q == e * q' + r';
    assert d * q == (d * e) * q' + d * r' by { assert d * (e * q' + r') == d * (e * q') + d * r'; }
    MulMonotone(d, r', e - 1);
    MulMonotone(d, 0, r');
    DivModUnique(x, d * e, q', d * r' + r);
    DivModUnique(d * r' + r, d, r', r);
  }
}
