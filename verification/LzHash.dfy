/** The hash values of HASH4_CALC, and what equal hash values say about the bytes. */
module LzHash {
  import opened Bytes
  import opened LzOrder

  /** Exclusive or of two non-negative integers. */
  function Xor(a: nat, b: nat): nat
    decreases a + b
  {
    if a == 0 && b == 0 then 0 else 2 * Xor(a / 2, b / 2) + (a % 2 + b % 2) % 2
  }

  lemma HalfMod(x: nat, k: nat)
    requires k > 0
    ensures x % Pow2(k) == 2 * (x / 2 % Pow2(k - 1)) + x % 2
  {
    var p, h := Pow2(k - 1), x / 2;
    var q, r := h / p, h % p;
    assert h == p * q + r;
    assert x == (2 * p) * q + (2 * r + x % 2) by { assert 2 * (p * q) == (2 * p) * q; }
    DivModUnique(x, 2 * p, q, 2 * r + x % 2);
  }

  lemma XorHalf(a: nat, b: nat)
    ensures Xor(a, b) / 2 == Xor(a / 2, b / 2) && Xor(a, b) % 2 == (a % 2 + b % 2) % 2
  {}

  lemma BitCancel(t: nat, a: nat, b: nat)
    requires t < 2 && a < 2 && b < 2 && (t + a) % 2 == (t + b) % 2
    ensures a == b
  {}

  lemma TwiceAndBit(p: nat, a: nat, q: nat, b: nat)
    requires a < 2 && b < 2 && 2 * p + a == 2 * q + b
    ensures p == q && a == b
  {}

  lemma Pow2Zero(x: nat)
    ensures x % Pow2(0) == 0
  {}

  /** The low k bits of an exclusive or with a known number give back the other operand's. */
  lemma {:induction false} XorCancel(t: nat, a: nat, b: nat, k: nat)
    requires Xor(t, a) % Pow2(k) == Xor(t, b) % Pow2(k)
    ensures a % Pow2(k) == b % Pow2(k)
    decreases k
  {
    hide Xor, Pow2;
    if k > 0 {
      XorHalf(t, a);
      XorHalf(t, b);
      HalfMod(Xor(t, a), k);
      HalfMod(Xor(t, b), k);
      TwiceAndBit(Xor(t / 2, a / 2) % Pow2(k - 1), Xor(t, a) % 2, Xor(t / 2, b / 2) % Pow2(k - 1), Xor(t, b) % 2);
      BitCancel(t % 2, a % 2, b % 2);
      XorCancel(t / 2, a / 2, b / 2, k - 1);
      HalfMod(a, k);
      HalfMod(b, k);
    } else {
      Pow2Zero(a);
      Pow2Zero(b);
    }
  }

  lemma ShiftHalf(y: nat, k: nat)
    requires k > 0
    ensures Pow2(k) * y / 2 == Pow2(k - 1) * y && Pow2(k) * y % 2 == 0
  {
    assert Pow2(k) * y == 2 * (Pow2(k - 1) * y);
  }

  /** A number shifted left by k bits leaves the low k bits alone. */
  lemma {:induction false} XorShifted(u: nat, y: nat, k: nat)
    ensures Xor(u, Pow2(k) * y) % Pow2(k) == u % Pow2(k)
    decreases k
  {
    hide Xor, Pow2;
    var z := Pow2(k) * y;
    if k > 0 {
      ShiftHalf(y, k);
      XorHalf(u, z);
      HalfMod(Xor(u, z), k);
      HalfMod(u, k);
      XorShifted(u / 2, y, k - 1);
    } else {
      Pow2Zero(Xor(u, z));
      Pow2Zero(u);
    }
  }

  lemma Powers()
    ensures Pow2(8) == 0x100 && Pow2(10) == 0x400 && Pow2(16) == 0x1_0000
  {}

  lemma ModMod(x: nat)
    ensures x % 0x1_0000 % 0x100 == x % 0x100
  {}

  // ----- the hash values of four bytes -----

  type Table = t: seq<nat> | |t| == 256 witness seq(256, i => 0)

  const HASH2: nat := 0x400
  const HASH3: nat := 0x1_0000

  function Temp(crc: Table, d: seq<byte>, i: nat): nat { Xor(crc[At(d, i)], At(d, i + 1)) }

  function Temp3(crc: Table, d: seq<byte>, i: nat): nat { Xor(Temp(crc, d, i), 0x100 * At(d, i + 2)) }

  /** h2. */
  function Hash2(crc: Table, d: seq<byte>, i: nat): nat { Temp(crc, d, i) % HASH2 }

  /** h3. */
  function Hash3(crc: Table, d: seq<byte>, i: nat): nat { Temp3(crc, d, i) % HASH3 }

  /** hv; the mask is one less than the power of two `size`. */
  function Hash4(crc: Table, d: seq<byte>, i: nat, size: nat): nat
    requires size > 0
  {
    Xor(Temp3(crc, d, i), 0x20 * crc[At(d, i + 3)] % TWO32) % size
  }

  /** Equal first bytes and equal h2: the first two bytes agree. */
  lemma Hash2Means(crc: Table, d: seq<byte>, i: nat, j: nat)
    requires At(d, i) == At(d, j) && Hash2(crc, d, i) == Hash2(crc, d, j)
    ensures At(d, i + 1) == At(d, j + 1)
  {
    hide Xor;
    Powers();
    XorCancel(crc[At(d, i)], At(d, i + 1), At(d, j + 1), 10);
  }

  /** Equal first bytes and equal h3: the first three bytes agree. */
  lemma Hash3Means(crc: Table, d: seq<byte>, i: nat, j: nat)
    requires At(d, i) == At(d, j) && Hash3(crc, d, i) == Hash3(crc, d, j)
    ensures At(d, i + 1) == At(d, j + 1) && At(d, i + 2) == At(d, j + 2)
  {
    hide Xor, At;
    Powers();
    var x: nat, y: nat := At(d, i + 2), At(d, j + 2);
    ModMod(Temp3(crc, d, i));
    ModMod(Temp3(crc, d, j));
    XorShifted(Temp(crc, d, i), x, 8);
    XorShifted(Temp(crc, d, j), y, 8);
    XorCancel(crc[At(d, i)], At(d, i + 1), At(d, j + 1), 8);
    XorCancel(Temp(crc, d, i), 0x100 * x, 0x100 * y, 16);
    DivModUnique(0x100 * x, 0x1_0000, 0, 0x100 * x);
    DivModUnique(0x100 * y, 0x1_0000, 0, 0x100 * y);
  }
}
