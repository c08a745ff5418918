/** CrcUpdateT1_BeT4 and T1_BeT8: the same on a machine that reads words highest byte first, where the
    state and the tables are kept byte-swapped. */
module CrcSwap {
  import opened Crc
  import opened CrcTable
  import opened CrcUpdate

  function Or(a: word, b: word): word { a | b }

  function B0(v: word): word { v << 24 }

  function B1(v: word): word { (v << 8) & 0xFF0000 }

  function B2(v: word): word { (v >> 8) & 0xFF00 }

  function B3(v: word): word { v >> 24 }

  /** CRC_UINT32_SWAP. */
  function Swap(v: word): word { Or(Or(Or(B3(v), B2(v)), B1(v)), B0(v)) }

  lemma SwapTwice(v: word)
    ensures Swap(Swap(v)) == v
  {}

  lemma Disjoint(v: word)
    ensures Swap(v) == X(X(X(B3(v), B2(v)), B1(v)), B0(v))
  {}

  lemma Cross(a: word, b: word, c: word, d: word)
    ensures X(X(a, b), X(c, d)) == X(X(a, c), X(b, d))
  {
    hide X;
    Assoc(a, b, X(c, d));
    Assoc(b, c, d);
    Comm(b, c);
    Assoc(c, b, d);
    Assoc(a, c, X(b, d));
  }

  lemma OuterX(a: word, b: word)
    ensures B0(X(a, b)) == X(B0(a), B0(b)) && B3(X(a, b)) == X(B3(a), B3(b))
  {}

  lemma Inner1X(a: word, b: word)
    ensures B1(X(a, b)) == X(B1(a), B1(b))
  {}

  lemma Inner2X(a: word, b: word)
    ensures B2(X(a, b)) == X(B2(a), B2(b))
  {}

  lemma SwapX(a: word, b: word)
    ensures Swap(X(a, b)) == X(Swap(a), Swap(b))
  {
    hide X, B0, B1, B2, B3, Swap;
    Disjoint(X(a, b));
    Disjoint(a);
    Disjoint(b);
    OuterX(a, b);
    Inner1X(a, b);
    Inner2X(a, b);
    Cross(B3(a), B3(b), B2(a), B2(b));
    Cross(X(B3(a), B2(a)), X(B3(b), B2(b)), B1(a), B1(b));
    Cross(X(X(B3(a), B2(a)), B1(a)), X(X(B3(b), B2(b)), B1(b)), B0(a), B0(b));
  }

  lemma UpOr(a: word, b: word)
    ensures Up(Or(a, b)) == Or(Up(a), Up(b))
  {}

  lemma ByteUp(v: word)
    ensures Up(B3(v)) == B2(Down(v)) && Up(B2(v)) == B1(Down(v)) && Up(B1(v)) == B0(Down(v))
            && Up(B0(v)) == 0 == B3(Down(v))
  {}

  lemma OrZero(a: word, b: word, c: word)
    ensures Or(Or(Or(a, b), c), 0) == Or(Or(Or(0, a), b), c)
  {}

  lemma SwapDown(v: word)
    ensures Swap(Down(v)) == Up(Swap(v))
  {
    hide Or, Up, Down, B0, B1, B2, B3;
    UpOr(Or(Or(B3(v), B2(v)), B1(v)), B0(v));
    UpOr(Or(B3(v), B2(v)), B1(v));
    UpOr(B3(v), B2(v));
    ByteUp(v);
    OrZero(Up(B3(v)), Up(B2(v)), Up(B1(v)));
  }

  lemma LowPlaces(v: word)
    ensures Byte3(Swap(v)) == Low(v) && Low(Swap(v)) == Byte3(v)
  {}

  lemma MidPlaces(v: word)
    ensures Byte2(Swap(v)) == Byte1(v) && Byte1(Swap(v)) == Byte2(v)
  {}

  lemma SwapPlaces(v: word)
    ensures Byte3(Swap(v)) == Low(v) && Byte2(Swap(v)) == Byte1(v) && Byte1(Swap(v)) == Byte2(v)
            && Low(Swap(v)) == Byte3(v)
  {
    hide Byte1, Byte2, Byte3, Low, Swap;
    LowPlaces(v);
    MidPlaces(v);
  }

  ghost predicate SwappedAt(t: seq<word>, k: nat, r: word) {
    At(t, k + 1, r) == Swap(Zeros(k + 1, Low(r)))
  }

  /** Table k + 1 is the swapped table k. */
  ghost predicate IsSwapped(t: seq<word>, n: nat) {
    |t| >= 256 * (n + 1) && forall k: nat, r :: k < n ==> SwappedAt(t, k, r)
  }

  lemma SwappedAll(t: seq<word>, t': seq<word>, n: nat)
    requires IsTable(t, n + 1) && |t'| == |t| == 256 * (n + 1)
    requires forall j :: 256 <= j < |t| ==> t'[j] == Swap(t[j - 256])
    ensures IsSwapped(t', n)
  {
    hide Swap, Zeros, Low, Index;
    forall k: nat, r | k < n ensures SwappedAt(t', k, r) {
      assert At(t, k, r) == Zeros(k + 1, Low(r));
      assert t'[256 * (k + 1) + Index(r)] == Swap(t[256 * k + Index(r)]);
    }
  }

  /** The end of CrcGenerateTable on such a machine. */
  method SwapTables(table: array<word>, n: nat)
    requires table.Length == 256 * (n + 1) && IsTable(table[..], n + 1)
    modifies table
    ensures IsSwapped(table[..], n)
  {
    hide IsTable, IsSwapped, Swap;
    ghost var t := table[..];
    var i := 256 * (n + 1) - 1;
    while i >= 256
      invariant 255 <= i < table.Length
      invariant forall j :: i < j < |t| ==> table[j] == Swap(t[j - 256])
      invariant forall j :: 0 <= j <= i ==> table[j] == t[j]
    {
      var x := table[i - 256];
      table[i] := Swap(x);
      i := i - 1;
    }
    SwappedAll(t, table[..], n);
  }

  lemma SwappedEntry(t: seq<word>, n: nat, k: nat, r: word)
    requires IsSwapped(t, n) && k < n
    ensures 256 * (k + 1) + Index(r) < |t| && t[256 * (k + 1) + Index(r)] == Swap(Zeros(k + 1, Low(r)))
  {
    hide Zeros, Low, Index, Swap;
    assert SwappedAt(t, k, r);
  }

  lemma SwappedSize(t: seq<word>, n: nat)
    requires IsSwapped(t, n)
    ensures |t| >= 256 * (n + 1)
  {}

  /** (crc >> 24) ^ b as an index. */
  function TopWith(v: word, b: bv8): (i: nat)
    ensures i < 256
  {
    TopWithBound(v, b);
    ((v >> 24) ^ (b as bv32)) as nat
  }

  lemma TopWithBound(v: word, b: bv8)
    ensures ((v >> 24) ^ (b as bv32)) as nat < 256
  {}

  lemma TopWithIs(v: word, b: bv8)
    ensures TopWith(Swap(v), b) == Index(X(v, Wide(b)))
  {}

  lemma SwappedByteIs(t: seq<word>, n: nat, v: word, b: bv8)
    requires IsSwapped(t, n) && n > 0
    ensures |t| >= 512 && X(t[256 + TopWith(Swap(v), b)], Up(Swap(v))) == Swap(Eight(X(v, Wide(b))))
  {
    hide Eight, X, Wide, Low, Down, Up, Zeros, Index, TopWith, Swap;
    var u := X(v, Wide(b));
    SwappedSize(t, n);
    SwappedEntry(t, n, 0, u);
    ZerosOne(Low(u));
    EightSplit(u);
    DownByte(v, b);
    TopWithIs(v, b);
    SwapDown(v);
    SwapX(Eight(Low(u)), Down(u));
  }

  lemma SwappedByte(t: seq<word>, n: nat, v: word, data: seq<bv8>, p: nat)
    requires IsSwapped(t, n) && n > 0 && p < |data|
    ensures |t| >= 512
    ensures Update(Swap(v), data[p..]) == Update(Swap(X(t[256 + TopWith(v, data[p])], Up(v))), data[p + 1..])
  {
    hide Eight, X, Wide, Up, Update, IsSwapped, TopWith, Swap;
    SwapTwice(v);
    SwappedByteIs(t, n, Swap(v), data[p]);
    SwapTwice(Eight(X(Swap(v), Wide(data[p]))));
    UpdateIs(Swap(v), data[p..]);
    assert data[p..][0] == data[p] && data[p..][1..] == data[p + 1..];
  }

  /** Four lookups, in the swapped tables n to n + 3. */
  function SwappedStep(t: seq<word>, n: nat, u: word): word
    requires |t| >= 256 * (n + 5)
  {
    X(X(X(t[256 * (n + 1) + Index(u)], t[256 * (n + 2) + Index(Down(u))]), t[256 * (n + 3) + Index(Down(Down(u)))]),
        t[256 * (n + 4) + Top(u)])
  }

  lemma Reverse4(a: word, b: word, c: word, d: word)
    ensures X(X(X(a, b), c), d) == X(X(X(d, c), b), a)
  {
    hide X;
    Comm(X(X(a, b), c), d);
    Comm(X(a, b), c);
    Comm(a, b);
    Assoc(d, c, X(b, a));
    Assoc(X(d, c), b, a);
  }

  lemma SwapSlices(a: word, b: word, c: word, d: word)
    ensures Swap(X(X(X(a, b), c), d)) == X(X(X(Swap(d), Swap(c)), Swap(b)), Swap(a))
  {
    hide X, Swap;
    SwapX(X(X(a, b), c), d);
    SwapX(X(a, b), c);
    SwapX(a, b);
    Reverse4(Swap(a), Swap(b), Swap(c), Swap(d));
  }

  lemma SwappedStepIs(t: seq<word>, n: nat, u: word)
    requires IsSwapped(t, n + 4)
    ensures |t| >= 256 * (n + 5) && SwappedStep(t, n, Swap(u)) == Swap(Zeros(n + 4, u))
  {
    hide Eight, X, Low, Down, Zeros, Index, Top, Byte1, Byte2, Byte3, IsSwapped, Swap;
    SwappedSize(t, n + 4);
    SwappedEntry(t, n + 4, n + 3, u);
    SwappedEntry(t, n + 4, n + 2, Byte1(u));
    SwappedEntry(t, n + 4, n + 1, Byte2(u));
    SwappedEntry(t, n + 4, n, Byte3(u));
    Places(u);
    Places(Swap(u));
    SwapPlaces(u);
    SlicesAre(n, u);
    SwapSlices(Zeros(n + 4, Low(u)), Zeros(n + 3, Byte1(u)), Zeros(n + 2, Byte2(u)), Zeros(n + 1, Byte3(u)));
  }

  /** A word read highest byte first. */
  function SwappedWordAt(data: seq<bv8>, p: nat): word
    requires p + 4 <= |data|
  {
    Word(data[p + 3], data[p + 2], data[p + 1], data[p])
  }

  lemma SwapWord(b0: bv8, b1: bv8, b2: bv8, b3: bv8)
    ensures Word(b3, b2, b1, b0) == Swap(Word(b0, b1, b2, b3))
  {}

  lemma SwappedFour(t: seq<word>, n: nat, v: word, data: seq<bv8>, p: nat)
    requires IsSwapped(t, n) && n >= 4 && p + 4 <= |data|
    ensures |t| >= 256 * 5
    ensures Update(Swap(v), data[p..]) == Update(Swap(SwappedStep(t, 0, X(v, SwappedWordAt(data, p)))), data[p + 4..])
  {
    hide X, Zeros, Update, SwappedStep, Word, Swap;
    SwappedLess(t, n, 4);
    var u := X(Swap(v), WordAt(data, p));
    SwapWord(data[p], data[p + 1], data[p + 2], data[p + 3]);
    SwapX(Swap(v), WordAt(data, p));
    SwapTwice(v);
    SwappedStepIs(t, 0, u);
    SwapTwice(Zeros(4, u));
    WordStart(Swap(v), data, p);
  }

  lemma SwappedLess(t: seq<word>, n: nat, m: nat)
    requires IsSwapped(t, n) && m <= n
    ensures IsSwapped(t, m)
  {
    hide Zeros, At, Swap, SwappedAt;
  }

  lemma SwappedEight(t: seq<word>, n: nat, v: word, data: seq<bv8>, p: nat)
    requires IsSwapped(t, n) && n >= 8 && p + 8 <= |data|
    ensures |t| >= 256 * 9
    ensures Update(Swap(v), data[p..])
            == Update(Swap(X(SwappedStep(t, 4, X(v, SwappedWordAt(data, p))),
                SwappedStep(t, 0, SwappedWordAt(data, p + 4)))), data[p + 8..])
  {
    hide X, Zeros, Update, SwappedStep, Word, Swap;
    SwappedLess(t, n, 4);
    SwappedLess(t, n, 8);
    SwappedSize(t, 8);
    var w, w' := WordAt(data, p), WordAt(data, p + 4);
    var u := X(Swap(v), w);
    SwapWord(data[p], data[p + 1], data[p + 2], data[p + 3]);
    SwapWord(data[p + 4], data[p + 5], data[p + 6], data[p + 7]);
    SwapX(Swap(v), w);
    SwapTwice(v);
    SwappedStepIs(t, 4, u);
    SwappedStepIs(t, 0, w');
    SwapX(Zeros(8, u), Zeros(4, w'));
    SwapTwice(X(Zeros(8, u), Zeros(4, w')));
    WordStart(Swap(v), data, p);
    WordStart(Zeros(4, u), data, p + 4);
    ZerosLinear(4, Zeros(4, u), w');
    ZerosAdd(4, 4, u);
  }

  /** The byte-wise loops: up to an aligned address before the words, to the end after them. */
  method SwappedBytes(v0: word, data: seq<bv8>, p0: nat, addr: nat,
                      unit: nat, toEnd: bool, table: array<word>, ghost n: nat)
    returns (v: word, p: nat)
    requires IsSwapped(table[..], n) && n > 0 && p0 <= |data| && unit > 0
    ensures p0 <= p <= |data| && (p == |data| || (!toEnd && (addr + p) % unit == 0))
    ensures Update(Swap(v), data[p..]) == Update(Swap(v0), data[p0..])
  {
    hide Update, IsSwapped, X, Up, TopWith, Swap;
    SwappedSize(table[..], n);
    v, p := v0, p0;
    while p < |data| && (toEnd || (addr + p) % unit != 0)
      invariant p0 <= p <= |data| && Update(Swap(v), data[p..]) == Update(Swap(v0), data[p0..])
    {
      SwappedByte(table[..], n, v, data, p);
      v := X(table[0x100 + TopWith(v, data[p])], Up(v));
      p := p + 1;
    }
  }

  /** CrcUpdateT1_BeT4. */
  method CrcUpdateT1BeT4(v0: word, data: seq<bv8>, addr: nat, table: array<word>) returns (r: word)
    requires IsSwapped(table[..], 4)
    ensures r == Update(v0, data)
  {
    hide Update, IsSwapped, X, Wide, Down, Index, Top, SwappedWordAt, Swap;
    SwappedSize(table[..], 4);
    SwapTwice(v0);
    assert data[0..] == data;
    var v, p := SwappedBytes(Swap(v0), data, 0, addr, 4, false, table, 4);
    while |data| - p >= 4
      invariant p <= |data| && Update(Swap(v), data[p..]) == Update(v0, data)
    {
      SwappedFour(table[..], 4, v, data, p);
      v := X(v, SwappedWordAt(data, p));
      v := X(X(X(table[0x100 + Index(v)], table[0x200 + Index(Down(v))]), table[0x300 + Index(Down(Down(v)))]),
          table[0x400 + Top(v)]);
      p := p + 4;
    }
    v, p := SwappedBytes(v, data, p, addr, 4, true, table, 4);
    Ended(Swap(v), data);
    r := Swap(v);
  }

  /** CrcUpdateT1_BeT8. */
  method CrcUpdateT1BeT8(v0: word, data: seq<bv8>, addr: nat, table: array<word>) returns (r: word)
    requires IsSwapped(table[..], 8)
    ensures r == Update(v0, data)
  {
    hide Update, IsSwapped, X, Wide, Down, Index, Top, SwappedWordAt, Swap;
    SwappedSize(table[..], 8);
    SwapTwice(v0);
    assert data[0..] == data;
    var v, p := SwappedBytes(Swap(v0), data, 0, addr, 8, false, table, 8);
    while |data| - p >= 8
      invariant p <= |data| && Update(Swap(v), data[p..]) == Update(v0, data)
    {
      SwappedEight(table[..], 8, v, data, p);
      v := X(v, SwappedWordAt(data, p));
      v := X(X(X(table[0x500 + Index(v)], table[0x600 + Index(Down(v))]), table[0x700 + Index(Down(Down(v)))]),
          table[0x800 + Top(v)]);
      var d := SwappedWordAt(data, p + 4);
      v := X(v, X(X(X(table[0x100 + Index(d)], table[0x200 + Index(Down(d))]), table[0x300 + Index(Down(Down(d)))]),
          table[0x400 + Top(d)]));
      p := p + 8;
    }
    v, p := SwappedBytes(v, data, p, addr, 8, true, table, 8);
    Ended(Swap(v), data);
    r := Swap(v);
  }
}
