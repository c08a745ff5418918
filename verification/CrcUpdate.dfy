/** The loops of CrcUpdateT1, T4 and T8, and of T1_BeT4 and T1_BeT8 on byte-swapped words and tables. */
module CrcUpdate {
  import opened Crc
  import opened CrcTable

  /** v >> 24 as an index. */
  function Top(v: word): (i: nat)
    ensures i < 256
  {
    TopBound(v);
    (v >> 24) as nat
  }

  lemma TopBound(v: word)
    ensures (v >> 24) as nat < 256
  {}

  lemma Places(v: word)
    ensures Index(v) == Index(Low(v)) && Index(Down(v)) == Index(Byte1(v)) && Index(Down(Down(v))) == Index(Byte2(v))
            && Top(v) == Index(Byte3(v))
    ensures Low(Low(v)) == Low(v) && Low(Byte1(v)) == Byte1(v) && Low(Byte2(v)) == Byte2(v) && Low(Byte3(v)) == Byte3(v)
  {}

  lemma Entry(t: seq<word>, n: nat, k: nat, r: word)
    requires IsTable(t, n) && k < n
    ensures 256 * k + Index(r) < |t| && t[256 * k + Index(r)] == Zeros(k + 1, Low(r))
  {
    hide Zeros, Low, Index;
    assert At(t, k, r) == Zeros(k + 1, Low(r));
  }

  /** CRC_UPDATE_BYTE_2. */
  function ByteStep(t: seq<word>, v: word, b: bv8): word
    requires |t| >= 256
  {
    X(t[Index(X(v, Wide(b)))], Down(v))
  }

  lemma DownByte(v: word, b: bv8)
    ensures Down(X(v, Wide(b))) == Down(v)
  {}

  lemma ByteStepIs(t: seq<word>, n: nat, v: word, b: bv8)
    requires IsTable(t, n) && n > 0
    ensures |t| >= 256 && ByteStep(t, v, b) == Eight(X(v, Wide(b)))
  {
    hide Eight, X, Wide, Low, Down, Zeros, Index;
    var u := X(v, Wide(b));
    Entry(t, n, 0, u);
    ZerosOne(Low(u));
    EightSplit(u);
    DownByte(v, b);
  }

  /** A byte by table lookup is a byte by definition. */
  lemma OneByte(t: seq<word>, n: nat, v: word, data: seq<bv8>, p: nat)
    requires IsTable(t, n) && n > 0 && p < |data|
    ensures |t| >= 256 && Update(v, data[p..]) == Update(ByteStep(t, v, data[p]), data[p + 1..])
  {
    hide Eight, X, Wide, ByteStep, Update, IsTable;
    ByteStepIs(t, n, v, data[p]);
    UpdateIs(v, data[p..]);
    assert data[p..][0] == data[p] && data[p..][1..] == data[p + 1..];
  }

  /** Four lookups, in the tables n to n + 3. */
  function WordStep(t: seq<word>, n: nat, u: word): word
    requires |t| >= 256 * (n + 4)
  {
    X(X(X(t[256 * (n + 3) + Index(u)], t[256 * (n + 2) + Index(Down(u))]), t[256 * (n + 1) + Index(Down(Down(u)))]),
        t[256 * n + Top(u)])
  }

  lemma WordStepIs(t: seq<word>, n: nat, u: word)
    requires IsTable(t, n + 4)
    ensures |t| >= 256 * (n + 4) && WordStep(t, n, u) == Zeros(n + 4, u)
  {
    hide Eight, X, Low, Down, Zeros, Index, Top, Byte1, Byte2, Byte3, IsTable;
    Entry(t, n + 4, n + 3, u);
    Entry(t, n + 4, n + 2, Byte1(u));
    Entry(t, n + 4, n + 1, Byte2(u));
    Entry(t, n + 4, n, Byte3(u));
    Places(u);
    TableSize(t, n + 4);
    SlicesAre(n, u);
  }

  lemma TableSize(t: seq<word>, n: nat)
    requires IsTable(t, n)
    ensures |t| >= 256 * n
  {}

  function WordAt(data: seq<bv8>, p: nat): word
    requires p + 4 <= |data|
  {
    Word(data[p], data[p + 1], data[p + 2], data[p + 3])
  }

  lemma WordStart(v: word, data: seq<bv8>, p: nat)
    requires p + 4 <= |data|
    ensures Update(v, data[p..]) == Update(Zeros(4, X(v, WordAt(data, p))), data[p + 4..])
  {
    hide X, Word, Zeros, Update;
    Update4(v, data[p..]);
    assert data[p..][4..] == data[p + 4..];
  }

  lemma FourBytes(t: seq<word>, n: nat, v: word, data: seq<bv8>, p: nat)
    requires IsTable(t, n) && n >= 4 && p + 4 <= |data|
    ensures |t| >= 1024 && Update(v, data[p..]) == Update(WordStep(t, 0, X(v, WordAt(data, p))), data[p + 4..])
  {
    hide X, Zeros, Update, WordStep, WordAt;
    TableLess(t, n, 4);
    WordStepIs(t, 0, X(v, WordAt(data, p)));
    WordStart(v, data, p);
  }

  lemma TableLess(t: seq<word>, n: nat, m: nat)
    requires IsTable(t, n) && m <= n
    ensures IsTable(t, m)
  {
    hide Zeros, At;
  }

  lemma {:induction false} ZerosAdd(m: nat, n: nat, r: word)
    ensures Zeros(n, Zeros(m, r)) == Zeros(m + n, r)
    decreases m
  {
    hide Eight;
    if m > 0 { ZerosAdd(m - 1, n, Eight(r)); }
  }

  lemma EightBytes(t: seq<word>, n: nat, v: word, data: seq<bv8>, p: nat)
    requires IsTable(t, n) && n >= 8 && p + 8 <= |data|
    ensures |t| >= 2048
    ensures Update(v, data[p..]) == Update(X(WordStep(t, 4, X(v, WordAt(data, p))),
            WordStep(t, 0, WordAt(data, p + 4))), data[p + 8..])
  {
    hide X, Zeros, Update, WordStep, WordAt;
    TableLess(t, n, 4);
    TableLess(t, n, 8);
    TableSize(t, 8);
    var w, w' := WordAt(data, p), WordAt(data, p + 4);
    var u := X(v, w);
    WordStepIs(t, 4, u);
    WordStepIs(t, 0, w');
    WordStart(v, data, p);
    WordStart(Zeros(4, u), data, p + 4);
    ZerosLinear(4, Zeros(4, u), w');
    ZerosAdd(4, 4, u);
  }

  lemma Ended(v: word, data: seq<bv8>)
    ensures Update(v, data[|data|..]) == v
  {
    hide Eight, X, Wide;
  }

  /** CrcUpdateT1. */
  method CrcUpdateT1(v0: word, data: seq<bv8>, table: array<word>) returns (v: word)
    requires IsTable(table[..], 1)
    ensures v == Update(v0, data)
  {
    hide Update, IsTable, X, Wide, Down, Index;
    TableSize(table[..], 1);
    v := v0;
    var p := 0;
    assert data[0..] == data;
    while p < |data|
      invariant p <= |data| && Update(v, data[p..]) == Update(v0, data)
    {
      OneByte(table[..], 1, v, data, p);
      v := X(table[Index(X(v, Wide(data[p])))], Down(v));
      p := p + 1;
    }
    Ended(v, data);
  }

  /** The byte-wise loops: up to an aligned address before the words, to the end after them. */
  method UpdateBytes(v0: word, data: seq<bv8>, p0: nat, addr: nat,
                     unit: nat, toEnd: bool, table: array<word>, ghost n: nat)
    returns (v: word, p: nat)
    requires IsTable(table[..], n) && n > 0 && p0 <= |data| && unit > 0
    ensures p0 <= p <= |data| && (p == |data| || (!toEnd && (addr + p) % unit == 0))
    ensures Update(v, data[p..]) == Update(v0, data[p0..])
  {
    hide Update, IsTable, X, Wide, Down, Index;
    TableSize(table[..], n);
    v, p := v0, p0;
    while p < |data| && (toEnd || (addr + p) % unit != 0)
      invariant p0 <= p <= |data| && Update(v, data[p..]) == Update(v0, data[p0..])
    {
      OneByte(table[..], n, v, data, p);
      v := X(table[Index(X(v, Wide(data[p])))], Down(v));
      p := p + 1;
    }
  }

  /** CrcUpdateT4; addr is the address of the data. */
  method CrcUpdateT4(v0: word, data: seq<bv8>, addr: nat, table: array<word>) returns (v: word)
    requires IsTable(table[..], 4)
    ensures v == Update(v0, data)
  {
    hide Update, IsTable, X, Wide, Down, Index, Top, WordAt;
    TableSize(table[..], 4);
    assert data[0..] == data;
    var p;
    v, p := UpdateBytes(v0, data, 0, addr, 4, false, table, 4);
    while |data| - p >= 4
      invariant p <= |data| && Update(v, data[p..]) == Update(v0, data)
    {
      FourBytes(table[..], 4, v, data, p);
      v := X(v, WordAt(data, p));
      v := X(X(X(table[0x300 + Index(v)], table[0x200 + Index(Down(v))]), table[0x100 + Index(Down(Down(v)))]),
          table[Top(v)]);
      p := p + 4;
    }
    v, p := UpdateBytes(v, data, p, addr, 4, true, table, 4);
    Ended(v, data);
  }

  /** CrcUpdateT8. */
  method CrcUpdateT8(v0: word, data: seq<bv8>, addr: nat, table: array<word>) returns (v: word)
    requires IsTable(table[..], 8)
    ensures v == Update(v0, data)
  {
    hide Update, IsTable, X, Wide, Down, Index, Top, WordAt;
    TableSize(table[..], 8);
    assert data[0..] == data;
    var p;
    v, p := UpdateBytes(v0, data, 0, addr, 8, false, table, 8);
    while |data| - p >= 8
      invariant p <= |data| && Update(v, data[p..]) == Update(v0, data)
    {
      EightBytes(table[..], 8, v, data, p);
      v := X(v, WordAt(data, p));
      v := X(X(X(table[0x700 + Index(v)], table[0x600 + Index(Down(v))]), table[0x500 + Index(Down(Down(v)))]),
          table[0x400 + Top(v)]);
      var d := WordAt(data, p + 4);
      v := X(v, X(X(X(table[0x300 + Index(d)], table[0x200 + Index(Down(d))]), table[0x100 + Index(Down(Down(d)))]),
          table[Top(d)]));
      p := p + 8;
    }
    v, p := UpdateBytes(v, data, p, addr, 8, true, table, 8);
    Ended(v, data);
  }
}
