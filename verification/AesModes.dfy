/** AesCbc_Encode, AesCbc_Decode and AesCtr_Code in compression/LZMA/Aes.c: each undoes what it should. */
module AesModes {
  import opened Aes
  import opened AesCode
  import opened AesBlock

  function WordBytes(a: Word): (r: seq<bv8>)
    ensures |r| == 4
  {
    [a.b0, a.b1, a.b2, a.b3]
  }

  function StateBytes(s: State): (r: seq<bv8>)
    ensures |r| == 16
  {
    WordBytes(s.c0) + WordBytes(s.c1) + WordBytes(s.c2) + WordBytes(s.c3)
  }

  /** Four times GetUi32. */
  function Block(d: seq<bv8>): State
    requires |d| == 16
  {
    State(Word(d[0], d[1], d[2], d[3]), Word(d[4], d[5], d[6], d[7]), Word(d[8], d[9], d[10], d[11]),
        Word(d[12], d[13], d[14], d[15]))
  }

  lemma BlockBack(s: State, d: seq<bv8>)
    ensures Block(StateBytes(s)) == s
    ensures |d| == 16 ==> StateBytes(Block(d)) == d
  {}

  /** The first n blocks of the data. */
  function Blocks(d: seq<bv8>, n: nat): (r: seq<State>)
    requires 16 * n <= |d|
    ensures |r| == n
  {
    if n == 0 then [] else Blocks(d, n - 1) + [Block(d[16 * n - 16..16 * n])]
  }

  lemma {:induction false} BlocksSame(d: seq<bv8>, e: seq<bv8>, n: nat)
    requires 16 * n <= |d| && 16 * n <= |e| && d[..16 * n] == e[..16 * n]
    ensures Blocks(d, n) == Blocks(e, n)
  {
    hide Block;
    if n > 0 {
      assert d[..16 * n - 16] == d[..16 * n][..16 * n - 16] && e[..16 * n - 16] == e[..16 * n][..16 * n - 16];
      assert d[16 * n - 16..16 * n] == d[..16 * n][16 * n - 16..]
             && e[16 * n - 16..16 * n] == e[..16 * n][16 * n - 16..];
      BlocksSame(d, e, n - 1);
    }
  }

  /** Equal blocks are equal bytes. */
  lemma {:induction false} BlocksDetermine(d: seq<bv8>, e: seq<bv8>, n: nat)
    requires 16 * n <= |d| && 16 * n <= |e| && Blocks(d, n) == Blocks(e, n)
    ensures d[..16 * n] == e[..16 * n]
  {
    hide Block, StateBytes;
    if n > 0 {
      var x, y := d[16 * n - 16..16 * n], e[16 * n - 16..16 * n];
      assert Blocks(d, n)[n - 1] == Block(x) && Blocks(e, n)[n - 1] == Block(y);
      assert Blocks(d, n - 1) == Blocks(d, n)[..n - 1] && Blocks(e, n - 1) == Blocks(e, n)[..n - 1];
      BlocksDetermine(d, e, n - 1);
      BlockBack(Block(x), x);
      BlockBack(Block(y), y);
      assert d[..16 * n] == d[..16 * n - 16] + x && e[..16 * n] == e[..16 * n - 16] + y;
    }
  }

  /** Cipher block chaining: the block before is added first. */
  function CbcEnc(w: seq<Word>, nr: nat, iv: State, data: seq<State>): (r: seq<State>)
    requires nr > 0
    ensures |r| == |data|
  {
    if data == [] then [] else
    var n := |data| - 1;
    var before := CbcEnc(w, nr, iv, data[..n]);
    before + [Cipher(w, nr, Add(Last(iv, before), data[n]))]
  }

  function Last(iv: State, blocks: seq<State>): State {
    if blocks == [] then iv else blocks[|blocks| - 1]
  }

  function CbcDec(w: seq<Word>, nr: nat, iv: State, data: seq<State>): (r: seq<State>)
    requires nr > 0
    ensures |r| == |data|
  {
    if data == [] then [] else
    var n := |data| - 1;
    CbcDec(w, nr, iv, data[..n]) + [Add(Last(iv, data[..n]), InvCipher(w, nr, data[n]))]
  }

  lemma AddCancels(s: State, k: State)
    ensures Add(k, Add(k, s)) == s
  {
    hide X;
    Turned(k.c0, s.c0);
    Turned(k.c1, s.c1);
    Turned(k.c2, s.c2);
    Turned(k.c3, s.c3);
  }

  lemma Turned(k: Word, a: Word)
    ensures X(k, X(k, a)) == a
  {
    hide B;
    Assoc(k.b0, k.b0, a.b0);
    Assoc(k.b1, k.b1, a.b1);
    Assoc(k.b2, k.b2, a.b2);
    Assoc(k.b3, k.b3, a.b3);
    Self(k.b0);
    Self(k.b1);
    Self(k.b2);
    Self(k.b3);
    Zero(a.b0);
    Zero(a.b1);
    Zero(a.b2);
    Zero(a.b3);
  }

  /** Decryption in chaining mode undoes encryption, for any number of blocks. */
  lemma {:induction false} CbcRoundTrip(w: seq<Word>, w': seq<Word>, nr: nat, iv: State, data: seq<State>)
    requires nr > 0 && DecryptionKeys(w, w', nr)
    ensures CbcDec(w', nr, iv, CbcEnc(w, nr, iv, data)) == data
  {
    hide Add, Cipher, InvCipher, DecryptionKeys;
    if data != [] {
      var n := |data| - 1;
      var before := CbcEnc(w, nr, iv, data[..n]);
      CbcRoundTrip(w, w', nr, iv, data[..n]);
      var k := Last(iv, before);
      var c := Cipher(w, nr, Add(k, data[n]));
      assert (before + [c])[..n] == before;
      InvCipherCipher(w, w', nr, Add(k, data[n]));
      AddCancels(data[n], k);
      assert data == data[..n] + [data[n]];
    }
  }

  function Inc(x: bv8): bv8 { x + 1 }

  predicate IsFull(x: bv8) { x == 0xFF }

  /** ++ on a UInt32, byte by byte. */
  function Plus1(a: Word): Word {
    if !IsFull(a.b0) then Word(Inc(a.b0), a.b1, a.b2, a.b3)
    else if !IsFull(a.b1) then Word(Inc(a.b0), Inc(a.b1), a.b2, a.b3)
    else if !IsFull(a.b2) then Word(Inc(a.b0), Inc(a.b1), Inc(a.b2), a.b3)
    else Word(Inc(a.b0), Inc(a.b1), Inc(a.b2), Inc(a.b3))
  }

  function ByteNum(x: bv8): (n: nat)
    ensures n < 256
  {
    x as nat
  }

  lemma ByteInc(x: bv8)
    ensures IsFull(x) ==> ByteNum(x) == 255 && ByteNum(Inc(x)) == 0
    ensures !IsFull(x) ==> ByteNum(Inc(x)) == ByteNum(x) + 1
  {}

  /** The number that a word is. */
  function Num(a: Word): nat { ByteNum(a.b0) + 0x100 * ByteNum(a.b1) + 0x1_0000 * ByteNum(a.b2)
                              + 0x100_0000 * ByteNum(a.b3) }

  /** The byte-wise step is the addition of one, modulo 2^32. */
  lemma Plus1Adds(a: Word)
    ensures Num(Plus1(a)) == if Num(a) == 0xFFFF_FFFF then 0 else Num(a) + 1
  {
    hide ByteNum, Inc, IsFull;
    ByteInc(a.b0);
    ByteInc(a.b1);
    ByteInc(a.b2);
    ByteInc(a.b3);
  }

  /** The counter: 64 bits in the first two words. */
  function Next(c: State): State {
    var a := Plus1(c.c0);
    State(a, if a == Word(0, 0, 0, 0) then Plus1(c.c1) else c.c1, c.c2, c.c3)
  }

  /** The counter after n steps. */
  function Counter(c: State, n: nat): State {
    if n == 0 then c else Next(Counter(c, n - 1))
  }

  /** Counter mode: the enciphered counters are added. */
  function Ctr(w: seq<Word>, nr: nat, c: State, data: seq<State>): (r: seq<State>)
    requires nr > 0
    ensures |r| == |data|
  {
    if data == [] then [] else
    var n := |data| - 1;
    Ctr(w, nr, c, data[..n]) + [Add(Cipher(w, nr, Counter(c, n + 1)), data[n])]
  }

  /** Counter mode twice from the same counter is the identity. */
  lemma {:induction false} CtrTwice(w: seq<Word>, nr: nat, c: State, data: seq<State>)
    requires nr > 0
    ensures Ctr(w, nr, c, Ctr(w, nr, c, data)) == data
  {
    hide Add, Cipher, Counter;
    if data != [] {
      var n := |data| - 1;
      CtrTwice(w, nr, c, data[..n]);
      var k := Cipher(w, nr, Counter(c, n + 1));
      var once := Ctr(w, nr, c, data[..n]);
      assert (once + [Add(k, data[n])])[..n] == once;
      AddCancels(data[n], k);
      assert data == data[..n] + [data[n]];
    }
  }

  /** The buffer ivAes: the chaining block or the counter, the number of rounds, and the key. */
  class Context {
    var p: State
    var numRounds2: nat
    const w: array<Word>

    ghost predicate Valid()
      reads this
    {
      numRounds2 > 0 && 8 * numRounds2 + 4 <= w.Length
    }

    /** The data is not one of the tables or the key. */
    ghost predicate Apart(data: array<bv8>, t: Tables) {
      var o: object := data;
      o != t.T && o != t.D && o != t.InvS && o != w
    }

    /** AesCbc_Init and Aes_SetKey_Enc. */
    constructor ForEncryption(key: seq<bv8>, iv: seq<bv8>)
      requires KeySize(|key|) && |iv| == 16
      ensures Valid() && fresh(w) && w.Length == 60 && p == Block(iv) && numRounds2 == NumRounds2(|key|)
      ensures ExpandedTo(w[..], KeyWords(key), |key| + 28)
    {
      p := Block(iv);
      w := new Word[60];
      new;
      numRounds2 := SetKeyEnc(w, key);
    }

    /** AesCbc_Init and Aes_SetKey_Dec. */
    constructor ForDecryption(t: Tables, key: seq<bv8>, iv: seq<bv8>, ghost enc: seq<Word>)
      requires t.Valid() && KeySize(|key|) && |iv| == 16 && |enc| == 60 && ExpandedTo(enc, KeyWords(key), |key| + 28)
      ensures Valid() && fresh(w) && p == Block(iv) && numRounds2 == NumRounds2(|key|)
      ensures DecryptionKeys(enc, w[..], 2 * numRounds2)
    {
      hide Block, DecryptionKeys, ExpandedTo, KeyWords, TablesTo, InverseTo;
      p := Block(iv);
      w := new Word[60];
      new;
      numRounds2 := SetKeyDec(t, w, key, enc);
    }

    /** AesCbc_Encode. */
    method CbcEncode(t: Tables, data: array<bv8>, numBlocks: nat)
      requires Valid() && t.Valid() && 16 * numBlocks <= data.Length && Apart(data, t)
      modifies this`p, data
      ensures Valid() && Blocks(data[..], numBlocks) == CbcEnc(w[..], 2 * numRounds2, old(p),
              old(Blocks(data[..], numBlocks)))
      ensures data[16 * numBlocks..] == old(data[16 * numBlocks..]) && p == Last(old(p), Blocks(data[..], numBlocks))
    {
      hide Add, Cipher, Block, Blocks, CbcEnc, StateBytes, TablesTo, InverseTo;
      ghost var d0 := data[..];
      ghost var nr := 2 * numRounds2;
      var i := 0;
      CbcNone(w[..], nr, p, d0);
      while i < numBlocks
        invariant i <= numBlocks && Valid() && t.Valid() && numRounds2 == old(numRounds2)
        invariant Blocks(data[..], i) == CbcEnc(w[..], nr, old(p), Blocks(d0, i)) && data[16 * i..] == d0[16 * i..]
        invariant p == Last(old(p), Blocks(data[..], i))
      {
        ghost var d := data[..];
        var x := GetBlock(data, 16 * i);
        NextBlock(d, d0, i);
        p := Add(p, x);
        p := Encode(t, w, numRounds2, p);
        CbcMore(w[..], nr, old(p), d0, i);
        SetBlock(data, 16 * i, p);
        Written(d, data[..], i, p);
        i := i + 1;
      }
    }

    /** AesCbc_Decode. */
    method CbcDecode(t: Tables, data: array<bv8>, numBlocks: nat)
      requires Valid() && t.Valid() && 16 * numBlocks <= data.Length && Apart(data, t)
      modifies this`p, data
      ensures Valid() && Blocks(data[..], numBlocks) == CbcDec(w[..], 2 * numRounds2, old(p),
              old(Blocks(data[..], numBlocks)))
      ensures data[16 * numBlocks..] == old(data[16 * numBlocks..])
              && p == Last(old(p), old(Blocks(data[..], numBlocks)))
    {
      hide Add, InvCipher, Block, Blocks, CbcDec, StateBytes, TablesTo, InverseTo;
      ghost var d0 := data[..];
      ghost var nr := 2 * numRounds2;
      var i := 0;
      DecNone(w[..], nr, p, d0);
      while i < numBlocks
        invariant i <= numBlocks && Valid() && t.Valid() && numRounds2 == old(numRounds2)
        invariant Blocks(data[..], i) == CbcDec(w[..], nr, old(p), Blocks(d0, i)) && data[16 * i..] == d0[16 * i..]
        invariant p == Last(old(p), Blocks(d0, i))
      {
        ghost var d := data[..];
        var in' := GetBlock(data, 16 * i);
        NextBlock(d, d0, i);
        var out := Decode(t, w, numRounds2, in');
        DecMore(w[..], nr, old(p), d0, i);
        SetBlock(data, 16 * i, Add(p, out));
        Written(d, data[..], i, Add(p, out));
        p := in';
        i := i + 1;
      }
    }

    /** AesCtr_Code. */
    method CtrCode(t: Tables, data: array<bv8>, numBlocks: nat)
      requires Valid() && t.Valid() && 16 * numBlocks <= data.Length && Apart(data, t)
      modifies this`p, data
      ensures Valid() && Blocks(data[..], numBlocks) == Ctr(w[..], 2 * numRounds2, old(p),
              old(Blocks(data[..], numBlocks)))
      ensures data[16 * numBlocks..] == old(data[16 * numBlocks..]) && p == Counter(old(p), numBlocks)
    {
      hide Add, Cipher, Block, Blocks, Ctr, StateBytes, Next, TablesTo, InverseTo;
      ghost var d0 := data[..];
      ghost var nr := 2 * numRounds2;
      var i := 0;
      CtrNone(w[..], nr, p, d0);
      while i < numBlocks
        invariant i <= numBlocks && Valid() && t.Valid() && numRounds2 == old(numRounds2)
        invariant Blocks(data[..], i) == Ctr(w[..], nr, old(p), Blocks(d0, i)) && data[16 * i..] == d0[16 * i..]
        invariant p == Counter(old(p), i)
      {
        ghost var d := data[..];
        var x := GetBlock(data, 16 * i);
        NextBlock(d, d0, i);
        p := Next(p);
        var temp := Encode(t, w, numRounds2, p);
        CtrMore(w[..], nr, old(p), d0, i);
        SetBlock(data, 16 * i, Add(temp, x));
        Written(d, data[..], i, Add(temp, x));
        i := i + 1;
      }
    }
  }

  method GetBlock(data: array<bv8>, pos: nat) returns (s: State)
    requires pos + 16 <= data.Length
    ensures s == Block(data[pos..pos + 16])
  {
    s := State(Word(data[pos], data[pos + 1], data[pos + 2], data[pos + 3]),
               Word(data[pos + 4], data[pos + 5], data[pos + 6], data[pos + 7]),
               Word(data[pos + 8], data[pos + 9], data[pos + 10], data[pos + 11]),
               Word(data[pos + 12], data[pos + 13], data[pos + 14], data[pos + 15]));
  }

  /** SetUi32. */
  method SetWord(data: array<bv8>, pos: nat, a: Word)
    requires pos + 4 <= data.Length
    modifies data
    ensures data[..] == old(data[..pos]) + WordBytes(a) + old(data[pos + 4..])
  {
    data[pos] := a.b0;
    data[pos + 1] := a.b1;
    data[pos + 2] := a.b2;
    data[pos + 3] := a.b3;
  }

  lemma WriteNext(a: seq<bv8>, m: seq<bv8>, r: seq<bv8>, x: seq<bv8>)
    requires |x| <= |r|
    ensures var d, q := a + m + r, |a| + |m|;
            d[..q] + x + d[q + |x|..] == a + (m + x) + r[|x|..]
  {
    var d, q := a + m + r, |a| + |m|;
    assert d[..q] == a + m && d[q + |x|..] == r[|x|..];
  }

  lemma WriteFour(d: seq<bv8>, pos: nat, x0: seq<bv8>, x1: seq<bv8>, x2: seq<bv8>, x3: seq<bv8>)
    requires pos + 16 <= |d| && |x0| == |x1| == |x2| == |x3| == 4
    ensures var d1 := d[..pos] + x0 + d[pos + 4..];
            var d2 := d1[..pos + 4] + x1 + d1[pos + 8..];
            var d3 := d2[..pos + 8] + x2 + d2[pos + 12..];
            d3[..pos + 12] + x3 + d3[pos + 16..] == d[..pos] + (x0 + x1 + x2 + x3) + d[pos + 16..]
  {
    var a, r := d[..pos], d[pos + 4..];
    assert r[4..] == d[pos + 8..] && d[pos + 8..][4..] == d[pos + 12..] && d[pos + 12..][4..] == d[pos + 16..];
    WriteNext(a, x0, r, x1);
    WriteNext(a, x0 + x1, d[pos + 8..], x2);
    WriteNext(a, x0 + x1 + x2, d[pos + 12..], x3);
  }

  method SetBlock(data: array<bv8>, pos: nat, s: State)
    requires pos + 16 <= data.Length
    modifies data
    ensures data[..] == old(data[..pos]) + StateBytes(s) + old(data[pos + 16..])
  {
    hide WordBytes;
    ghost var d := data[..];
    SetWord(data, pos, s.c0);
    ghost var d1 := data[..];
    assert d1 == d[..pos] + WordBytes(s.c0) + d[pos + 4..];
    SetWord(data, pos + 4, s.c1);
    ghost var d2 := data[..];
    assert d2 == d1[..pos + 4] + WordBytes(s.c1) + d1[pos + 8..];
    SetWord(data, pos + 8, s.c2);
    ghost var d3 := data[..];
    assert d3 == d2[..pos + 8] + WordBytes(s.c2) + d2[pos + 12..];
    SetWord(data, pos + 12, s.c3);
    assert data[..] == d3[..pos + 12] + WordBytes(s.c3) + d3[pos + 16..];
    WriteFour(d, pos, WordBytes(s.c0), WordBytes(s.c1), WordBytes(s.c2), WordBytes(s.c3));
  }

  /** The next block is still the one of the start. */
  lemma NextBlock(d: seq<bv8>, d0: seq<bv8>, i: nat)
    requires 16 * i + 16 <= |d| == |d0| && d[16 * i..] == d0[16 * i..]
    ensures d[16 * i..16 * i + 16] == d0[16 * i..16 * i + 16]
    ensures Blocks(d0, i + 1) == Blocks(d0, i) + [Block(d0[16 * i..16 * i + 16])]
  {
    hide Block;
    assert d[16 * i..][..16] == d[16 * i..16 * i + 16] && d0[16 * i..][..16] == d0[16 * i..16 * i + 16];
  }

  /** Block i is s now, the others are as before. */
  lemma Written(d: seq<bv8>, e: seq<bv8>, i: nat, s: State)
    requires 16 * i + 16 <= |d| && e == d[..16 * i] + StateBytes(s) + d[16 * i + 16..]
    ensures |e| == |d| && Blocks(e, i + 1) == Blocks(d, i) + [s] && e[16 * (i + 1)..] == d[16 * i..][16..]
  {
    hide Block, StateBytes;
    BlockBack(s, []);
    assert e[..16 * i] == d[..16 * i];
    BlocksSame(e, d, i);
    assert e[16 * i..16 * i + 16] == StateBytes(s);
  }

  lemma CbcNone(w: seq<Word>, nr: nat, iv: State, d: seq<bv8>)
    requires nr > 0
    ensures Blocks(d, 0) == [] && CbcEnc(w, nr, iv, []) == []
  {}

  lemma CbcMore(w: seq<Word>, nr: nat, iv: State, d: seq<bv8>, i: nat)
    requires nr > 0 && 16 * i + 16 <= |d|
    ensures var before := CbcEnc(w, nr, iv, Blocks(d, i));
            CbcEnc(w, nr, iv, Blocks(d, i + 1)) == before
                + [Cipher(w, nr, Add(Last(iv, before), Block(d[16 * i..16 * i + 16])))]
  {
    hide Block, Cipher, Add;
    assert Blocks(d, i + 1)[..i] == Blocks(d, i);
  }

  lemma DecNone(w: seq<Word>, nr: nat, iv: State, d: seq<bv8>)
    requires nr > 0
    ensures Blocks(d, 0) == [] && CbcDec(w, nr, iv, []) == []
  {}

  lemma DecMore(w: seq<Word>, nr: nat, iv: State, d: seq<bv8>, i: nat)
    requires nr > 0 && 16 * i + 16 <= |d|
    ensures CbcDec(w, nr, iv, Blocks(d, i + 1))
            == CbcDec(w, nr, iv, Blocks(d, i)) + [Add(Last(iv, Blocks(d, i)),
                InvCipher(w, nr, Block(d[16 * i..16 * i + 16])))]
    ensures Last(iv, Blocks(d, i + 1)) == Block(d[16 * i..16 * i + 16])
  {
    hide Block, InvCipher, Add;
    assert Blocks(d, i + 1)[..i] == Blocks(d, i);
  }

  lemma CtrNone(w: seq<Word>, nr: nat, c: State, d: seq<bv8>)
    requires nr > 0
    ensures Blocks(d, 0) == [] && Ctr(w, nr, c, []) == [] && Counter(c, 0) == c
  {}

  lemma CtrMore(w: seq<Word>, nr: nat, c: State, d: seq<bv8>, i: nat)
    requires nr > 0 && 16 * i + 16 <= |d|
    ensures Ctr(w, nr, c, Blocks(d, i + 1))
            == Ctr(w, nr, c, Blocks(d, i)) + [Add(Cipher(w, nr, Counter(c, i + 1)), Block(d[16 * i..16 * i + 16]))]
  {
    hide Block, Cipher, Add, Counter;
    assert Blocks(d, i + 1)[..i] == Blocks(d, i);
  }

  /** Encrypting a buffer and decrypting it with the same key and initial block restores every byte; what is
      sent in between is the FIPS 197 cipher in chaining mode under the expanded key w. */
  method CbcThereAndBack(key: seq<bv8>, iv: seq<bv8>, data: array<bv8>, numBlocks: nat)
    returns (sent: seq<bv8>, ghost w: seq<Word>)
    requires KeySize(|key|) && |iv| == 16 && 16 * numBlocks <= data.Length
    modifies data
    ensures |sent| == data.Length && ExpandedTo(w, KeyWords(key), |key| + 28)
    ensures Blocks(sent, numBlocks) == CbcEnc(w, 2 * NumRounds2(|key|), Block(iv), old(Blocks(data[..], numBlocks)))
    ensures data[..] == old(data[..])
  {
    hide Add, Cipher, InvCipher, Block, Blocks, CbcEnc, CbcDec, DecryptionKeys, ExpandedTo, KeyWords, TablesTo,
         InverseTo, KeySize;
    ghost var d0 := data[..];
    var t := new Tables();
    var e := new Context.ForEncryption(key, iv);
    w := e.w[..];
    e.CbcEncode(t, data, numBlocks);
    sent := data[..];
    var d := new Context.ForDecryption(t, key, iv, w);
    d.CbcDecode(t, data, numBlocks);
    CbcRoundTrip(w, d.w[..], 2 * d.numRounds2, Block(iv), Blocks(d0, numBlocks));
    BlocksDetermine(data[..], d0, numBlocks);
    assert data[..] == data[..16 * numBlocks] + data[16 * numBlocks..];
    assert d0 == d0[..16 * numBlocks] + d0[16 * numBlocks..];
  }
}
