/** The key schedules and the block functions of compression/LZMA/Aes.c. */
module AesBlock {
  import opened AesSbox
  import opened Aes
  import opened AesCode

  function Col(s: State, i: nat): Word {
    if i % 4 == 0 then s.c0 else if i % 4 == 1 then s.c1 else if i % 4 == 2 then s.c2 else s.c3
  }

  lemma Lookup(t: Tables, x: bv8)
    requires t.Valid()
    ensures t.T.Length == t.D.Length == 1024 && t.InvS.Length == 256
    ensures var i := Index(x);
            t.T[i] == T0(x) && t.T[256 + i] == T1(x) && t.T[512 + i] == T2(x) && t.T[768 + i] == T3(x)
            && t.D[i] == D0(x) && t.D[256 + i] == D1(x) && t.D[512 + i] == D2(x) && t.D[768 + i] == D3(x)
            && t.InvS[i] == InvSbox(x)
  {
    hide Sbox, InvSbox, T0, T1, T2, T3, D0, D1, D2, D3, Image, Index, Wide;
    WideBound(x);
    assert TableAt(t.T[..], t.D[..], x);
    InverseAll(t.InvS[..], x);
  }

  /** The four lookups of HT4. */
  method LookupFour(t: Tables, x0: bv8, x1: bv8, x2: bv8, x3: bv8, k: Word) returns (r: Word)
    requires t.Valid()
    ensures r == X(X(X(X(T0(x0), T1(x1)), T2(x2)), T3(x3)), k)
  {
    hide Sbox, T0, T1, T2, T3, D0, D1, D2, D3, Image, Index, X, InvSbox;
    Lookup(t, x0);
    Lookup(t, x1);
    Lookup(t, x2);
    Lookup(t, x3);
    r := X(X(X(X(t.T[Index(x0)], t.T[256 + Index(x1)]), t.T[512 + Index(x2)]), t.T[768 + Index(x3)]), k);
  }

  /** The four lookups of HD4. */
  method LookupInverse(t: Tables, x0: bv8, x1: bv8, x2: bv8, x3: bv8, k: Word) returns (r: Word)
    requires t.Valid()
    ensures r == X(X(X(X(D0(x0), D1(x1)), D2(x2)), D3(x3)), k)
  {
    hide Sbox, T0, T1, T2, T3, D0, D1, D2, D3, Image, Index, X, InvSbox;
    Lookup(t, x0);
    Lookup(t, x1);
    Lookup(t, x2);
    Lookup(t, x3);
    r := X(X(X(X(t.D[Index(x0)], t.D[256 + Index(x1)]), t.D[512 + Index(x2)]), t.D[768 + Index(x3)]), k);
  }

  lemma FourIs(x0: bv8, x1: bv8, x2: bv8, x3: bv8)
    ensures X(X(X(T0(x0), T1(x1)), T2(x2)), T3(x3)) == Mix(SubWord(Word(x0, x1, x2, x3)))
    ensures X(X(X(D0(x0), D1(x1)), D2(x2)), D3(x3)) == InvMix(InvSubWord(Word(x0, x1, x2, x3)))
  {
    hide Sbox, InvSbox, X, Mix, F0, F1, F2, F3, I0, I1, I2, I3;
    MixIs(SubWord(Word(x0, x1, x2, x3)));
  }

  lemma RoundIs(k: State, s: State)
    ensures Round(k, s)
            == State(X(X(X(X(T0(s.c0.b0), T1(s.c1.b1)), T2(s.c2.b2)), T3(s.c3.b3)), k.c0),
                     X(X(X(X(T0(s.c1.b0), T1(s.c2.b1)), T2(s.c3.b2)), T3(s.c0.b3)), k.c1),
                     X(X(X(X(T0(s.c2.b0), T1(s.c3.b1)), T2(s.c0.b2)), T3(s.c1.b3)), k.c2),
                     X(X(X(X(T0(s.c3.b0), T1(s.c0.b1)), T2(s.c1.b2)), T3(s.c2.b3)), k.c3))
  {
    hide Sbox, T0, T1, T2, T3, X, Mix;
    FourIs(s.c0.b0, s.c1.b1, s.c2.b2, s.c3.b3);
    FourIs(s.c1.b0, s.c2.b1, s.c3.b2, s.c0.b3);
    FourIs(s.c2.b0, s.c3.b1, s.c0.b2, s.c1.b3);
    FourIs(s.c3.b0, s.c0.b1, s.c1.b2, s.c2.b3);
  }

  lemma InvRoundIs(k: State, s: State)
    ensures InvRound(k, s)
            == State(X(X(X(X(D0(s.c0.b0), D1(s.c3.b1)), D2(s.c2.b2)), D3(s.c1.b3)), k.c0),
                     X(X(X(X(D0(s.c1.b0), D1(s.c0.b1)), D2(s.c3.b2)), D3(s.c2.b3)), k.c1),
                     X(X(X(X(D0(s.c2.b0), D1(s.c1.b1)), D2(s.c0.b2)), D3(s.c3.b3)), k.c2),
                     X(X(X(X(D0(s.c3.b0), D1(s.c2.b1)), D2(s.c1.b2)), D3(s.c0.b3)), k.c3))
  {
    hide InvSbox, D0, D1, D2, D3, X, InvMix;
    FourIs(s.c0.b0, s.c3.b1, s.c2.b2, s.c1.b3);
    FourIs(s.c1.b0, s.c0.b1, s.c3.b2, s.c2.b3);
    FourIs(s.c2.b0, s.c1.b1, s.c0.b2, s.c3.b3);
    FourIs(s.c3.b0, s.c2.b1, s.c1.b2, s.c0.b3);
  }

  /** HT16: one round by table lookups, with the round key w[p..p + 4]. */
  method HT16(t: Tables, w: array<Word>, s: State, p: nat, ghost r: nat) returns (m: State)
    requires t.Valid() && p == 4 * r && p + 4 <= w.Length
    ensures m == Round(Key(w[..], r), s)
  {
    hide T0, T1, T2, T3, X, Round, TablesTo, InverseTo;
    RoundIs(Key(w[..], r), s);
    var m0 := LookupFour(t, Col(s, 0).b0, Col(s, 1).b1, Col(s, 2).b2, Col(s, 3).b3, w[p]);
    var m1 := LookupFour(t, Col(s, 1).b0, Col(s, 2).b1, Col(s, 3).b2, Col(s, 4).b3, w[p + 1]);
    var m2 := LookupFour(t, Col(s, 2).b0, Col(s, 3).b1, Col(s, 4).b2, Col(s, 5).b3, w[p + 2]);
    var m3 := LookupFour(t, Col(s, 3).b0, Col(s, 4).b1, Col(s, 5).b2, Col(s, 6).b3, w[p + 3]);
    m := State(m0, m1, m2, m3);
  }

  /** HD16. */
  method HD16(t: Tables, w: array<Word>, s: State, p: nat, ghost r: nat) returns (m: State)
    requires t.Valid() && p == 4 * r && p + 4 <= w.Length
    ensures m == InvRound(Key(w[..], r), s)
  {
    hide D0, D1, D2, D3, X, InvRound, TablesTo, InverseTo;
    InvRoundIs(Key(w[..], r), s);
    var m0 := LookupInverse(t, Col(s, 4).b0, Col(s, 3).b1, Col(s, 2).b2, Col(s, 1).b3, w[p]);
    var m1 := LookupInverse(t, Col(s, 5).b0, Col(s, 4).b1, Col(s, 3).b2, Col(s, 2).b3, w[p + 1]);
    var m2 := LookupInverse(t, Col(s, 6).b0, Col(s, 5).b1, Col(s, 4).b2, Col(s, 3).b3, w[p + 2]);
    var m3 := LookupInverse(t, Col(s, 7).b0, Col(s, 6).b1, Col(s, 5).b2, Col(s, 4).b3, w[p + 3]);
    m := State(m0, m1, m2, m3);
  }

  /** FT4, four times. */
  method FinalRound(w: array<Word>, m: State, p: nat, ghost r: nat) returns (dest: State)
    requires p == 4 * r && p + 4 <= w.Length
    ensures dest == Add(ShiftRows(SubBytes(m)), Key(w[..], r))
  {
    hide Sbox, X;
    dest := State(X(Word(Sbox(Col(m, 0).b0), Sbox(Col(m, 1).b1), Sbox(Col(m, 2).b2), Sbox(Col(m, 3).b3)), w[p]),
                  X(Word(Sbox(Col(m, 1).b0), Sbox(Col(m, 2).b1), Sbox(Col(m, 3).b2), Sbox(Col(m, 4).b3)), w[p + 1]),
                  X(Word(Sbox(Col(m, 2).b0), Sbox(Col(m, 3).b1), Sbox(Col(m, 4).b2), Sbox(Col(m, 5).b3)), w[p + 2]),
                  X(Word(Sbox(Col(m, 3).b0), Sbox(Col(m, 4).b1), Sbox(Col(m, 5).b2), Sbox(Col(m, 6).b3)), w[p + 3]));
  }

  method InvLookup(t: Tables, x0: bv8, x1: bv8, x2: bv8, x3: bv8) returns (r: Word)
    requires t.Valid()
    ensures r == InvSubWord(Word(x0, x1, x2, x3))
  {
    hide Sbox, T0, T1, T2, T3, D0, D1, D2, D3, Image, Index, InvSbox;
    Lookup(t, x0);
    Lookup(t, x1);
    Lookup(t, x2);
    Lookup(t, x3);
    r := Word(t.InvS[Index(x0)], t.InvS[Index(x1)], t.InvS[Index(x2)], t.InvS[Index(x3)]);
  }

  /** FD4, four times. */
  method FinalInverse(t: Tables, w: array<Word>, m: State) returns (dest: State)
    requires t.Valid() && 4 <= w.Length
    ensures dest == Add(InvShiftRows(InvSubBytes(m)), Key(w[..], 0))
  {
    hide InvSbox, X, TablesTo, InverseTo;
    var d0 := InvLookup(t, Col(m, 4).b0, Col(m, 3).b1, Col(m, 2).b2, Col(m, 1).b3);
    var d1 := InvLookup(t, Col(m, 5).b0, Col(m, 4).b1, Col(m, 3).b2, Col(m, 2).b3);
    var d2 := InvLookup(t, Col(m, 6).b0, Col(m, 5).b1, Col(m, 4).b2, Col(m, 3).b3);
    var d3 := InvLookup(t, Col(m, 7).b0, Col(m, 6).b1, Col(m, 5).b2, Col(m, 4).b3);
    dest := State(X(d0, w[0]), X(d1, w[1]), X(d2, w[2]), X(d3, w[3]));
  }

  /** The first AddRoundKey of Aes_Encode and Aes_Decode. */
  method FirstKey(w: array<Word>, src: State, p: nat, ghost r: nat) returns (s: State)
    requires p == 4 * r && p + 4 <= w.Length
    ensures s == Add(src, Key(w[..], r))
  {
    hide X;
    s := State(X(src.c0, w[p]), X(src.c1, w[p + 1]), X(src.c2, w[p + 2]), X(src.c3, w[p + 3]));
  }

  /** Aes_Encode; two rounds an iteration, the last of them without its second. */
  method Encode(t: Tables, w: array<Word>, numRounds2: nat, src: State) returns (dest: State)
    requires t.Valid() && numRounds2 > 0 && 8 * numRounds2 + 4 <= w.Length
    ensures dest == Cipher(w[..], 2 * numRounds2, src)
  {
    hide Add, Round, Key, SubBytes, ShiftRows, TablesTo, InverseTo;
    var p, left := 4, numRounds2;
    var s := FirstKey(w, src, 0, 0);
    ghost var r := 0;
    var m;
    while true
      invariant 0 < left <= numRounds2 && r == 2 * (numRounds2 - left) && p == 4 * r + 4
      invariant s == Rounds(w[..], src, r)
      decreases left
    {
      m := HT16(t, w, s, p, r + 1);
      left := left - 1;
      if left == 0 { break; }
      s := HT16(t, w, m, p + 4, r + 2);
      p := p + 8;
      r := r + 2;
    }
    p := p + 4;
    dest := FinalRound(w, m, p, r + 2);
  }

  /** Aes_Decode. */
  method Decode(t: Tables, w: array<Word>, numRounds2: nat, src: State) returns (dest: State)
    requires t.Valid() && numRounds2 > 0 && 8 * numRounds2 + 4 <= w.Length
    ensures dest == InvCipher(w[..], 2 * numRounds2, src)
  {
    hide Add, InvRound, Key, InvSubBytes, InvShiftRows, TablesTo, InverseTo;
    ghost var nr := 2 * numRounds2;
    var p, left := 8 * numRounds2, numRounds2;
    var s := FirstKey(w, src, p, nr);
    ghost var r := 0;
    var m;
    while true
      invariant 0 < left <= numRounds2 && r == 2 * (numRounds2 - left) && p == 4 * (nr - r)
      invariant s == InvRounds(w[..], nr, src, r)
      decreases left
    {
      p := p - 8;
      m := HD16(t, w, s, p + 4, nr - (r + 1));
      left := left - 1;
      if left == 0 { break; }
      s := HD16(t, w, m, p, nr - (r + 2));
      r := r + 2;
    }
    dest := FinalInverse(t, w, m);
  }

  /** Rcon[j]: the powers of x. */
  function Rcon(j: nat): bv8 {
    if j == 0 then 0 else if j == 1 then 1 else Xtime(Rcon(j - 1))
  }

  const RCON: seq<bv8> := [0x00, 0x01, 0x02, 0x04, 0x08, 0x10, 0x20, 0x40, 0x80, 0x1b, 0x36]

  lemma RconTable(j: nat)
    requires j < |RCON|
    ensures RCON[j] == Rcon(j)
  {
    assert Rcon(4) == 0x08;
    assert Rcon(7) == 0x40;
  }

  function RotWord(t: Word): Word { Word(t.b1, t.b2, t.b3, t.b0) }

  /** What is added to the word nk before, section 5.2. */
  function Temp(t: Word, i: nat, nk: nat): Word
    requires nk > 0
  {
    if i % nk == 0 then X(SubWord(RotWord(t)), Word(Rcon(i / nk), 0, 0, 0))
    else if nk > 6 && i % nk == 4 then SubWord(t)
    else t
  }

  /** KeyExpansion, section 5.2: word i. */
  function Expanded(key: seq<Word>, i: nat): Word
    requires |key| > 0
    decreases i
  {
    if i < |key| then key[i] else X(Expanded(key, i - |key|), Temp(Expanded(key, i - 1), i, |key|))
  }

  function KeyWords(key: seq<bv8>): (r: seq<Word>)
    requires |key| % 4 == 0
    ensures |r| == |key| / 4 && forall i :: 0 <= i < |r| ==>
            r[i] == Word(key[4 * i], key[4 * i + 1], key[4 * i + 2], key[4 * i + 3])
    decreases |key|
  {
    if key == [] then [] else
    var n := |key| - 4;
    KeyWords(key[..n]) + [Word(key[n], key[n + 1], key[n + 2], key[n + 3])]
  }

  predicate KeySize(n: nat) { n == 16 || n == 24 || n == 32 }

  /** 10, 12 or 14 rounds. */
  function NumRounds2(keySize: nat): (n: nat) { keySize / 4 / 2 + 3 }

  /** The first n words are the expanded key. */
  ghost predicate ExpandedTo(w: seq<Word>, key: seq<Word>, n: nat) {
    |key| > 0 && n <= |w| && forall i :: 0 <= i < n ==> w[i] == Expanded(key, i)
  }

  lemma ExpandOne(w: seq<Word>, key: seq<Word>, n: nat, v: Word)
    requires ExpandedTo(w, key, n) && n < |w| && v == Expanded(key, n)
    ensures ExpandedTo(w[n := v], key, n + 1)
  {
    hide Expanded;
  }

  lemma ExpandedIs(w: seq<Word>, key: seq<Word>, n: nat)
    requires ExpandedTo(w, key, n) && n < |w|
    ensures n < |key| ==> Expanded(key, n) == key[n]
    ensures n >= |key| ==> Expanded(key, n) == X(w[n - |key|], Temp(w[n - 1], n, |key|))
  {
    hide X, Temp;
  }

  lemma TempIs(t: Word, i: nat, nk: nat)
    requires nk > 0 && i / nk < |RCON|
    ensures Temp(t, i, nk) ==
            if i % nk == 0 then Word(B(Sbox(t.b1), RCON[i / nk]), Sbox(t.b2), Sbox(t.b3), Sbox(t.b0))
            else if nk > 6 && i % nk == 4 then Word(Sbox(t.b0), Sbox(t.b1), Sbox(t.b2), Sbox(t.b3))
            else t
  {
    hide Sbox, B;
    RconTable(i / nk);
    Zero(Sbox(t.b2));
    Zero(Sbox(t.b3));
    Zero(Sbox(t.b0));
  }

  lemma RconReaches(i: nat, nk: nat)
    requires (nk == 4 && i < 44) || (nk == 6 && i < 52) || (nk == 8 && i < 60)
    ensures i / nk < |RCON|
  {}

  /** Aes_SetKey_Enc, without the header word. */
  method SetKeyEnc(w: array<Word>, key: seq<bv8>) returns (numRounds2: nat)
    requires KeySize(|key|) && w.Length >= 60
    modifies w
    ensures numRounds2 == NumRounds2(|key|) && 8 * numRounds2 + 4 == |key| + 28
    ensures ExpandedTo(w[..], KeyWords(key), |key| + 28)
  {
    hide Sbox, B, X, ExpandedTo, Expanded, Temp;
    var wSize := |key| + 28;
    var keySize := |key| / 4;
    numRounds2 := keySize / 2 + 3;
    ghost var words := KeyWords(key);
    var i := 0;
    ExpandNone(w[..], words);
    while i < keySize
      invariant i <= keySize && ExpandedTo(w[..], words, i)
    {
      ExpandedIs(w[..], words, i);
      ExpandOne(w[..], words, i, words[i]);
      w[i] := Word(key[4 * i], key[4 * i + 1], key[4 * i + 2], key[4 * i + 3]);
      i := i + 1;
    }
    while i < wSize
      invariant keySize <= i <= wSize && ExpandedTo(w[..], words, i)
    {
      ExpandedIs(w[..], words, i);
      RconReaches(i, keySize);
      TempIs(w[i - 1], i, keySize);
      var t := w[i - 1];
      var rem := i % keySize;
      if rem == 0 {
        t := Word(B(Sbox(t.b1), RCON[i / keySize]), Sbox(t.b2), Sbox(t.b3), Sbox(t.b0));
      } else if keySize > 6 && rem == 4 {
        t := Word(Sbox(t.b0), Sbox(t.b1), Sbox(t.b2), Sbox(t.b3));
      }
      ExpandOne(w[..], words, i, X(w[i - keySize], t));
      w[i] := X(w[i - keySize], t);
      i := i + 1;
    }
  }

  lemma ExpandNone(w: seq<Word>, key: seq<Word>)
    requires |key| > 0
    ensures ExpandedTo(w, key, 0)
  {}

  /** Words 4 to n are replaced, the others are as before. */
  ghost predicate MixedTo(before: seq<Word>, after: seq<Word>, n: nat) {
    && |after| == |before| && 4 <= n <= |before|
    && (forall i :: 4 <= i < n ==> after[i] == InvMix(before[i]))
    && (forall i :: 0 <= i < |before| && !(4 <= i < n) ==> after[i] == before[i])
  }

  lemma MixedOne(before: seq<Word>, after: seq<Word>, n: nat)
    requires MixedTo(before, after, n) && n < |before|
    ensures after[n] == before[n] && MixedTo(before, after[n := InvMix(before[n])], n + 1)
  {
    hide InvMix;
  }

  lemma MixedNone(before: seq<Word>)
    requires |before| >= 4
    ensures MixedTo(before, before, 4)
  {}

  /** DD(k)[Sbox[gbk(r)]] summed up is InvMixColumns. */
  lemma InvMixIs(r: Word)
    ensures X(X(X(D0(Sbox(r.b0)), D1(Sbox(r.b1))), D2(Sbox(r.b2))), D3(Sbox(r.b3))) == InvMix(r)
  {
    hide Sbox, InvSbox, X, I0, I1, I2, I3;
    SboxIsFips(r.b0);
    SboxIsFips(r.b1);
    SboxIsFips(r.b2);
    SboxIsFips(r.b3);
  }

  /** Aes_SetKey_Dec: the inner round keys are mixed back. */
  method SetKeyDec(t: Tables, w: array<Word>, key: seq<bv8>, ghost enc: seq<Word>) returns (numRounds2: nat)
    requires t.Valid() && KeySize(|key|) && w.Length >= 60 && w != t.T && w != t.D && (w as object) != t.InvS
    requires |enc| == w.Length && ExpandedTo(enc, KeyWords(key), |key| + 28)
    modifies w
    ensures numRounds2 == NumRounds2(|key|) && 8 * numRounds2 + 4 == |key| + 28
    ensures DecryptionKeys(enc, w[..], 2 * numRounds2)
  {
    hide Sbox, InvSbox, D0, D1, D2, D3, X, InvMix, ExpandedTo, MixedTo, TablesTo, InverseTo, Index, DecryptionKeys,
         KeyWords;
    numRounds2 := SetKeyEnc(w, key);
    var num := |key| + 20;
    ghost var before := w[..];
    var i := 0;
    MixedNone(before);
    while i < num
      invariant i <= num && MixedTo(before, w[..], i + 4) && t.Valid()
    {
      var r := w[i + 4];
      MixedOne(before, w[..], i + 4);
      LookupD(t, Sbox(r.b0));
      LookupD(t, Sbox(r.b1));
      LookupD(t, Sbox(r.b2));
      LookupD(t, Sbox(r.b3));
      InvMixIs(r);
      var v := X(X(X(t.D[Index(Sbox(r.b0))], t.D[256 + Index(Sbox(r.b1))]), t.D[512 + Index(Sbox(r.b2))]),
          t.D[768 + Index(Sbox(r.b3))]);
      w[i + 4] := v;
      i := i + 1;
    }
    MixedKeys(enc, before, w[..], KeyWords(key), |key| + 28, 2 * numRounds2);
  }

  lemma LookupD(t: Tables, x: bv8)
    requires t.Valid()
    ensures t.D.Length == 1024
    ensures var i := Index(x);
            t.D[i] == D0(x) && t.D[256 + i] == D1(x) && t.D[512 + i] == D2(x) && t.D[768 + i] == D3(x)
  {
    hide Sbox, InvSbox, T0, T1, T2, T3, D0, D1, D2, D3, Index;
    Lookup(t, x);
  }

  lemma MixedKeys(enc: seq<Word>, before: seq<Word>, after: seq<Word>, key: seq<Word>, n: nat, nr: nat)
    requires nr > 0 && n == 4 * nr + 4 && ExpandedTo(enc, key, n) && ExpandedTo(before, key, n)
             && MixedTo(before, after, n - 4)
    ensures DecryptionKeys(enc, after, nr)
  {
    hide Expanded, InvMix;
    assert forall i :: 0 <= i < n ==> enc[i] == before[i];
    forall r: nat | 0 < r < nr ensures Key(after, r) == InvMixColumns(Key(enc, r)) {
      var i := 4 * r;
      assert after[i] == InvMix(before[i]) && after[i + 1] == InvMix(before[i + 1])
             && after[i + 2] == InvMix(before[i + 2]) && after[i + 3] == InvMix(before[i + 3]);
    }
  }
}
