/** The table-driven code of compression/LZMA/Aes.c. */
module AesCode {
  import opened AesSbox
  import opened Aes

  function Index(x: bv8): (i: nat)
    ensures i < 256
  {
    x as nat
  }

  /** Different bytes have different places. */
  lemma IndexDiffers(x: bv8, y: bv8)
    ensures Index(x) == Index(y) ==> x == y
  {
    assert (x as nat) as bv8 == x && (y as nat) as bv8 == y;
  }

  /** A counter below 256 as a byte, and back. */
  function Low(i: bv16): bv8 { (i & 0xFF) as bv8 }

  function Wide(x: bv8): bv16 { x as bv16 }

  lemma WideBound(x: bv8)
    ensures Wide(x) < 256
  {}

  lemma LowIs(x: bv8, i: bv16)
    requires i < 256
    ensures Wide(x) < i + 1 <==> Wide(x) < i || x == Low(i)
    ensures !(Wide(Low(i)) < i) && i + 1 <= 256
  {}

  /** TT(k)[x] and DD(k)[x]. */
  function T0(x: bv8): Word { F0(Sbox(x)) }

  function T1(x: bv8): Word { F1(Sbox(x)) }

  function T2(x: bv8): Word { F2(Sbox(x)) }

  function T3(x: bv8): Word { F3(Sbox(x)) }

  function D0(x: bv8): Word { I0(InvSbox(x)) }

  function D1(x: bv8): Word { I1(InvSbox(x)) }

  function D2(x: bv8): Word { I2(InvSbox(x)) }

  function D3(x: bv8): Word { I3(InvSbox(x)) }

  ghost predicate TableAt(t: seq<Word>, d: seq<Word>, x: bv8)
    requires |t| == |d| == 1024
  {
    var i := Index(x);
    && t[i] == T0(x) && t[256 + i] == T1(x) && t[512 + i] == T2(x) && t[768 + i] == T3(x)
    && d[i] == D0(x) && d[256 + i] == D1(x) && d[512 + i] == D2(x) && d[768 + i] == D3(x)
  }

  /** The entries of the bytes below n. */
  ghost predicate TablesTo(t: seq<Word>, d: seq<Word>, n: bv16) {
    |t| == |d| == 1024 && forall x: bv8 :: Wide(x) < n ==> TableAt(t, d, x)
  }

  /** Sbox[x] as an index. */
  function Image(x: bv8): (j: nat)
    ensures j < 256
  {
    Index(Sbox(x))
  }

  ghost predicate InverseTo(s: seq<bv8>, n: bv16) {
    |s| == 256 && forall x: bv8 :: Wide(x) < n ==> s[Image(x)] == x
  }

  lemma InverseMore(s: seq<bv8>, n: bv16)
    requires InverseTo(s, n) && n < 256
    ensures InverseTo(s[Image(Low(n)) := Low(n)], n + 1)
  {
    hide Image, Low, Wide;
    var y := Low(n);
    forall x: bv8 | Wide(x) < n + 1 ensures s[Image(y) := y][Image(x)] == x {
      LowIs(x, n);
      OtherPlace(x, y);
    }
  }

  lemma OtherPlace(x: bv8, y: bv8)
    ensures x != y ==> Image(x) != Image(y)
  {
    hide Sbox, InvSbox, Index;
    SboxIsFips(x);
    SboxIsFips(y);
    IndexDiffers(Sbox(x), Sbox(y));
  }

  lemma InverseAll(s: seq<bv8>, x: bv8)
    requires InverseTo(s, 256)
    ensures s[Index(x)] == InvSbox(x)
  {
    hide Sbox, InvSbox, Index, Wide;
    SboxIsFips(x);
    WideBound(InvSbox(x));
    assert s[Image(InvSbox(x))] == InvSbox(x);
  }

  /** The static tables T, D and InvS. */
  class Tables {
    const T: array<Word>
    const D: array<Word>
    const InvS: array<bv8>

    ghost predicate Valid()
      reads T, D, InvS
    {
      TablesTo(T[..], D[..], 256) && InverseTo(InvS[..], 256)
    }

    /** AesGenTables. */
    constructor ()
      ensures Valid() && fresh(T) && fresh(D) && fresh(InvS)
    {
      T := new Word[1024];
      D := new Word[1024];
      InvS := new bv8[256];
      new;
      hide Sbox, InvSbox, Index, TablesTo, InverseTo;
      Fill(T, D, InvS);
    }
  }

  method Fill(T: array<Word>, D: array<Word>, InvS: array<bv8>)
    requires T.Length == D.Length == 1024 && InvS.Length == 256 && T != D
    modifies T, D, InvS
    ensures TablesTo(T[..], D[..], 256) && InverseTo(InvS[..], 256)
  {
    hide Sbox, InvSbox, Index, TablesTo, InverseTo, TableAt, Low, Wide, Image;
    Begin(T[..], D[..], InvS[..]);
    var i: bv16 := 0;
    while i < 256
      invariant i <= 256 && TablesTo(T[..], D[..], 0) && InverseTo(InvS[..], i)
      decreases 256 - i
    {
      InverseMore(InvS[..], i);
      LowIs(0, i);
      ghost var s := InvS[..];
      InvS[Image(Low(i))] := Low(i);
      assert InvS[..] == s[Image(Low(i)) := Low(i)];
      i := i + 1;
    }
    i := 0;
    while i < 256
      invariant i <= 256 && TablesTo(T[..], D[..], i) && InverseTo(InvS[..], 256)
      decreases 256 - i
    {
      InverseAll(InvS[..], Low(i));
      LowIs(0, i);
      Entries(T, D, i, Low(i), Sbox(Low(i)), InvS[Index(Low(i))]);
      i := i + 1;
    }
  }

  lemma Begin(t: seq<Word>, d: seq<Word>, s: seq<bv8>)
    requires |t| == |d| == 1024 && |s| == 256
    ensures TablesTo(t, d, 0) && InverseTo(s, 0)
  {}

  /** The entries for one byte; s and v are its images under the S-box and its inverse. */
  method Entries(T: array<Word>, D: array<Word>, n: bv16, x: bv8, s: bv8, v: bv8)
    requires T.Length == D.Length == 1024 && T != D && n < 256 && x == Low(n)
    requires TablesTo(T[..], D[..], n) && s == Sbox(x) && v == InvSbox(x)
    modifies T, D
    ensures TablesTo(T[..], D[..], n + 1)
  {
    hide Sbox, InvSbox, Low, Wide, Index, B, Xtime, T0, T1, T2, T3, D0, D1, D2, D3;
    ghost var t, d := T[..], D[..];
    EntryIs(x);
    InverseEntryIs(x);
    var i := Index(x);
    {
      var a1 := s;
      var a2 := Xtime(a1);
      var a3 := B(a2, a1);
      T[i] := Word(a2, a1, a1, a3);
      T[256 + i] := Word(a3, a2, a1, a1);
      T[512 + i] := Word(a1, a3, a2, a1);
      T[768 + i] := Word(a1, a1, a3, a2);
    }
    {
      var a1 := v;
      var a2 := Xtime(a1);
      var a4 := Xtime(a2);
      var a8 := Xtime(a4);
      var a9 := B(a8, a1);
      var aB := B(B(a8, a2), a1);
      var aD := B(B(a8, a4), a1);
      var aE := B(B(a8, a4), a2);
      D[i] := Word(aE, a9, aD, aB);
      D[256 + i] := Word(aB, aE, a9, aD);
      D[512 + i] := Word(aD, aB, aE, a9);
      D[768 + i] := Word(a9, aD, aB, aE);
    }
    TablesMore(t, d, T[..], D[..], n);
  }

  lemma EntryIs(x: bv8)
    ensures var a1 := Sbox(x);
            var a2 := Xtime(a1);
            var a3 := B(a2, a1);
            T0(x) == Word(a2, a1, a1, a3) && T1(x) == Word(a3, a2, a1, a1) && T2(x) == Word(a1, a3, a2, a1)
            && T3(x) == Word(a1, a1, a3, a2)
  {
    hide Sbox, B, Xtime;
  }

  lemma InverseEntryIs(x: bv8)
    ensures var a1 := InvSbox(x);
            var a2 := Xtime(a1);
            var a4 := Xtime(a2);
            var a8 := Xtime(a4);
            var a9, aB, aD, aE := B(a8, a1), B(B(a8, a2), a1), B(B(a8, a4), a1), B(B(a8, a4), a2);
            D0(x) == Word(aE, a9, aD, aB) && D1(x) == Word(aB, aE, a9, aD) && D2(x) == Word(aD, aB, aE, a9)
            && D3(x) == Word(a9, aD, aB, aE)
  {
    hide InvSbox, B, Xtime;
  }

  lemma TablesMore(t: seq<Word>, d: seq<Word>, t': seq<Word>, d': seq<Word>, n: bv16)
    requires TablesTo(t, d, n) && |t'| == |d'| == 1024 && n < 256 && TableAt(t', d', Low(n))
    requires var i := Index(Low(n));
             forall j :: 0 <= j < 1024 && j != i && j != 256 + i && j != 512 + i && j != 768 + i ==>
                 t'[j] == t[j] && d'[j] == d[j]
    ensures TablesTo(t', d', n + 1)
  {
    hide T0, T1, T2, T3, D0, D1, D2, D3, Low, Wide, Index;
    forall x: bv8 | Wide(x) < n + 1 ensures TableAt(t', d', x) {
      LowIs(x, n);
      IndexDiffers(x, Low(n));
      if x != Low(n) { assert TableAt(t, d, x); }
    }
  }
}
