/** The cipher of FIPS 197 on columns of four bytes, and its inverse. */
module Aes {
  import opened AesSbox

  /** A UInt32 of Aes.c as its bytes gb0 to gb3; the constructor is Ui32. It is a column of the state. */
  datatype Word = Word(b0: bv8, b1: bv8, b2: bv8, b3: bv8)

  datatype State = State(c0: Word, c1: Word, c2: Word, c3: Word)

  function B(x: bv8, y: bv8): bv8 { x ^ y }

  function X(a: Word, b: Word): Word { Word(B(a.b0, b.b0), B(a.b1, b.b1), B(a.b2, b.b2), B(a.b3, b.b3)) }

  /** AddRoundKey. */
  function Add(s: State, k: State): State { State(X(s.c0, k.c0), X(s.c1, k.c1), X(s.c2, k.c2), X(s.c3, k.c3)) }

  function SubWord(a: Word): Word { Word(Sbox(a.b0), Sbox(a.b1), Sbox(a.b2), Sbox(a.b3)) }

  function SubBytes(s: State): State { State(SubWord(s.c0), SubWord(s.c1), SubWord(s.c2), SubWord(s.c3)) }

  /** Row r moves r columns to the left. */
  function ShiftRows(s: State): State {
    State(Word(s.c0.b0, s.c1.b1, s.c2.b2, s.c3.b3), Word(s.c1.b0, s.c2.b1, s.c3.b2, s.c0.b3),
          Word(s.c2.b0, s.c3.b1, s.c0.b2, s.c1.b3), Word(s.c3.b0, s.c0.b1, s.c1.b2, s.c2.b3))
  }

  function M2(x: bv8): bv8 { Xtime(x) }

  function M3(x: bv8): bv8 { B(Xtime(x), x) }

  /** MixColumns on one column, section 5.1.3. */
  function Mix(a: Word): Word {
    Word(B(B(B(M2(a.b0), M3(a.b1)), a.b2), a.b3), B(B(B(a.b0, M2(a.b1)), M3(a.b2)), a.b3),
         B(B(B(a.b0, a.b1), M2(a.b2)), M3(a.b3)), B(B(B(M3(a.b0), a.b1), a.b2), M2(a.b3)))
  }

  function MixColumns(s: State): State { State(Mix(s.c0), Mix(s.c1), Mix(s.c2), Mix(s.c3)) }

  /** Round key r of the expanded key. */
  function Key(w: seq<Word>, r: nat): State {
    if 4 * r + 3 < |w| then State(w[4 * r], w[4 * r + 1], w[4 * r + 2], w[4 * r + 3])
    else State(Word(0, 0, 0, 0), Word(0, 0, 0, 0), Word(0, 0, 0, 0), Word(0, 0, 0, 0))
  }

  function Round(k: State, s: State): State { Add(MixColumns(ShiftRows(SubBytes(s))), k) }

  /** The state after the initial round key and n full rounds. */
  function Rounds(w: seq<Word>, s: State, n: nat): State {
    if n == 0 then Add(s, Key(w, 0)) else Round(Key(w, n), Rounds(w, s, n - 1))
  }

  /** Cipher, section 5.1. */
  function Cipher(w: seq<Word>, nr: nat, s: State): State
    requires nr > 0
  {
    Add(ShiftRows(SubBytes(Rounds(w, s, nr - 1))), Key(w, nr))
  }

  function InvSubWord(a: Word): Word { Word(InvSbox(a.b0), InvSbox(a.b1), InvSbox(a.b2), InvSbox(a.b3)) }

  function InvSubBytes(s: State): State { State(InvSubWord(s.c0),
                                                InvSubWord(s.c1), InvSubWord(s.c2), InvSubWord(s.c3)) }

  function InvShiftRows(s: State): State {
    State(Word(s.c0.b0, s.c3.b1, s.c2.b2, s.c1.b3), Word(s.c1.b0, s.c0.b1, s.c3.b2, s.c2.b3),
          Word(s.c2.b0, s.c1.b1, s.c0.b2, s.c3.b3), Word(s.c3.b0, s.c2.b1, s.c1.b2, s.c0.b3))
  }

  function M4(x: bv8): bv8 { Xtime(Xtime(x)) }

  function M8(x: bv8): bv8 { Xtime(Xtime(Xtime(x))) }

  function M9(x: bv8): bv8 { B(M8(x), x) }

  function MB(x: bv8): bv8 { B(B(M8(x), M2(x)), x) }

  function MD(x: bv8): bv8 { B(B(M8(x), M4(x)), x) }

  function ME(x: bv8): bv8 { B(B(M8(x), M4(x)), M2(x)) }

  /** What each byte of a column adds in InvMixColumns, section 5.3.3. */
  function I0(x: bv8): Word { Word(ME(x), M9(x), MD(x), MB(x)) }

  function I1(x: bv8): Word { Word(MB(x), ME(x), M9(x), MD(x)) }

  function I2(x: bv8): Word { Word(MD(x), MB(x), ME(x), M9(x)) }

  function I3(x: bv8): Word { Word(M9(x), MD(x), MB(x), ME(x)) }

  function InvMix(a: Word): Word { X(X(X(I0(a.b0), I1(a.b1)), I2(a.b2)), I3(a.b3)) }

  function InvMixColumns(s: State): State { State(InvMix(s.c0), InvMix(s.c1), InvMix(s.c2), InvMix(s.c3)) }

  function InvRound(k: State, s: State): State { Add(InvMixColumns(InvShiftRows(InvSubBytes(s))), k) }

  /** The equivalent inverse cipher after n rounds; the round keys are used backwards. */
  function InvRounds(w: seq<Word>, nr: nat, s: State, n: nat): State
    requires n <= nr
  {
    if n == 0 then Add(s, Key(w, nr)) else InvRound(Key(w, nr - n), InvRounds(w, nr, s, n - 1))
  }

  /** Section 5.3.5. */
  function InvCipher(w: seq<Word>, nr: nat, s: State): State
    requires nr > 0
  {
    Add(InvShiftRows(InvSubBytes(InvRounds(w, nr, s, nr - 1))), Key(w, 0))
  }

  lemma Assoc(x: bv8, y: bv8, z: bv8)
    ensures B(B(x, y), z) == B(x, B(y, z)) && B(x, y) == B(y, x) && B(B(x, y), y) == x
  {}

  lemma Cross(x: bv8, y: bv8, z: bv8, w: bv8)
    ensures B(B(x, y), B(z, w)) == B(B(x, z), B(y, w))
  {
    hide B;
    Assoc(x, y, B(z, w));
    Assoc(y, z, w);
    Assoc(z, y, w);
    Assoc(x, z, B(y, w));
  }

  lemma CrossWord(a: Word, b: Word, c: Word, d: Word)
    ensures X(X(a, b), X(c, d)) == X(X(a, c), X(b, d))
  {
    hide B;
    Cross(a.b0, b.b0, c.b0, d.b0);
    Cross(a.b1, b.b1, c.b1, d.b1);
    Cross(a.b2, b.b2, c.b2, d.b2);
    Cross(a.b3, b.b3, c.b3, d.b3);
  }

  lemma CancelWord(a: Word, b: Word)
    ensures X(X(a, b), b) == a
  {
    hide B;
    Assoc(a.b0, b.b0, b.b0);
    Assoc(a.b1, b.b1, b.b1);
    Assoc(a.b2, b.b2, b.b2);
    Assoc(a.b3, b.b3, b.b3);
  }

  lemma Cancel(s: State, k: State)
    ensures Add(Add(s, k), k) == s
  {
    hide X;
    CancelWord(s.c0, k.c0);
    CancelWord(s.c1, k.c1);
    CancelWord(s.c2, k.c2);
    CancelWord(s.c3, k.c3);
  }

  function Double(x: bv8): bv8 { x << 1 }

  predicate Top(x: bv8) { x & 0x80 != 0 }

  lemma XtimeIs(x: bv8)
    ensures Xtime(x) == if Top(x) then B(Double(x), 0x1B) else Double(x)
  {}

  lemma DoubleLinear(x: bv8, y: bv8)
    ensures Double(B(x, y)) == B(Double(x), Double(y)) && (Top(B(x, y)) <==> Top(x) != Top(y))
  {}

  lemma XtimeLinear(x: bv8, y: bv8)
    ensures Xtime(B(x, y)) == B(Xtime(x), Xtime(y))
  {
    hide Xtime, Top, Double, B;
    XtimeIs(x);
    XtimeIs(y);
    XtimeIs(B(x, y));
    DoubleLinear(x, y);
    var d, e := Double(x), Double(y);
    Assoc(d, e, 0x1B);
    Assoc(d, 0x1B, e);
    Assoc(e, 0x1B, e);
    Cross(d, 0x1B, e, 0x1B);
    Self(0x1B);
    Zero(B(d, e));
  }

  lemma Self(v: bv8)
    ensures B(v, v) == 0
  {}

  lemma Zero(v: bv8)
    ensures B(v, 0) == v && B(0, v) == v
  {}

  lemma PowersLinear(x: bv8, y: bv8)
    ensures M2(B(x, y)) == B(M2(x), M2(y)) && M4(B(x, y)) == B(M4(x), M4(y)) && M8(B(x, y)) == B(M8(x), M8(y))
  {
    hide Xtime, B;
    XtimeLinear(x, y);
    XtimeLinear(Xtime(x), Xtime(y));
    XtimeLinear(Xtime(Xtime(x)), Xtime(Xtime(y)));
  }

  lemma FactorsLinear(x: bv8, y: bv8)
    ensures M9(B(x, y)) == B(M9(x), M9(y)) && MB(B(x, y)) == B(MB(x), MB(y))
    ensures MD(B(x, y)) == B(MD(x), MD(y)) && ME(B(x, y)) == B(ME(x), ME(y))
  {
    hide Xtime, B, M2, M4, M8;
    PowersLinear(x, y);
    Cross(M8(x), M8(y), x, y);
    Cross(M8(x), M8(y), M2(x), M2(y));
    Cross(B(M8(x), M2(x)), B(M8(y), M2(y)), x, y);
    Cross(M8(x), M8(y), M4(x), M4(y));
    Cross(B(M8(x), M4(x)), B(M8(y), M4(y)), x, y);
    Cross(B(M8(x), M4(x)), B(M8(y), M4(y)), M2(x), M2(y));
  }

  lemma InvMixLinear(a: Word, b: Word)
    ensures InvMix(X(a, b)) == X(InvMix(a), InvMix(b))
  {
    hide B, X, M9, MB, MD, ME;
    Contributions(a.b0, b.b0);
    Contributions(a.b1, b.b1);
    Contributions(a.b2, b.b2);
    Contributions(a.b3, b.b3);
    BytesOf(a, b);
    CrossWord(I0(a.b0), I0(b.b0), I1(a.b1), I1(b.b1));
    CrossWord(X(I0(a.b0), I1(a.b1)), X(I0(b.b0), I1(b.b1)), I2(a.b2), I2(b.b2));
    CrossWord(X(X(I0(a.b0), I1(a.b1)), I2(a.b2)), X(X(I0(b.b0), I1(b.b1)), I2(b.b2)), I3(a.b3), I3(b.b3));
  }

  lemma BytesOf(a: Word, b: Word)
    ensures X(a, b).b0 == B(a.b0, b.b0) && X(a, b).b1 == B(a.b1, b.b1) && X(a, b).b2 == B(a.b2, b.b2)
            && X(a, b).b3 == B(a.b3, b.b3)
  {
    hide B;
  }

  lemma Contributions(x: bv8, y: bv8)
    ensures I0(B(x, y)) == X(I0(x), I0(y)) && I1(B(x, y)) == X(I1(x), I1(y)) && I2(B(x, y)) == X(I2(x), I2(y))
            && I3(B(x, y)) == X(I3(x), I3(y))
  {
    hide B, M9, MB, MD, ME;
    FactorsLinear(x, y);
  }

  /** What each byte of a column adds in MixColumns. */
  function F0(x: bv8): Word { Word(M2(x), x, x, M3(x)) }

  function F1(x: bv8): Word { Word(M3(x), M2(x), x, x) }

  function F2(x: bv8): Word { Word(x, M3(x), M2(x), x) }

  function F3(x: bv8): Word { Word(x, x, M3(x), M2(x)) }

  lemma MixIs(a: Word)
    ensures Mix(a) == X(X(X(F0(a.b0), F1(a.b1)), F2(a.b2)), F3(a.b3))
  {
    hide B, M2, M3;
  }

  /** A sum of x, its double in the field, and so on up to the fourth doubling. */
  datatype Poly = Poly(k0: bool, k1: bool, k2: bool, k3: bool, k4: bool)

  function Part(k: bool, v: bv8): bv8 { if k then v else 0 }

  function Eval(p: Poly, x: bv8): bv8 {
    B(Part(p.k4, M2(M8(x))), B(Part(p.k3, M8(x)), B(Part(p.k2, M4(x)), B(Part(p.k1, M2(x)), Part(p.k0, x)))))
  }

  function Plus(p: Poly, q: Poly): Poly { Poly(p.k0 != q.k0, p.k1 != q.k1, p.k2 != q.k2, p.k3 != q.k3, p.k4 != q.k4) }

  function Times2(p: Poly): Poly { Poly(false, p.k0, p.k1, p.k2, p.k3) }

  lemma PartAdd(k: bool, l: bool, v: bv8)
    ensures B(Part(k, v), Part(l, v)) == Part(k != l, v)
  {
    hide B;
    Self(v);
    Zero(v);
    Zero(0);
  }

  function Chain(a4: bv8, a3: bv8, a2: bv8, a1: bv8, a0: bv8): bv8 { B(a4, B(a3, B(a2, B(a1, a0)))) }

  lemma ChainAdd(a4: bv8, a3: bv8, a2: bv8, a1: bv8, a0: bv8, b4: bv8, b3: bv8, b2: bv8, b1: bv8, b0: bv8)
    ensures Chain(B(a4, b4), B(a3, b3), B(a2, b2), B(a1, b1), B(a0, b0))
            == B(Chain(a4, a3, a2, a1, a0), Chain(b4, b3, b2, b1, b0))
  {
    hide B;
    Cross(a1, a0, b1, b0);
    Cross(a2, B(a1, a0), b2, B(b1, b0));
    Cross(a3, B(a2, B(a1, a0)), b3, B(b2, B(b1, b0)));
    Cross(a4, B(a3, B(a2, B(a1, a0))), b4, B(b3, B(b2, B(b1, b0))));
  }

  lemma EvalIs(p: Poly, x: bv8)
    ensures Eval(p, x) == Chain(Part(p.k4, M2(M8(x))), Part(p.k3, M8(x)),
            Part(p.k2, M4(x)), Part(p.k1, M2(x)), Part(p.k0, x))
  {
    hide B, M2, M4, M8, Part;
  }

  lemma EvalAdd(p: Poly, q: Poly, x: bv8)
    ensures Eval(Plus(p, q), x) == B(Eval(p, x), Eval(q, x))
  {
    hide B, M2, M4, M8, Part, Chain, Eval;
    var x1, x2, x3, x4 := M2(x), M4(x), M8(x), M2(M8(x));
    EvalIs(p, x);
    EvalIs(q, x);
    EvalIs(Plus(p, q), x);
    PartAdd(p.k0, q.k0, x);
    PartAdd(p.k1, q.k1, x1);
    PartAdd(p.k2, q.k2, x2);
    PartAdd(p.k3, q.k3, x3);
    PartAdd(p.k4, q.k4, x4);
    ChainAdd(Part(p.k4, x4), Part(p.k3, x3), Part(p.k2, x2), Part(p.k1, x1), Part(p.k0, x),
             Part(q.k4, x4), Part(q.k3, x3), Part(q.k2, x2), Part(q.k1, x1), Part(q.k0, x));
  }

  lemma XtimeZero()
    ensures Xtime(0) == 0
  {}

  lemma EvalTimes2(p: Poly, x: bv8)
    requires !p.k4
    ensures Eval(Times2(p), x) == M2(Eval(p, x))
  {
    hide B, Xtime;
    XtimeZero();
    var a, b, c, d := Part(p.k3, M8(x)), Part(p.k2, M4(x)), Part(p.k1, M2(x)), Part(p.k0, x);
    Zero(B(a, B(b, B(c, d))));
    XtimeLinear(a, B(b, B(c, d)));
    XtimeLinear(b, B(c, d));
    XtimeLinear(c, d);
    Zero(Part(p.k0, M2(x)));
  }

  function One(): Poly { Poly(true, false, false, false, false) }

  function Times3(p: Poly): Poly { Plus(Times2(p), p) }

  function Times8(p: Poly): Poly { Times2(Times2(Times2(p))) }

  function Times9(p: Poly): Poly { Plus(Times8(p), p) }

  function TimesB(p: Poly): Poly { Plus(Plus(Times8(p), Times2(p)), p) }

  function TimesD(p: Poly): Poly { Plus(Plus(Times8(p), Times2(Times2(p))), p) }

  function TimesE(p: Poly): Poly { Plus(Plus(Times8(p), Times2(Times2(p))), Times2(p)) }

  /** The factors of InvMixColumns on sums without the third doubling or a higher one. */
  lemma EvalFactors(p: Poly, x: bv8)
    requires !p.k2 && !p.k3 && !p.k4
    ensures Eval(Times9(p), x) == M9(Eval(p, x)) && Eval(TimesB(p), x) == MB(Eval(p, x))
    ensures Eval(TimesD(p), x) == MD(Eval(p, x)) && Eval(TimesE(p), x) == ME(Eval(p, x))
  {
    hide B, Xtime, Eval, Plus;
    var p2 := Times2(p);
    var p4 := Times2(p2);
    var p8 := Times2(p4);
    EvalTimes2(p, x);
    EvalTimes2(p2, x);
    EvalTimes2(p4, x);
    EvalAdd(p8, p, x);
    EvalAdd(p8, p2, x);
    EvalAdd(Plus(p8, p2), p, x);
    EvalAdd(p8, p4, x);
    EvalAdd(Plus(p8, p4), p, x);
    EvalAdd(Plus(p8, p4), p2, x);
  }

  lemma EvalOne(x: bv8)
    ensures Eval(One(), x) == x && Eval(Poly(false, false, false, false, false), x) == 0
    ensures Eval(Times2(One()), x) == M2(x) && Eval(Times3(One()), x) == M3(x)
  {
    hide B, Xtime;
    Zero(x);
    Zero(0);
    Zero(M2(x));
    Zero(B(M2(x), x));
  }

  lemma EvalSum(p: Poly, q: Poly, r: Poly, s: Poly, x: bv8)
    ensures Eval(Plus(Plus(Plus(p, q), r), s), x) == B(B(B(Eval(p, x), Eval(q, x)), Eval(r, x)), Eval(s, x))
  {
    hide B, Eval, Plus;
    EvalAdd(p, q, x);
    EvalAdd(Plus(p, q), r, x);
    EvalAdd(Plus(Plus(p, q), r), s, x);
  }

  /** Row by row: the factors E, B, D, 9 times those of MixColumns. */
  lemma Undo(x: bv8)
    ensures B(B(B(ME(M2(x)), MB(x)), MD(x)), M9(M3(x))) == x && B(B(B(M9(M2(x)), ME(x)), MB(x)), MD(M3(x))) == 0
    ensures B(B(B(MD(M2(x)), M9(x)), ME(x)), MB(M3(x))) == 0 && B(B(B(MB(M2(x)), MD(x)), M9(x)), ME(M3(x))) == 0
  {
    hide B, Xtime, Eval, M2, M3, M9, MB, MD, ME;
    var one, two, three := One(), Times2(One()), Times3(One());
    EvalOne(x);
    EvalFactors(one, x);
    EvalFactors(two, x);
    EvalFactors(three, x);
    EvalSum(TimesE(two), TimesB(one), TimesD(one), Times9(three), x);
    EvalSum(Times9(two), TimesE(one), TimesB(one), TimesD(three), x);
    EvalSum(TimesD(two), Times9(one), TimesE(one), TimesB(three), x);
    EvalSum(TimesB(two), TimesD(one), Times9(one), TimesE(three), x);
  }

  lemma Rotate(x: bv8, y: bv8, z: bv8, w: bv8)
    ensures B(B(B(x, y), z), w) == B(B(B(y, z), w), x)
  {
    hide B;
    Assoc(x, y, z);
    Assoc(x, B(y, z), w);
    Assoc(B(B(y, z), w), x, x);
  }

  /** The column that has x in one place, mixed and mixed back. */
  lemma UndoColumns(x: bv8)
    ensures InvMix(F0(x)) == Word(x, 0, 0, 0) && InvMix(F1(x)) == Word(0, x, 0, 0)
    ensures InvMix(F2(x)) == Word(0, 0, x, 0) && InvMix(F3(x)) == Word(0, 0, 0, x)
  {
    hide B, M2, M3, M9, MB, MD, ME;
    Undo(x);
    Turns(ME(M2(x)), MB(x), MD(x), M9(M3(x)));
    Turns(M9(M2(x)), ME(x), MB(x), MD(M3(x)));
    Turns(MD(M2(x)), M9(x), ME(x), MB(M3(x)));
    Turns(MB(M2(x)), MD(x), M9(x), ME(M3(x)));
  }

  /** A sum of four does not depend on where it starts. */
  lemma Turns(x: bv8, y: bv8, z: bv8, w: bv8)
    ensures B(B(B(w, x), y), z) == B(B(B(x, y), z), w)
    ensures B(B(B(z, w), x), y) == B(B(B(x, y), z), w)
    ensures B(B(B(y, z), w), x) == B(B(B(x, y), z), w)
  {
    hide B;
    Rotate(x, y, z, w);
    Rotate(y, z, w, x);
    Rotate(z, w, x, y);
  }

  lemma Together(a: Word)
    ensures X(X(X(Word(a.b0, 0, 0, 0), Word(0, a.b1, 0, 0)), Word(0, 0, a.b2, 0)), Word(0, 0, 0, a.b3)) == a
  {
    hide B;
    Zero(a.b0);
    Zero(a.b1);
    Zero(a.b2);
    Zero(a.b3);
    Zero(0);
  }

  lemma InvMixMix(a: Word)
    ensures InvMix(Mix(a)) == a
  {
    hide B, X, Mix, InvMix, F0, F1, F2, F3;
    MixIs(a);
    InvMixLinear(X(X(F0(a.b0), F1(a.b1)), F2(a.b2)), F3(a.b3));
    InvMixLinear(X(F0(a.b0), F1(a.b1)), F2(a.b2));
    InvMixLinear(F0(a.b0), F1(a.b1));
    UndoColumns(a.b0);
    UndoColumns(a.b1);
    UndoColumns(a.b2);
    UndoColumns(a.b3);
    Together(a);
  }

  lemma InvMixColumnsAdd(s: State, k: State)
    ensures InvMixColumns(Add(MixColumns(s), k)) == Add(s, InvMixColumns(k))
  {
    hide X, Mix, InvMix;
    InvMixMix(s.c0);
    InvMixMix(s.c1);
    InvMixMix(s.c2);
    InvMixMix(s.c3);
    InvMixLinear(Mix(s.c0), k.c0);
    InvMixLinear(Mix(s.c1), k.c1);
    InvMixLinear(Mix(s.c2), k.c2);
    InvMixLinear(Mix(s.c3), k.c3);
  }

  lemma SubBack(a: Word)
    ensures InvSubWord(SubWord(a)) == a
  {
    hide Sbox, InvSbox;
    SboxIsFips(a.b0);
    SboxIsFips(a.b1);
    SboxIsFips(a.b2);
    SboxIsFips(a.b3);
  }

  lemma ShiftBack(s: State)
    ensures InvSubBytes(InvShiftRows(ShiftRows(SubBytes(s)))) == s
            && InvShiftRows(InvSubBytes(ShiftRows(SubBytes(s)))) == s
  {
    hide Sbox, InvSbox;
    SubBack(s.c0);
    SubBack(s.c1);
    SubBack(s.c2);
    SubBack(s.c3);
  }

  /** The decryption keys: InvMixColumns of the inner round keys. */
  ghost predicate DecryptionKeys(w: seq<Word>, w': seq<Word>, nr: nat) {
    && Key(w', 0) == Key(w, 0) && Key(w', nr) == Key(w, nr)
    && forall r: nat :: 0 < r < nr ==> Key(w', r) == InvMixColumns(Key(w, r))
  }

  /** One round undone. */
  lemma RoundBack(k: State, s: State, t: State)
    requires t == ShiftRows(SubBytes(Round(k, s)))
    ensures InvRound(InvMixColumns(k), t) == ShiftRows(SubBytes(s))
  {
    hide Add, SubBytes, ShiftRows, MixColumns, InvMixColumns, InvSubBytes, InvShiftRows;
    ShiftBack(Round(k, s));
    var m := ShiftRows(SubBytes(s));
    InvMixColumnsAdd(m, k);
    Cancel(m, InvMixColumns(k));
  }

  /** Decryption passes through the states of encryption backwards. */
  lemma {:induction false} RoundsBack(w: seq<Word>, w': seq<Word>, nr: nat, s: State, n: nat)
    requires DecryptionKeys(w, w', nr) && n < nr
    ensures InvRounds(w', nr, Cipher(w, nr, s), n) == ShiftRows(SubBytes(Rounds(w, s, nr - 1 - n)))
  {
    hide Add, SubBytes, ShiftRows, InvMixColumns, Key, Round, InvRound;
    if n == 0 {
      Cancel(ShiftRows(SubBytes(Rounds(w, s, nr - 1))), Key(w, nr));
    } else {
      RoundsBack(w, w', nr, s, n - 1);
      RoundBack(Key(w, nr - n), Rounds(w, s, nr - 1 - n), InvRounds(w', nr, Cipher(w, nr, s), n - 1));
    }
  }

  /** The inverse cipher with the decryption keys undoes the cipher, for every key schedule and every state. */
  lemma InvCipherCipher(w: seq<Word>, w': seq<Word>, nr: nat, s: State)
    requires nr > 0 && DecryptionKeys(w, w', nr)
    ensures InvCipher(w', nr, Cipher(w, nr, s)) == s
  {
    hide Add, SubBytes, ShiftRows, InvSubBytes, InvShiftRows, InvMixColumns, Key, Round, InvRound;
    RoundsBack(w, w', nr, s, nr - 1);
    ShiftBack(Rounds(w, s, 0));
    Cancel(s, Key(w, 0));
  }
}
