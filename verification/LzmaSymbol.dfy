/** One LZMA symbol, as LZMA_DECODE_REAL decodes it and as LzmaDec_TryDummy looks at it. */
module LzmaSymbol {
  import opened Bytes
  import opened LzmaProg

  // Places in the table of probabilities, counted from its start.
  const SPEC_POS: nat := 0
  const IS_REP0_LONG: nat := 128
  const REP_LEN_CODER: nat := 384
  const LEN_CODER: nat := 896
  const IS_MATCH: nat := 1408
  const ALIGN: nat := 1664
  const IS_REP: nat := 1680
  const IS_REP_G0: nat := 1692
  const IS_REP_G1: nat := 1704
  const IS_REP_G2: nat := 1716
  const POS_SLOT: nat := 1728
  const LITERAL: nat := 1984
  const LEN_CHOICE2: nat := 8
  const LEN_HIGH: nat := 256
  const LIT_SIZE: nat := 0x300

  /** What the decisions of a symbol depend on: the state, the position, the properties, and two bytes of
      the dictionary: the last one, and the one at distance rep0. */
  datatype Env = Env(state: nat, processedPos: u32, lc: nat, lp: nat,
      pb: nat, hasPrev: bool, prevByte: byte, matchByte: byte)

  predicate Valid(e: Env) { e.state < 12 && e.lc <= 8 && e.lp <= 4 && e.pb <= 4 }

  function NumProbs(e: Env): nat { LITERAL + LIT_SIZE * Pow2(e.lc + e.lp) }

  /** The k low bits of x. */
  function Low(x: nat, k: nat): nat { x % Pow2(k) }

  /** CALC_POS_STATE. */
  function PosState(e: Env): nat { 16 * Low(e.processedPos, e.pb) }

  datatype Symbol = Lit(b: nat) | Match(len: nat, distance: nat) | EndMarker | Rep(which: nat, len: nat) | ShortRep

  datatype Kind = DummyLit | DummyMatch | DummyRep

  function KindOf(s: Symbol): Kind {
    match s
    case Lit(_) => DummyLit
    case Match(_, _) => DummyMatch
    case EndMarker => DummyMatch
    case Rep(_, _) => DummyRep
    case ShortRep => DummyRep
  }

  /** Bitwise and of two non-negative integers. */
  function And(a: nat, b: nat): nat
    decreases a + b
  {
    if a == 0 || b == 0 then 0 else 2 * And(a / 2, b / 2) + if a % 2 == 1 && b % 2 == 1 then 1 else 0
  }

  // ----- pieces -----

  /** TREE_GET_BIT, n times. */
  function Bits<T>(base: nat, n: nat, i: nat, k: nat -> Prog<T>): Prog<T>
    decreases n
  {
    if n == 0 then k(i) else Bit(base + i, Bits(base, n - 1, 2 * i, k), Bits(base, n - 1, 2 * i + 1, k))
  }

  /** TREE_DECODE. */
  function Tree<T>(base: nat, limit: nat, i: nat, k: nat -> Prog<T>): Prog<T>
    requires i > 0
    decreases limit - i
  {
    if i >= limit then k(i - limit) else Bit(base + i, Tree(base, limit, 2 * i, k), Tree(base, limit, 2 * i + 1, k))
  }

  /** offs &= matchByte, where offs is 0 or 0x100. */
  function Keep(offs: nat, matchByte: nat): (r: nat)
    ensures (r == 0 || r == 0x100) && (offs == 0 ==> r == 0)
  {
    if offs == 0x100 && matchByte / 0x100 % 2 == 1 then 0x100 else 0
  }

  /** MATCHED_LITER_DEC, until the symbol is complete; offs is 0 or 0x100. */
  function Matched<T>(base: nat, offs: nat, matchByte: nat, symbol: nat, k: nat -> Prog<T>): Prog<T>
    requires symbol > 0 && (offs == 0 || offs == 0x100)
    decreases 0x100 - symbol
  {
    if symbol >= 0x100 then k(symbol - 0x100)
    else
      var m := 2 * matchByte;
      var keep := Keep(offs, m);
      Bit(base + keep + offs + symbol, Matched(base, offs - keep, m, 2 * symbol, k),
          Matched(base, keep, m, 2 * symbol + 1, k))
  }

  function Directs<T>(d: nat, n: nat, k: nat -> Prog<T>): Prog<T>
    decreases n
  {
    if n == 0 then k(d) else Direct(Directs(2 * d, n - 1, k), Directs(2 * d + 1, n - 1, k))
  }

  /** REV_BIT_CHECK, n times. */
  function RevCheck<T>(base: nat, i: nat, m: nat, n: nat, k: Prog<T>): Prog<T>
    decreases n
  {
    if n == 0 then k else Bit(base + i, RevCheck(base, i + m, 2 * m, n - 1, k),
        RevCheck(base, i + 2 * m, 2 * m, n - 1, k))
  }

  /** What follows, for a value that is first shifted down or up. */
  function Less<T>(k: nat -> Prog<T>, n: nat): nat -> Prog<T> { (x: nat) => k(if x >= n then x - n else 0) }

  function Plus<T>(k: nat -> Prog<T>, n: nat): nat -> Prog<T> { (x: nat) => k(x + n) }

  function Always<T>(g: Prog<T>): nat -> Prog<T> { (x: nat) => g }

  // ----- LZMA_DECODE_REAL -----

  /** The literal coder's probabilities. */
  function RealLitBase(e: Env): nat
    requires Valid(e)
  {
    if !e.hasPrev then LITERAL
    else
      LpMaskIs(e);
      var lpMask := 0x100 * Pow2(e.lp) - 0x100 / Pow2(e.lc);
      LITERAL + 3 * (And((0x100 * e.processedPos + e.prevByte) % TWO32, lpMask) * Pow2(e.lc))
  }

  lemma Powers()
    ensures Pow2(0) == 1 && Pow2(1) == 2 && Pow2(2) == 4 && Pow2(3) == 8 && Pow2(4) == 16 && Pow2(5) == 32
            && Pow2(6) == 64
    ensures Pow2(7) == 128 && Pow2(8) == 256
  {}

  lemma LpMaskIs(e: Env)
    requires Valid(e)
    ensures 0x100 * Pow2(e.lp) == Pow2(8 + e.lp) && 0x100 / Pow2(e.lc) == Pow2(8 - e.lc) <= Pow2(8 + e.lp)
  {
    Powers();
    assert Pow2(9) == 512 && Pow2(10) == 1024 && Pow2(11) == 2048 && Pow2(12) == 4096;
  }

  function LitEnd(): nat -> Prog<Symbol> { (b: nat) => End(Lit(b)) }

  function RealLiteral(e: Env): Prog<Symbol>
    requires Valid(e)
  {
    if e.state < 7 then Bits(RealLitBase(e), 8, 1, Less(LitEnd(), 0x100))
        else Matched(RealLitBase(e), 0x100, e.matchByte, 1, LitEnd())
  }

  function RealLen<T>(base: nat, ps: nat, k: nat -> Prog<T>): Prog<T> {
    Bit(base,
        Bits(base + ps, 3, 1, Less(k, 8)),
        Bit(base + LEN_CHOICE2,
            Bits(base + ps + 8, 3, 1, k),
            Tree(base + LEN_HIGH, 0x100, 1, Plus(k, 16))))
  }

  /** REV_BIT_VAR, n times, and distance -= m. */
  function RevVar(i: nat, m: nat, n: nat, k: nat -> Prog<Symbol>): Prog<Symbol>
    decreases n
  {
    if n == 0 then k(if i >= m then i - m else 0)
    else Bit(SPEC_POS + i, RevVar(i + m, 2 * m, n - 1, k), RevVar(i + 2 * m, 2 * m, n - 1, k))
  }

  /** REV_BIT_CONST and REV_BIT_LAST. */
  function RealAlign(i: nat, m: nat, k: nat -> Prog<Symbol>): Prog<Symbol>
    requires 0 < m <= 8
    decreases 8 - m
  {
    if m >= 5 then Bit(ALIGN + i, k(if i >= m then i - m else 0), k(i))
    else Bit(ALIGN + i, RealAlign(i + m, 2 * m, k), RealAlign(i + 2 * m, 2 * m, k))
  }

  function ShortEnd(len: nat): nat -> Prog<Symbol> { (x: nat) => End(Match(len + 2, x)) }

  function AlignEnd(len: nat, x: nat): nat -> Prog<Symbol> {
    (i: nat) => End(if 16 * x + i == 0xFFFF_FFFF then EndMarker else Match(len + 2, 16 * x + i))
  }

  function LongEnd(len: nat): nat -> Prog<Symbol> { (x: nat) => RealAlign(1, 1, AlignEnd(len, x)) }

  function RealDistance(len: nat, slot: nat): Prog<Symbol> {
    if slot < 4 then End(Match(len + 2, slot))
    else
      var n, d := slot / 2 - 1, 2 + slot % 2;
      if slot < 14 then RevVar(Pow2(n) * d + 1, 1, n, ShortEnd(len)) else Directs(d, n - 4, LongEnd(len))
  }

  function SlotEnd(len: nat): nat -> Prog<Symbol> { (slot: nat) => RealDistance(len, slot) }

  function MatchEnd(): nat -> Prog<Symbol> { (len: nat) => RealMatch(len) }

  function RepEnd(which: nat): nat -> Prog<Symbol> { (len: nat) => End(Rep(which, len + 2)) }

  function RealMatch(len: nat): Prog<Symbol> {
    Bits(POS_SLOT + 64 * (if len < 4 then len else 3), 6, 1, Less(SlotEnd(len), 64))
  }

  function RealRep(e: Env, which: nat): Prog<Symbol> {
    RealLen(REP_LEN_CODER, PosState(e), RepEnd(which))
  }

  function Real(e: Env): Prog<Symbol>
    requires Valid(e)
  {
    Bit(IS_MATCH + PosState(e) + e.state,
        RealLiteral(e),
        Bit(IS_REP + e.state,
            RealLen(LEN_CODER, PosState(e), MatchEnd()),
            Bit(IS_REP_G0 + e.state,
                Bit(IS_REP0_LONG + PosState(e) + e.state, End(ShortRep), RealRep(e, 0)),
                Bit(IS_REP_G1 + e.state,
                    RealRep(e, 1),
                    Bit(IS_REP_G2 + e.state, RealRep(e, 2), RealRep(e, 3))))))
  }

  // ----- LzmaDec_TryDummy -----

  function DummyLitBase(e: Env): nat
    requires Valid(e)
  {
    if !e.hasPrev then LITERAL
    else LITERAL + LIT_SIZE * LitState(e.processedPos, e.prevByte, e.lc, e.lp)
  }

  function LitState(pos: nat, prev: nat, lc: nat, lp: nat): nat
    requires lc <= 8
  {
    NotNegative(Low(pos, lp), Pow2(lc), prev, Pow2(8 - lc));
    Low(pos, lp) * Pow2(lc) + prev / Pow2(8 - lc)
  }

  lemma NotNegative(a: nat, b: nat, c: nat, d: nat)
    requires d > 0
    ensures a * b >= 0 && c / d >= 0
  {}

  function DummyLiteral(e: Env): Prog<Kind>
    requires Valid(e)
  {
    if e.state < 7 then Tree(DummyLitBase(e), 0x100, 1, Always(End(DummyLit)))
    else Matched(DummyLitBase(e), 0x100, e.matchByte, 1, Always(End(DummyLit)))
  }

  function DummyLen<T>(base: nat, ps: nat, k: nat -> Prog<T>): Prog<T> {
    Bit(base,
        Tree(base + ps, 8, 1, k),
        Bit(base + LEN_CHOICE2,
            Tree(base + ps + 8, 8, 1, Plus(k, 8)),
            Tree(base + LEN_HIGH, 0x100, 1, Plus(k, 16))))
  }

  function DummyDistance(slot: nat): Prog<Kind> {
    if slot < 4 then End(DummyMatch)
    else
      var n := slot / 2 - 1;
      if slot < 14 then RevCheck(SPEC_POS + Pow2(n) * (2 + slot % 2), 1, 1, n, End(DummyMatch))
      else Directs(0, n - 4, Always(RevCheck(ALIGN, 1, 1, 4, End(DummyMatch))))
  }

  function DummyMatchTail(len: nat): Prog<Kind> {
    Tree(POS_SLOT + 64 * (if len < 3 then len else 3), 64, 1, DummySlotEnd())
  }

  function DummySlotEnd(): nat -> Prog<Kind> { (slot: nat) => DummyDistance(slot) }

  function DummyMatchEnd(): nat -> Prog<Kind> { (len: nat) => DummyMatchTail(len) }

  function DummyRepTail(e: Env): Prog<Kind> { DummyLen(REP_LEN_CODER, PosState(e), Always(End(DummyRep))) }

  function Dummy(e: Env): Prog<Kind>
    requires Valid(e)
  {
    Bit(IS_MATCH + PosState(e) + e.state,
        DummyLiteral(e),
        Bit(IS_REP + e.state,
            DummyLen(LEN_CODER, PosState(e), DummyMatchEnd()),
            Bit(IS_REP_G0 + e.state,
                Bit(IS_REP0_LONG + PosState(e) + e.state, End(DummyRep), DummyRepTail(e)),
                Bit(IS_REP_G1 + e.state,
                    DummyRepTail(e),
                    Bit(IS_REP_G2 + e.state, DummyRepTail(e), DummyRepTail(e))))))
  }

  // ----- the two address computations -----

  lemma AndHalf(a: nat, b: nat)
    ensures And(a, b) == 2 * And(a / 2, b / 2) + if a % 2 == 1 && b % 2 == 1 then 1 else 0
  {}

  lemma HalfMod(x: nat, k: nat)
    requires k > 0
    ensures x % Pow2(k) == 2 * (x / 2 % Pow2(k - 1)) + x % 2
  {
    var p, h := Pow2(k - 1), x / 2;
    var q, r := h / p, h % p;
    assert h == p * q + r;
    assert x == (2 * p) * q + (2 * r + x % 2) by { assert 2 * (p * q) == (2 * p) * q; }
    DivModUnique(x, 2 * p, q, 2 * r + x % 2);
  }

  lemma {:induction false} Pow2Monotone(n: nat, m: nat)
    requires n <= m
    ensures Pow2(n) <= Pow2(m)
    decreases m
  {
    if n < m { Pow2Monotone(n, m - 1); }
  }

  /** A mask of the bits from n up to m - 1. */
  lemma MaskHalf(n: nat, m: nat)
    requires n <= m && m > 0
    ensures n > 0 ==> (Pow2(m) - Pow2(n)) / 2 == Pow2(m - 1) - Pow2(n - 1) && (Pow2(m) - Pow2(n)) % 2 == 0
    ensures (Pow2(m) - 1) / 2 == Pow2(m - 1) - 1 && (Pow2(m) - 1) % 2 == 1
  {}

  /** A mask of the bits from n up to m - 1. */
  lemma {:induction false} AndLow(x: nat, n: nat, m: nat)
    requires n <= m
    ensures Pow2(n) <= Pow2(m) && And(x, Pow2(m) - Pow2(n)) == Low(x, m) - Low(x, n)
    decreases m
  {
    hide And, Pow2, Low;
    Pow2Monotone(n, m);
    LowNone(x);
    LowNone(x / 2);
    PowZero();
    if m == 0 {
      AndNothing(x);
    } else {
      MaskHalf(n, m);
      AndHalf(x, Pow2(m) - Pow2(n));
      LowHalf(x, m);
      if n > 0 {
        LowHalf(x, n);
        AndLow(x / 2, n - 1, m - 1);
      } else {
        AndLow(x / 2, 0, m - 1);
      }
    }
  }

  lemma PowZero()
    ensures Pow2(0) == 1
  {}

  lemma LowHalf(x: nat, k: nat)
    requires k > 0
    ensures Low(x, k) == 2 * Low(x / 2, k - 1) + x % 2
  {
    HalfMod(x, k);
  }

  lemma LowNone(x: nat)
    ensures Low(x, 0) == 0
  {}

  lemma AndNothing(x: nat)
    ensures And(x, Pow2(0) - Pow2(0)) == 0
  {}

  lemma {:induction false} PowSum(a: nat, b: nat)
    ensures Pow2(a + b) == Pow2(a) * Pow2(b)
    decreases a
  {
    if a > 0 {
      PowSum(a - 1, b);
      assert Pow2(a) * Pow2(b) == 2 * (Pow2(a - 1) * Pow2(b));
    }
  }

  lemma Pow32()
    ensures Pow2(32) == TWO32
  {
    Powers();
    PowSum(8, 8);
    PowSum(16, 16);
  }

  lemma MulAssoc(a: int, b: int, c: int)
    ensures a * (b * c) == (a * b) * c
  {}

  lemma WrapFactor(x: nat, n: nat, m: nat)
    requires n > 0 && n * m == TWO32
    ensures x % TWO32 % n == x % n
  {
    var q, r := x / TWO32, x % TWO32;
    MulAssoc(n, m, q);
    assert x == r + n * (m * q);
    ModAddMultiple(r, n, m * q);
  }

  /** Low bits do not notice a wrap-around. */
  lemma WrapMod(x: nat, j: nat)
    requires j <= 32
    ensures Low(x % TWO32, j) == Low(x, j)
  {
    hide Pow2;
    Pow32();
    PowSum(j, 32 - j);
    WrapFactor(x, Pow2(j), Pow2(32 - j));
  }

  lemma ShiftMod(p: nat, b: nat, lp: nat)
    requires b < 0x100
    ensures Low(0x100 * p + b, 8 + lp) == 0x100 * Low(p, lp) + b
  {
    Powers();
    PowSum(8, lp);
    hide Pow2;
    var n, q, r := Pow2(lp), p / Pow2(lp), p % Pow2(lp);
    assert p == n * q + r;
    assert 0x100 * p + b == (0x100 * n) * q + (0x100 * r + b) by { assert 0x100 * (n * q) == (0x100 * n) * q; }
    DivModUnique(0x100 * p + b, 0x100 * n, q, 0x100 * r + b);
  }

  lemma LowMod(p: nat, b: nat, j: nat)
    requires j <= 8
    ensures Low(0x100 * p + b, j) == Low(b, j)
  {
    Powers();
    PowSum(j, 8 - j);
    hide Pow2;
    var n, m := Pow2(j), Pow2(8 - j);
    assert 0x100 * p + b == b + n * (m * p) by { assert n * m * p == n * (m * p); }
    ModAddMultiple(b, n, m * p);
  }

  lemma RealLitIs(e: Env)
    requires Valid(e) && e.hasPrev
    ensures var x := (0x100 * e.processedPos + e.prevByte) % TWO32;
            RealLitBase(e) == LITERAL + 3 * ((Low(x, 8 + e.lp) - Low(x, 8 - e.lc)) * Pow2(e.lc))
  {
    hide And, Pow2, Low;
    LpMaskIs(e);
    AndLow((0x100 * e.processedPos + e.prevByte) % TWO32, 8 - e.lc, 8 + e.lp);
  }

  /** The two decoders compute the place of the literal coder in different ways, with the same result. */
  lemma RealLitValue(e: Env)
    requires Valid(e) && e.hasPrev
    ensures RealLitBase(e) == LITERAL + 3 * ((0x100 * Low(e.processedPos, e.lp)
            + e.prevByte - Low(e.prevByte, 8 - e.lc)) * Pow2(e.lc))
  {
    hide And, Pow2, Low, RealLitBase;
    RealLitIs(e);
    var p, b: nat, lc, lp := e.processedPos, e.prevByte, e.lc, e.lp;
    WrapMod(0x100 * p + b, 8 + lp);
    WrapMod(0x100 * p + b, 8 - lc);
    ShiftMod(p, b, lp);
    LowMod(p, b, 8 - lc);
  }

  /** The two decoders compute the place of the literal coder in different ways, with the same result. */
  lemma SameLitBase(e: Env)
    requires Valid(e)
    ensures RealLitBase(e) == DummyLitBase(e)
  {
    if e.hasPrev {
      hide And, Pow2, RealLitBase, Low;
      RealLitValue(e);
      LitParts(Low(e.processedPos, e.lp), e.prevByte, e.lc);
    }
  }

  lemma Spread(x: int, y: int, m: int)
    ensures (x + y) * m == x * m + y * m
  {}

  lemma LitParts(h: nat, b: nat, lc: nat)
    requires lc <= 8
    ensures 3 * ((0x100 * h + b - Low(b, 8 - lc)) * Pow2(lc)) == LIT_SIZE * (h * Pow2(lc) + b / Pow2(8 - lc))
  {
    hide Pow2;
    Powers();
    PowSum(8 - lc, lc);
    var n, m := Pow2(8 - lc), Pow2(lc);
    var q := b / n;
    assert b - b % n == n * q;
    Spread(0x100 * h, n * q, m);
    MulAssoc(0x100, h, m);
    MulAssoc(m, n, q);
    assert n * q * m == 0x100 * q;
    assert (0x100 * h + b - b % n) * m == (0x100 * h + n * q) * m;
  }

  // ----- the same decisions -----

  lemma LevelUp(n: nat, level: nat)
    requires n > 0
    ensures Pow2(n) * level == Pow2(n - 1) * (2 * level) >= 2 * level
  {
    MulAssoc(Pow2(n - 1), 2, level);
    MulMonotone(2 * level, 1, Pow2(n - 1));
  }

  /** TREE_GET_BIT, often enough, is TREE_DECODE; the results correspond. */
  lemma {:induction false} BitsIsTree<T, U>(base: nat, n: nat, limit: nat, i: nat, level: nat, k: nat -> Prog<T>,
                                            l: nat -> Prog<U>, f: T -> U)
    requires 0 < level <= i < 2 * level && limit == Pow2(n) * level
    requires forall x: nat | limit <= x < 2 * limit :: Map(k(x), f) == l(x - limit)
    ensures Map(Bits(base, n, i, k), f) == Tree(base, limit, i, l)
    decreases n
  {
    hide Pow2;
    PowZero();
    if n > 0 {
      LevelUp(n, level);
      BitsIsTree(base, n - 1, limit, 2 * i, 2 * level, k, l, f);
      BitsIsTree(base, n - 1, limit, 2 * i + 1, 2 * level, k, l, f);
    }
  }
}
