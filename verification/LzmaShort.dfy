/** No probability is used twice in a symbol, and a symbol takes at most 20 bytes. */
module LzmaShort {
  import opened Bytes
  import opened LzmaProg
  import opened LzmaSymbol

  /** Places of the table: up to three stretches. */
  datatype Region = Region(a: nat, b: nat, c: nat, d: nat, e: nat, f: nat)

  predicate In(x: nat, r: Region) { r.a <= x < r.b || r.c <= x < r.d || r.e <= x < r.f }

  function Span(a: nat, b: nat): Region { Region(a, b, 0, 0, 0, 0) }

  /** Every probability of g is in the region p, or between a and b. */
  ghost predicate Only<T>(g: Prog<T>, p: Region, a: nat, b: nat) {
    forall c: nat | c in Ctxs(g) :: In(c, p) || a <= c < b
  }

  const NOWHERE := Region(0, 0, 0, 0, 0, 0)

  ghost predicate Apart(p: Region, a: nat, b: nat) { forall c: nat | In(c, p) :: !(a <= c < b) }

  // ----- places -----

  lemma OnceBit<T>(c: nat, zero: Prog<T>, one: Prog<T>, p: Region, b: nat)
    requires Once(zero) && Once(one) && Only(zero, p, c + 1, b) && Only(one, p, c + 1, b) && !In(c, p) && c < b
    ensures Once(Bit(c, zero, one)) && Only(Bit(c, zero, one), p, c, b)
  {}

  lemma EndOnce<T>(g: Prog<T>, p: Region, a: nat, b: nat, base: nat, symbol: nat)
    requires g.End?
    ensures Once(g) && Only(g, p, a, b) && InMatched(g, base, symbol)
  {}

  lemma OnlyHigher<T>(g: Prog<T>, p: Region, a: nat, b: nat, a': nat)
    requires Only(g, p, a, b) && a' <= a
    ensures Only(g, p, a', b)
  {}

  lemma {:induction false} BitsOnce<T>(base: nat, n: nat, i: nat, level: nat, limit: nat, k: nat -> Prog<T>, p: Region)
    requires 0 < level <= i < 2 * level && limit == Pow2(n) * level
    requires forall x: nat | limit <= x < 2 * limit :: Once(k(x)) && Only(k(x), p, 0, 0)
    requires Apart(p, base + level, base + limit)
    ensures Once(Bits(base, n, i, k)) && Only(Bits(base, n, i, k), p, base + i, base + limit)
    decreases n
  {
    hide Pow2, Once, Only;
    PowZero();
    if n > 0 {
      LevelUp(n, level);
      BitsOnce(base, n - 1, 2 * i, 2 * level, limit, k, p);
      BitsOnce(base, n - 1, 2 * i + 1, 2 * level, limit, k, p);
      OnlyHigher(Bits(base, n - 1, 2 * i, k), p, base + 2 * i, base + limit, base + i + 1);
      OnlyHigher(Bits(base, n - 1, 2 * i + 1, k), p, base + 2 * i + 1, base + limit, base + i + 1);
      OnceBit(base + i, Bits(base, n - 1, 2 * i, k), Bits(base, n - 1, 2 * i + 1, k), p, base + limit);
    } else {
      OnlyNothing(k(i), p, base + i, base + limit);
    }
  }

  lemma OnlyNothing<T>(g: Prog<T>, p: Region, a: nat, b: nat)
    requires Only(g, p, 0, 0)
    ensures Only(g, p, a, b)
  {}

  lemma {:induction false} TreeOnce<T>(base: nat, limit: nat, i: nat, k: nat -> Prog<T>, p: Region)
    requires i > 0 && Apart(p, base + i, base + limit)
    requires forall x: nat :: Once(k(x)) && Only(k(x), p, 0, 0)
    ensures Once(Tree(base, limit, i, k)) && Only(Tree(base, limit, i, k), p, base + i, base + limit)
    decreases limit - i
  {
    hide Once, Only;
    if i < limit {
      TreeOnce(base, limit, 2 * i, k, p);
      TreeOnce(base, limit, 2 * i + 1, k, p);
      OnlyHigher(Tree(base, limit, 2 * i, k), p, base + 2 * i, base + limit, base + i + 1);
      OnlyHigher(Tree(base, limit, 2 * i + 1, k), p, base + 2 * i + 1, base + limit, base + i + 1);
      OnceBit(base + i, Tree(base, limit, 2 * i, k), Tree(base, limit, 2 * i + 1, k), p, base + limit);
    } else {
      OnlyNothing(k(i - limit), p, base + i, base + limit);
    }
  }

  /** The places of the matched literal coder whose low eight bits are at least symbol. */
  ghost predicate InMatched<T>(g: Prog<T>, base: nat, symbol: nat) {
    forall c: nat | c in Ctxs(g) :: base <= c < base + 0x300 && (c - base) % 0x100 >= symbol
  }

  lemma MatchedBit<T>(base: nat, c: nat, symbol: nat, zero: Prog<T>, one: Prog<T>)
    requires Once(zero) && Once(one) && InMatched(zero, base, symbol + 1) && InMatched(one, base, symbol + 1)
    requires base <= c < base + 0x300 && (c - base) % 0x100 == symbol
    ensures Once(Bit(c, zero, one)) && InMatched(Bit(c, zero, one), base, symbol)
  {}

  lemma MatchedHigher<T>(g: Prog<T>, base: nat, symbol: nat, less: nat)
    requires InMatched(g, base, symbol) && less <= symbol
    ensures InMatched(g, base, less)
  {}

  lemma MatchedPlace(keep: nat, offs: nat, symbol: nat)
    requires keep <= 0x100 && offs <= 0x100 && keep % 0x100 == 0 && offs % 0x100 == 0 && symbol < 0x100
    ensures keep + offs + symbol < 0x300 && (keep + offs + symbol) % 0x100 == symbol
  {}

  lemma MatchedIs(base: nat, offs: nat, matchByte: nat, symbol: nat)
    requires 0 < symbol < 0x100 && (offs == 0 || offs == 0x100)
    ensures var m := 2 * matchByte;
            var keep := Keep(offs, m);
            Matched(base, offs, matchByte, symbol, LitEnd())
            == Bit(base + keep + offs + symbol, Matched(base, offs - keep, m, 2 * symbol, LitEnd()),
                   Matched(base, keep, m, 2 * symbol + 1, LitEnd()))
  {
    hide Keep;
  }

  lemma {:induction false} MatchedOnce(base: nat, offs: nat, matchByte: nat, symbol: nat)
    requires symbol > 0 && (offs == 0 || offs == 0x100)
    ensures Once(Matched(base, offs, matchByte, symbol, LitEnd()))
            && InMatched(Matched(base, offs, matchByte, symbol, LitEnd()), base, symbol)
    decreases 0x100 - symbol
  {
    hide Keep, Once, InMatched;
    if symbol < 0x100 {
      hide Matched;
      var m := 2 * matchByte;
      var keep := Keep(offs, m);
      var zero := Matched(base, offs - keep, m, 2 * symbol, LitEnd());
      var one := Matched(base, keep, m, 2 * symbol + 1, LitEnd());
      MatchedOnce(base, offs - keep, m, 2 * symbol);
      MatchedOnce(base, keep, m, 2 * symbol + 1);
      MatchedHigher(zero, base, 2 * symbol, symbol + 1);
      MatchedHigher(one, base, 2 * symbol + 1, symbol + 1);
      MatchedPlace(keep, offs, symbol);
      MatchedBit(base, base + keep + offs + symbol, symbol, zero, one);
      MatchedIs(base, offs, matchByte, symbol);
    } else {
      EndOnce(Matched(base, offs, matchByte, symbol, LitEnd()), NOWHERE, 0, 0, base, symbol);
    }
  }

  lemma {:induction false} RevOnce(base: nat, i: nat, m: nat, n: nat, limit: nat, k: nat -> Prog<Symbol>)
    requires 0 < m <= i < 2 * m && limit == Pow2(n) * m && forall x: nat :: k(x).End?
    ensures Once(RevVar(base + i, m, n, k)) && Only(RevVar(base + i, m, n, k), NOWHERE, base + i, base + limit)
    decreases n
  {
    hide Pow2, Once, Only;
    PowZero();
    if n > 0 {
      hide RevVar;
      LevelUp(n, m);
      var zero, one := RevVar(base + (i + m), 2 * m, n - 1, k), RevVar(base + (i + 2 * m), 2 * m, n - 1, k);
      RevOnce(base, i + m, 2 * m, n - 1, limit, k);
      RevOnce(base, i + 2 * m, 2 * m, n - 1, limit, k);
      OnlyHigher(zero, NOWHERE, base + (i + m), base + limit, base + i + 1);
      OnlyHigher(one, NOWHERE, base + (i + 2 * m), base + limit, base + i + 1);
      OnceBit(base + i, zero, one, NOWHERE, base + limit);
      RevIs(base, i, m, n, k);
    } else {
      EndOnce(RevVar(base + i, m, n, k), NOWHERE, base + i, base + limit, 0, 0);
    }
  }

  lemma RevIs(base: nat, i: nat, m: nat, n: nat, k: nat -> Prog<Symbol>)
    requires n > 0
    ensures RevVar(base + i, m, n, k) == Bit(base + i, RevVar(base + (i + m), 2 * m, n - 1, k),
            RevVar(base + (i + 2 * m), 2 * m, n - 1, k))
  {
    assert base + (i + m) == base + i + m && base + (i + 2 * m) == base + i + 2 * m;
  }

  lemma Align8(i: nat, k: nat -> Prog<Symbol>)
    requires 8 <= i < 16 && forall x: nat :: k(x).End?
    ensures Once(RealAlign(i, 8, k)) && Only(RealAlign(i, 8, k), NOWHERE, ALIGN + i, ALIGN + 16)
  {
    hide Once, Only;
    EndOnce(k(i - 8), NOWHERE, ALIGN + i + 1, ALIGN + 16, 0, 0);
    EndOnce(k(i), NOWHERE, ALIGN + i + 1, ALIGN + 16, 0, 0);
    OnceBit(ALIGN + i, k(i - 8), k(i), NOWHERE, ALIGN + 16);
  }

  /** An alignment bit before two shorter runs of them. */
  lemma AlignBit(i: nat, m: nat, k: nat -> Prog<Symbol>)
    requires 0 < m < 5
    requires Once(RealAlign(i + m, 2 * m, k)) && Only(RealAlign(i + m, 2 * m, k), NOWHERE, ALIGN + (i + m), ALIGN + 16)
    requires Once(RealAlign(i + 2 * m, 2 * m, k)) && Only(RealAlign(i + 2 * m, 2 * m, k),
             NOWHERE, ALIGN + (i + 2 * m), ALIGN + 16)
    requires i < 16
    ensures Once(RealAlign(i, m, k)) && Only(RealAlign(i, m, k), NOWHERE, ALIGN + i, ALIGN + 16)
  {
    hide Once, Only;
    var zero, one := RealAlign(i + m, 2 * m, k), RealAlign(i + 2 * m, 2 * m, k);
    OnlyHigher(zero, NOWHERE, ALIGN + (i + m), ALIGN + 16, ALIGN + i + 1);
    OnlyHigher(one, NOWHERE, ALIGN + (i + 2 * m), ALIGN + 16, ALIGN + i + 1);
    OnceBit(ALIGN + i, zero, one, NOWHERE, ALIGN + 16);
  }

  lemma Align4(i: nat, k: nat -> Prog<Symbol>)
    requires 4 <= i < 8 && forall x: nat :: k(x).End?
    ensures Once(RealAlign(i, 4, k)) && Only(RealAlign(i, 4, k), NOWHERE, ALIGN + i, ALIGN + 16)
  {
    hide Once, Only, RealAlign;
    Align8(i + 4, k);
    Align8(i + 8, k);
    AlignBit(i, 4, k);
  }

  lemma Align2(i: nat, k: nat -> Prog<Symbol>)
    requires 2 <= i < 4 && forall x: nat :: k(x).End?
    ensures Once(RealAlign(i, 2, k)) && Only(RealAlign(i, 2, k), NOWHERE, ALIGN + i, ALIGN + 16)
  {
    hide Once, Only, RealAlign;
    Align4(i + 2, k);
    Align4(i + 4, k);
    AlignBit(i, 2, k);
  }

  lemma AlignOnce(k: nat -> Prog<Symbol>)
    requires forall x: nat :: k(x).End?
    ensures Once(RealAlign(1, 1, k)) && Only(RealAlign(1, 1, k), NOWHERE, ALIGN + 1, ALIGN + 16)
  {
    hide Once, Only, RealAlign;
    Align2(2, k);
    Align2(3, k);
    AlignBit(1, 1, k);
  }

  lemma {:induction false} DirectsOnce(d: nat, n: nat, k: nat -> Prog<Symbol>, p: Region)
    requires forall x: nat :: Once(k(x)) && Only(k(x), p, 0, 0)
    ensures Once(Directs(d, n, k)) && Only(Directs(d, n, k), p, 0, 0)
    decreases n
  {
    if n > 0 {
      DirectsOnce(2 * d, n - 1, k, p);
      DirectsOnce(2 * d + 1, n - 1, k, p);
    }
  }

  const FOR_DISTANCE := Region(0, 128, ALIGN, ALIGN + 16, 0, 0)

  lemma SlotBase(slot: nat)
    requires 4 <= slot < 14
    ensures var n, d := slot / 2 - 1, 2 + slot % 2; Pow2(n) * d + Pow2(n) <= 128
  {
    Powers();
  }

  lemma OnlyInside<T>(g: Prog<T>, a: nat, b: nat, p: Region)
    requires Only(g, NOWHERE, a, b) && forall c: nat | a <= c < b :: In(c, p)
    ensures Only(g, p, 0, 0)
  {}

  lemma ShortOnce(len: nat, slot: nat)
    requires 4 <= slot < 14
    ensures Once(RealDistance(len, slot)) && Only(RealDistance(len, slot), FOR_DISTANCE, 0, 0)
  {
    hide RevVar, Once, Only, Pow2;
    var n, d := slot / 2 - 1, 2 + slot % 2;
    SlotBase(slot);
    RevOnce(Pow2(n) * d, 1, 1, n, Pow2(n), ShortEnd(len));
    OnlyInside(RealDistance(len, slot), Pow2(n) * d + 1, Pow2(n) * d + Pow2(n), FOR_DISTANCE);
  }

  lemma LongOnce(len: nat, slot: nat)
    requires 14 <= slot
    ensures Once(RealDistance(len, slot)) && Only(RealDistance(len, slot), FOR_DISTANCE, 0, 0)
  {
    hide RealAlign, Directs, Once, Only, Pow2;
    forall x: nat
      ensures Once(LongEnd(len)(x)) && Only(LongEnd(len)(x), FOR_DISTANCE, 0, 0)
    {
      AlignOnce(AlignEnd(len, x));
      OnlyInside(LongEnd(len)(x), ALIGN + 1, ALIGN + 16, FOR_DISTANCE);
    }
    DirectsOnce(2 + slot % 2, slot / 2 - 1 - 4, LongEnd(len), FOR_DISTANCE);
  }

  lemma DistanceOnce(len: nat, slot: nat)
    ensures Once(RealDistance(len, slot)) && Only(RealDistance(len, slot), FOR_DISTANCE, 0, 0)
  {
    hide Once, Only;
    if slot < 4 {
      EndOnce(RealDistance(len, slot), FOR_DISTANCE, 0, 0, 0, 0);
    } else {
      hide RealDistance;
      if slot < 14 { ShortOnce(len, slot); } else { LongOnce(len, slot); }
    }
  }

  const FOR_MATCH := Region(0, 128, ALIGN, ALIGN + 16, POS_SLOT, LITERAL)

  lemma OnlyWider<T>(g: Prog<T>, p: Region, a: nat, b: nat, q: Region)
    requires Only(g, p, a, b) && forall c: nat | In(c, p) || a <= c < b :: In(c, q)
    ensures Only(g, q, 0, 0)
  {}

  lemma MatchOnce(len: nat)
    ensures Once(RealMatch(len)) && Only(RealMatch(len), FOR_MATCH, 0, 0)
  {
    hide Bits, RealDistance, Pow2, Once, Only;
    Powers();
    forall slot: nat
      ensures Once(RealDistance(len, slot)) && Only(RealDistance(len, slot), FOR_DISTANCE, 0, 0)
    {
      DistanceOnce(len, slot);
    }
    var base := POS_SLOT + 64 * (if len < 4 then len else 3);
    BitsOnce(base, 6, 1, 1, 64, Less(SlotEnd(len), 64), FOR_DISTANCE);
    OnlyWider(RealMatch(len), FOR_DISTANCE, base + 1, base + 64, FOR_MATCH);
  }

  lemma LenOnce(base: nat, ps: nat, k: nat -> Prog<Symbol>, p: Region)
    requires ps <= 240 && ps % 16 == 0 && Apart(p, base, base + 512)
    requires forall x: nat :: Once(k(x)) && Only(k(x), p, 0, 0)
    ensures Once(RealLen(base, ps, k)) && Only(RealLen(base, ps, k), p, base, base + 512)
  {
    hide Bits, Tree, Pow2, Once, Only;
    Powers();
    var low, mid, high := Bits(base + ps, 3, 1, Less(k, 8)), Bits(base + ps + 8, 3, 1, k),
        Tree(base + LEN_HIGH, 0x100, 1, Plus(k, 16));
    BitsOnce(base + ps, 3, 1, 1, 8, Less(k, 8), p);
    BitsOnce(base + ps + 8, 3, 1, 1, 8, k, p);
    TreeOnce(base + LEN_HIGH, 0x100, 1, Plus(k, 16), p);
    LenParts(base, ps, low, mid, high, p);
  }

  lemma LenParts(base: nat, ps: nat, low: Prog<Symbol>, mid: Prog<Symbol>, high: Prog<Symbol>, p: Region)
    requires ps <= 240 && ps % 16 == 0 && Apart(p, base, base + 512) && Once(low) && Once(mid) && Once(high)
    requires Only(low, p, base + ps + 1, base + ps + 8) && Only(mid, p, base + ps + 8 + 1, base + ps + 8 + 8)
    requires Only(high, p, base + LEN_HIGH + 1, base + LEN_HIGH + 0x100)
    ensures var g := Bit(base, low, Bit(base + LEN_CHOICE2, mid, high)); Once(g) && Only(g, p, base, base + 512)
  {
    var choice2 := Bit(base + LEN_CHOICE2, mid, high);
    assert base + LEN_CHOICE2 !in Ctxs(mid) && base + LEN_CHOICE2 !in Ctxs(high);
    assert Only(choice2, p, base + 8, base + 512);
    assert base !in Ctxs(low) && base !in Ctxs(choice2);
  }

  lemma LitEnds(n: nat)
    ensures forall x: nat :: Once(Less(LitEnd(), n)(x)) && Only(Less(LitEnd(), n)(x), NOWHERE, 0, 0)
  {}

  lemma InMatchedOnly(g: Prog<Symbol>, base: nat, a: nat, b: nat)
    requires InMatched(g, base, 1) && a <= base && base + LIT_SIZE <= b
    ensures Only(g, NOWHERE, a, b)
  {}

  lemma PlainOnce(base: nat, lo: nat, hi: nat)
    requires lo <= base && base + LIT_SIZE <= hi
    ensures var g := Bits(base, 8, 1, Less(LitEnd(), 0x100)); Once(g) && Only(g, NOWHERE, lo, hi)
  {
    hide Bits, Pow2, Once, Only;
    Powers();
    LitEnds(0x100);
    BitsOnce(base, 8, 1, 1, 0x100, Less(LitEnd(), 0x100), NOWHERE);
    OnlyBetween(Bits(base, 8, 1, Less(LitEnd(), 0x100)), NOWHERE, base + 1, base + 0x100, lo, hi);
  }

  lemma MatchedLitOnce(base: nat, matchByte: nat, lo: nat, hi: nat)
    requires lo <= base && base + LIT_SIZE <= hi
    ensures var g := Matched(base, 0x100, matchByte, 1, LitEnd()); Once(g) && Only(g, NOWHERE, lo, hi)
  {
    hide Matched, Once, Only, InMatched;
    MatchedOnce(base, 0x100, matchByte, 1);
    InMatchedOnly(Matched(base, 0x100, matchByte, 1, LitEnd()), base, lo, hi);
  }

  lemma LiteralOnce(e: Env)
    requires Valid(e)
    ensures Once(RealLiteral(e)) && Only(RealLiteral(e), NOWHERE, LITERAL, NumProbs(e))
  {
    hide RealLitBase, DummyLitBase, Bits, Matched, Pow2, Once, Only, NumProbs;
    SameLitBase(e);
    LitInside(e);
    PlainOnce(RealLitBase(e), LITERAL, NumProbs(e));
    MatchedLitOnce(RealLitBase(e), e.matchByte, LITERAL, NumProbs(e));
  }

  lemma OnlyBetween<T>(g: Prog<T>, p: Region, a: nat, b: nat, a': nat, b': nat)
    requires Only(g, p, a, b) && a' <= a && b <= b'
    ensures Only(g, p, a', b')
  {}

  lemma LitInside(e: Env)
    requires Valid(e)
    ensures LITERAL <= DummyLitBase(e) && DummyLitBase(e) + LIT_SIZE <= NumProbs(e)
  {
    if e.hasPrev { LitStateInside(e.processedPos, e.prevByte, e.lc, e.lp); }
    PowSum(e.lp, e.lc);
    hide Pow2;
    assert e.lc + e.lp == e.lp + e.lc;
  }

  lemma LitStateInside(pos: nat, prev: nat, lc: nat, lp: nat)
    requires lc <= 8 && prev < 0x100
    ensures LitState(pos, prev, lc, lp) < Pow2(lp + lc)
  {
    PowSum(lp, lc);
    LowLess(pos, lp);
    HighLess(prev, lc);
    hide Pow2, Low;
    var h, m := Low(pos, lp), Pow2(lc);
    Spread(h, 1, m);
    MulMonotone(m, h + 1, Pow2(lp));
  }

  lemma LowLess(x: nat, k: nat)
    ensures Low(x, k) < Pow2(k)
  {}

  lemma HighLess(prev: nat, lc: nat)
    requires lc <= 8 && prev < 0x100
    ensures prev / Pow2(8 - lc) < Pow2(lc)
  {
    Powers();
    PowSum(8 - lc, lc);
    hide Pow2;
    var n, m := Pow2(8 - lc), Pow2(lc);
    var q := prev / n;
    assert n * q <= prev;
    if q >= m { MulMonotone(n, m, q); }
  }

  lemma PosStateRange(e: Env)
    requires Valid(e)
    ensures PosState(e) <= 240 && PosState(e) % 16 == 0
  {
    Powers();
    LowLess(e.processedPos, e.pb);
  }

  lemma RepOnce(e: Env, which: nat)
    requires Valid(e)
    ensures Once(RealRep(e, which)) && Only(RealRep(e, which), NOWHERE, REP_LEN_CODER, LEN_CODER)
  {
    hide RealLen, PosState;
    PosStateRange(e);
    LenOnce(REP_LEN_CODER, PosState(e), RepEnd(which), NOWHERE);
  }

  lemma NonLiteralOnce(e: Env)
    requires Valid(e)
    ensures var g := RealLen(LEN_CODER, PosState(e), MatchEnd()); Once(g) && Only(g, FOR_MATCH, LEN_CODER, IS_MATCH)
  {
    hide RealLen, PosState, RealMatch, Once, Only;
    PosStateRange(e);
    forall len: nat
      ensures Once(RealMatch(len)) && Only(RealMatch(len), FOR_MATCH, 0, 0)
    {
      MatchOnce(len);
    }
    LenOnce(LEN_CODER, PosState(e), MatchEnd(), FOR_MATCH);
  }

  function ForRep(from: nat): Region { Region(128, LEN_CODER, from, POS_SLOT, 0, 0) }

  /** A decision before two others. */
  lemma JoinBit<T>(c: nat, zero: Prog<T>, one: Prog<T>, p: Region, q: Region)
    requires Once(zero) && Once(one) && Only(zero, p, 0, 0) && Only(one, p, 0, 0) && !In(c, p) && In(c, q)
    requires forall x: nat | In(x, p) :: In(x, q)
    ensures Once(Bit(c, zero, one)) && Only(Bit(c, zero, one), q, 0, 0)
  {}

  lemma RepsOnce(e: Env, ps: nat, r0: Prog<Symbol>, r1: Prog<Symbol>, r2: Prog<Symbol>, r3: Prog<Symbol>)
    requires Valid(e) && ps <= 240
    requires Once(r0) && Once(r1) && Once(r2) && Once(r3)
    requires Only(r0, NOWHERE, REP_LEN_CODER, LEN_CODER) && Only(r1, NOWHERE, REP_LEN_CODER, LEN_CODER)
    requires Only(r2, NOWHERE, REP_LEN_CODER, LEN_CODER) && Only(r3, NOWHERE, REP_LEN_CODER, LEN_CODER)
    ensures var g0 := Bit(IS_REP_G0 + e.state,
                          Bit(IS_REP0_LONG + ps + e.state, End(ShortRep), r0),
                          Bit(IS_REP_G1 + e.state, r1, Bit(IS_REP_G2 + e.state, r2, r3)));
            Once(g0) && Only(g0, ForRep(IS_REP_G0), 0, 0)
  {
    var len := Span(REP_LEN_CODER, LEN_CODER);
    OnlyInside(r0, REP_LEN_CODER, LEN_CODER, len);
    OnlyInside(r2, REP_LEN_CODER, LEN_CODER, len);
    OnlyInside(r3, REP_LEN_CODER, LEN_CODER, len);
    OnlyInside(r1, REP_LEN_CODER, LEN_CODER, ForRep(IS_REP_G2));
    assert Once<Symbol>(End(ShortRep)) && Only<Symbol>(End(ShortRep), len, 0, 0);
    hide Once, Only;
    var g2 := Bit(IS_REP_G2 + e.state, r2, r3);
    JoinBit(IS_REP_G2 + e.state, r2, r3, len, ForRep(IS_REP_G2));
    JoinBit(IS_REP_G1 + e.state, r1, g2, ForRep(IS_REP_G2), ForRep(IS_REP_G1));
    JoinBit(IS_REP0_LONG + ps + e.state, End(ShortRep), r0, len, ForRep(IS_REP_G1));
    JoinBit(IS_REP_G0 + e.state, Bit(IS_REP0_LONG + ps + e.state, End(ShortRep), r0), Bit(IS_REP_G1 + e.state, r1, g2),
            ForRep(IS_REP_G1), ForRep(IS_REP_G0));
  }

  const FOR_NON_LITERAL := Region(0, IS_MATCH, ALIGN, LITERAL, 0, 0)

  lemma NonLitOnce(e: Env, m: Prog<Symbol>, g0: Prog<Symbol>)
    requires Valid(e) && Once(m) && Once(g0) && Only(m, FOR_MATCH, LEN_CODER, IS_MATCH)
             && Only(g0, ForRep(IS_REP_G0), 0, 0)
    ensures Once(Bit(IS_REP + e.state, m, g0)) && Only(Bit(IS_REP + e.state, m, g0), FOR_NON_LITERAL, 0, 0)
  {
    assert IS_REP + e.state !in Ctxs(m) && IS_REP + e.state !in Ctxs(g0);
  }

  lemma SymbolOnce(e: Env, ps: nat, lit: Prog<Symbol>, rep: Prog<Symbol>)
    requires Valid(e) && ps <= 240 && Once(lit) && Once(rep)
    requires Only(lit, NOWHERE, LITERAL, NumProbs(e)) && Only(rep, FOR_NON_LITERAL, 0, 0)
    ensures var g := Bit(IS_MATCH + ps + e.state, lit, rep); Once(g) && Fits(g, NumProbs(e))
  {
    hide Pow2;
    assert IS_MATCH + ps + e.state !in Ctxs(lit) && IS_MATCH + ps + e.state !in Ctxs(rep);
  }

  /** No path through a symbol uses a probability twice, and all of them are in the table. */
  lemma RealOnce(e: Env)
    requires Valid(e)
    ensures Once(Real(e)) && Fits(Real(e), NumProbs(e))
  {
    hide RealLen, PosState, RealLiteral, RealRep, RealLitBase, Pow2, Once, Only, Fits;
    PosStateRange(e);
    LiteralOnce(e);
    NonLiteralOnce(e);
    RepOnce(e, 0);
    RepOnce(e, 1);
    RepOnce(e, 2);
    RepOnce(e, 3);
    RepsOnce(e, PosState(e), RealRep(e, 0), RealRep(e, 1), RealRep(e, 2), RealRep(e, 3));
    var g0 := Bit(IS_REP_G0 + e.state,
                  Bit(IS_REP0_LONG + PosState(e) + e.state, End(ShortRep), RealRep(e, 0)),
                  Bit(IS_REP_G1 + e.state, RealRep(e, 1), Bit(IS_REP_G2 + e.state, RealRep(e, 2), RealRep(e, 3))));
    NonLitOnce(e, RealLen(LEN_CODER, PosState(e), MatchEnd()), g0);
    SymbolOnce(e, PosState(e), RealLiteral(e), Bit(IS_REP + e.state, RealLen(LEN_CODER, PosState(e), MatchEnd()), g0));
  }

  // ----- length -----

  function Pow67(n: nat): (v: nat)
    ensures v > 0
  {
    if n == 0 then 1 else 67 * Pow67(n - 1)
  }

  lemma Grows(n: nat, c: nat)
    requires n > 0
    ensures 67 * (Pow67(n - 1) * c) == Pow67(n) * c
  {}

  lemma {:induction false} BitsCost<T>(base: nat, n: nat, i: nat, level: nat, limit: nat, k: nat -> Prog<T>, c: nat)
    requires 0 < level <= i < 2 * level && limit == Pow2(n) * level
    requires forall x: nat | limit <= x < 2 * limit :: Cost(k(x)) <= c
    ensures Cost(Bits(base, n, i, k)) <= Pow67(n) * c
    decreases n
  {
    hide Pow2;
    PowZero();
    if n > 0 {
      LevelUp(n, level);
      BitsCost(base, n - 1, 2 * i, 2 * level, limit, k, c);
      BitsCost(base, n - 1, 2 * i + 1, 2 * level, limit, k, c);
      Grows(n, c);
    }
  }

  lemma {:induction false} TreeCost<T>(base: nat, n: nat, i: nat, level: nat, limit: nat, k: nat -> Prog<T>, c: nat)
    requires 0 < level <= i < 2 * level && limit == Pow2(n) * level && forall x: nat :: Cost(k(x)) <= c
    ensures Cost(Tree(base, limit, i, k)) <= Pow67(n) * c
    decreases n
  {
    hide Pow2;
    PowZero();
    if n > 0 {
      LevelUp(n, level);
      TreeCost(base, n - 1, 2 * i, 2 * level, limit, k, c);
      TreeCost(base, n - 1, 2 * i + 1, 2 * level, limit, k, c);
      Grows(n, c);
    }
  }

  lemma {:induction false} MatchedCost(base: nat, offs: nat, matchByte: nat, n: nat, symbol: nat, level: nat)
    requires 0 < level <= symbol < 2 * level && 0x100 == Pow2(n) * level && (offs == 0 || offs == 0x100)
    ensures Cost(Matched(base, offs, matchByte, symbol, LitEnd())) <= Pow67(n)
    decreases n
  {
    hide Pow2, Keep;
    PowZero();
    if n > 0 {
      LevelUp(n, level);
      var m := 2 * matchByte;
      var keep := Keep(offs, m);
      MatchedCost(base, offs - keep, m, n - 1, 2 * symbol, 2 * level);
      MatchedCost(base, keep, m, n - 1, 2 * symbol + 1, 2 * level);
    }
  }

  lemma {:induction false} RevCost(i: nat, m: nat, n: nat, k: nat -> Prog<Symbol>)
    requires forall x: nat :: k(x).End?
    ensures Cost(RevVar(i, m, n, k)) <= Pow67(n)
    decreases n
  {
    if n > 0 {
      RevCost(i + m, 2 * m, n - 1, k);
      RevCost(i + 2 * m, 2 * m, n - 1, k);
    }
  }

  lemma AlignCost(k: nat -> Prog<Symbol>)
    requires forall x: nat :: k(x).End?
    ensures Cost(RealAlign(1, 1, k)) <= 20151121
  {
    forall i: nat
      ensures Cost(RealAlign(i, 8, k)) == 67
    {
    }
    forall i: nat
      ensures Cost(RealAlign(i, 4, k)) == 4489
    {
    }
    forall i: nat
      ensures Cost(RealAlign(i, 2, k)) == 300763
    {
    }
  }

  lemma {:induction false} DirectsCost(d: nat, n: nat, k: nat -> Prog<Symbol>, c: nat)
    requires forall x: nat :: Cost(k(x)) <= c
    ensures Cost(Directs(d, n, k)) <= Pow2(n) * c
    decreases n
  {
    if n > 0 {
      DirectsCost(2 * d, n - 1, k, c);
      DirectsCost(2 * d + 1, n - 1, k, c);
      MulAssoc(2, Pow2(n - 1), c);
    }
  }

  // 67 to the powers 4, 6, 8 and 10, and what a distance and a match cost at most.
  const D: nat := 1352318838636544
  const M: nat := 122328574319722740041383936

  lemma Pow67Values()
    ensures Pow67(3) == 300763 && Pow67(4) == 20151121 && Pow67(5) == 1350125107 && Pow67(6) == 90458382169
            && Pow67(8) == 406067677556641
  {
    assert Pow67(2) == 4489;
    assert Pow67(3) == 300763;
    assert Pow67(4) == 20151121;
    assert Pow67(5) == 1350125107;
    assert Pow67(6) == 90458382169;
    assert Pow67(7) == 6060711605323;
  }

  lemma {:induction false} Pow67Monotone(n: nat, m: nat)
    requires n <= m
    ensures Pow67(n) <= Pow67(m)
    decreases m
  {
    if n < m { Pow67Monotone(n, m - 1); }
  }

  lemma ShortCost(len: nat, slot: nat)
    requires 4 <= slot < 14
    ensures Cost(RealDistance(len, slot)) <= D
  {
    hide RevVar, Pow67, Cost, Pow2;
    var n, d := slot / 2 - 1, 2 + slot % 2;
    Pow67Values();
    Pow67Monotone(n, 5);
    RevCost(Pow2(n) * d + 1, 1, n, ShortEnd(len));
  }

  lemma LongCost(len: nat, slot: nat)
    requires 14 <= slot < 64
    ensures Cost(RealDistance(len, slot)) <= D
  {
    hide RealAlign, Directs, Cost, Pow2;
    var n, d := slot / 2 - 1, 2 + slot % 2;
    forall x: nat
      ensures Cost(LongEnd(len)(x)) <= 20151121
    {
      AlignCost(AlignEnd(len, x));
    }
    DirectsCost(d, n - 4, LongEnd(len), 20151121);
    Pow2Monotone(n - 4, 26);
    Pow26();
  }

  lemma DistanceCost(len: nat, slot: nat)
    requires slot < 64
    ensures Cost(RealDistance(len, slot)) <= D
  {
    if slot >= 4 {
      hide RealDistance, Cost;
      if slot < 14 { ShortCost(len, slot); } else { LongCost(len, slot); }
    }
  }

  lemma Pow26()
    ensures Pow2(26) == 0x400_0000
  {
    Powers();
    PowSum(8, 8);
    PowSum(16, 8);
    PowSum(24, 2);
  }

  lemma MatchCost(len: nat)
    ensures Cost(RealMatch(len)) <= M
  {
    hide Bits, RealDistance, Pow2, Pow67;
    Powers();
    Pow67Values();
    forall slot: nat | slot < 64
      ensures Cost(RealDistance(len, slot)) <= D
    {
      DistanceCost(len, slot);
    }
    BitsCost(POS_SLOT + 64 * (if len < 4 then len else 3), 6, 1, 1, 64, Less(SlotEnd(len), 64), D);
  }

  lemma LenCost(base: nat, ps: nat, k: nat -> Prog<Symbol>, c: nat)
    requires c > 0 && forall x: nat :: Cost(k(x)) <= c
    ensures Cost(RealLen(base, ps, k)) <= 1822837804551761449 * c
  {
    hide Bits, Tree, Pow2, Pow67;
    Powers();
    Pow67Values();
    BitsCost(base + ps, 3, 1, 1, 8, Less(k, 8), c);
    BitsCost(base + ps + 8, 3, 1, 1, 8, k, c);
    TreeCost(base + LEN_HIGH, 8, 1, 1, 0x100, Plus(k, 16), c);
  }

  lemma LiteralCost(e: Env)
    requires Valid(e)
    ensures Cost(RealLiteral(e)) <= 406067677556641
  {
    hide RealLitBase, Bits, Matched, Pow2, Pow67;
    Powers();
    Pow67Values();
    if e.state < 7 {
      BitsCost(RealLitBase(e), 8, 1, 1, 0x100, Less(LitEnd(), 0x100), 1);
    } else {
      MatchedCost(RealLitBase(e), 0x100, e.matchByte, 8, 1, 1);
    }
  }

  lemma Pow255Value()
    ensures Pow255(20) == 1351461283755592687189686338827705478668212890625
  {
    assert Pow255(4) == 4228250625;
    assert Pow255(8) == 17878103347812890625;
    assert Pow255(12) == 75593101654204447168212890625;
    assert Pow255(16) == 319626579315078487616775634918212890625;
  }

  /** The most expensive symbol is still cheaper than 20 bytes. */
  lemma RealCost(e: Env)
    requires Valid(e)
    ensures Cost(Real(e)) < Pow255(20)
  {
    hide RealLen, PosState, RealLiteral, RealMatch, Pow255;
    Pow255Value();
    LiteralCost(e);
    forall len: nat
      ensures Cost(RealMatch(len)) <= M
    {
      MatchCost(len);
    }
    LenCost(LEN_CODER, PosState(e), MatchEnd(), M);
    forall which: nat
      ensures Cost(RealRep(e, which)) <= 1822837804551761449
    {
      LenCost(REP_LEN_CODER, PosState(e), RepEnd(which), 1);
    }
    hide RealRep;
    CostBit(IS_REP_G2 + e.state, RealRep(e, 2), RealRep(e, 3));
    var g2 := Bit(IS_REP_G2 + e.state, RealRep(e, 2), RealRep(e, 3));
    var g1 := Bit(IS_REP_G1 + e.state, RealRep(e, 1), g2);
    var long := Bit(IS_REP0_LONG + PosState(e) + e.state, End(ShortRep), RealRep(e, 0));
    var m := RealLen(LEN_CODER, PosState(e), MatchEnd());
    CostBit(IS_REP_G1 + e.state, RealRep(e, 1), g2);
    CostBit(IS_REP0_LONG + PosState(e) + e.state, End(ShortRep), RealRep(e, 0));
    CostBit(IS_REP_G0 + e.state, long, g1);
    CostBit(IS_REP + e.state, m, Bit(IS_REP_G0 + e.state, long, g1));
    CostBit(IS_MATCH + PosState(e) + e.state, RealLiteral(e),
        Bit(IS_REP + e.state, m, Bit(IS_REP_G0 + e.state, long, g1)));
  }

  lemma CostBit<T>(c: nat, zero: Prog<T>, one: Prog<T>)
    ensures Cost(Bit(c, zero, one)) == 67 * if Cost(zero) < Cost(one) then Cost(one) else Cost(zero)
    ensures zero.End? ==> Cost(zero) == 1
  {}
}
