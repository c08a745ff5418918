/** The dry run and the real decoder make the same decisions; no probability is used twice; a symbol is short. */
module LzmaSame {
  import opened Bytes
  import opened LzmaProg
  import opened LzmaSymbol

  // ----- the same decisions -----

  lemma {:induction false} MatchedSame<T, U>(base: nat, offs: nat, matchByte: nat, symbol: nat, k: nat -> Prog<T>,
                                             l: nat -> Prog<U>, f: T -> U)
    requires symbol > 0 && (offs == 0 || offs == 0x100) && forall x: nat :: Map(k(x), f) == l(x)
    ensures Map(Matched(base, offs, matchByte, symbol, k), f) == Matched(base, offs, matchByte, symbol, l)
    decreases 0x100 - symbol
  {
    if symbol < 0x100 {
      var m := 2 * matchByte;
      var keep := Keep(offs, m);
      MatchedSame(base, offs - keep, m, 2 * symbol, k, l, f);
      MatchedSame(base, keep, m, 2 * symbol + 1, k, l, f);
    }
  }

  lemma {:induction false} TreeSame<T, U>(base: nat, limit: nat,
                                          i: nat, k: nat -> Prog<T>, l: nat -> Prog<U>, f: T -> U)
    requires i > 0 && forall x: nat :: Map(k(x), f) == l(x)
    ensures Map(Tree(base, limit, i, k), f) == Tree(base, limit, i, l)
    decreases limit - i
  {
    if i < limit {
      TreeSame(base, limit, 2 * i, k, l, f);
      TreeSame(base, limit, 2 * i + 1, k, l, f);
    }
  }

  lemma {:induction false} DirectsSame<T, U>(d: nat, e: nat, n: nat, k: nat -> Prog<T>, l: nat -> Prog<U>, f: T -> U)
    requires forall x: nat, y: nat :: Map(k(x), f) == l(y)
    ensures Map(Directs(d, n, k), f) == Directs(e, n, l)
    decreases n
  {
    if n > 0 {
      DirectsSame(2 * d, 2 * e, n - 1, k, l, f);
      DirectsSame(2 * d + 1, 2 * e + 1, n - 1, k, l, f);
    }
  }

  lemma {:induction false} RevVarSame(base: nat, i: nat, m: nat, n: nat, k: nat -> Prog<Symbol>)
    requires forall x: nat :: Map(k(x), KindOf) == End(DummyMatch)
    ensures Map(RevVar(base + i, m, n, k), KindOf) == RevCheck(base, i, m, n, End(DummyMatch))
    decreases n
  {
    if n > 0 {
      RevVarSame(base, i + m, 2 * m, n - 1, k);
      RevVarSame(base, i + 2 * m, 2 * m, n - 1, k);
    }
  }

  lemma AlignSame(k: nat -> Prog<Symbol>)
    requires forall x: nat :: Map(k(x), KindOf) == End(DummyMatch)
    ensures Map(RealAlign(1, 1, k), KindOf) == RevCheck(ALIGN, 1, 1, 4, End(DummyMatch))
  {
    forall i: nat
      ensures Map(RealAlign(i, 8, k), KindOf) == RevCheck(ALIGN, i, 8, 1, End(DummyMatch))
    {
      assert RevCheck(ALIGN, i + 8, 16, 0, End(DummyMatch)) == End(DummyMatch);
      assert RevCheck(ALIGN, i + 16, 16, 0, End(DummyMatch)) == End(DummyMatch);
    }
    forall i: nat
      ensures Map(RealAlign(i, 4, k), KindOf) == RevCheck(ALIGN, i, 4, 2, End(DummyMatch))
    {
    }
    forall i: nat
      ensures Map(RealAlign(i, 2, k), KindOf) == RevCheck(ALIGN, i, 2, 3, End(DummyMatch))
    {
    }
  }

  lemma DistanceSame(len: nat, slot: nat)
    ensures Map(RealDistance(len, slot), KindOf) == DummyDistance(slot)
  {
    hide Directs, RevVar, RevCheck, RealAlign, Pow2;
    if slot >= 4 {
      var n, d := slot / 2 - 1, 2 + slot % 2;
      if slot < 14 {
        RevVarSame(Pow2(n) * d, 1, 1, n, ShortEnd(len));
      } else {
        forall x: nat, y: nat
          ensures Map(LongEnd(len)(x), KindOf) == Always(RevCheck(ALIGN, 1, 1, 4, End(DummyMatch)))(y)
        {
          AlignSame(AlignEnd(len, x));
        }
        DirectsSame(d, 0, n - 4, LongEnd(len), Always(RevCheck(ALIGN, 1, 1, 4, End(DummyMatch))), KindOf);
      }
    }
  }

  lemma LiteralSame(e: Env)
    requires Valid(e)
    ensures Map(RealLiteral(e), KindOf) == DummyLiteral(e)
  {
    hide RealLitBase, DummyLitBase, Bits, Tree, Matched, Pow2;
    SameLitBase(e);
    if e.state < 7 {
      Powers();
      BitsIsTree(RealLitBase(e), 8, 0x100, 1, 1, Less(LitEnd(), 0x100), Always(End(DummyLit)), KindOf);
    } else {
      MatchedSame(RealLitBase(e), 0x100, e.matchByte, 1, LitEnd(), Always(End(DummyLit)), KindOf);
    }
  }

  lemma LenSame<T, U>(base: nat, ps: nat, k: nat -> Prog<T>, l: nat -> Prog<U>, f: T -> U)
    requires forall x: nat :: Map(k(x), f) == l(x)
    ensures Map(RealLen(base, ps, k), f) == DummyLen(base, ps, l)
  {
    hide Bits, Tree, Pow2;
    Powers();
    BitsIsTree(base + ps, 3, 8, 1, 1, Less(k, 8), l, f);
    BitsIsTree(base + ps + 8, 3, 8, 1, 1, k, Plus(l, 8), f);
    TreeSame(base + LEN_HIGH, 0x100, 1, Plus(k, 16), Plus(l, 16), f);
    hide Less, Plus;
  }

  lemma MatchSame(len: nat)
    ensures Map(RealMatch(len), KindOf) == DummyMatchTail(len)
  {
    hide RealDistance, DummyDistance, Bits, Tree, Pow2;
    Powers();
    forall slot: nat
      ensures Map(RealDistance(len, slot), KindOf) == DummyDistance(slot)
    {
      DistanceSame(len, slot);
    }
    BitsIsTree(POS_SLOT + 64 * (if len < 4 then len else 3), 6, 64,
        1, 1, Less(SlotEnd(len), 64), DummySlotEnd(), KindOf);
  }

  /** The dry run makes exactly the decisions of the real decoder. */
  lemma SameDecisions(e: Env)
    requires Valid(e)
    ensures Map(Real(e), KindOf) == Dummy(e)
  {
    hide RealLen, DummyLen, RealLiteral, DummyLiteral, RealMatch, DummyMatchTail;
    LiteralSame(e);
    forall len: nat
      ensures Map(RealMatch(len), KindOf) == DummyMatchTail(len)
    {
      MatchSame(len);
    }
    LenSame(LEN_CODER, PosState(e), MatchEnd(), DummyMatchEnd(), KindOf);
    LenSame(REP_LEN_CODER, PosState(e), RepEnd(0), Always(End(DummyRep)), KindOf);
    LenSame(REP_LEN_CODER, PosState(e), RepEnd(1), Always(End(DummyRep)), KindOf);
    LenSame(REP_LEN_CODER, PosState(e), RepEnd(2), Always(End(DummyRep)), KindOf);
    LenSame(REP_LEN_CODER, PosState(e), RepEnd(3), Always(End(DummyRep)), KindOf);
    hide Map;
    var g2 := Bit(IS_REP_G2 + e.state, RealRep(e, 2), RealRep(e, 3));
    var g1 := Bit(IS_REP_G1 + e.state, RealRep(e, 1), g2);
    var long := Bit(IS_REP0_LONG + PosState(e) + e.state, End(ShortRep), RealRep(e, 0));
    var g0 := Bit(IS_REP_G0 + e.state, long, g1);
    var rep := Bit(IS_REP + e.state, RealLen(LEN_CODER, PosState(e), MatchEnd()), g0);
    MapBit(g2, KindOf);
    MapBit(g1, KindOf);
    MapBit(long, KindOf);
    MapBit(End(ShortRep), KindOf);
    MapBit(g0, KindOf);
    MapBit(rep, KindOf);
    MapBit(Real(e), KindOf);
  }

  lemma MapBit<T, U>(g: Prog<T>, f: T -> U)
    ensures g.End? ==> Map(g, f) == End(f(g.value))
    ensures g.Bit? ==> Map(g, f) == Bit(g.ctx, Map(g.zero, f), Map(g.one, f))
  {}
}
