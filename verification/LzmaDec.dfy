/** compression/LZMA/LzmaDec.c: the dry run of one symbol and its real decoding, and how they agree. */
module LzmaDec {
  import opened Bytes
  import opened RangeCoder
  import opened LzmaProg
  import opened LzmaSymbol
  import opened LzmaSame
  import opened LzmaShort

  /** What the dry run makes of g, and what the real decoder does. */
  ghost function Ahead(g: Prog<Kind>, probs: seq<prob>, rc: Rc, s: seq<byte>): Option<(Kind, Rc)> {
    if Fits(g, |probs|) then Try(g, probs, rc, s) else None
  }

  ghost function Decoded(g: Prog<Symbol>, probs: seq<prob>, rc: Rc, s: seq<byte>): Option<Done<Symbol>> {
    if Fits(g, |probs|) then Run(g, probs, rc, s) else None
  }

  /** Both stop for want of input, or both know the class of the symbol and end at the same place. */
  ghost predicate Exact(t: Option<(Kind, Rc)>, r: Option<Done<Symbol>>) {
    (t.None? <==> r.None?) && (t.Some? ==> t.value == (KindOf(r.value.value), r.value.rc))
  }

  lemma AgreeSelf<T>(g: Prog<T>, probs: seq<prob>)
    requires Fits(g, |probs|)
    ensures Agree(g, probs, probs)
  {}

  lemma TryAgrees(g: Prog<Symbol>, probs: seq<prob>, rc: Rc, s: seq<byte>)
    requires Once(g) && Fits(g, |probs|)
    ensures Exact(Ahead(Map(g, KindOf), probs, rc, s), Decoded(g, probs, rc, s))
  {
    hide Once, Fits, Agree, Try, Run, Map;
    AgreeSelf(g, probs);
    TryIsRun(g, probs, probs, rc, s);
    TryMap(g, KindOf, probs, rc, s);
  }

  /** LzmaDec_TryDummy reports an error exactly when the symbol needs more input than there is; otherwise it
      names the class of the symbol that the real decoder decodes and reads the same bytes. */
  lemma DummyIsExact(e: Env, probs: seq<prob>, rc: Rc, s: seq<byte>)
    requires Valid(e) && |probs| == NumProbs(e)
    ensures Exact(Ahead(Dummy(e), probs, rc, s), Decoded(Real(e), probs, rc, s))
  {
    hide Real, Dummy, NumProbs, Once, Fits, Ahead, Decoded, Map;
    RealOnce(e);
    SameDecisions(e);
    TryAgrees(Real(e), probs, rc, s);
  }

  lemma SpentStart(rc: Rc)
    requires rc.range >= TOP
    ensures Spent(rc, rc.used, 1)
  {}

  lemma CheapBytes(g: Prog<Symbol>, probs: seq<prob>, rc: Rc, s: seq<byte>)
    requires Fits(g, |probs|) && Cost(g) < Pow255(20) && rc.range >= TOP
    ensures |s| >= rc.used + 20 ==> Decoded(g, probs, rc, s).Some?
    ensures Decoded(g, probs, rc, s).Some? ==> Decoded(g, probs, rc, s).value.rc.used <= rc.used + 20
  {
    hide Fits, Run, Spent, Cost, Pow255;
    SpentStart(rc);
    RunBytes(g, probs, rc, s, rc.used, 1);
  }

  /** From a normalised range decoder a symbol takes at most 20 bytes, with the closing normalisation, and
      20 bytes are always enough. */
  lemma SymbolBytes(e: Env, probs: seq<prob>, rc: Rc, s: seq<byte>)
    requires Valid(e) && |probs| == NumProbs(e) && rc.range >= TOP
    ensures |s| >= rc.used + 20 ==> Decoded(Real(e), probs, rc, s).Some?
    ensures Decoded(Real(e), probs, rc, s).Some? ==> Decoded(Real(e), probs, rc, s).value.rc.used <= rc.used + 20
  {
    hide Real, NumProbs, Once, Fits, Decoded, Cost, Pow255;
    RealOnce(e);
    RealCost(e);
    CheapBytes(Real(e), probs, rc, s);
  }

  // ----- LzmaDec_TryDummy, with its loops -----

  /** IF_BIT_0_CHECK with UPDATE_0_CHECK or UPDATE_1_CHECK; ok is false where DUMMY_ERROR is returned. */
  method BitCheck(p: prob, rc: Rc, s: seq<byte>) returns (ok: bool, bit: bool, rc': Rc)
    ensures ok == Norm(rc, s).Some? && (ok ==> (bit, rc') == Decide(Norm(rc, s).value, p))
  {
    var range: int, code: int, used: nat := rc.range, rc.code, rc.used;
    ok, bit, rc' := true, false, rc;
    if range < TOP {
      if used >= |s| { return false, false, rc; }
      range := 0x100 * range;
      code := 0x100 * code % TWO32 + s[used];
      ShiftCode(rc.code);
      used := used + 1;
    }
    BoundInside(range, p);
    var bound := range / 2048 * p;
    if code < bound {
      rc' := Rc(bound, code, used);
    } else {
      bit, rc' := true, Rc(range - bound, code - bound, used);
    }
  }

  lemma ShiftCode(code: u32)
    ensures 0x100 * code % TWO32 == 0x100 * (code % TOP)
  {
    var q := code / TOP;
    assert 0x100 * code == TWO32 * q + 0x100 * (code % TOP);
    DivModUnique(0x100 * code, TWO32, q, 0x100 * (code % TOP));
  }

  /** A direct bit of the dry run. */
  method DirectCheck(rc: Rc, s: seq<byte>) returns (ok: bool, rc': Rc)
    ensures ok == Norm(rc, s).Some? && (ok ==> rc' == Halve(Norm(rc, s).value).1)
  {
    var range: int, code: int, used: nat := rc.range, rc.code, rc.used;
    ok, rc' := true, rc;
    if range < TOP {
      if used >= |s| { return false, rc; }
      range := 0x100 * range;
      code := 0x100 * code % TWO32 + s[used];
      ShiftCode(rc.code);
      used := used + 1;
    }
    range := range / 2;
    var less := if code >= range then code - range else code - range + TWO32;
    rc' := Rc(range, if less >= 0x8000_0000 then code else less, used);
  }

  lemma AheadBit(c: nat, zero: Prog<Kind>, one: Prog<Kind>, probs: seq<prob>, rc: Rc, s: seq<byte>)
    requires Fits(Bit(c, zero, one), |probs|)
    ensures c < |probs| && Fits(zero, |probs|) && Fits(one, |probs|)
    ensures Norm(rc, s).None? ==> Ahead(Bit(c, zero, one), probs, rc, s) == None
    ensures Norm(rc, s).Some? ==>
              var (bit, r) := Decide(Norm(rc, s).value, probs[c]);
              Ahead(Bit(c, zero, one), probs, rc, s) == Ahead(if bit then one else zero, probs, r, s)
  {
    FitsBelow(Bit(c, zero, one), |probs|);
  }

  lemma AheadDirect(zero: Prog<Kind>, one: Prog<Kind>, probs: seq<prob>, rc: Rc, s: seq<byte>)
    requires Fits(Direct(zero, one), |probs|)
    ensures Fits(zero, |probs|) && Fits(one, |probs|)
    ensures Norm(rc, s).None? ==> Ahead(Direct(zero, one), probs, rc, s) == None
    ensures Norm(rc, s).Some? ==>
              var (bit, r) := Halve(Norm(rc, s).value);
              Ahead(Direct(zero, one), probs, rc, s) == Ahead(if bit then one else zero, probs, r, s)
  {
    FitsBelow(Direct(zero, one), |probs|);
  }

  lemma TreeIs(base: nat, limit: nat, i: nat, k: nat -> Prog<Kind>)
    requires i > 0
    ensures Tree(base, limit, i, k) == if i >= limit then k(i - limit)
                                       else Bit(base + i, Tree(base, limit, 2 * i, k), Tree(base, limit, 2 * i + 1, k))
  {}

  /** TREE_DECODE_CHECK. */
  method TreeCheck(probs: array<prob>, base: nat, limit: nat, rc: Rc, s: seq<byte>, ghost k: nat -> Prog<Kind>)
    returns (ok: bool, i: nat, rc': Rc)
    requires limit > 0 && Fits(Tree(base, limit, 1, k), probs.Length)
    ensures !ok ==> Ahead(Tree(base, limit, 1, k), probs[..], rc, s) == None
    ensures ok ==>
              Fits(k(i), probs.Length) && Ahead(Tree(base, limit, 1, k), probs[..], rc, s)
              == Ahead(k(i), probs[..], rc', s)
  {
    hide Norm, Decide, Fits, Ahead, Tree;
    ok, i, rc' := true, 1, rc;
    while i < limit
      invariant i > 0 && ok && Fits(Tree(base, limit, i, k), probs.Length)
      invariant Ahead(Tree(base, limit, 1, k), probs[..], rc, s) == Ahead(Tree(base, limit, i, k), probs[..], rc', s)
      decreases limit - i
    {
      TreeIs(base, limit, i, k);
      AheadBit(base + i, Tree(base, limit, 2 * i, k), Tree(base, limit, 2 * i + 1, k), probs[..], rc', s);
      var bit;
      ok, bit, rc' := BitCheck(probs[base + i], rc', s);
      if !ok { return; }
      i := if bit then i + i + 1 else i + i;
    }
    TreeIs(base, limit, i, k);
    i := i - limit;
  }

  lemma RevStep(base: nat, i: nat, m: nat, n: nat, k: Prog<Kind>)
    ensures RevCheck(base, i, m, n, k) == if n == 0 then k
                                          else Bit(base + i, RevCheck(base, i + m, 2 * m, n - 1, k),
                                              RevCheck(base, i + 2 * m, 2 * m, n - 1, k))
  {}

  /** The loop with REV_BIT_CHECK. */
  method RevCheckLoop(probs: array<prob>, base: nat, numBits: nat, rc: Rc, s: seq<byte>, ghost k: Prog<Kind>)
    returns (ok: bool, rc': Rc)
    requires Fits(RevCheck(base, 1, 1, numBits, k), probs.Length)
    ensures !ok ==> Ahead(RevCheck(base, 1, 1, numBits, k), probs[..], rc, s) == None
    ensures ok ==> Ahead(RevCheck(base, 1, 1, numBits, k), probs[..], rc, s) == Ahead(k, probs[..], rc', s)
  {
    hide Norm, Decide, Fits, Ahead, RevCheck;
    var i: nat, m: nat, left: nat := 1, 1, numBits;
    ok, rc' := true, rc;
    while left > 0
      invariant ok && Fits(RevCheck(base, i, m, left, k), probs.Length)
      invariant Ahead(RevCheck(base, 1, 1, numBits, k), probs[..], rc, s)
                == Ahead(RevCheck(base, i, m, left, k), probs[..], rc', s)
    {
      RevStep(base, i, m, left, k);
      AheadBit(base + i, RevCheck(base, i + m, 2 * m, left - 1, k),
          RevCheck(base, i + 2 * m, 2 * m, left - 1, k), probs[..], rc', s);
      var bit;
      ok, bit, rc' := BitCheck(probs[base + i], rc', s);
      if !ok { return; }
      if bit {
        m := m + m;
        i := i + m;
      } else {
        i := i + m;
        m := m + m;
      }
      left := left - 1;
    }
    RevStep(base, i, m, left, k);
  }

  lemma DirectsIs(d: nat, n: nat, g: Prog<Kind>)
    ensures Directs(d, n, Always(g)) == if n == 0 then g
            else Direct(Directs(2 * d, n - 1, Always(g)), Directs(2 * d + 1, n - 1, Always(g)))
  {}

  /** The number that the direct bits make up does not matter to the dry run. */
  lemma {:induction false} DirectsAny(d: nat, e: nat, n: nat, g: Prog<Kind>)
    ensures Directs(d, n, Always(g)) == Directs(e, n, Always(g))
    decreases n
  {
    if n > 0 {
      DirectsAny(2 * d, 2 * e, n - 1, g);
      DirectsAny(2 * d + 1, 2 * e + 1, n - 1, g);
    }
  }

  /** The loop of the direct bits. */
  method DirectsCheck(ghost probs: seq<prob>, numBits: nat, rc: Rc, s: seq<byte>, ghost g: Prog<Kind>)
    returns (ok: bool, rc': Rc)
    requires Fits(Directs(0, numBits, Always(g)), |probs|)
    ensures !ok ==> Ahead(Directs(0, numBits, Always(g)), probs, rc, s) == None
    ensures ok ==> Fits(g, |probs|) && Ahead(Directs(0, numBits, Always(g)), probs, rc, s) == Ahead(g, probs, rc', s)
  {
    hide Norm, Halve, Fits, Ahead, Directs;
    var left: nat := numBits;
    ok, rc' := true, rc;
    while left > 0
      invariant ok && Fits(Directs(0, left, Always(g)), |probs|)
      invariant Ahead(Directs(0, numBits, Always(g)), probs, rc, s) == Ahead(Directs(0, left, Always(g)), probs, rc', s)
    {
      DirectsIs(0, left, g);
      DirectsAny(1, 0, left - 1, g);
      AheadDirect(Directs(0, left - 1, Always(g)), Directs(1, left - 1, Always(g)), probs, rc', s);
      ok, rc' := DirectCheck(rc', s);
      if !ok { return; }
      left := left - 1;
    }
    DirectsIs(0, left, g);
  }

  lemma MatchedStep(base: nat, offs: nat, matchByte: nat, symbol: nat, k: nat -> Prog<Kind>)
    requires symbol > 0 && (offs == 0 || offs == 0x100)
    ensures var m := 2 * matchByte;
            var keep := Keep(offs, m);
            Matched(base, offs, matchByte, symbol, k)
            == if symbol >= 0x100 then k(symbol - 0x100)
               else Bit(base + keep + offs + symbol, Matched(base, offs - keep, m, 2 * symbol, k),
                   Matched(base, keep, m, 2 * symbol + 1, k))
  {
    hide Keep;
  }

  /** The matched literal of the dry run. */
  method MatchedCheck(probs: array<prob>, base: nat, firstByte: nat, rc: Rc, s: seq<byte>, ghost k: nat -> Prog<Kind>)
    returns (ok: bool, ghost b: nat, rc': Rc)
    requires Fits(Matched(base, 0x100, firstByte, 1, k), probs.Length)
    ensures !ok ==> Ahead(Matched(base, 0x100, firstByte, 1, k), probs[..], rc, s) == None
    ensures ok ==>
              Fits(k(b), probs.Length) && Ahead(Matched(base, 0x100, firstByte, 1, k), probs[..], rc, s)
              == Ahead(k(b), probs[..], rc', s)
  {
    hide Norm, Decide, Fits, Ahead, Matched, Keep;
    var matchByte: nat, offs: nat, symbol: nat := firstByte, 0x100, 1;
    ok, b, rc' := true, 0, rc;
    while symbol < 0x100
      invariant symbol > 0 && (offs == 0 || offs == 0x100) && ok
                && Fits(Matched(base, offs, matchByte, symbol, k), probs.Length)
      invariant Ahead(Matched(base, 0x100, firstByte, 1, k), probs[..], rc, s)
                == Ahead(Matched(base, offs, matchByte, symbol, k), probs[..], rc', s)
      decreases 0x100 - symbol
    {
      MatchedStep(base, offs, matchByte, symbol, k);
      matchByte := matchByte + matchByte;
      var bitMask := offs;
      offs := Keep(offs, matchByte);
      AheadBit(base + offs + bitMask + symbol, Matched(base, bitMask - offs, matchByte, 2 * symbol, k),
               Matched(base, offs, matchByte, 2 * symbol + 1, k), probs[..], rc', s);
      var bit;
      ok, bit, rc' := BitCheck(probs[base + offs + bitMask + symbol], rc', s);
      if !ok { return; }
      if bit {
        symbol := symbol + symbol + 1;
      } else {
        symbol := symbol + symbol;
        offs := bitMask - offs;
      }
    }
    MatchedStep(base, offs, matchByte, symbol, k);
    b := symbol - 0x100;
  }

  method LiteralCheck(e: Env, probs: array<prob>, rc: Rc, s: seq<byte>) returns (ok: bool, rc': Rc)
    requires Valid(e) && Fits(DummyLiteral(e), probs.Length)
    ensures !ok ==> Ahead(DummyLiteral(e), probs[..], rc, s) == None
    ensures ok ==> Ahead(DummyLiteral(e), probs[..], rc, s) == Ahead(End(DummyLit), probs[..], rc', s)
  {
    hide Fits, Ahead, Tree, Matched, DummyLitBase;
    if e.state < 7 {
      var i;
      ok, i, rc' := TreeCheck(probs, DummyLitBase(e), 0x100, rc, s, Always(End(DummyLit)));
    } else {
      ghost var b;
      ok, b, rc' := MatchedCheck(probs, DummyLitBase(e), e.matchByte, rc, s, Always(End(DummyLit)));
    }
  }

  method LenCheck(probs: array<prob>, base: nat, ps: nat, rc: Rc, s: seq<byte>, ghost k: nat -> Prog<Kind>)
    returns (ok: bool, len: nat, rc': Rc)
    requires Fits(DummyLen(base, ps, k), probs.Length)
    ensures !ok ==> Ahead(DummyLen(base, ps, k), probs[..], rc, s) == None
    ensures ok ==>
              Fits(k(len), probs.Length) && Ahead(DummyLen(base, ps, k), probs[..], rc, s)
              == Ahead(k(len), probs[..], rc', s)
  {
    hide Norm, Decide, Fits, Ahead, Tree;
    ghost var low, mid, high := Tree(base + ps, 8, 1, k), Tree(base + ps + 8, 8, 1, Plus(k, 8)),
        Tree(base + LEN_HIGH, 0x100, 1, Plus(k, 16));
    AheadBit(base, low, Bit(base + LEN_CHOICE2, mid, high), probs[..], rc, s);
    var bit;
    ok, bit, rc' := BitCheck(probs[base], rc, s);
    len := 0;
    if !ok { return; }
    if !bit {
      ok, len, rc' := TreeCheck(probs, base + ps, 8, rc', s, k);
    } else {
      AheadBit(base + LEN_CHOICE2, mid, high, probs[..], rc', s);
      ok, bit, rc' := BitCheck(probs[base + LEN_CHOICE2], rc', s);
      if !ok { return; }
      if !bit {
        ok, len, rc' := TreeCheck(probs, base + ps + 8, 8, rc', s, Plus(k, 8));
        len := len + 8;
      } else {
        ok, len, rc' := TreeCheck(probs, base + LEN_HIGH, 0x100, rc', s, Plus(k, 16));
        len := len + 16;
      }
    }
  }

  method DistanceCheck(probs: array<prob>, len: nat, rc: Rc, s: seq<byte>) returns (ok: bool, rc': Rc)
    requires Fits(DummyMatchTail(len), probs.Length)
    ensures !ok ==> Ahead(DummyMatchTail(len), probs[..], rc, s) == None
    ensures ok ==> Ahead(DummyMatchTail(len), probs[..], rc, s) == Ahead(End(DummyMatch), probs[..], rc', s)
  {
    hide Fits, Ahead, Tree, Directs, RevCheck, Pow2;
    var posSlot;
    ok, posSlot, rc' := TreeCheck(probs, POS_SLOT + 64 * (if len < 3 then len else 3), 64, rc, s, DummySlotEnd());
    if !ok { return; }
    if posSlot >= 4 {
      var numDirectBits := posSlot / 2 - 1;
      if posSlot < 14 {
        ok, rc' := RevCheckLoop(probs, SPEC_POS + Pow2(numDirectBits) * (2 + posSlot % 2),
            numDirectBits, rc', s, End(DummyMatch));
      } else {
        ok, rc' := DirectsCheck(probs[..], numDirectBits - 4, rc', s, RevCheck(ALIGN, 1, 1, 4, End(DummyMatch)));
        if !ok { return; }
        ok, rc' := RevCheckLoop(probs, ALIGN, 4, rc', s, End(DummyMatch));
      }
    }
  }

  /** Up to the length of a repeated match; done tells that the symbol is already over. */
  method RepCheck(e: Env, probs: array<prob>, rc: Rc, s: seq<byte>) returns (ok: bool, done: bool, rc': Rc)
    requires Valid(e)
    requires Fits(RepPart(e), probs.Length)
    ensures !ok ==> Ahead(RepPart(e), probs[..], rc, s) == None
    ensures ok && done ==> Ahead(RepPart(e), probs[..], rc, s) == Ahead(End(DummyRep), probs[..], rc', s)
    ensures ok && !done ==>
            Fits(DummyRepTail(e), probs.Length) && Ahead(RepPart(e), probs[..], rc, s)
            == Ahead(DummyRepTail(e), probs[..], rc', s)
  {
    hide Norm, Decide, Fits, Ahead, DummyRepTail, PosState;
    ghost var r := DummyRepTail(e);
    ghost var g2, long := Bit(IS_REP_G2 + e.state, r, r), Bit(IS_REP0_LONG + PosState(e) + e.state, End(DummyRep), r);
    AheadBit(IS_REP_G0 + e.state, long, Bit(IS_REP_G1 + e.state, r, g2), probs[..], rc, s);
    var bit;
    done := false;
    ok, bit, rc' := BitCheck(probs[IS_REP_G0 + e.state], rc, s);
    if !ok { return; }
    if !bit {
      AheadBit(IS_REP0_LONG + PosState(e) + e.state, End(DummyRep), r, probs[..], rc', s);
      ok, bit, rc' := BitCheck(probs[IS_REP0_LONG + PosState(e) + e.state], rc', s);
      done := !bit;
    } else {
      AheadBit(IS_REP_G1 + e.state, r, g2, probs[..], rc', s);
      ok, bit, rc' := BitCheck(probs[IS_REP_G1 + e.state], rc', s);
      if !ok { return; }
      if bit {
        AheadBit(IS_REP_G2 + e.state, r, r, probs[..], rc', s);
        ok, bit, rc' := BitCheck(probs[IS_REP_G2 + e.state], rc', s);
      }
    }
  }

  function RepPart(e: Env): Prog<Kind> {
    Bit(IS_REP_G0 + e.state,
        Bit(IS_REP0_LONG + PosState(e) + e.state, End(DummyRep), DummyRepTail(e)),
        Bit(IS_REP_G1 + e.state, DummyRepTail(e), Bit(IS_REP_G2 + e.state, DummyRepTail(e), DummyRepTail(e))))
  }

  lemma FitsMap(g: Prog<Symbol>, n: nat)
    requires Fits(g, n)
    ensures Fits(Map(g, KindOf), n)
  {
    MapCtxs(g, KindOf);
  }

  lemma DummyFits(e: Env)
    requires Valid(e)
    ensures Fits(Dummy(e), NumProbs(e))
  {
    hide Dummy, Real, NumProbs, Fits, Once;
    RealOnce(e);
    SameDecisions(e);
    FitsMap(Real(e), NumProbs(e));
  }

  function NonLiteral(e: Env): Prog<Kind> {
    Bit(IS_REP + e.state, DummyLen(LEN_CODER, PosState(e), DummyMatchEnd()), RepPart(e))
  }

  lemma DummyIs(e: Env)
    requires Valid(e)
    ensures Dummy(e) == Bit(IS_MATCH + PosState(e) + e.state, DummyLiteral(e), NonLiteral(e))
  {
    hide DummyLiteral, DummyLen, DummyRepTail, PosState;
  }

  lemma AheadEnd(v: Kind, probs: seq<prob>, rc: Rc, s: seq<byte>)
    ensures Ahead(End(v), probs, rc, s) == if Norm(rc, s).None? then None else Some((v, Norm(rc, s).value))
  {}

  /** NORMALIZE_CHECK. */
  method NormCheck(rc: Rc, s: seq<byte>) returns (ok: bool, rc': Rc)
    ensures ok == Norm(rc, s).Some? && (ok ==> rc' == Norm(rc, s).value)
  {
    if rc.range >= TOP { return true, rc; }
    if rc.used >= |s| { return false, rc; }
    ShiftCode(rc.code);
    return true, Rc(0x100 * rc.range, 0x100 * rc.code % TWO32 + s[rc.used], rc.used + 1);
  }

  method MatchCheck(e: Env, probs: array<prob>, rc: Rc, s: seq<byte>) returns (ok: bool, rc': Rc)
    requires Fits(DummyLen(LEN_CODER, PosState(e), DummyMatchEnd()), probs.Length)
    ensures !ok ==> Ahead(DummyLen(LEN_CODER, PosState(e), DummyMatchEnd()), probs[..], rc, s) == None
    ensures ok ==>
              Ahead(DummyLen(LEN_CODER, PosState(e), DummyMatchEnd()), probs[..], rc, s)
              == Ahead(End(DummyMatch), probs[..], rc', s)
  {
    hide Fits, Ahead, DummyLen, DummyMatchTail, PosState;
    var len;
    ok, len, rc' := LenCheck(probs, LEN_CODER, PosState(e), rc, s, DummyMatchEnd());
    if !ok { return; }
    ok, rc' := DistanceCheck(probs, len, rc', s);
  }

  method RepLenCheck(e: Env, probs: array<prob>, rc: Rc, s: seq<byte>) returns (ok: bool, rc': Rc)
    requires Valid(e) && Fits(RepPart(e), probs.Length)
    ensures !ok ==> Ahead(RepPart(e), probs[..], rc, s) == None
    ensures ok ==> Ahead(RepPart(e), probs[..], rc, s) == Ahead(End(DummyRep), probs[..], rc', s)
  {
    hide Fits, Ahead, DummyLen, RepPart, PosState;
    var done, len;
    ok, done, rc' := RepCheck(e, probs, rc, s);
    if ok && !done {
      ok, len, rc' := LenCheck(probs, REP_LEN_CODER, PosState(e), rc', s, Always(End(DummyRep)));
    }
  }

  method NonLiteralCheck(e: Env, probs: array<prob>, rc: Rc, s: seq<byte>) returns (ok: bool, kind: Kind, rc': Rc)
    requires Valid(e) && Fits(NonLiteral(e), probs.Length)
    ensures !ok ==> Ahead(NonLiteral(e), probs[..], rc, s) == None
    ensures ok ==> Ahead(NonLiteral(e), probs[..], rc, s) == Ahead(End(kind), probs[..], rc', s)
  {
    hide Norm, Decide, Fits, Ahead, DummyLen, RepPart, PosState;
    AheadBit(IS_REP + e.state, DummyLen(LEN_CODER, PosState(e), DummyMatchEnd()), RepPart(e), probs[..], rc, s);
    var bit;
    kind := DummyMatch;
    ok, bit, rc' := BitCheck(probs[IS_REP + e.state], rc, s);
    if !ok { return; }
    if !bit {
      ok, rc' := MatchCheck(e, probs, rc', s);
    } else {
      kind := DummyRep;
      ok, rc' := RepLenCheck(e, probs, rc', s);
    }
  }

  /** All decisions of the symbol, before the closing normalisation. */
  method SymbolCheck(e: Env, probs: array<prob>, rc: Rc, s: seq<byte>) returns (ok: bool, kind: Kind, rc': Rc)
    requires Valid(e) && Fits(Dummy(e), probs.Length)
    ensures !ok ==> Ahead(Dummy(e), probs[..], rc, s) == None
    ensures ok ==> Ahead(Dummy(e), probs[..], rc, s) == Ahead(End(kind), probs[..], rc', s)
  {
    hide Norm, Decide, Fits, Ahead, Dummy, DummyLiteral, NonLiteral, PosState, NumProbs;
    DummyIs(e);
    AheadBit(IS_MATCH + PosState(e) + e.state, DummyLiteral(e), NonLiteral(e), probs[..], rc, s);
    var bit;
    kind := DummyLit;
    ok, bit, rc' := BitCheck(probs[IS_MATCH + PosState(e) + e.state], rc, s);
    if !ok { return; }
    if !bit {
      ok, rc' := LiteralCheck(e, probs, rc', s);
    } else {
      ok, kind, rc' := NonLiteralCheck(e, probs, rc', s);
    }
  }

  /** LzmaDec_TryDummy; None is DUMMY_ERROR. */
  method TryDummy(e: Env, probs: array<prob>, rc: Rc, s: seq<byte>) returns (res: Option<Kind>, rc': Rc)
    requires Valid(e) && probs.Length == NumProbs(e)
    ensures res.None? <==> Ahead(Dummy(e), probs[..], rc, s).None?
    ensures res.Some? ==> Ahead(Dummy(e), probs[..], rc, s) == Some((res.value, rc'))
  {
    hide Norm, Fits, Ahead, Dummy, NumProbs;
    DummyFits(e);
    var ok, kind;
    ok, kind, rc' := SymbolCheck(e, probs, rc, s);
    if !ok { return None, rc'; }
    AheadEnd(kind, probs[..], rc', s);
    ok, rc' := NormCheck(rc', s);
    res := if ok then Some(kind) else None;
  }
}
