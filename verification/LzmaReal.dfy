/** One symbol of LZMA_DECODE_REAL, with its loops and with the probabilities adapted in place. */
module LzmaReal {
  import opened Bytes
  import opened RangeCoder
  import opened LzmaProg
  import opened LzmaSymbol
  import opened LzmaDec

  /** What is left to decode gives this result. */
  ghost predicate Leads(g: Prog<Symbol>, probs: seq<prob>, rc: Rc, s: seq<byte>, done: Done<Symbol>) {
    Fits(g, |probs|) && Run(g, probs, rc, s) == Some(done)
  }

  lemma LeadsBit(c: nat, zero: Prog<Symbol>, one: Prog<Symbol>,
                 probs: seq<prob>, rc: Rc, s: seq<byte>, done: Done<Symbol>)
    requires Leads(Bit(c, zero, one), probs, rc, s, done)
    ensures c < |probs| && Norm(rc, s).Some?
    ensures var (bit, r) := Decide(Norm(rc, s).value, probs[c]);
            Leads(if bit then one else zero, probs[c := Update(probs[c], bit)], r, s, done)
  {
    FitsBelow(Bit(c, zero, one), |probs|);
  }

  lemma LeadsDirect(zero: Prog<Symbol>, one: Prog<Symbol>, probs: seq<prob>, rc: Rc, s: seq<byte>, done: Done<Symbol>)
    requires Leads(Direct(zero, one), probs, rc, s, done)
    ensures Norm(rc, s).Some?
    ensures var (bit, r) := Halve(Norm(rc, s).value); Leads(if bit then one else zero, probs, r, s, done)
  {
    FitsBelow(Direct(zero, one), |probs|);
  }

  lemma LeadsEnd(v: Symbol, probs: seq<prob>, rc: Rc, s: seq<byte>, done: Done<Symbol>)
    requires Leads(End(v), probs, rc, s, done)
    ensures Norm(rc, s).Some? && done == Done(v, probs, Norm(rc, s).value)
  {}

  /** IF_BIT_0 with UPDATE_0 or UPDATE_1. */
  method GetBit(probs: array<prob>, c: nat, rc: Rc, s: seq<byte>) returns (bit: bool, rc': Rc)
    requires c < probs.Length && Norm(rc, s).Some?
    modifies probs
    ensures (bit, rc') == Decide(Norm(rc, s).value, old(probs[c]))
    ensures probs[..] == old(probs[..])[c := Update(old(probs[c]), bit)]
  {
    var ttt: int := probs[c];
    var ok;
    ok, bit, rc' := BitCheck(ttt, rc, s);
    probs[c] := if bit then ttt - ttt / 32 else ttt + (2048 - ttt) / 32;
  }

  lemma BitsIs(base: nat, n: nat, i: nat, k: nat -> Prog<Symbol>)
    ensures Bits(base, n, i, k) == if n == 0 then k(i)
            else Bit(base + i, Bits(base, n - 1, 2 * i, k), Bits(base, n - 1, 2 * i + 1, k))
  {}

  /** TREE_GET_BIT, n times. */
  method GetBits(probs: array<prob>, base: nat, n: nat, rc: Rc, s: seq<byte>, ghost k: nat -> Prog<Symbol>,
                 ghost done: Done<Symbol>)
    returns (i: nat, rc': Rc)
    requires Leads(Bits(base, n, 1, k), probs[..], rc, s, done)
    modifies probs
    ensures Leads(k(i), probs[..], rc', s, done)
  {
    hide Leads, Bits, Norm, Decide, Update;
    var left: nat := n;
    i, rc' := 1, rc;
    while left > 0
      invariant Leads(Bits(base, left, i, k), probs[..], rc', s, done)
    {
      BitsIs(base, left, i, k);
      LeadsBit(base + i, Bits(base, left - 1, 2 * i, k), Bits(base, left - 1, 2 * i + 1, k), probs[..], rc', s, done);
      var bit;
      bit, rc' := GetBit(probs, base + i, rc', s);
      i := if bit then i + i + 1 else i + i;
      left := left - 1;
    }
    BitsIs(base, left, i, k);
  }

  lemma TreeStep(base: nat, limit: nat, i: nat, k: nat -> Prog<Symbol>)
    requires i > 0
    ensures Tree(base, limit, i, k) == if i >= limit then k(i - limit)
                                       else Bit(base + i, Tree(base, limit, 2 * i, k), Tree(base, limit, 2 * i + 1, k))
  {}

  /** TREE_DECODE. */
  method GetTree(probs: array<prob>, base: nat, limit: nat, rc: Rc, s: seq<byte>, ghost k: nat -> Prog<Symbol>,
                 ghost done: Done<Symbol>)
    returns (i: nat, rc': Rc)
    requires limit > 0 && Leads(Tree(base, limit, 1, k), probs[..], rc, s, done)
    modifies probs
    ensures Leads(k(i), probs[..], rc', s, done)
  {
    hide Leads, Tree, Norm, Decide, Update;
    i, rc' := 1, rc;
    while i < limit
      invariant i > 0 && Leads(Tree(base, limit, i, k), probs[..], rc', s, done)
      decreases limit - i
    {
      TreeStep(base, limit, i, k);
      LeadsBit(base + i, Tree(base, limit, 2 * i, k), Tree(base, limit, 2 * i + 1, k), probs[..], rc', s, done);
      var bit;
      bit, rc' := GetBit(probs, base + i, rc', s);
      i := if bit then i + i + 1 else i + i;
    }
    TreeStep(base, limit, i, k);
    i := i - limit;
  }

  lemma MatchedStep(base: nat, offs: nat, matchByte: nat, symbol: nat, k: nat -> Prog<Symbol>)
    requires symbol > 0 && (offs == 0 || offs == 0x100)
    ensures var m := 2 * matchByte;
            var keep := Keep(offs, m);
            Matched(base, offs, matchByte, symbol, k)
            == if symbol >= 0x100 then k(symbol - 0x100)
               else Bit(base + keep + offs + symbol, Matched(base, offs - keep, m, 2 * symbol, k),
                   Matched(base, keep, m, 2 * symbol + 1, k))
  {
    hide Keep;
  }

  /** MATCHED_LITER_DEC, eight times. */
  method GetMatched(probs: array<prob>, base: nat, firstByte: nat, rc: Rc, s: seq<byte>, ghost k: nat -> Prog<Symbol>,
                    ghost done: Done<Symbol>)
    returns (b: nat, rc': Rc)
    requires Leads(Matched(base, 0x100, firstByte, 1, k), probs[..], rc, s, done)
    modifies probs
    ensures Leads(k(b), probs[..], rc', s, done)
  {
    hide Leads, Matched, Keep, Norm, Decide, Update;
    var matchByte: nat, offs: nat, symbol: nat := firstByte, 0x100, 1;
    rc' := rc;
    while symbol < 0x100
      invariant symbol > 0 && (offs == 0 || offs == 0x100)
                && Leads(Matched(base, offs, matchByte, symbol, k), probs[..], rc', s, done)
      decreases 0x100 - symbol
    {
      MatchedStep(base, offs, matchByte, symbol, k);
      matchByte := matchByte + matchByte;
      var bitMask := offs;
      offs := Keep(offs, matchByte);
      LeadsBit(base + offs + bitMask + symbol, Matched(base, bitMask - offs, matchByte, 2 * symbol, k),
               Matched(base, offs, matchByte, 2 * symbol + 1, k), probs[..], rc', s, done);
      var bit;
      bit, rc' := GetBit(probs, base + offs + bitMask + symbol, rc', s);
      if bit {
        symbol := symbol + symbol + 1;
      } else {
        symbol := symbol + symbol;
        offs := bitMask - offs;
      }
    }
    MatchedStep(base, offs, matchByte, symbol, k);
    b := symbol - 0x100;
  }

  method GetLiteral(e: Env, probs: array<prob>, rc: Rc, s: seq<byte>, ghost done: Done<Symbol>)
    returns (v: Symbol, rc': Rc)
    requires Valid(e) && Leads(RealLiteral(e), probs[..], rc, s, done)
    modifies probs
    ensures Leads(End(v), probs[..], rc', s, done)
  {
    hide Leads, Bits, Matched, RealLitBase;
    var b;
    if e.state < 7 {
      b, rc' := GetBits(probs, RealLitBase(e), 8, rc, s, Less(LitEnd(), 0x100), done);
      b := if b >= 0x100 then b - 0x100 else 0;
    } else {
      b, rc' := GetMatched(probs, RealLitBase(e), e.matchByte, rc, s, LitEnd(), done);
    }
    v := Lit(b);
  }

  method GetLen(probs: array<prob>, base: nat, ps: nat, rc: Rc, s: seq<byte>, ghost k: nat -> Prog<Symbol>,
                ghost done: Done<Symbol>)
    returns (len: nat, rc': Rc)
    requires Leads(RealLen(base, ps, k), probs[..], rc, s, done)
    modifies probs
    ensures Leads(k(len), probs[..], rc', s, done)
  {
    hide Leads, Bits, Tree, Norm, Decide, Update;
    ghost var low, mid, high := Bits(base + ps, 3, 1, Less(k, 8)), Bits(base + ps + 8, 3, 1, k),
        Tree(base + LEN_HIGH, 0x100, 1, Plus(k, 16));
    LeadsBit(base, low, Bit(base + LEN_CHOICE2, mid, high), probs[..], rc, s, done);
    var bit;
    bit, rc' := GetBit(probs, base, rc, s);
    if !bit {
      len, rc' := GetBits(probs, base + ps, 3, rc', s, Less(k, 8), done);
      len := if len >= 8 then len - 8 else 0;
    } else {
      LeadsBit(base + LEN_CHOICE2, mid, high, probs[..], rc', s, done);
      bit, rc' := GetBit(probs, base + LEN_CHOICE2, rc', s);
      if !bit {
        len, rc' := GetBits(probs, base + ps + 8, 3, rc', s, k, done);
      } else {
        len, rc' := GetTree(probs, base + LEN_HIGH, 0x100, rc', s, Plus(k, 16), done);
        len := len + 16;
      }
    }
  }

  lemma RevVarIs(i: nat, m: nat, n: nat, k: nat -> Prog<Symbol>)
    ensures RevVar(i, m, n, k) == if n == 0 then k(if i >= m then i - m else 0)
                                  else Bit(SPEC_POS + i, RevVar(i + m, 2 * m, n - 1, k),
                                      RevVar(i + 2 * m, 2 * m, n - 1, k))
  {}

  /** The loop with REV_BIT_VAR. */
  method GetReverse(probs: array<prob>, start: nat, numBits: nat, rc: Rc, s: seq<byte>, ghost k: nat -> Prog<Symbol>,
                    ghost done: Done<Symbol>)
    returns (distance: nat, rc': Rc)
    requires Leads(RevVar(start + 1, 1, numBits, k), probs[..], rc, s, done)
    modifies probs
    ensures Leads(k(distance), probs[..], rc', s, done)
  {
    hide Leads, RevVar, Norm, Decide, Update;
    var m: nat, left: nat := 1, numBits;
    distance, rc' := start + 1, rc;
    while left > 0
      invariant Leads(RevVar(distance, m, left, k), probs[..], rc', s, done)
    {
      RevVarIs(distance, m, left, k);
      LeadsBit(SPEC_POS + distance, RevVar(distance + m, 2 * m, left - 1, k),
          RevVar(distance + 2 * m, 2 * m, left - 1, k), probs[..], rc', s, done);
      var bit;
      bit, rc' := GetBit(probs, SPEC_POS + distance, rc', s);
      if bit {
        m := m + m;
        distance := distance + m;
      } else {
        distance := distance + m;
        m := m + m;
      }
      left := left - 1;
    }
    RevVarIs(distance, m, left, k);
    distance := if distance >= m then distance - m else 0;
  }

  lemma DirectsStep(d: nat, n: nat, k: nat -> Prog<Symbol>)
    ensures Directs(d, n, k) == if n == 0 then k(d) else Direct(Directs(2 * d, n - 1, k), Directs(2 * d + 1, n - 1, k))
  {}

  /** A direct bit: the code keeps its value or loses the halved range. */
  method GetDirect(rc: Rc, s: seq<byte>) returns (bit: bool, rc': Rc)
    requires Norm(rc, s).Some?
    ensures (bit, rc') == Halve(Norm(rc, s).value)
  {
    var ok, r := NormCheck(rc, s);
    var range := r.range / 2;
    var code := if r.code >= range then r.code - range else r.code - range + TWO32;
    bit := code < 0x8000_0000;
    rc' := r.(range := range, code := if bit then code else r.code);
  }

  /** The loop of the direct bits. */
  method GetDirects(ghost probs: seq<prob>, start: nat, numBits: nat, rc: Rc, s: seq<byte>,
                    ghost k: nat -> Prog<Symbol>, ghost done: Done<Symbol>)
    returns (distance: nat, rc': Rc)
    requires Leads(Directs(start, numBits, k), probs, rc, s, done)
    ensures Leads(k(distance), probs, rc', s, done)
  {
    hide Leads, Directs, Norm, Halve;
    var left: nat := numBits;
    distance, rc' := start, rc;
    while left > 0
      invariant Leads(Directs(distance, left, k), probs, rc', s, done)
    {
      DirectsStep(distance, left, k);
      LeadsDirect(Directs(2 * distance, left - 1, k), Directs(2 * distance + 1, left - 1, k), probs, rc', s, done);
      var bit;
      bit, rc' := GetDirect(rc', s);
      distance := 2 * distance + if bit then 1 else 0;
      left := left - 1;
    }
    DirectsStep(distance, left, k);
  }

  lemma AlignIs(i: nat, m: nat, k: nat -> Prog<Symbol>)
    requires 0 < m <= 8
    ensures RealAlign(i, m, k) == if m >= 5 then Bit(ALIGN + i, k(if i >= m then i - m else 0), k(i))
                                  else Bit(ALIGN + i, RealAlign(i + m, 2 * m, k), RealAlign(i + 2 * m, 2 * m, k))
  {}

  /** REV_BIT_CONST with 1, 2 and 4, then REV_BIT_LAST with 8. */
  method GetAlign(probs: array<prob>, rc: Rc, s: seq<byte>, ghost k: nat -> Prog<Symbol>, ghost done: Done<Symbol>)
    returns (i: nat, rc': Rc)
    requires Leads(RealAlign(1, 1, k), probs[..], rc, s, done)
    modifies probs
    ensures Leads(k(i), probs[..], rc', s, done)
  {
    hide Leads, RealAlign, Norm, Decide, Update;
    var m: nat := 1;
    i, rc' := 1, rc;
    var bit;
    while m < 8
      invariant m == 1 || m == 2 || m == 4 || m == 8
      invariant Leads(RealAlign(i, m, k), probs[..], rc', s, done)
      decreases 8 - m
    {
      AlignIs(i, m, k);
      LeadsBit(ALIGN + i, RealAlign(i + m, 2 * m, k), RealAlign(i + 2 * m, 2 * m, k), probs[..], rc', s, done);
      bit, rc' := GetBit(probs, ALIGN + i, rc', s);
      i := i + if bit then 2 * m else m;
      m := 2 * m;
    }
    AlignIs(i, m, k);
    LeadsBit(ALIGN + i, k(if i >= m then i - m else 0), k(i), probs[..], rc', s, done);
    bit, rc' := GetBit(probs, ALIGN + i, rc', s);
    if !bit { i := if i >= m then i - m else 0; }
  }

  method GetDistance(probs: array<prob>, len: nat, rc: Rc, s: seq<byte>, ghost done: Done<Symbol>)
    returns (v: Symbol, rc': Rc)
    requires Leads(RealMatch(len), probs[..], rc, s, done)
    modifies probs
    ensures Leads(End(v), probs[..], rc', s, done)
  {
    hide Leads, Bits, Directs, RevVar, RealAlign, Pow2;
    var posSlot;
    posSlot, rc' := GetBits(probs, POS_SLOT + 64 * (if len < 4 then len else 3),
        6, rc, s, Less(SlotEnd(len), 64), done);
    posSlot := if posSlot >= 64 then posSlot - 64 else 0;
    if posSlot < 4 { return Match(len + 2, posSlot), rc'; }
    var numDirectBits, distance: nat := posSlot / 2 - 1, 2 + posSlot % 2;
    if posSlot < 14 {
      distance, rc' := GetReverse(probs, Pow2(numDirectBits) * distance, numDirectBits, rc', s, ShortEnd(len), done);
    } else {
      var low;
      distance, rc' := GetDirects(probs[..], distance, numDirectBits - 4, rc', s, LongEnd(len), done);
      low, rc' := GetAlign(probs, rc', s, AlignEnd(len, distance), done);
      distance := 16 * distance + low;
      if distance == 0xFFFF_FFFF { return EndMarker, rc'; }
    }
    v := Match(len + 2, distance);
  }

  function RepTree(e: Env): Prog<Symbol> {
    Bit(IS_REP_G0 + e.state,
        Bit(IS_REP0_LONG + PosState(e) + e.state, End(ShortRep), RealRep(e, 0)),
        Bit(IS_REP_G1 + e.state, RealRep(e, 1), Bit(IS_REP_G2 + e.state, RealRep(e, 2), RealRep(e, 3))))
  }

  method GetRep(e: Env, probs: array<prob>, rc: Rc, s: seq<byte>, ghost done: Done<Symbol>) returns (v: Symbol, rc': Rc)
    requires Valid(e) && Leads(RepTree(e), probs[..], rc, s, done)
    modifies probs
    ensures Leads(End(v), probs[..], rc', s, done)
  {
    hide Leads, RealRep, PosState, Norm, Decide, Update;
    ghost var g2, long := Bit(IS_REP_G2 + e.state, RealRep(e, 2), RealRep(e, 3)),
        Bit(IS_REP0_LONG + PosState(e) + e.state, End(ShortRep), RealRep(e, 0));
    LeadsBit(IS_REP_G0 + e.state, long, Bit(IS_REP_G1 + e.state, RealRep(e, 1), g2), probs[..], rc, s, done);
    var bit;
    var which := 0;
    bit, rc' := GetBit(probs, IS_REP_G0 + e.state, rc, s);
    if !bit {
      LeadsBit(IS_REP0_LONG + PosState(e) + e.state, End(ShortRep), RealRep(e, 0), probs[..], rc', s, done);
      bit, rc' := GetBit(probs, IS_REP0_LONG + PosState(e) + e.state, rc', s);
      if !bit { return ShortRep, rc'; }
    } else {
      LeadsBit(IS_REP_G1 + e.state, RealRep(e, 1), g2, probs[..], rc', s, done);
      bit, rc' := GetBit(probs, IS_REP_G1 + e.state, rc', s);
      which := 1;
      if bit {
        LeadsBit(IS_REP_G2 + e.state, RealRep(e, 2), RealRep(e, 3), probs[..], rc', s, done);
        bit, rc' := GetBit(probs, IS_REP_G2 + e.state, rc', s);
        which := if bit then 3 else 2;
      }
    }
    v, rc' := GetRepLen(e, which, probs, rc', s, done);
  }

  method GetRepLen(e: Env, which: nat, probs: array<prob>, rc: Rc, s: seq<byte>, ghost done: Done<Symbol>)
    returns (v: Symbol, rc': Rc)
    requires Leads(RealRep(e, which), probs[..], rc, s, done)
    modifies probs
    ensures Leads(End(v), probs[..], rc', s, done)
  {
    hide Leads, RealLen, PosState;
    var len;
    len, rc' := GetLen(probs, REP_LEN_CODER, PosState(e), rc, s, RepEnd(which), done);
    v := Rep(which, len + 2);
  }

  method GetMatch(e: Env, probs: array<prob>, rc: Rc, s: seq<byte>, ghost done: Done<Symbol>)
    returns (v: Symbol, rc': Rc)
    requires Leads(RealLen(LEN_CODER, PosState(e), MatchEnd()), probs[..], rc, s, done)
    modifies probs
    ensures Leads(End(v), probs[..], rc', s, done)
  {
    hide Leads, RealLen, PosState, RealMatch;
    var len;
    len, rc' := GetLen(probs, LEN_CODER, PosState(e), rc, s, MatchEnd(), done);
    v, rc' := GetDistance(probs, len, rc', s, done);
  }

  lemma RealIs(e: Env)
    requires Valid(e)
    ensures Real(e) == Bit(IS_MATCH + PosState(e) + e.state, RealLiteral(e),
                           Bit(IS_REP + e.state, RealLen(LEN_CODER, PosState(e), MatchEnd()), RepTree(e)))
  {
    hide RealLiteral, RealLen, RealRep, PosState;
  }

  /** One round of LZMA_DECODE_REAL and the closing NORMALIZE, when there is enough input. */
  method DecodeSymbol(e: Env, probs: array<prob>, rc: Rc, s: seq<byte>) returns (v: Symbol, rc': Rc)
    requires Valid(e) && probs.Length == NumProbs(e) && Decoded(Real(e), probs[..], rc, s).Some?
    modifies probs
    ensures Decoded(Real(e), old(probs[..]), rc, s) == Some(Done(v, probs[..], rc'))
  {
    hide Leads, Real, RealLiteral, RealLen, RepTree, PosState, NumProbs, Norm, Decide, Update, Decoded;
    ghost var done := Decoded(Real(e), probs[..], rc, s).value;
    RealIs(e);
    LeadsStart(Real(e), probs[..], rc, s, done);
    ghost var m := RealLen(LEN_CODER, PosState(e), MatchEnd());
    LeadsBit(IS_MATCH + PosState(e) + e.state, RealLiteral(e),
        Bit(IS_REP + e.state, m, RepTree(e)), probs[..], rc, s, done);
    var bit;
    bit, rc' := GetBit(probs, IS_MATCH + PosState(e) + e.state, rc, s);
    if !bit {
      v, rc' := GetLiteral(e, probs, rc', s, done);
    } else {
      LeadsBit(IS_REP + e.state, m, RepTree(e), probs[..], rc', s, done);
      bit, rc' := GetBit(probs, IS_REP + e.state, rc', s);
      if bit {
        v, rc' := GetRep(e, probs, rc', s, done);
      } else {
        v, rc' := GetMatch(e, probs, rc', s, done);
      }
    }
    LeadsEnd(v, probs[..], rc', s, done);
    var ok;
    ok, rc' := NormCheck(rc', s);
  }

  lemma LeadsStart(g: Prog<Symbol>, probs: seq<prob>, rc: Rc, s: seq<byte>, done: Done<Symbol>)
    requires Decoded(g, probs, rc, s) == Some(done)
    ensures Leads(g, probs, rc, s, done)
  {}
}
