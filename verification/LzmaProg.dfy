/** Decoding one LZMA symbol as a tree of binary decisions, run with or without adapting the probabilities. */
module LzmaProg {
  import opened Bytes
  import opened RangeCoder

  /** The decisions of one symbol: bits with a probability, direct bits, and the result. */
  datatype Prog<T> = End(value: T) | Bit(ctx: nat, zero: Prog<T>, one: Prog<T>) | Direct(zero: Prog<T>, one: Prog<T>)

  datatype Option<T> = None | Some(value: T)

  /** After a decision the range is at least this large, so one byte normalises it. */
  type rng = r: int | 0x1_0000 <= r < 0x1_0000_0000 witness 0x1_0000

  /** The range decoder, and how many bytes of the input it has read. */
  datatype Rc = Rc(range: rng, code: u32, used: nat)

  /** NORMALIZE; None: the byte is not there. */
  function Norm(rc: Rc, s: seq<byte>): (r: Option<Rc>)
    ensures r.Some? ==> r.value.range >= TOP
  {
    if rc.range >= TOP then Some(rc)
    else if rc.used >= |s| then None
    else Some(Rc(0x100 * rc.range, 0x100 * (rc.code % TOP) + s[rc.used], rc.used + 1))
  }

  /** IF_BIT_0 with UPDATE_0 or UPDATE_1, without the probability. */
  function Decide(rc: Rc, p: prob): (bool, Rc)
    requires rc.range >= TOP
  {
    BoundInside(rc.range, p);
    var bound := Bound(rc.range, p);
    if rc.code < bound then (false, rc.(range := bound))
        else (true, rc.(range := rc.range - bound, code := rc.code - bound))
  }

  /** A direct bit. */
  function Halve(rc: Rc): (bool, Rc)
    requires rc.range >= TOP
  {
    var range := rc.range / 2;
    var code := if rc.code >= range then rc.code - range else rc.code - range + TWO32;
    if code >= 0x8000_0000 then (false, rc.(range := range)) else (true, rc.(range := range, code := code))
  }

  function Ctxs<T>(g: Prog<T>): set<nat> {
    match g
    case End(_) => {}
    case Bit(c, zero, one) => {c} + Ctxs(zero) + Ctxs(one)
    case Direct(zero, one) => Ctxs(zero) + Ctxs(one)
  }

  ghost predicate Fits<T>(g: Prog<T>, n: nat) { forall c: nat | c in Ctxs(g) :: c < n }

  lemma FitsBelow<T>(g: Prog<T>, n: nat)
    requires Fits(g, n) && !g.End?
    ensures Fits(g.zero, n) && Fits(g.one, n) && (g.Bit? ==> g.ctx < n)
  {
    assert Ctxs(g.zero) <= Ctxs(g) && Ctxs(g.one) <= Ctxs(g);
    if g.Bit? { assert g.ctx in Ctxs(g); }
  }

  datatype Done<T> = Done(value: T, probs: seq<prob>, rc: Rc)

  /** The real decoder: every probability that is used is adapted. The result is normalised. */
  function Run<T>(g: Prog<T>, probs: seq<prob>, rc: Rc, s: seq<byte>): Option<Done<T>>
    requires Fits(g, |probs|)
    decreases g
  {
    var n := Norm(rc, s);
    if n.None? then None
    else
      match g
      case End(v) => Some(Done(v, probs, n.value))
      case Bit(c, zero, one) =>
        FitsBelow(g, |probs|);
        var (bit, r) := Decide(n.value, probs[c]);
        Run(if bit then one else zero, probs[c := Update(probs[c], bit)], r, s)
      case Direct(zero, one) =>
        FitsBelow(g, |probs|);
        var (bit, r) := Halve(n.value);
        Run(if bit then one else zero, probs, r, s)
  }

  /** The dry run: the probabilities stay. */
  function Try<T>(g: Prog<T>, probs: seq<prob>, rc: Rc, s: seq<byte>): Option<(T, Rc)>
    requires Fits(g, |probs|)
    decreases g
  {
    var n := Norm(rc, s);
    if n.None? then None
    else
      match g
      case End(v) => Some((v, n.value))
      case Bit(c, zero, one) =>
        FitsBelow(g, |probs|);
        var (bit, r) := Decide(n.value, probs[c]);
        Try(if bit then one else zero, probs, r, s)
      case Direct(zero, one) =>
        FitsBelow(g, |probs|);
        var (bit, r) := Halve(n.value);
        Try(if bit then one else zero, probs, r, s)
  }

  /** No path uses a probability twice. */
  ghost predicate Once<T>(g: Prog<T>) {
    match g
    case End(_) => true
    case Bit(c, zero, one) => c !in Ctxs(zero) && c !in Ctxs(one) && Once(zero) && Once(one)
    case Direct(zero, one) => Once(zero) && Once(one)
  }

  ghost predicate Agree<T>(g: Prog<T>, probs: seq<prob>, q: seq<prob>)
    requires Fits(g, |probs|) && |q| == |probs|
  {
    forall c: nat | c in Ctxs(g) :: probs[c] == q[c]
  }

  /** If no path uses a probability twice, the dry run sees what the real decoder sees. */
  lemma {:induction false} TryIsRun<T>(g: Prog<T>, probs: seq<prob>, q: seq<prob>, rc: Rc, s: seq<byte>)
    requires Once(g) && Fits(g, |probs|) && |q| == |probs| && Agree(g, probs, q)
    ensures Fits(g, |q|)
    ensures var t, r := Try(g, probs, rc, s), Run(g, q, rc, s);
            (t.None? <==> r.None?) && (t.Some? ==> t.value == (r.value.value, r.value.rc))
    decreases g
  {
    hide Decide, Halve, Update;
    var n := Norm(rc, s);
    if n.Some? {
      match g {
        case End(_) =>
        case Bit(c, zero, one) =>
          FitsBelow(g, |probs|);
          assert c in Ctxs(g);
          var (bit, r) := Decide(n.value, probs[c]);
          TryIsRun(if bit then one else zero, probs, q[c := Update(q[c], bit)], r, s);
        case Direct(zero, one) =>
          FitsBelow(g, |probs|);
          var (bit, r) := Halve(n.value);
          TryIsRun(if bit then one else zero, probs, q, r, s);
      }
    }
  }

  // ----- the same decisions with other results -----

  function Map<T, U>(g: Prog<T>, f: T -> U): Prog<U> {
    match g
    case End(v) => End(f(v))
    case Bit(c, zero, one) => Bit(c, Map(zero, f), Map(one, f))
    case Direct(zero, one) => Direct(Map(zero, f), Map(one, f))
  }

  lemma {:induction false} MapCtxs<T, U>(g: Prog<T>, f: T -> U)
    ensures Ctxs(Map(g, f)) == Ctxs(g)
  {
    if !g.End? {
      MapCtxs(g.zero, f);
      MapCtxs(g.one, f);
    }
  }

  lemma {:induction false} TryMap<T, U>(g: Prog<T>, f: T -> U, probs: seq<prob>, rc: Rc, s: seq<byte>)
    requires Fits(g, |probs|)
    ensures Fits(Map(g, f), |probs|)
    ensures var t, u := Try(g, probs, rc, s), Try(Map(g, f), probs, rc, s);
            (t.None? <==> u.None?) && (t.Some? ==> u.value == (f(t.value.0), t.value.1))
    decreases g
  {
    hide Decide, Halve;
    MapCtxs(g, f);
    var n := Norm(rc, s);
    if n.Some? {
      match g {
        case End(_) =>
        case Bit(c, zero, one) =>
          FitsBelow(g, |probs|);
          assert c in Ctxs(g);
          var (bit, r) := Decide(n.value, probs[c]);
          TryMap(if bit then one else zero, f, probs, r, s);
        case Direct(zero, one) =>
          FitsBelow(g, |probs|);
          var (bit, r) := Halve(n.value);
          TryMap(if bit then one else zero, f, probs, r, s);
      }
    }
  }

  // ----- how many bytes a symbol takes -----

  /** An adaptive bit divides the range by at most 67, a direct bit by 2. */
  function Cost<T>(g: Prog<T>): (n: nat)
    ensures n > 0
  {
    match g
    case End(_) => 1
    case Bit(_, zero, one) => 67 * if Cost(zero) < Cost(one) then Cost(one) else Cost(zero)
    case Direct(zero, one) => 2 * if Cost(zero) < Cost(one) then Cost(one) else Cost(zero)
  }

  function Pow255(n: nat): (v: nat)
    ensures v > 0
  {
    if n == 0 then 1 else 255 * Pow255(n - 1)
  }

  lemma DecideRange(rc: Rc, p: prob)
    requires rc.range >= TOP
    ensures 67 * (Decide(rc, p).1.range + 1) >= rc.range + 1 && Decide(rc, p).1.used == rc.used
  {
    var q := rc.range / BIT_MODEL_TOTAL;
    assert rc.range == BIT_MODEL_TOTAL * q + rc.range % BIT_MODEL_TOTAL;
    BoundInside(rc.range, p);
    MulMonotone(q, 31, p);
    MulMonotone(q, p, 2017);
  }

  lemma HalveRange(rc: Rc)
    requires rc.range >= TOP
    ensures 2 * (Halve(rc).1.range + 1) >= rc.range + 1 && Halve(rc).1.used == rc.used
  {}

  /** The range left, for the bytes read since a normalised start: k bounds what it was divided by. */
  ghost predicate Spent(rc: Rc, start: nat, k: nat) {
    start <= rc.used <= start + 20 && (rc.range + 1) * k >= TOP * Pow255(rc.used - start)
  }

  lemma SpentNorm(rc: Rc, s: seq<byte>, start: nat, k: nat)
    requires Spent(rc, start, k) && k < Pow255(20)
    ensures |s| >= start + 20 ==> Norm(rc, s).Some?
    ensures Norm(rc, s).Some? ==> Spent(Norm(rc, s).value, start, k)
  {
    if rc.range < TOP {
      var n := rc.used - start;
      hide Pow255;
      TooMany(rc.range + 1, k, n);
      Shifted(rc.range, k, n);
    }
  }

  /** Twenty bytes would need a larger divisor. */
  lemma TooMany(x: nat, k: nat, n: nat)
    requires x <= TOP && k < Pow255(20) && x * k >= TOP * Pow255(n)
    ensures n < 20
  {
    hide Pow255;
    MulMonotone(k, x, TOP);
    assert TOP * k >= TOP * Pow255(n);
    if n >= 20 { PowMonotone(20, n); }
  }

  lemma Shifted(range: nat, k: nat, n: nat)
    requires range >= 0x1_0000 && (range + 1) * k >= TOP * Pow255(n)
    ensures (0x100 * range + 1) * k >= TOP * Pow255(n + 1)
  {
    assert TOP * Pow255(n + 1) == 255 * (TOP * Pow255(n));
    hide Pow255;
    MulMonotone(k, 255 * (range + 1), 0x100 * range + 1);
    assert 255 * (range + 1) * k == 255 * ((range + 1) * k);
  }

  lemma {:induction false} PowMonotone(m: nat, n: nat)
    requires m <= n
    ensures Pow255(m) <= Pow255(n)
    decreases n
  {
    if m < n { PowMonotone(m, n - 1); }
  }

  lemma Divided(x: nat, y: nat, f: nat, k: nat, m: nat)
    requires f * y >= x && x * k >= m
    ensures y * (f * k) >= m
  {
    MulMonotone(k, x, f * y);
    assert y * (f * k) == k * (f * y);
  }

  /** A symbol whose decisions cannot divide the range too much takes at most 20 bytes, with the closing
      normalisation, from a normalised range decoder; with so many bytes it can be decoded. */
  lemma {:induction false} RunBytes<T>(g: Prog<T>, probs: seq<prob>, rc: Rc, s: seq<byte>, start: nat, k: nat)
    requires Fits(g, |probs|) && Spent(rc, start, k) && k * Cost(g) < Pow255(20)
    ensures |s| >= start + 20 ==> Run(g, probs, rc, s).Some?
    ensures Run(g, probs, rc, s).Some? ==> Run(g, probs, rc, s).value.rc.used <= start + 20
    decreases g
  {
    hide Decide, Halve, Norm, Pow255, Spent;
    MulMonotone(k, 1, Cost(g));
    SpentNorm(rc, s, start, k);
    var n := Norm(rc, s);
    if n.Some? {
      NormTop(rc, s);
      match g {
        case End(_) =>
          SpentUsed(n.value, start, k);
        case Bit(c, zero, one) =>
          FitsBelow(g, |probs|);
          var (bit, r) := Decide(n.value, probs[c]);
          DecideRange(n.value, probs[c]);
          SpentMore(n.value, r, start, k, 67);
          var next := if bit then one else zero;
          CostBelow(k, 67, Cost(next), Cost(g));
          RunBytes(next, probs[c := Update(probs[c], bit)], r, s, start, 67 * k);
        case Direct(zero, one) =>
          FitsBelow(g, |probs|);
          var (bit, r) := Halve(n.value);
          HalveRange(n.value);
          SpentMore(n.value, r, start, k, 2);
          var next := if bit then one else zero;
          CostBelow(k, 2, Cost(next), Cost(g));
          RunBytes(next, probs, r, s, start, 2 * k);
      }
    }
  }

  lemma NormTop(rc: Rc, s: seq<byte>)
    ensures Norm(rc, s).Some? ==> Norm(rc, s).value.range >= TOP
  {}

  lemma SpentUsed(rc: Rc, start: nat, k: nat)
    requires Spent(rc, start, k)
    ensures rc.used <= start + 20
  {}

  lemma SpentMore(rc: Rc, r: Rc, start: nat, k: nat, f: nat)
    requires Spent(rc, start, k) && r.used == rc.used && f * (r.range + 1) >= rc.range + 1
    ensures Spent(r, start, f * k)
  {
    hide Pow255;
    Divided(rc.range + 1, r.range + 1, f, k, TOP * Pow255(rc.used - start));
  }

  lemma CostBelow(k: nat, f: nat, c: nat, cost: nat)
    requires f * c <= cost
    ensures (f * k) * c <= k * cost
  {
    MulMonotone(k, f * c, cost);
    assert (f * k) * c == k * (f * c);
  }
}
