/** Decoding what the BCJ2 encoder wrote gives the source back. */
module Bcj2RoundTrip {
  import opened Bytes
  import opened RangeCoder
  import opened Bcj2
  import E = Bcj2Enc
  import D = Bcj2Dec
  import R = Bcj2Resume

  /** The final interval lies inside the one of c. */
  ghost predicate Within(c: E.Coder, f: E.Coder) {
    && c.shifts <= f.shifts && 0 < f.range
    && c.low * Pow256(f.shifts - c.shifts) <= f.low
    && f.low + f.range <= (c.low + c.range) * Pow256(f.shifts - c.shifts)
  }

  lemma WithinNormalize(c: E.Coder, f: E.Coder)
    requires Within(E.Normalize(c), f)
    ensures Within(c, f)
  {
    if c.range < TOP {
      var n := f.shifts - c.shifts;
      var p := Pow256(n - 1);
      assert Pow256(n) == 256 * p;
      assert (256 * c.low) * p == c.low * (256 * p);
      assert (256 * c.low + 256 * c.range) * p == (c.low + c.range) * (256 * p);
    }
  }

  lemma WithinBit(c: E.Coder, p: prob, bit: bool, f: E.Coder)
    requires TOP <= c.range < TWO32 && Within(E.CodeBit(c, p, bit), f)
    ensures Within(c, f)
    ensures var b := (c.low + Bound(c.range, p)) * Pow256(f.shifts - c.shifts);
            if bit then b <= f.low else f.low + f.range <= b
  {
    BoundInside(c.range, p);
    var n, b := Pow256(f.shifts - c.shifts), Bound(c.range, p);
    MulMonotone(n, c.low, c.low + b);
    MulMonotone(n, c.low + b, c.low + c.range);
  }

  ghost predicate Prefixes(a: E.Streams, b: E.Streams) {
    a.main <= b.main && a.call <= b.call && a.jump <= b.jump
  }

  /** What the encoder ends with lies in every interval on the way, and extends its streams. */
  lemma {:induction false} Nesting(cfg: E.Settings, e: E.Enc, src: seq<byte>)
    requires E.Live(e.coder)
    ensures var f := E.Encode(cfg, e, src); Within(e.coder, f.coder) && Prefixes(e.out, f.out)
    decreases |src|
  {
    var n := E.Normalized(e);
    E.NormalizeOnce(e.coder);
    var f := E.Encode(cfg, e, src);
    if src != [] {
      hide Within, Pow256;
      var (e', k) := E.Step(cfg, n, src);
      Nesting(cfg, e', src[k..]);
      StepWithin(cfg, n, src, f.coder);
    }
    WithinNormalize(e.coder, f.coder);
  }

  lemma StepWithin(cfg: E.Settings, e: E.Enc, src: seq<byte>, f: E.Coder)
    requires src != [] && TOP <= e.coder.range < TWO32
    requires Within(E.Step(cfg, e, src).0.coder, f)
    ensures Within(e.coder, f) && Prefixes(e.out, E.Step(cfg, e, src).0.out)
  {
    hide Within;
    if IsBranch(e.prev, src[0]) {
      var p := e.probs[ProbIndex(src[0], e.prev)];
      var bit := E.NeedConvert(cfg, (e.ip + 1) % TWO32, src[1..]);
      assert E.Step(cfg, e, src).0.coder == E.CodeBit(e.coder, p, bit);
      WithinBit(e.coder, p, bit, f);
    }
  }

  /** rc is the number f.low, written with five more digits than f has shifts. */
  ghost predicate Denotes(rc: seq<byte>, f: E.Coder) {
    |rc| == f.shifts + 5 && Val(rc) == f.low
  }

  /** What the decoder keeps in code: the digits read so far, less low. */
  ghost function CodeOf(c: E.Coder, rc: seq<byte>): int
    requires 5 + c.shifts <= |rc|
  {
    Val(rc[..5 + c.shifts]) - c.low
  }

  lemma MulCancel(a: int, b: int, p: int)
    requires p > 0 && a * p < b * p
    ensures a < b
  {
    if b <= a { MulMonotone(p, b, a); }
  }

  lemma ReadSoFar(c: E.Coder, f: E.Coder, rc: seq<byte>)
    requires c.shifts <= f.shifts && Denotes(rc, f)
    ensures var a, p := Val(rc[..5 + c.shifts]), Pow256(f.shifts - c.shifts);
            a * p <= f.low < (a + 1) * p
  {
    hide Val, Pow256;
    var k := 5 + c.shifts;
    ValConcat(rc[..k], rc[k..]);
    assert rc[..k] + rc[k..] == rc;
  }

  lemma CodeInside(c: E.Coder, f: E.Coder, rc: seq<byte>)
    requires Within(c, f) && Denotes(rc, f)
    ensures 0 <= CodeOf(c, rc) < c.range
  {
    var a, p := Val(rc[..5 + c.shifts]), Pow256(f.shifts - c.shifts);
    ReadSoFar(c, f, rc);
    MulCancel(c.low, a + 1, p);
    MulCancel(a, c.low + c.range, p);
  }

  lemma CodeBit(c: E.Coder, q: prob, bit: bool, f: E.Coder, rc: seq<byte>)
    requires TOP <= c.range < TWO32 && Within(E.CodeBit(c, q, bit), f) && Denotes(rc, f)
    ensures (CodeOf(c, rc) >= Bound(c.range, q)) == bit
  {
    var a, p := Val(rc[..5 + c.shifts]), Pow256(f.shifts - c.shifts);
    ReadSoFar(c, f, rc);
    WithinBit(c, q, bit, f);
    if bit {
      MulCancel(c.low + Bound(c.range, q), a + 1, p);
    } else {
      MulCancel(a, c.low + Bound(c.range, q), p);
    }
  }

  lemma CodeNormalize(c: E.Coder, f: E.Coder, rc: seq<byte>)
    requires c.range < TOP && c.shifts < f.shifts && Denotes(rc, f)
    ensures CodeOf(E.Normalize(c), rc) == 256 * CodeOf(c, rc) + rc[5 + c.shifts] as int
  {
    var k := 5 + c.shifts;
    assert rc[..k + 1] == rc[..k] + [rc[k]];
    ValAppend(rc[..k], rc[k]);
  }

  /** Encoder and decoder before the same source byte; f is where the encoder ends. */
  ghost predicate Sim(e: E.Enc, d: D.Dec, f: E.Enc, rc: seq<byte>) {
    && Denotes(rc, f.coder) && e.coder.shifts <= f.coder.shifts
    && d.range == e.coder.range && d.code == CodeOf(e.coder, rc)
    && d.probs == e.probs && d.ip == e.ip && d.prev == e.prev
    && f.out.main == e.out.main + d.main
    && f.out.call == e.out.call + d.call
    && f.out.jump == e.out.jump + d.jump
    && d.rc == rc[5 + e.coder.shifts..]
  }

  lemma SimNormalize(e: E.Enc, d: D.Dec, f: E.Enc, rc: seq<byte>)
    requires D.Running(d) && Sim(e, d, f, rc)
    requires Within(E.Normalize(e.coder), f.coder) && Within(e.coder, f.coder)
    ensures e.coder.range < TOP ==> d.rc != []
    ensures Sim(E.Normalized(e), D.Trailing(d), f, rc)
  {
    var c := e.coder;
    if c.range < TOP {
      hide Val, Pow256;
      CodeNormalize(c, f.coder, rc);
      CodeInside(c, f.coder, rc);
      assert d.rc[0] == rc[5 + c.shifts];
      assert d.rc[1..] == rc[5 + c.shifts + 1..];
    }
  }

  lemma AppendTail(a: seq<byte>, b: byte, t: seq<byte>, m: seq<byte>)
    requires a + [b] <= m && m == a + t
    ensures t != [] && t[0] == b && m == (a + [b]) + t[1..]
  {
    assert m[|a|] == b;
    assert t[0] == m[|a|];
  }

  /** A byte that is not an opcode. */
  lemma SimCopy(cfg: E.Settings, e: E.Enc, src: seq<byte>, d: D.Dec, f: E.Enc, rc: seq<byte>)
    requires src != [] && TOP <= e.coder.range < TWO32 && Sim(e, d, f, rc) && d.room > 0
    requires Prefixes(E.Main(e.out, src[0]), f.out)
    ensures d.main != [] && d.main[0] == src[0]
    ensures !IsBranch(e.prev, src[0]) ==> Sim(E.Step(cfg, e, src).0, D.CopyByte(d), f, rc)
    ensures Sim(e.(out := E.Main(e.out, src[0]), ip := (e.ip + 1) % TWO32, prev := src[0]), D.CopyByte(d), f, rc)
  {
    hide Denotes, CodeOf;
    AppendTail(e.out.main, src[0], d.main, f.out.main);
  }

  /** The decision at an opcode; e has already been moved past it. */
  lemma SimBit(e: E.Enc, i: nat, bit: bool, d: D.Dec, f: E.Enc, rc: seq<byte>)
    requires D.Running(d) && TOP <= d.range && e.coder.range == d.range && i < NUM_PROBS
    requires Sim(e, d, f, rc)
    requires Within(E.CodeBit(e.coder, e.probs[i], bit), f.coder)
    ensures D.DecodeBit(d, i).1 == bit
    ensures Sim(e.(coder := E.CodeBit(e.coder, e.probs[i], bit), probs := UpdateAt(e.probs, i, bit)),
                D.DecodeBit(d, i).0, f, rc)
  {
    hide Val, Pow256;
    CodeBit(e.coder, e.probs[i], bit, f.coder, rc);
    BoundInside(e.coder.range, e.probs[i]);
  }

  /** The stored target, read back and made relative again, is the operand. */
  lemma TargetBack(ip: u32, rest: seq<byte>, tail: seq<byte>)
    requires |rest| >= 4
    ensures var cur := SetBe32((ip + GetUi32(rest)) % TWO32) + tail;
            |cur| >= 4 && SetUi32((GetBe32(cur) - ip) % TWO32) == rest[..4] && cur[4..] == tail
  {
    hide GetUi32, SetUi32, GetBe32, SetBe32;
    var relat := GetUi32(rest);
    var abs := (ip + relat) % TWO32;
    GetSetBe32(abs, tail);
    ModAddMultiple(relat, TWO32, -((ip + relat) / TWO32));
    assert (abs - ip) % TWO32 == relat;
    SetGetUi32(rest);
  }

  lemma AppendWord(a: seq<byte>, w: seq<byte>, t: seq<byte>, m: seq<byte>)
    requires a + w <= m && m == a + t
    ensures |w| <= |t| && t == w + t[|w|..] && m == (a + w) + t[|w|..]
  {
    assert m[|a|..] == t;
    assert (a + w)[|a|..] == w;
    assert t[..|w|] == m[|a|..|a| + |w|] == w;
  }

  function Advanced(d: D.Dec, s: seq<byte>): (seq<byte>, int) {
    (d.out + s, d.room - |s|)
  }

  lemma SimTarget(e: E.Enc, rest: seq<byte>, d: D.Dec, f: E.Enc, rc: seq<byte>)
    requires |rest| >= 4 && Sim(e, d, f, rc) && d.room >= 4 && D.Running(d)
    requires Prefixes(E.Converted(e, rest).out, f.out)
    ensures var t := D.ReadTarget(d);
            && t.state == D.Ok && (t.d.out, t.d.room) == Advanced(d, rest[..4])
            && Sim(E.Converted(e, rest), t.d, f, rc)
  {
    hide GetUi32, SetUi32, GetBe32, SetBe32, CodeOf, Denotes;
    var ip := (e.ip + 4) % TWO32;
    var w := SetBe32((ip + GetUi32(rest)) % TWO32);
    if e.prev == 0xE8 {
      AppendWord(e.out.call, w, d.call, f.out.call);
      TargetBack(ip, rest, d.call[4..]);
    } else {
      AppendWord(e.out.jump, w, d.jump, f.out.jump);
      TargetBack(ip, rest, d.jump[4..]);
    }
    assert rest[..4][..4] == rest[..4];
  }

  /** The decoder follows the encoder over an opcode. */
  lemma SimBranch(cfg: E.Settings, e: E.Enc, src: seq<byte>, d: D.Dec, f: E.Enc, rc: seq<byte>)
    requires src != [] && TOP <= e.coder.range < TWO32 && d.room > 0
    requires D.Running(d) && Sim(e, d, f, rc) && IsBranch(e.prev, src[0])
    requires Within(E.Decided(cfg, e, src).coder, f.coder) && Prefixes(E.Main(e.out, src[0]), f.out)
    ensures d.main != [] && d.main[0] == src[0]
    ensures var (b, bit) := D.DecodeBit(D.CopyByte(d), ProbIndex(src[0], e.prev));
            && bit == E.NeedConvert(cfg, (e.ip + 1) % TWO32, src[1..])
            && (b.out, b.room) == Advanced(d, src[..1])
            && b.call == d.call && b.jump == d.jump && D.Running(b)
            && Sim(E.Decided(cfg, e, src), b, f, rc)
  {
    hide IsBranch, UpdateAt, E.NeedConvert, Denotes, CodeOf, Within, ProbIndex;
    SimCopy(cfg, e, src, d, f, rc);
    var e1 := e.(out := E.Main(e.out, src[0]), ip := (e.ip + 1) % TWO32, prev := src[0]);
    assert src[..1] == [src[0]];
    SimBit(e1, ProbIndex(src[0], e.prev), E.NeedConvert(cfg, e1.ip, src[1..]), D.CopyByte(d), f, rc);
  }

  lemma SimStepCopy(cfg: E.Settings, e: E.Enc, src: seq<byte>, d: D.Dec, f: E.Enc, rc: seq<byte>)
    requires src != [] && TOP <= e.coder.range < TWO32 && !IsBranch(e.prev, src[0])
    requires D.Running(d) && Sim(e, d, f, rc) && d.room > 0
    requires Prefixes(E.Main(e.out, src[0]), f.out)
    ensures d.main != []
    ensures var d' := D.CopyByte(d);
            && D.Running(d') && Sim(E.Step(cfg, e, src).0, d', f, rc) && E.Step(cfg, e, src).1 == 1
            && (d'.out, d'.room) == Advanced(d, src[..1])
            && D.Round(d) == D.Loop(d')
  {
    hide IsBranch, D.Loop, D.Round, Sim;
    SimParts(e, d, f, rc);
    SimCopy(cfg, e, src, d, f, rc);
    D.RoundIsLoop(d);
    assert src[..1] == [src[0]];
  }

  lemma SimStepBranch(cfg: E.Settings, e: E.Enc, src: seq<byte>, d: D.Dec, f: E.Enc, rc: seq<byte>) returns (d': D.Dec)
    requires src != [] && TOP <= e.coder.range < TWO32 && IsBranch(e.prev, src[0])
    requires D.Running(d) && Sim(e, d, f, rc) && d.room >= |src|
    requires Prefixes(E.Main(e.out, src[0]), f.out)
    requires Within(E.Step(cfg, e, src).0.coder, f.coder) && Prefixes(E.Step(cfg, e, src).0.out, f.out)
    ensures var (e', k) := E.Step(cfg, e, src);
            && D.Running(d') && Sim(e', d', f, rc)
            && (d'.out, d'.room) == Advanced(d, src[..k])
            && D.Round(d) == D.Loop(d')
  {
    hide Sim, Within, IsBranch, E.Converted, E.Decided, E.Step, E.NeedConvert, ProbIndex, Prefixes,
         D.ReadTarget, D.DecodeBit, D.CopyByte, D.Loop, D.Round, D.AfterTarget;
    SimParts(e, d, f, rc);
    E.StepBranch(cfg, e, src);
    var e1 := E.Decided(cfg, e, src);
    ConvertedCoder(e1, src[1..]);
    SimBranch(cfg, e, src, d, f, rc);
    D.RoundBranch(d);
    d' := D.DecodeBit(D.CopyByte(d), ProbIndex(src[0], e.prev)).0;
    if E.NeedConvert(cfg, (e.ip + 1) % TWO32, src[1..]) {
      SimTarget(e1, src[1..], d', f, rc);
      assert src[..5] == src[..1] + src[1..][..4];
      assert d.out + src[..5] == (d.out + src[..1]) + src[1..][..4];
      D.AfterTargetIs(D.ReadTarget(d'));
      d' := D.ReadTarget(d').d;
    }
  }

  lemma MainOnly(cfg: E.Settings, e: E.Enc, src: seq<byte>, f: E.Enc)
    requires src != [] && TOP <= e.coder.range < TWO32
    requires Prefixes(E.Step(cfg, e, src).0.out, f.out)
    ensures Prefixes(E.Main(e.out, src[0]), f.out)
  {
    hide IsBranch, E.NeedConvert, GetUi32, SetBe32, UpdateAt, ProbIndex;
  }

  lemma SimParts(e: E.Enc, d: D.Dec, f: E.Enc, rc: seq<byte>)
    requires Sim(e, d, f, rc)
    ensures d.prev == e.prev && d.range == e.coder.range
  {}

  lemma ConvertedCoder(e: E.Enc, rest: seq<byte>)
    ensures |rest| >= 4 ==> E.Converted(e, rest).coder == e.coder
  {}

  /** The call ended because everything was read, with Bcj2Dec_IsFinished. */
  predicate Finished(r: D.Run) {
    && r.state == D.StreamMain && r.d.code == 0 && TOP <= r.d.range
    && r.d.main == [] && r.d.call == [] && r.d.jump == [] && r.d.rc == []
  }

  /** From any point on, the decoder writes exactly the source that is left. */
  lemma {:induction false} Simulation(cfg: E.Settings, e: E.Enc, src: seq<byte>, d: D.Dec, rc: seq<byte>)
    requires E.Live(e.coder) && D.Running(d) && d.room >= |src|
    requires Sim(e, d, E.Encode(cfg, e, src), rc)
    ensures var r := D.Loop(d);
            && (r.d.out, r.d.room) == Advanced(d, src)
            && Finished(r)
    decreases |src|
  {
    hide Within, D.Loop, D.Round, D.Trailing, E.Step, E.Encode, D.CopyByte, D.ReadTarget, IsBranch;
    var f, n := E.Encode(cfg, e, src), E.Normalized(e);
    E.NormalizeOnce(e.coder);
    E.EncodeUnfold(cfg, e, src);
    E.EncodeUnfold(cfg, n, src);
    Nesting(cfg, e, src);
    Nesting(cfg, n, src);
    SimNormalize(e, d, f, rc);
    D.LoopIs(d);
    var d1 := D.Trailing(d);
    if src == [] {
      RoundEnd(n, d1, rc);
      assert d.out + src == d.out;
    } else {
      var (e', k) := E.Step(cfg, n, src);
      Nesting(cfg, e', src[k..]);
      var d' := SimStep(cfg, n, src, d1, f, rc);
      assert src[..k] + src[k..] == src;
      assert d1.out + src == (d1.out + src[..k]) + src[k..];
      Simulation(cfg, e', src[k..], d', rc);
    }
  }

  lemma RoundEnd(f: E.Enc, d: D.Dec, rc: seq<byte>)
    requires D.Running(d) && TOP <= d.range && Sim(f, d, f, rc)
    ensures D.Round(d) == D.Run(d, D.StreamMain)
    ensures d.code == 0 && d.main == [] && d.call == [] && d.jump == [] && d.rc == []
  {
    assert rc[..|rc|] == rc;
    assert f.out.main + d.main == f.out.main && |d.main| == 0;
    assert |d.call| == 0 && |d.jump| == 0;
  }

  lemma SimStep(cfg: E.Settings, e: E.Enc, src: seq<byte>, d: D.Dec, f: E.Enc, rc: seq<byte>) returns (d': D.Dec)
    requires src != [] && TOP <= e.coder.range < TWO32
    requires D.Running(d) && Sim(e, d, f, rc) && d.room >= |src|
    requires Within(E.Step(cfg, e, src).0.coder, f.coder) && Prefixes(E.Step(cfg, e, src).0.out, f.out)
    ensures var (e', k) := E.Step(cfg, e, src);
            && D.Running(d') && Sim(e', d', f, rc)
            && (d'.out, d'.room) == Advanced(d, src[..k])
            && D.Round(d) == D.Loop(d')
  {
    hide Sim, Within, E.Step, D.Loop, D.Round, D.CopyByte, IsBranch;
    MainOnly(cfg, e, src, f);
    if IsBranch(e.prev, src[0]) {
      d' := SimStepBranch(cfg, e, src, d, f, rc);
    } else {
      SimStepCopy(cfg, e, src, d, f, rc);
      d' := D.CopyByte(d);
    }
  }

  /** The decoder's first five bytes are the first digits of a number below 2^32 - 1. */
  lemma {:induction false} ReadInitAll(d: D.Dec, rc: seq<byte>)
    requires |rc| >= 5 && Val(rc[..5]) < 0xFFFF_FFFF
    requires d.range <= 5 && d.code == Val(rc[..d.range]) && d.rc == rc[d.range..]
    ensures D.ReadInit(d) == (d.(range := 5, code := Val(rc[..5]), rc := rc[5..]), true)
    decreases 5 - d.range
  {
    var k := d.range;
    if k < 5 {
      DigitBelow(rc, k);
      if k == 1 { DigitBelow(rc, 0); }
      var d' := d.(range := k + 1, code := (d.code * 256 + d.rc[0]) % TWO32, rc := d.rc[1..]);
      assert d.rc[0] == rc[k] && d.rc[1..] == rc[k + 1..];
      ReadInitAll(d', rc);
    }
  }

  lemma DigitBelow(rc: seq<byte>, k: nat)
    requires |rc| >= 5 && k < 5 && Val(rc[..5]) < 0xFFFF_FFFF
    ensures Val(rc[..k + 1]) == 256 * Val(rc[..k]) + rc[k] as int
    ensures Val(rc[..k + 1]) < TWO32 && (k == 0 ==> Val(rc[..1]) == 0)
  {
    assert rc[..k + 1] == rc[..k] + [rc[k]];
    ValAppend(rc[..k], rc[k]);
    ValConcat(rc[..k + 1], rc[k + 1..5]);
    assert rc[..k + 1] + rc[k + 1..5] == rc[..5];
    MulMonotone(Val(rc[..k + 1]), 1, Pow256(4 - k));
    if k == 0 {
      assert Pow256(4) == TWO32;
      assert Val(rc[..1]) * TWO32 < TWO32;
    }
  }

  lemma {:induction false} WholeWords(cfg: E.Settings, e: E.Enc, src: seq<byte>)
    requires E.Live(e.coder) && |e.out.call| % 4 == 0 && |e.out.jump| % 4 == 0
    ensures var f := E.Encode(cfg, e, src); |f.out.call| % 4 == 0 && |f.out.jump| % 4 == 0
    decreases |src|
  {
    hide E.Step, E.Encode;
    E.NormalizeOnce(e.coder);
    E.EncodeUnfold(cfg, e, src);
    if src != [] {
      var n := E.Normalized(e);
      E.EncodeUnfold(cfg, n, src);
      StepWords(cfg, n, src);
      var (e', k) := E.Step(cfg, n, src);
      WholeWords(cfg, e', src[k..]);
    }
  }

  lemma StepWords(cfg: E.Settings, e: E.Enc, src: seq<byte>)
    requires src != [] && TOP <= e.coder.range < TWO32
    requires |e.out.call| % 4 == 0 && |e.out.jump| % 4 == 0
    ensures var o := E.Step(cfg, e, src).0.out; |o.call| % 4 == 0 && |o.jump| % 4 == 0
  {
    hide IsBranch, E.NeedConvert, GetUi32, SetBe32, ProbIndex, UpdateAt, E.CodeBit, E.Target;
  }

  /** For every source and every setting: decoding the four streams that the encoder ends
      with, into room enough, gives the source, uses the streams up and ends with code 0. */
  lemma RoundTrip(cfg: E.Settings, src: seq<byte>, out: E.Streams, rc: seq<byte>, room: nat)
    requires E.Encoded(cfg, src, out, rc) && room >= |src|
    ensures |out.call| % 4 == 0 && |out.jump| % 4 == 0
    ensures var (r, ok) := D.DecodeCall(D.Init(out.main, out.call, out.jump, rc, room));
            && ok && r.d.out == src && r.d.room == room - |src| && Finished(r)
  {
    hide E.Encode, D.Loop, Within, D.ReadInit, D.DecodeCall;
    var e := E.Init();
    var f := E.Encode(cfg, e, src);
    var r := D.Init(out.main, out.call, out.jump, rc, room);
    WholeWords(cfg, e, src);
    Nesting(cfg, e, src);
    CodeInside(e.coder, f.coder, rc);
    assert rc[..0] == [] && rc[0..] == rc;
    ReadInitAll(r.d, rc);
    D.StartIs(r);
    Simulation(cfg, e, src, r.d.(range := 0xFFFF_FFFF, code := Val(rc[..5]), rc := rc[5..]), rc);
  }

  /** The same however the streams and the output space are cut into calls. */
  lemma RoundTripAnySchedule(cfg: E.Settings, src: seq<byte>, out: E.Streams, rc: seq<byte>, xs: seq<R.More>)
    requires E.Encoded(cfg, src, out, rc)
    requires xs != [] && forall x | x in xs :: R.WholeWords(x)
    requires var s := R.Sum(xs);
             s.main == out.main && s.call == out.call && s.jump == out.jump && s.rc == rc && s.room >= |src|
    ensures var (r, ok) := R.Calls(D.Init([], [], [], [], 0), xs);
            && ok && r.d.out == src && Finished(r)
  {
    hide E.Encoded, D.DecodeCall, R.Calls, R.Sum;
    var z, s := D.Init([], [], [], [], 0), R.Sum(xs);
    RoundTrip(cfg, src, out, rc, s.room);
    assert R.Feed(z, s) == D.Init(out.main, out.call, out.jump, rc, s.room);
    R.AnySchedule(z, xs);
    R.CallsMain(z, xs);
  }
}
