/** The BCJ2 encoder, compression/LZMA/Bcj2Enc.c, for one complete stream. */
module Bcj2Enc {
  import opened Bytes
  import opened RangeCoder
  import opened Bcj2

  /** The range coder with an unbounded low that never drops a digit. */
  datatype Coder = Coder(low: nat, range: nat, shifts: nat)

  function Normalize(c: Coder): Coder {
    if c.range < TOP then Coder(256 * c.low, 256 * c.range, c.shifts + 1) else c
  }

  function CodeBit(c: Coder, p: prob, bit: bool): Coder
    requires TOP <= c.range < TWO32
  {
    BoundInside(c.range, p);
    var bound := Bound(c.range, p);
    if bit then Coder(c.low + bound, c.range - bound, c.shifts) else Coder(c.low, bound, c.shifts)
  }

  datatype Settings = Settings(fileIp: u32, fileSize: u32, relatLimit: u32)

  datatype Streams = Streams(main: seq<byte>, call: seq<byte>, jump: seq<byte>)

  datatype Enc = Enc(coder: Coder, probs: Probs, ip: u32, prev: byte, out: Streams)

  ghost predicate Live(c: Coder) { 0x1_0000 <= c.range < TWO32 }

  /** The four bytes after an opcode are converted; ip is the address after the opcode. */
  predicate NeedConvert(cfg: Settings, ip: u32, rest: seq<byte>) {
    |rest| >= 4 &&
    var relat := GetUi32(rest);
    && (cfg.fileSize == 0 || (ip + 4 + relat - cfg.fileIp) % TWO32 < cfg.fileSize)
    && (relat + cfg.relatLimit) % TWO32 / 2 < cfg.relatLimit
  }

  function Main(s: Streams, b: byte): Streams {
    s.(main := s.main + [b])
  }

  function Target(s: Streams, op: byte, w: seq<byte>): (r: Streams)
    ensures |s.call| % 4 == 0 && |s.jump| % 4 == 0 && |w| == 4 ==> |r.call| % 4 == 0 && |r.jump| % 4 == 0
  {
    if op == 0xE8 then s.(call := s.call + w) else s.(jump := s.jump + w)
  }

  /** One source byte, or an opcode with its operand, in a normalised state. */
  function Step(cfg: Settings, e: Enc, src: seq<byte>): (r: (Enc, nat))
    requires src != [] && TOP <= e.coder.range < TWO32
    ensures Live(r.0.coder) && 1 <= r.1 <= |src|
  {
    var b, rest, ip := src[0], src[1..], (e.ip + 1) % TWO32;
    var out := Main(e.out, b);
    if !IsBranch(e.prev, b) then
      (Enc(e.coder, e.probs, ip, b, out), 1)
    else
      var i := ProbIndex(b, e.prev);
      BoundInside(e.coder.range, e.probs[i]);
      if !NeedConvert(cfg, ip, rest) then
        (Enc(CodeBit(e.coder, e.probs[i], false), UpdateAt(e.probs, i, false), ip, b, out), 1)
      else
        var ip4 := (ip + 4) % TWO32;
        var w := SetBe32((ip4 + GetUi32(rest)) % TWO32);
        (Enc(CodeBit(e.coder, e.probs[i], true), UpdateAt(e.probs, i, true), ip4, rest[3], Target(out, b, w)), 5)
  }

  function Normalized(e: Enc): Enc {
    e.(coder := Normalize(e.coder))
  }

  function Encode(cfg: Settings, e: Enc, src: seq<byte>): (f: Enc)
    requires Live(e.coder)
    ensures TOP <= f.coder.range < TWO32
    decreases |src|
  {
    var n := Normalized(e);
    if src == [] then n
    else
      var (e', k) := Step(cfg, n, src);
      Encode(cfg, e', src[k..])
  }

  function Init(): (e: Enc)
    ensures Live(e.coder)
  {
    Enc(Coder(0, 0xFFFF_FFFF, 0), InitProbs(), 0, 0, Streams([], [], []))
  }

  /** The operand; e has been moved past the opcode, which is e.prev. */
  function Converted(e: Enc, rest: seq<byte>): Enc
    requires |rest| >= 4
  {
    var ip := (e.ip + 4) % TWO32;
    Enc(e.coder, e.probs, ip, rest[3], Target(e.out, e.prev, SetBe32((ip + GetUi32(rest)) % TWO32)))
  }

  /** e moved past an opcode, with the decision coded. */
  function Decided(cfg: Settings, e: Enc, src: seq<byte>): Enc
    requires src != [] && TOP <= e.coder.range < TWO32
  {
    var i, ip := ProbIndex(src[0], e.prev), (e.ip + 1) % TWO32;
    var bit := NeedConvert(cfg, ip, src[1..]);
    Enc(CodeBit(e.coder, e.probs[i], bit), UpdateAt(e.probs, i, bit), ip, src[0], Main(e.out, src[0]))
  }

  lemma StepBranch(cfg: Settings, e: Enc, src: seq<byte>)
    requires src != [] && TOP <= e.coder.range < TWO32 && IsBranch(e.prev, src[0])
    ensures var bit := NeedConvert(cfg, (e.ip + 1) % TWO32, src[1..]);
            if bit then |src| > 4 && Step(cfg, e, src) == (Converted(Decided(cfg, e, src), src[1..]), 5)
            else Step(cfg, e, src) == (Decided(cfg, e, src), 1)
  {
    hide IsBranch, ProbIndex, UpdateAt, NeedConvert, CodeBit, GetUi32, SetBe32;
    NeedConvertLong(cfg, (e.ip + 1) % TWO32, src[1..]);
  }

  lemma NormalizeOnce(c: Coder)
    requires Live(c)
    ensures TOP <= Normalize(c).range < TWO32
  {}

  /** k bytes that are not opcodes, taken together. */
  function Copy(e: Enc, s: seq<byte>): Enc {
    if s == [] then e
    else Enc(e.coder, e.probs, (e.ip + |s|) % TWO32, s[|s| - 1], e.out.(main := e.out.main + s))
  }

  lemma CopyStep(e: Enc, s: seq<byte>)
    requires s != []
    ensures Copy(Enc(e.coder, e.probs, (e.ip + 1) % TWO32, s[0], Main(e.out, s[0])), s[1..]) == Copy(e, s)
  {
    assert [s[0]] + s[1..] == s;
    assert e.out.main + [s[0]] + s[1..] == e.out.main + s;
    var x, y := e.ip + 1, |s| - 1;
    assert (x % TWO32 + y) % TWO32 == (x + y) % TWO32 by {
      ModAddMultiple(x % TWO32 + y, TWO32, x / TWO32);
    }
  }

  lemma StepCopy(cfg: Settings, e: Enc, src: seq<byte>)
    requires src != [] && TOP <= e.coder.range < TWO32 && !IsBranch(e.prev, src[0])
    ensures var e' := Enc(e.coder, e.probs, (e.ip + 1) % TWO32, src[0], Main(e.out, src[0]));
            Encode(cfg, e, src) == Encode(cfg, e', src[1..])
  {
    hide IsBranch, Encode;
    EncodeUnfold(cfg, e, src);
  }

  lemma NoBranchTail(src: seq<byte>, prev: byte, k: nat)
    requires 0 < k <= |src| && NoBranch(src, prev, k)
    ensures !IsBranch(prev, src[0]) && NoBranch(src[1..], src[0], k - 1)
  {
    hide IsBranch;
    assert !IsBranch(PrevAt(src, prev, 0), src[0]);
    forall i: nat | i < k - 1
      ensures !IsBranch(PrevAt(src[1..], src[0], i), src[1..][i])
    {
      assert !IsBranch(PrevAt(src, prev, i + 1), src[i + 1]);
    }
  }

  lemma {:induction false} EncodeCopy(cfg: Settings, e: Enc, src: seq<byte>, k: nat)
    requires TOP <= e.coder.range < TWO32 && k <= |src| && NoBranch(src, e.prev, k)
    ensures Encode(cfg, e, src) == Encode(cfg, Copy(e, src[..k]), src[k..])
    decreases k
  {
    hide Encode, NoBranch, IsBranch;
    if k == 0 {
      assert src[0..] == src;
    } else {
      hide Copy;
      NoBranchTail(src, e.prev, k);
      StepCopy(cfg, e, src);
      var e' := Enc(e.coder, e.probs, (e.ip + 1) % TWO32, src[0], Main(e.out, src[0]));
      EncodeCopy(cfg, e', src[1..], k - 1);
      CopyStep(e, src[..k]);
      assert src[..k][1..] == src[1..][..k - 1];
      assert src[1..][k - 1..] == src[k..];
    }
  }

  /** The digits held back because a carry may still reach them. */
  function Fill(n: nat, b: byte): (s: seq<byte>)
    ensures |s| == n
  {
    if n == 0 then [] else Fill(n - 1, b) + [b]
  }

  function Digits(rc: seq<byte>, cache: byte, n: nat): seq<byte> {
    rc + [cache] + Fill(n, 255)
  }

  lemma DigitsHeld(rc: seq<byte>, cache: byte, n: nat)
    ensures Val(Digits(rc, cache, n + 1)) == 256 * Val(Digits(rc, cache, n)) + 255
  {
    ValAppend(Digits(rc, cache, n), 255);
    assert Digits(rc, cache, n + 1) == Digits(rc, cache, n) + [255];
  }

  /** A carry turns the held back FF digits into 00 and adds one to the digit before them. */
  lemma {:induction false} DigitsCarry(rc: seq<byte>, cache: byte, n: nat)
    requires cache < 255
    ensures Val(rc + [cache + 1] + Fill(n, 0)) == Val(Digits(rc, cache, n)) + 1
    decreases n
  {
    if n == 0 {
      ValAppend(rc, cache);
      ValAppend(rc, cache + 1);
      assert rc + [cache + 1] + Fill(0, 0) == rc + [cache + 1];
      assert Digits(rc, cache, 0) == rc + [cache];
    } else {
      DigitsCarry(rc, cache, n - 1);
      DigitsHeld(rc, cache, n - 1);
      ValAppend(rc + [cache + 1] + Fill(n - 1, 0), 0);
      assert rc + [cache + 1] + Fill(n, 0) == (rc + [cache + 1] + Fill(n - 1, 0)) + [0];
    }
  }

  class Encoder {
    var cfg: Settings
    var range: nat
    var low: nat
    var cache: byte
    var cacheSize: nat
    var ip: u32
    var prev: byte
    var probs: array<prob>
    var main: seq<byte>
    var call: seq<byte>
    var jump: seq<byte>
    var rc: seq<byte>
    /** The unbounded coder that low, cache, cacheSize and rc represent. */
    ghost var coder: Coder

    constructor (cfg: Settings)
      ensures Valid() && Abs() == Init() && this.cfg == cfg && fresh(probs) && rc == []
    {
      this.cfg := cfg;
      range, low, cache, cacheSize := 0xFFFF_FFFF, 0, 0, 1;
      ip, prev := 0, 0;
      probs := new prob[NUM_PROBS](_ => 1024);
      main, call, jump, rc := [], [], [], [];
      coder := Coder(0, 0xFFFF_FFFF, 0);
      new;
      DigitsFlushed0([], 0);
      assert probs[..] == InitProbs();
    }

    /** The number written so far, held back digits and low included. */
    ghost function Value(): nat
      reads this
      requires cacheSize > 0
    {
      Val(Digits(rc, cache, cacheSize - 1)) * TWO32 + low
    }

    /** No carry can get lost. */
    ghost predicate CarryFits()
      reads this
    {
      && low + range <= 2 * TWO32
      && (cache == 255 ==> low + range <= TWO32)
    }

    ghost predicate Valid()
      reads this
    {
      && probs.Length == NUM_PROBS
      && cacheSize > 0 && CarryFits()
      && range == coder.range && Live(coder)
      && coder.low == Value()
      && |rc| + cacheSize == coder.shifts + 1
    }

    ghost function Abs(): Enc
      reads this, probs
      requires Valid()
    {
      Enc(coder, probs[..], ip, prev, Streams(main, call, jump))
    }

    /** The do-while loop of RangeEnc_ShiftLow, with room in the stream. */
    method Emit(carry: nat)
      requires cacheSize > 0 && carry <= 1 && cache + carry <= 255
      modifies this`cache, this`cacheSize, this`rc
      ensures cacheSize == 0 && |rc| == old(|rc| + cacheSize)
      ensures Val(rc) == old(Val(Digits(rc, cache, cacheSize - 1))) + carry
    {
      ghost var rc0, cache0, n := rc, cache, cacheSize - 1;
      rc := rc + [cache + carry];
      cache := 0xFF;
      cacheSize := cacheSize - 1;
      while cacheSize != 0
        invariant 0 <= cacheSize <= n && cache == 0xFF
        invariant rc == rc0 + [cache0 + carry] + Fill(n - cacheSize, if carry == 1 then 0 else 255)
        decreases cacheSize
      {
        rc := rc + [(cache + carry) % 256];
        cacheSize := cacheSize - 1;
      }
      if carry == 1 { DigitsCarry(rc0, cache0, n); }
    }

    /** RangeEnc_ShiftLow: the represented number gains a zero digit. */
    method ShiftLow()
      requires cacheSize > 0 && low < 2 * TWO32 && (low >= TWO32 ==> cache < 255)
      modifies this`low, this`cache, this`cacheSize, this`rc
      ensures cacheSize > 0
      ensures |rc| + cacheSize == old(|rc| + cacheSize) + 1
      ensures Value() == 256 * old(Value())
      ensures low == 256 * (old(low) % TOP)
      ensures cache == 255 ==>
        old(low) >= TWO32 + 0xFF00_0000 || (old(cache) == 255 && 0xFF00_0000 <= old(low) < TWO32)
      ensures old(low) == 0 ==> cache == 0 && cacheSize == 1
    {
      var carry, low32 := low / TWO32, low % TWO32;
      LowParts(low);
      ghost var w := Val(Digits(rc, cache, cacheSize - 1));
      if low32 < 0xFF00_0000 || carry != 0 {
        Emit(carry);
        cache := low32 / TOP;
        DigitsFlushed0(rc, cache);
      } else {
        DigitsHeld(rc, cache, cacheSize - 1);
      }
      cacheSize := cacheSize + 1;
      low := low32 * 256 % TWO32;
    }

    /** The head of the loop in Bcj2Enc_Encode_2. */
    method Normalise()
      requires Valid()
      modifies this`range, this`low, this`cache, this`cacheSize, this`rc, this`coder
      ensures Valid() && coder == Normalize(old(coder))
    {
      if range < TOP {
        ghost var low0, cache0 := low, cache;
        ShiftLow();
        ShiftFits(low0, range, cache0, cache);
        range := range * 256;
        coder := Normalize(coder);
      }
    }

    /** One decision, coded with the probability of its context. */
    method EncodeBit(i: nat, bit: bool)
      requires Valid() && TOP <= range && i < NUM_PROBS
      modifies this`range, this`low, this`coder, probs
      ensures Valid() && coder == CodeBit(old(coder), old(probs[i]), bit)
      ensures probs[..] == UpdateAt(old(probs[..]), i, bit)
    {
      var ttt := probs[i];
      var bound := range / BIT_MODEL_TOTAL * ttt;
      BoundInside(range, ttt);
      coder := CodeBit(coder, ttt, bit);
      if !bit {
        range := bound;
        probs[i] := ttt + (BIT_MODEL_TOTAL - ttt) / 32;
      } else {
        low := low + bound;
        range := range - bound;
        probs[i] := ttt - ttt / 32;
      }
    }

    /** Bcj2Enc_Encode_2 up to the flush, with room in all four streams. */
    method Encode2(src: seq<byte>)
      requires Valid()
      modifies this, probs
      ensures Valid() && probs == old(probs) && cfg == old(cfg)
      ensures Abs() == Encode(cfg, old(Abs()), src)
    {
      hide Encode, Step, Copy, Val;
      var pos := 0;
      ghost var f := Encode(cfg, Abs(), src);
      while true
        invariant Valid() && 0 <= pos <= |src|
        invariant probs == old(probs) && cfg == old(cfg)
        invariant f == Encode(cfg, Abs(), src[pos..])
        decreases |src| - pos
      {
        ghost var e := Abs();
        Normalise();
        assert Abs() == Normalized(e);
        NormalizeOnce(e.coder);
        EncodeUnfold(cfg, e, src[pos..]);
        if pos == |src| { return; }
        var num := CopyRun(src[pos..], f);
        assert src[pos..][num..] == src[pos + num..];
        pos := pos + num;
        if pos != |src| {
          EncodeUnfold(cfg, Abs(), src[pos..]);
          var k := EncodeBranch(src[pos..]);
          assert src[pos..][k..] == src[pos + k..];
          pos := pos + k;
        }
      }
    }

    /** The bytes before the next opcode go to the main stream unchanged. */
    method CopyRun(src: seq<byte>, ghost f: Enc) returns (num: nat)
      requires Valid() && TOP <= range && src != [] && f == Encode(cfg, Abs(), src)
      modifies this`main, this`ip, this`prev
      ensures Valid() && num <= |src| && f == Encode(cfg, Abs(), src[num..])
      ensures num < |src| ==> IsBranch(prev, src[num])
    {
      hide Encode, Step, Val, IsBranch;
      num := Scan(src, prev, |src|);
      EncodeCopy(cfg, Abs(), src, num);
      ghost var e := Copy(Abs(), src[..num]);
      if num > 0 {
        main := main + src[..num];
        ip := (ip + num) % TWO32;
        prev := src[num - 1];
      }
      assert Abs() == e;
    }

    /** The opcode that Scan stopped at. */
    method EncodeBranch(src: seq<byte>) returns (k: nat)
      requires Valid() && TOP <= range && src != [] && IsBranch(prev, src[0])
      modifies this`main, this`call, this`jump, this`ip, this`prev, this`range, this`low, this`coder, probs
      ensures Valid() && (Abs(), k) == Step(cfg, old(Abs()), src)
    {
      hide Step, NeedConvert, GetUi32, SetBe32, CodeBit, UpdateAt, Val, Digits, Fill, IsBranch, ProbIndex, Converted;
      StepBranch(cfg, Abs(), src);
      var b, context := src[0], prev;
      var needConvert := NeedConvert(cfg, (ip + 1) % TWO32, src[1..]);
      ghost var e := Decided(cfg, Abs(), src);
      main := main + [b];
      ip := (ip + 1) % TWO32;
      EncodeBit(ProbIndex(b, context), needConvert);
      prev, k := b, 1;
      assert Abs() == e;
      if needConvert {
        PutTarget(src[1..]);
        k := 5;
      }
    }

    /** The operand of the opcode prev, made absolute. */
    method PutTarget(rest: seq<byte>)
      requires Valid() && |rest| >= 4
      modifies this`call, this`jump, this`ip, this`prev
      ensures Valid() && Abs() == Converted(old(Abs()), rest)
    {
      hide GetUi32, SetBe32, Val, Digits, Fill;
      ip := (ip + 4) % TWO32;
      var w := SetBe32((ip + GetUi32(rest)) % TWO32);
      if prev == 0xE8 { call := call + w; } else { jump := jump + w; }
      prev := rest[3];
    }

    /** The five flushing shifts; then the stream is the number. */
    method Flush()
      requires Valid()
      modifies this`low, this`cache, this`cacheSize, this`rc
      ensures |rc| == coder.shifts + 5 && Val(rc) == coder.low
    {
      hide Val, Digits, Pow256, Vanishing;
      var flushPos := 0;
      VanishStart(low, coder.low);
      while flushPos < 5
        invariant 0 <= flushPos <= 5 && cacheSize > 0
        invariant low < 2 * TWO32 && (low >= TWO32 ==> cache < 255)
        invariant |rc| + cacheSize == coder.shifts + 1 + flushPos
        invariant Value() == coder.low * Pow256(flushPos)
        invariant Vanishing(low, flushPos)
        invariant flushPos == 5 ==> cache == 0 && cacheSize == 1
      {
        VanishStep(low, flushPos, coder.low);
        ShiftLow();
        flushPos := flushPos + 1;
      }
      VanishEnd(low, coder.low);
      DigitsFlushed0(rc, 0);
    }
  }

  /** After k flushing shifts the last k bytes of low are zero. */
  ghost predicate Vanishing(low: nat, k: nat) {
    if k > 3 then low == 0 else low % Pow256(k) == 0
  }

  lemma VanishStart(low: nat, x: nat)
    ensures Vanishing(low, 0) && x == x * Pow256(0)
  {}

  lemma VanishEnd(low: nat, x: nat)
    requires Vanishing(low, 5)
    ensures low == 0 && x * Pow256(5) == 256 * x * TWO32
  {
    assert Pow256(5) == 256 * TWO32;
  }

  lemma VanishStep(low: nat, k: nat, x: nat)
    requires Vanishing(low, k)
    ensures Vanishing(256 * (low % TOP), k + 1) && (k > 3 ==> low == 0)
    ensures 256 * (x * Pow256(k)) == x * Pow256(k + 1)
  {
    if k <= 3 { LowVanishes(low, k); }
    assert 256 * (x * Pow256(k)) == x * (256 * Pow256(k));
  }

  /** What the encoder hands over for src. */
  predicate Encoded(cfg: Settings, src: seq<byte>, out: Streams, rc: seq<byte>) {
    var f := Encode(cfg, Init(), src);
    out == f.out && |rc| == f.coder.shifts + 5 && Val(rc) == f.coder.low
  }

  /** Bcj2Enc_Encode on the whole source with END_STREAM. */
  method EncodeStream(cfg: Settings, src: seq<byte>) returns (out: Streams, rc: seq<byte>)
    ensures Encoded(cfg, src, out, rc)
  {
    hide Encode, Val;
    var p := new Encoder(cfg);
    p.Encode2(src);
    p.Flush();
    out, rc := Streams(p.main, p.call, p.jump), p.rc;
  }

  lemma LowVanishes(low: nat, k: nat)
    requires k <= 3 && low % Pow256(k) == 0
    ensures 256 * (low % TOP) % Pow256(if k == 3 then 3 else k + 1) == 0
    ensures k == 3 ==> 256 * (low % TOP) == 0
  {
    assert Pow256(1) == 0x100 && Pow256(2) == 0x1_0000 && Pow256(3) == TOP;
    var d := Pow256(k);
    if k < 3 {
      var m := if k == 0 then TOP else if k == 1 then 0x1_0000 else 0x100;
      assert low % TOP % d == 0 by { ModTwice(low, d, m); }
      DivModUnique(256 * (low % TOP), 256 * d, low % TOP / d, 0);
    }
  }

  lemma ModTwice(x: int, d: int, m: int)
    requires d > 0 && m > 0 && d * m > 0
    ensures x % (d * m) % d == x % d
  {
    var y, q := x % (d * m), x / (d * m);
    assert x == y + d * (m * q) by { assert d * (m * q) == (d * m) * q; }
    ModAddMultiple(y, d, m * q);
  }

  lemma NeedConvertLong(cfg: Settings, ip: u32, rest: seq<byte>)
    ensures NeedConvert(cfg, ip, rest) ==> |rest| >= 4
  {}

  lemma EncodeUnfold(cfg: Settings, e: Enc, src: seq<byte>)
    requires Live(e.coder)
    ensures Encode(cfg, e, src) == Encode(cfg, Normalized(e), src)
    ensures src == [] ==> Encode(cfg, e, src) == Normalized(e)
    ensures src != [] && TOP <= e.coder.range ==>
      var (e', k) := Step(cfg, e, src);
      Encode(cfg, e, src) == Encode(cfg, e', src[k..])
  {
    hide Step;
    assert Normalized(Normalized(e)) == Normalized(e);
    if TOP <= e.coder.range { assert Normalized(e) == e; }
  }

  lemma ShiftFits(low: nat, range: nat, cache: byte, cache': byte)
    requires 0 < range < TOP && low + range <= 2 * TWO32 && (cache == 255 ==> low + range <= TWO32)
    requires cache' == 255 ==>
      low >= TWO32 + 0xFF00_0000 || (cache == 255 && 0xFF00_0000 <= low < TWO32)
    ensures 256 * (low % TOP) + 256 * range <= 2 * TWO32
    ensures cache' == 255 ==> 256 * (low % TOP) + 256 * range <= TWO32
  {
    if cache' == 255 {
      if low >= TWO32 + 0xFF00_0000 {
        DivModUnique(low, TOP, 0x1FF, low - 0x1FF * TOP);
      } else {
        DivModUnique(low, TOP, 0xFF, low - 0xFF * TOP);
      }
    }
  }

  lemma DigitsFlushed0(rc: seq<byte>, top: byte)
    ensures Val(Digits(rc, top, 0)) == 256 * Val(rc) + top as int
  {
    ValAppend(rc, top);
    assert Digits(rc, top, 0) == rc + [top];
  }

  lemma LowParts(low: nat)
    ensures low == low / TWO32 * TWO32 + low % TWO32
    ensures low % TWO32 == TOP * (low % TWO32 / TOP) + low % TOP && low % TWO32 / TOP < 256
    ensures low % TWO32 * 256 % TWO32 == 256 * (low % TOP)
  {
    DivTwice(low, TOP, 256);
    var top := low % TWO32 / TOP;
    ModAddMultiple(low % TOP, TOP, top);
    ModAddMultiple(256 * (low % TOP), TWO32, top);
    var m := low % TWO32;
    assert m == TOP * top + m % TOP;
    assert low == TOP * (256 * (low / TWO32) + top) + m % TOP;
    DivModUnique(low, TOP, 256 * (low / TWO32) + top, m % TOP);
    assert m * 256 == 256 * (low % TOP) + TWO32 * top;
  }
}
