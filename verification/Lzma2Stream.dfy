/** What the LZMA2 encoder writes, the decoder reads back: chunk by chunk, block by block. */
module Lzma2Stream {
  import opened Bytes
  import opened Lzma2Dec
  import opened Lzma2Enc

  // ----- putting sizes together with bitwise or -----

  lemma OrHalf(a: nat, b: nat)
    ensures Or(a, b) == 2 * Or(a / 2, b / 2) + if a % 2 == 1 || b % 2 == 1 then 1 else 0
  {}

  lemma ShiftHalf(a: nat, k: nat)
    requires k > 0
    ensures Pow2(k) * a / 2 == Pow2(k - 1) * a && Pow2(k) * a % 2 == 0
  {
    assert Pow2(k) * a == 2 * (Pow2(k - 1) * a);
  }

  /** Bits above k, or bits below k: their sum. */
  lemma {:induction false} OrIsSum(a: nat, b: nat, k: nat)
    requires b < Pow2(k)
    ensures Or(Pow2(k) * a, b) == Pow2(k) * a + b
    decreases k
  {
    hide Or;
    if k > 0 {
      ShiftHalf(a, k);
      OrHalf(Pow2(k) * a, b);
      assert b / 2 < Pow2(k - 1);
      hide Pow2;
      OrIsSum(a, b / 2, k - 1);
    } else {
      OrZero(a);
    }
  }

  lemma {:induction false} OrZero(a: nat)
    ensures Or(a, 0) == a
  {
    if a > 0 { OrZero(a / 2); }
  }

  lemma OrSizes(hi: nat, mid: nat, lo: nat)
    requires hi < 0x20 && mid < 0x100 && lo < 0x100
    ensures Or(Or(0x1_0000 * hi, 0x100 * mid), lo) == 0x1_0000 * hi + 0x100 * mid + lo
    ensures Or(0x100 * mid, lo) == 0x100 * mid + lo
  {
    hide Or;
    assert Pow2(8) == 0x100 && Pow2(16) == 0x1_0000;
    OrIsSum(hi, 0x100 * mid, 16);
    OrIsSum(0x100 * hi + mid, lo, 8);
    OrIsSum(mid, lo, 8);
  }

  /** The three parts of a size. */
  lemma SizeParts(x: nat)
    requires x < 0x20_0000
    ensures x / 0x1_0000 < 0x20 && x == 0x1_0000 * (x / 0x1_0000 % 0x20) + 0x100 * (x / 0x100 % 0x100) + x % 0x100
    ensures x < 0x1_0000 ==> x == 0x100 * (x / 0x100) + x % 0x100 && x / 0x100 < 0x100
  {
    DivTwice(x, 0x100, 0x100);
  }

  // ----- what the decoder is told -----

  /** A chunk as the decoder sees it once its header is complete; pack is 0 for an uncompressed chunk. */
  datatype Seen = Seen(resetDic: bool, resetState: bool, unpack: nat, pack: nat, props: Props)

  function See(d: Dec): Seen {
    if Uncompressed(d) then Seen(d.control == COPY_RESET_DIC, false, d.unpackSize, 0, Props(0, 0, 0))
    else Seen(d.control >= 0xE0, d.control >= 0xA0, d.unpackSize, d.packSize, d.props)
  }

  /** The chunks of a stretch of the stream. */
  function Chunks(d: Dec, s: seq<byte>): seq<Seen>
    decreases |s|
  {
    if s == [] || Over(d) then []
    else
      var e := Feed(d, s[0]);
      (if e.state == Data then [See(e)] else []) + Chunks(e, s[1..])
  }

  lemma {:induction false} ChunksAppend(d: Dec, s: seq<byte>, t: seq<byte>)
    ensures Chunks(d, s + t) == Chunks(d, s) + Chunks(Walk(d, s), t)
    decreases |s|
  {
    hide Feed, See;
    if s == [] {
      assert s + t == t;
    } else if !Over(d) {
      assert (s + t)[1..] == s[1..] + t;
      ChunksAppend(Feed(d, s[0]), s[1..], t);
    } else {
      OverStays(d, s);
    }
  }

  /** Reading s from d gives the chunks c and leads to e; the whole of s is read. */
  ghost predicate Reads(d: Dec, s: seq<byte>, c: seq<Seen>, e: Dec) {
    Walk(d, s) == e && Used(d, s) == |s| && Chunks(d, s) == c
  }

  lemma ReadsMore(d: Dec, s: seq<byte>, c: seq<Seen>, e: Dec, s': seq<byte>, c': seq<Seen>, e': Dec)
    requires Reads(d, s, c, e) && Reads(e, s', c', e')
    ensures Reads(d, s + s', c + c', e')
  {
    hide Walk, Used, Chunks;
    WalkAppend(d, s, s');
    ChunksAppend(d, s, s');
  }

  lemma ReadsByte(d: Dec, b: byte)
    requires !Over(d)
    ensures Reads(d, [b], if Feed(d, b).state == Data then [See(Feed(d, b))] else [], Feed(d, b))
  {
    hide Feed, See;
    assert [b][1..] == [];
    WalkOne(d, b);
    var e := Feed(d, b);
    var c := if e.state == Data then [See(e)] else [];
    assert Chunks(e, []) == [];
    assert Chunks(d, [b]) == c + Chunks(e, [b][1..]);
    assert c + [] == c;
  }

  lemma ReadsNothing(d: Dec)
    ensures Reads(d, [], [], d)
  {}

  /** One byte first. */
  lemma ReadsFirst(d: Dec, b: byte, s: seq<byte>, c: seq<Seen>, e: Dec)
    requires !Over(d) && Feed(d, b).state != Data && Reads(Feed(d, b), s, c, e)
    ensures Reads(d, [b] + s, c, e)
  {
    hide Feed, Reads;
    ReadsByte(d, b);
    ReadsMore(d, [b], [], Feed(d, b), s, c, e);
    assert [] + c == c;
  }

  // ----- headers -----

  lemma CopyHeaderRead(d: Dec, first: bool, u: nat)
    requires d.state == Control && d.unpackSize == 0 && 0 < u <= PACK_SIZE_MAX && (first || d.needInitLevel != 0xE0)
    ensures var e := d.(control := if first then 1 else 2, needInitLevel := if first then 0xC0 else d.needInitLevel,
            unpackSize := u, state := Data);
            Reads(d, CopyHeader(first, u), [Seen(first, false, u, 0, Props(0, 0, 0))], e)
  {
    hide Or, Reads;
    SizeParts(u - 1);
    OrSizes(0, (u - 1) / 0x100, (u - 1) % 0x100);
    OrZero(0);
    var b0: byte, b1: byte, b2: byte := if first then 1 else 2, (u - 1) / 0x100, (u - 1) % 0x100;
    var d1 := Feed(d, b0);
    OrLow(0x100 * b1);
    var d2 := Feed(d1, b1);
    ReadsByte(d2, b2);
    ReadsFirst(d1, b1, [b2], [See(Feed(d2, b2))], Feed(d2, b2));
    assert [b1] + [b2] == [b1, b2];
    ReadsFirst(d, b0, [b1, b2], [See(Feed(d2, b2))], Feed(d2, b2));
    assert [b0] + [b1, b2] == CopyHeader(first, u);
  }

  lemma OrLow(x: nat)
    requires x < 0x1_0000
    ensures Or(0, x) == x
  {
    hide Or;
    assert Pow2(8) == 0x100 && Pow2(16) == 0x1_0000;
    OrIsSum(0, x, 16);
  }

  /** The properties that the byte stands for. */
  function PropsOf(b: byte): Props { Props(b % 9, b / 9 % 5, b / 9 / 5) }

  predicate GoodProps(b: byte) { b < 9 * 5 * 5 && b % 9 + b / 9 % 5 <= LCLP_MAX }

  predicate ModeOk(e: Enc) { e.needInitProp == e.needInitState && (e.srcPos == 0 ==> e.needInitState) }

  lemma ModeBits(b: byte, m: nat, x: nat)
    requires m < 4 && x < 0x20 && b == 0x80 + 0x20 * m + x
    ensures b % 0x20 == x && (b / 0x40 % 2 == 1 <==> m >= 2) && (b >= 0xE0 <==> m == 3) && (b >= 0xA0 <==> m >= 1)
            && (b >= 0xC0 <==> m >= 2)
  {}

  /** The mode byte and the unpacked size. */
  lemma SizesRead(d: Dec, m: nat, u: nat, s: seq<byte>, c: seq<Seen>, f: Dec)
    requires d.state == Control && 0 < u <= UNPACK_SIZE_MAX && m < 4 && d.needInitLevel <= 0x80 + 0x20 * m
    requires var b0 := 0x80 + 0x20 * m + (u - 1) / 0x1_0000 % 0x20;
             Reads(d.(control := b0, needInitLevel := 0, unpackSize := u, state := Pack0), s, c, f)
    ensures Reads(d, [0x80 + 0x20 * m + (u - 1) / 0x1_0000 % 0x20, (u - 1) / 0x100 % 0x100, (u - 1) % 0x100] + s, c, f)
  {
    hide Reads, Feed;
    var b0: byte, b1: byte, b2: byte :=
        0x80 + 0x20 * m + (u - 1) / 0x1_0000 % 0x20, (u - 1) / 0x100 % 0x100, (u - 1) % 0x100;
    SizesFed(d, m, u, b0, b1, b2);
    var d1 := Feed(d, b0);
    var d2 := Feed(d1, b1);
    ReadsFirst(d2, b2, s, c, f);
    ReadsFirst(d1, b1, [b2] + s, c, f);
    ReadsFirst(d, b0, [b1] + ([b2] + s), c, f);
    assert [b0] + ([b1] + ([b2] + s)) == [b0, b1, b2] + s;
  }

  lemma SizesFed(d: Dec, m: nat, u: nat, b0: byte, b1: byte, b2: byte)
    requires d.state == Control && 0 < u <= UNPACK_SIZE_MAX && m < 4 && d.needInitLevel <= 0x80 + 0x20 * m
    requires b0 == 0x80 + 0x20 * m + (u - 1) / 0x1_0000 % 0x20 && b1 == (u - 1) / 0x100 % 0x100 && b2 == (u - 1) % 0x100
    ensures var d1 := Feed(d, b0);
            var d2 := Feed(d1, b1);
            && !Over(d1) && d1.state != Data && !Over(d2) && d2.state != Data
            && Feed(d2, b2) == d.(control := b0, needInitLevel := 0, unpackSize := u, state := Pack0)
  {
    hide Or;
    SizeParts(u - 1);
    var hi := (u - 1) / 0x1_0000 % 0x20;
    ModeBits(b0, m, hi);
    OrSizes(hi, b1, b2);
  }

  lemma LzmaHeaderRead(d: Dec, e: Enc, u: nat, p: nat)
    requires d.state == Control && 0 < u <= UNPACK_SIZE_MAX && 0 < p <= PACK_SIZE_MAX && ModeOk(e)
             && GoodProps(e.propsByte)
    requires d.needInitLevel <= 0x80 + 0x20 * Mode(e)
    requires !e.needInitProp ==> d.props == PropsOf(e.propsByte)
    ensures var c := 0x80 + 0x20 * Mode(e) + (u - 1) / 0x1_0000 % 0x20;
            var f := d.(control := c, needInitLevel := 0, unpackSize := u, packSize := p,
                props := PropsOf(e.propsByte), state := Data);
            Reads(d, LzmaHeader(e, u, p), [Seen(e.srcPos == 0, e.needInitState, u, p, PropsOf(e.propsByte))], f)
  {
    hide Or, Reads, GoodProps, PropsOf, Feed;
    var m, hi := Mode(e), (u - 1) / 0x1_0000 % 0x20;
    var b0: byte := 0x80 + 0x20 * m + hi;
    ModeBits(b0, m, hi);
    var d3 := d.(control := b0, needInitLevel := 0, unpackSize := u, state := Pack0);
    PackRead(d3, e, p);
    var s := [Seen(e.srcPos == 0, e.needInitState, u, p, PropsOf(e.propsByte))];
    var f := d3.(packSize := p, props := PropsOf(e.propsByte), state := Data);
    assert See(f) == s[0];
    SizesRead(d, m, u, PackBytes(e, p), s, f);
    assert [b0, (u - 1) / 0x100 % 0x100, (u - 1) % 0x100] + PackBytes(e, p) == LzmaHeader(e, u, p);
  }

  /** The packed size, and the properties if they are due. */
  function PackBytes(e: Enc, p: nat): seq<byte>
    requires 0 < p <= PACK_SIZE_MAX
  {
    [(p - 1) / 0x100 % 0x100] + ([(p - 1) % 0x100] + if e.needInitProp then [e.propsByte] else [])
  }

  lemma PackRead(d3: Dec, e: Enc, p: nat)
    requires d3.state == Pack0 && d3.control >= 0x80 && (d3.control / 0x40 % 2 == 1 <==> e.needInitProp)
    requires 0 < p <= PACK_SIZE_MAX && GoodProps(e.propsByte)
    requires !e.needInitProp ==> d3.props == PropsOf(e.propsByte)
    ensures var f := d3.(packSize := p, props := PropsOf(e.propsByte), state := Data);
            Reads(d3, PackBytes(e, p), [See(f)], f)
  {
    hide Or, Reads, GoodProps, PropsOf, See;
    SizeParts(p - 1);
    var b3: byte, b4: byte := (p - 1) / 0x100 % 0x100, (p - 1) % 0x100;
    OrSizes(0, b3, b4);
    SmallQuotient(p - 1);
    var d4 := Feed(d3, b3);
    assert d4 == d3.(packSize := 0x100 * b3, state := Pack1);
    hide Feed;
    PropsRead(d4, b4, e);
    var f := d3.(packSize := p, props := PropsOf(e.propsByte), state := Data);
    ReadsFirst(d3, b3, [b4] + (if e.needInitProp then [e.propsByte] else []), [See(f)], f);
  }

  lemma SmallQuotient(x: nat)
    requires x < 0x1_0000
    ensures x / 0x100 % 0x100 == x / 0x100
  {}

  /** The last size byte, and the properties if they are due. */
  lemma PropsRead(d4: Dec, b4: byte, e: Enc)
    requires d4.state == Pack1 && d4.control >= 0x80 && (d4.control / 0x40 % 2 == 1 <==> e.needInitProp)
             && GoodProps(e.propsByte)
    requires !e.needInitProp ==> d4.props == PropsOf(e.propsByte)
    ensures var f := d4.(packSize := Or(d4.packSize, b4) + 1, props := PropsOf(e.propsByte), state := Data);
            Reads(d4, [b4] + (if e.needInitProp then [e.propsByte] else []), [See(f)], f)
  {
    hide Or, Reads;
    ReadsByte(d4, b4);
    if e.needInitProp {
      var d5 := Feed(d4, b4);
      ReadsByte(d5, e.propsByte);
      ReadsFirst(d4, b4, [e.propsByte], [See(Feed(d5, e.propsByte))], Feed(d5, e.propsByte));
    } else {
      assert [b4] + [] == [b4];
    }
  }

  // ----- chunks -----

  lemma {:induction false} DataSeesNothing(d: Dec, s: seq<byte>)
    requires InData(d.state) && |s| <= (if Uncompressed(d) then d.unpackSize else d.packSize)
    requires !Uncompressed(d) && d.state == Data && s != [] ==> s[0] == 0
    ensures Chunks(d, s) == []
    decreases |s|
  {
    hide Or, See;
    if |s| > 1 {
      DataSeesNothing(Feed(d, s[0]), s[1..]);
    } else if |s| == 1 {
      assert s[1..] == [];
    }
  }

  lemma CopyDataRead(d: Dec, raw: seq<byte>)
    requires d.state == Data && Uncompressed(d) && 0 < |raw| == d.unpackSize
    ensures Reads(d, raw, [], d.(unpackSize := 0, dicPos := d.dicPos + |raw|, state := Control))
  {
    hide Walk, Used, Chunks;
    WalkCopy(d, raw);
    DataSeesNothing(d, raw);
  }

  lemma LzmaDataRead(d: Dec, packed: seq<byte>)
    requires d.state == Data && !Uncompressed(d) && 0 < |packed| == d.packSize && packed[0] == 0
    ensures Reads(d, packed, [], d.(packSize := 0, unpackSize := 0,
            dicPos := d.dicPos + d.unpackSize, state := Control))
  {
    hide Walk, Used, Chunks;
    WalkPacked(d, packed);
    DataSeesNothing(d, packed);
  }

  /** The decoder between two chunks, and the encoder: what must still be reset. */
  ghost predicate Synced(e: Enc, d: Dec) {
    && d.state == Control && d.unpackSize == 0 && ModeOk(e) && GoodProps(e.propsByte)
    && d.needInitLevel == (if e.srcPos == 0 then d.needInitLevel else if e.needInitState then 0xC0 else 0)
    && d.needInitLevel <= 0xE0
    && (!e.needInitProp ==> d.props == PropsOf(e.propsByte))
  }

  /** The copy chunks as they are meant. */
  function CopySeen(srcPos: nat, raw: seq<byte>): seq<Seen>
    decreases |raw|
  {
    if raw == [] then []
    else
      var u := Min(|raw|, PACK_SIZE_MAX);
      [Seen(srcPos == 0, false, u, 0, Props(0, 0, 0))] + CopySeen(srcPos + u, raw[u..])
  }

  /** A subblock as it is meant. */
  function SubblockSeen(e: Enc, c: Coded): seq<Seen> {
    if c.raw == [] then []
    else if UseCopy(c) then CopySeen(e.srcPos, c.raw)
    else [Seen(e.srcPos == 0, e.needInitState, |c.raw|, |c.packed|, PropsOf(e.propsByte))]
  }

  lemma CopyChunkRead(e: Enc, d: Dec, raw: seq<byte>)
    requires Synced(e, d) && 0 < |raw| <= PACK_SIZE_MAX
    ensures var d' := Walk(d, CopyHeader(e.srcPos == 0, |raw|) + raw);
            && Reads(d, CopyHeader(e.srcPos == 0, |raw|) + raw,
                [Seen(e.srcPos == 0, false, |raw|, 0, Props(0, 0, 0))], d')
            && Synced(e.(srcPos := e.srcPos + |raw|), d') && d'.dicPos == d.dicPos + |raw|
  {
    hide Walk, Used, Chunks, CopyHeader;
    var first := e.srcPos == 0;
    CopyHeaderRead(d, first, |raw|);
    var f := d.(control := if first then 1 else 2, needInitLevel := if first then 0xC0 else d.needInitLevel,
        unpackSize := |raw|, state := Data);
    CopyDataRead(f, raw);
    var s := [Seen(first, false, |raw|, 0, Props(0, 0, 0))];
    ReadsMore(d, CopyHeader(first, |raw|), s, f, raw, [],
        f.(unpackSize := 0, dicPos := f.dicPos + |raw|, state := Control));
    assert s + [] == s;
  }

  lemma {:induction false} CopyChunksRead(e: Enc, d: Dec, raw: seq<byte>)
    requires Synced(e, d)
    ensures var d' := Walk(d, CopyChunks(e.srcPos, raw));
            && Reads(d, CopyChunks(e.srcPos, raw), CopySeen(e.srcPos, raw), d')
            && Synced(e.(srcPos := e.srcPos + |raw|), d') && d'.dicPos == d.dicPos + |raw|
    decreases |raw|
  {
    hide Walk, Used, Chunks, CopyHeader, Synced;
    if raw == [] {
      ReadsNothing(d);
      assert e.(srcPos := e.srcPos + 0) == e;
    } else {
      var u := Min(|raw|, PACK_SIZE_MAX);
      var head := CopyHeader(e.srcPos == 0, u) + raw[..u];
      CopyChunkRead(e, d, raw[..u]);
      var e1, d1 := e.(srcPos := e.srcPos + u), Walk(d, head);
      CopyChunksRead(e1, d1, raw[u..]);
      ReadsMore(d, head, [Seen(e.srcPos == 0, false, u, 0, Props(0, 0, 0))], d1,
                CopyChunks(e1.srcPos, raw[u..]), CopySeen(e1.srcPos, raw[u..]),
                    Walk(d1, CopyChunks(e1.srcPos, raw[u..])));
    }
  }

  lemma LzmaChunkRead(e: Enc, d: Dec, c: Coded)
    requires Synced(e, d) && Contract(c, |c.packed|) && c.raw != [] && !UseCopy(c)
    ensures var s := LzmaHeader(e, |c.raw|, |c.packed|) + c.packed;
            var d' := Walk(d, s);
            && Reads(d, s, [Seen(e.srcPos == 0, e.needInitState, |c.raw|, |c.packed|, PropsOf(e.propsByte))], d')
            && Synced(AfterSubblock(e, c), d') && d'.dicPos == d.dicPos + |c.raw|
  {
    hide Walk, Used, Chunks, LzmaHeader;
    var u, p := |c.raw|, |c.packed|;
    LzmaHeaderRead(d, e, u, p);
    var f := d.(control := 0x80 + 0x20 * Mode(e) + (u - 1) / 0x1_0000 % 0x20,
        needInitLevel := 0, unpackSize := u, packSize := p,
                props := PropsOf(e.propsByte), state := Data);
    LzmaDataRead(f, c.packed);
    var s := [Seen(e.srcPos == 0, e.needInitState, u, p, PropsOf(e.propsByte))];
    ReadsMore(d, LzmaHeader(e, u, p), s, f, c.packed, [],
        f.(packSize := 0, unpackSize := 0, dicPos := f.dicPos + u, state := Control));
    assert s + [] == s;
  }

  /** A subblock is read back as it was meant, and encoder and decoder stay in step. */
  lemma SubblockRead(e: Enc, d: Dec, c: Coded)
    requires Synced(e, d) && Contract(c, |c.packed|) && (c.res == SZ_OK || c.res == SZ_ERROR_OUTPUT_EOF)
    ensures var d' := Walk(d, Subblock(e, c));
            && Reads(d, Subblock(e, c), SubblockSeen(e, c), d')
            && Synced(AfterSubblock(e, c), d') && d'.dicPos == d.dicPos + |c.raw|
  {
    hide Walk, Used, Chunks, LzmaHeader, CopyChunks, Synced;
    if c.raw == [] {
      ReadsNothing(d);
    } else if UseCopy(c) {
      CopyChunksRead(e, d, c.raw);
    } else {
      LzmaChunkRead(e, d, c);
    }
  }

  // ----- whole streams -----

  predicate AllGood(cs: seq<Coded>) {
    forall i: nat | i < |cs| ::
      Contract(cs[i], |cs[i].packed|) && (cs[i].res == SZ_OK || cs[i].res == SZ_ERROR_OUTPUT_EOF)
  }

  /** The bytes, the meant chunks and the length of the input of the subblocks of a block. */
  function BlockBytes(e: Enc, cs: seq<Coded>): seq<byte>
    requires AllGood(cs)
    decreases |cs|
  {
    if cs == [] then [] else Subblock(e, cs[0]) + BlockBytes(AfterSubblock(e, cs[0]), cs[1..])
  }

  function BlockSeen(e: Enc, cs: seq<Coded>): seq<Seen>
    decreases |cs|
  {
    if cs == [] then [] else SubblockSeen(e, cs[0]) + BlockSeen(AfterSubblock(e, cs[0]), cs[1..])
  }

  function BlockSize(cs: seq<Coded>): nat {
    if cs == [] then 0 else |cs[0].raw| + BlockSize(cs[1..])
  }

  lemma {:induction false} BlockRead(e: Enc, d: Dec, cs: seq<Coded>)
    requires Synced(e, d) && AllGood(cs)
    ensures var d' := Walk(d, BlockBytes(e, cs));
            && Reads(d, BlockBytes(e, cs), BlockSeen(e, cs), d') && d'.dicPos == d.dicPos + BlockSize(cs)
            && d'.state == Control && d'.unpackSize == 0 && d'.needInitLevel <= 0xE0
    decreases |cs|
  {
    hide Walk, Used, Chunks, Subblock, SubblockSeen, AfterSubblock;
    if cs == [] {
      ReadsNothing(d);
    } else {
      hide Synced;
      SubblockRead(e, d, cs[0]);
      var e1, d1 := AfterSubblock(e, cs[0]), Walk(d, Subblock(e, cs[0]));
      BlockRead(e1, d1, cs[1..]);
      ReadsMore(d, Subblock(e, cs[0]), SubblockSeen(e, cs[0]), d1,
                BlockBytes(e1, cs[1..]), BlockSeen(e1, cs[1..]), Walk(d1, BlockBytes(e1, cs[1..])));
    }
  }

  predicate AllBlocks(blocks: seq<seq<Coded>>) { forall i: nat | i < |blocks| :: AllGood(blocks[i]) }

  /** The stream: the blocks and the end mark. */
  function StreamBytes(e: Enc, blocks: seq<seq<Coded>>): seq<byte>
    requires AllBlocks(blocks)
  {
    if blocks == [] then [0] else BlockBytes(InitBlock(e), blocks[0]) + StreamBytes(e, blocks[1..])
  }

  function StreamSeen(e: Enc, blocks: seq<seq<Coded>>): seq<Seen> {
    if blocks == [] then [] else BlockSeen(InitBlock(e), blocks[0]) + StreamSeen(e, blocks[1..])
  }

  function StreamSize(blocks: seq<seq<Coded>>): nat {
    if blocks == [] then 0 else BlockSize(blocks[0]) + StreamSize(blocks[1..])
  }

  lemma {:induction false} BlocksRead(e: Enc, d: Dec, blocks: seq<seq<Coded>>)
    requires d.state == Control && d.unpackSize == 0 && d.needInitLevel <= 0xE0 && GoodProps(e.propsByte)
             && AllBlocks(blocks)
    ensures var d' := Walk(d, StreamBytes(e, blocks));
            && Reads(d, StreamBytes(e, blocks), StreamSeen(e, blocks), d')
            && d'.state == Finished && d'.dicPos == d.dicPos + StreamSize(blocks)
    decreases |blocks|
  {
    hide Walk, Used, Chunks, BlockBytes, BlockSeen, BlockSize;
    if blocks == [] {
      ReadsByte(d, 0);
    } else {
      var i := InitBlock(e);
      BlockRead(i, d, blocks[0]);
      var d1 := Walk(d, BlockBytes(i, blocks[0]));
      BlocksRead(e, d1, blocks[1..]);
      ReadsMore(d, BlockBytes(i, blocks[0]), BlockSeen(i, blocks[0]), d1,
                StreamBytes(e, blocks[1..]), StreamSeen(e, blocks[1..]), Walk(d1, StreamBytes(e, blocks[1..])));
    }
  }

  /** Whatever LzmaEnc does within its contract, the headers of any sequence of blocks never drive the decoder
      into an error: it sees exactly the chunks that were meant, with their sizes, resets and properties, and
      reaches the end mark with the last byte. */
  lemma StreamRead(propsByte: byte, blocks: seq<seq<Coded>>)
    requires GoodProps(propsByte) && AllBlocks(blocks)
    ensures var s := StreamBytes(Enc(propsByte, true, true, 0), blocks);
            && Walk(INIT, s).state == Finished && Walk(INIT, s).dicPos == StreamSize(blocks) && Used(INIT, s) == |s|
            && Chunks(INIT, s) == StreamSeen(Enc(propsByte, true, true, 0), blocks)
  {
    BlocksRead(Enc(propsByte, true, true, 0), INIT, blocks);
  }
}
