/** Lzma2Enc_EncodeMt1 in compression/LZMA/Lzma2Enc.c: the input is cut into blocks, and every block is encoded from the
    start state, subblock by subblock. */
module Lzma2Blocks {
  import opened Bytes
  import opened Lzma2Dec
  import opened Lzma2Enc
  import opened Lzma2Stream

  const CHUNK_SIZE_COMPRESSED_MAX: nat := 0x1_0010
  const SZ_ERROR_FAIL: int := 11

  /** What LzmaEnc does with the rest of a block when it has `room` bytes of output, in the k-th call of a run. */
  type Coder = (nat, nat, seq<byte>) -> Coded

  /** Its contract: it keeps to its room and takes a prefix of what is left. */
  ghost predicate Keeps(code: Coder) {
    forall k: nat, room: nat, rest: seq<byte> :: Contract(code(k, room, rest), room) && code(k, room, rest).raw <= rest
  }

  // ----- subblocks and blocks are appended -----

  function AfterBlock(e: Enc, cs: seq<Coded>): Enc
    decreases |cs|
  {
    if cs == [] then e else AfterBlock(AfterSubblock(e, cs[0]), cs[1..])
  }

  function RawOf(cs: seq<Coded>): seq<byte>
    decreases |cs|
  {
    if cs == [] then [] else cs[0].raw + RawOf(cs[1..])
  }

  function RawOfAll(blocks: seq<seq<Coded>>): seq<byte>
    decreases |blocks|
  {
    if blocks == [] then [] else RawOf(blocks[0]) + RawOfAll(blocks[1..])
  }

  lemma {:induction false} RawAppend(cs: seq<Coded>, c: Coded)
    ensures RawOf(cs + [c]) == RawOf(cs) + c.raw
    decreases |cs|
  {
    if cs == [] {
      assert (cs + [c])[1..] == [];
    } else {
      assert (cs + [c])[1..] == cs[1..] + [c];
      RawAppend(cs[1..], c);
    }
  }

  lemma {:induction false} RawAllAppend(blocks: seq<seq<Coded>>, b: seq<Coded>)
    ensures RawOfAll(blocks + [b]) == RawOfAll(blocks) + RawOf(b)
    decreases |blocks|
  {
    hide RawOf;
    if blocks == [] {
      assert (blocks + [b])[1..] == [];
    } else {
      assert (blocks + [b])[1..] == blocks[1..] + [b];
      RawAllAppend(blocks[1..], b);
    }
  }

  lemma {:induction false} BlockAppend(e: Enc, cs: seq<Coded>, c: Coded)
    requires AllGood(cs) && Contract(c, |c.packed|) && (c.res == SZ_OK || c.res == SZ_ERROR_OUTPUT_EOF)
    ensures AllGood(cs + [c]) && BlockBytes(e, cs + [c]) == BlockBytes(e, cs) + Subblock(AfterBlock(e, cs), c)
    ensures AfterBlock(e, cs + [c]) == AfterSubblock(AfterBlock(e, cs), c)
    decreases |cs|
  {
    hide Subblock, AfterSubblock, Contract;
    if cs == [] {
      assert cs + [c] == [c] && [c][1..] == [];
    } else {
      assert (cs + [c])[1..] == cs[1..] + [c];
      BlockAppend(AfterSubblock(e, cs[0]), cs[1..], c);
    }
  }

  lemma {:induction false} StreamAppend(e: Enc, blocks: seq<seq<Coded>>, b: seq<Coded>, x: seq<byte>)
    requires AllBlocks(blocks) && AllGood(b) && StreamBytes(e, blocks) == x + [0]
    ensures AllBlocks(blocks + [b]) && StreamBytes(e, blocks + [b]) == x + BlockBytes(InitBlock(e), b) + [0]
    decreases |blocks|
  {
    hide AllGood, BlockBytes;
    if blocks == [] {
      assert x + [0] == [] + [0];
      assert blocks + [b] == [b] && [b][1..] == [] && [b][0] == b;
    } else {
      assert (blocks + [b])[1..] == blocks[1..] + [b];
      var h, t := BlockBytes(InitBlock(e), blocks[0]), StreamBytes(e, blocks[1..]);
      EndMark(e, blocks[1..]);
      var y := t[..|t| - 1];
      assert h + t == (h + y) + [0];
      assert x == (x + [0])[..|x|] && h + y == ((h + y) + [0])[..|h + y|];
      StreamAppend(e, blocks[1..], b, y);
    }
  }

  /** A stream ends with the end mark. */
  lemma {:induction false} EndMark(e: Enc, blocks: seq<seq<Coded>>)
    requires AllBlocks(blocks)
    ensures var t := StreamBytes(e, blocks); t != [] && t == t[..|t| - 1] + [0]
    decreases |blocks|
  {
    hide AllGood, BlockBytes;
    if blocks != [] { EndMark(e, blocks[1..]); }
  }

  // ----- the loops -----

  /** The rest of a block, data, is encoded; cs are the subblocks. */
  method EncodeBlock(e: Encoder, data: seq<byte>, code: Coder, outLim: nat, toStream: bool, packTotal: nat)
    returns (res: int, packSize: nat, ghost cs: seq<Coded>)
    requires Keeps(code) && (!toStream ==> packTotal <= outLim)
    modifies e
    ensures e.propsByte == old(e.propsByte)
    ensures res == SZ_OK ==>
              && AllGood(cs) && e.out == old(e.out) + BlockBytes(InitBlock(old(e.Abs())), cs) && RawOf(cs) <= data
              && packSize == |BlockBytes(InitBlock(old(e.Abs())), cs)| && e.srcPos == |RawOf(cs)|
              && (!toStream ==> packTotal + packSize <= outLim)
  {
    hide Subblock, Contract, BlockBytes, AfterSubblock, AllGood, RawOf, AfterBlock;
    e.StartBlock();
    ghost var start, out0 := e.Abs(), e.out;
    cs, packSize := [], 0;
    NoSubblock(start);
    assert out0 + [] == out0;
    var calls := 0;
    while true
      invariant AllGood(cs) && e.out == out0 + BlockBytes(start, cs) && packSize == |BlockBytes(start, cs)|
      invariant e.Abs() == AfterBlock(start, cs) && e.propsByte == start.propsByte
      invariant RawOf(cs) <= data && e.srcPos == |RawOf(cs)|
      invariant !toStream ==> packTotal + packSize <= outLim
      decreases |data| - e.srcPos
    {
      var limit := if toStream then CHUNK_SIZE_COMPRESSED_MAX else outLim - (packTotal + packSize);
      var size := if e.needInitProp then 6 else 5;
      var rest := data[e.srcPos..];
      var c := code(calls, if limit >= size then limit - size else 0, rest);
      assert Contract(c, if limit >= size then limit - size else 0) && c.raw <= rest;
      var more;
      ghost var was := e.Abs();
      res, more := e.EncodeSubblock(limit, toStream, c);
      if res != SZ_OK { return; }
      BlockAppend(start, cs, c);
      RawAppend(cs, c);
      SrcPosOf(was, c);
      assert out0 + BlockBytes(start, cs) + Subblock(was, c) == out0 + (BlockBytes(start, cs) + Subblock(was, c));
      assert RawOf(cs) + c.raw <= data by { RestPrefix(RawOf(cs), c.raw, data); }
      cs, packSize, calls := cs + [c], packSize + more, calls + 1;
      if more == 0 { return; }
      NoBytes(was, c);
    }
  }

  lemma NoSubblock(e: Enc)
    ensures BlockBytes(e, []) == [] && AfterBlock(e, []) == e && RawOf([]) == [] && AllGood([])
  {}

  lemma SrcPosOf(e: Enc, c: Coded)
    ensures AfterSubblock(e, c).srcPos == e.srcPos + |c.raw| && AfterSubblock(e, c).propsByte == e.propsByte
  {}

  lemma NoBytes(e: Enc, c: Coded)
    requires Contract(c, |c.packed|) && (c.res == SZ_OK || c.res == SZ_ERROR_OUTPUT_EOF) && Subblock(e, c) != []
    ensures c.raw != []
  {}

  lemma RestPrefix(a: seq<byte>, b: seq<byte>, data: seq<byte>)
    requires a <= data && b <= data[|a|..]
    ensures a + b <= data
  {
    assert data == a + data[|a|..];
  }

  /** Lzma2Enc_EncodeMt1 on a buffer; a SOLID block is one at least as long as the data. When it succeeds, what it wrote
      is the stream of the blocks of the data, without the end mark if more is to follow. */
  method Encode(e: Encoder, data: seq<byte>, blockSize: nat, code: Coder, outLim: nat, toStream: bool, finished: bool)
    returns (res: int, ghost blocks: seq<seq<Coded>>)
    requires Keeps(code) && blockSize > 0
    modifies e
    ensures e.propsByte == old(e.propsByte)
    ensures res == SZ_OK ==>
              && AllBlocks(blocks) && RawOfAll(blocks) == data
              && (if finished then e.out else e.out + [0]) == old(e.out)
                  + StreamBytes(Enc(e.propsByte, true, true, 0), blocks)
              && (!toStream ==> |e.out| - |old(e.out)| <= outLim)
  {
    hide BlockBytes, StreamBytes, AllGood, RawOf, RawOfAll, Keeps;
    ghost var start, out0 := Enc(e.propsByte, true, true, 0), e.out;
    blocks := [];
    ghost var written: seq<byte> := [];
    NoBlock(start);
    assert out0 + [] == out0;
    var unpackTotal, packTotal := 0, 0;
    while true
      invariant e.propsByte == start.propsByte && e.out == out0 + written && packTotal == |written|
      invariant AllBlocks(blocks) && StreamBytes(start, blocks) == written + [0]
      invariant RawOfAll(blocks) <= data && unpackTotal == |RawOfAll(blocks)|
      invariant unpackTotal == |data| ==> unpackTotal == 0
      invariant !toStream ==> packTotal <= outLim
      decreases |data| - unpackTotal
    {
      var left := |data| - unpackTotal;
      var inSizeCur := if left > blockSize then blockSize else left;
      var packSize;
      ghost var cs;
      var block := data[unpackTotal..unpackTotal + inSizeCur];
      res, packSize, cs := EncodeBlock(e, block, code, outLim, toStream, packTotal);
      packTotal, unpackTotal := packTotal + packSize, unpackTotal + e.srcPos;
      if res != SZ_OK { return; }
      if e.srcPos != inSizeCur { return SZ_ERROR_FAIL, blocks; }
      StreamAppend(start, blocks, cs, written);
      RawAllAppend(blocks, cs);
      assert RawOf(cs) == block;
      RestPrefix(RawOfAll(blocks), block, data);
      ghost var more := BlockBytes(start, cs);
      assert out0 + written + more == out0 + (written + more);
      blocks, written := blocks + [cs], written + more;
      if unpackTotal == |data| {
        if finished {
          if !toStream && packTotal >= outLim { return SZ_ERROR_OUTPUT_EOF, blocks; }
          e.out := e.out + [0];
        }
        assert out0 + written + [0] == out0 + (written + [0]);
        return SZ_OK, blocks;
      }
    }
  }

  lemma NoBlock(e: Enc)
    ensures StreamBytes(e, []) == [] + [0] && RawOfAll([]) == []
  {}

  lemma {:induction false} RawSize(cs: seq<Coded>)
    ensures BlockSize(cs) == |RawOf(cs)|
    decreases |cs|
  {
    if cs != [] { RawSize(cs[1..]); }
  }

  lemma {:induction false} RawAllSize(blocks: seq<seq<Coded>>)
    ensures StreamSize(blocks) == |RawOfAll(blocks)|
    decreases |blocks|
  {
    if blocks != [] {
      RawSize(blocks[0]);
      RawAllSize(blocks[1..]);
    }
  }

  /** What Encode wrote for some data leads the decoder to the end mark, at the length of the data. */
  lemma EncodedIsRead(propsByte: byte, data: seq<byte>, blocks: seq<seq<Coded>>)
    requires GoodProps(propsByte) && AllBlocks(blocks) && RawOfAll(blocks) == data
    ensures var s := StreamBytes(Enc(propsByte, true, true, 0), blocks);
            && Walk(INIT, s).state == Finished && Walk(INIT, s).dicPos == |data| && Used(INIT, s) == |s|
            && Chunks(INIT, s) == StreamSeen(Enc(propsByte, true, true, 0), blocks)
  {
    hide Walk, Used, Chunks, StreamBytes, StreamSeen, RawOfAll, StreamSize, AllBlocks;
    StreamRead(propsByte, blocks);
    RawAllSize(blocks);
  }
}
