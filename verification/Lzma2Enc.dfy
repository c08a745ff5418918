/** The chunk headers that Lzma2EncInt_EncodeSubblock writes, and how the decoder reads them back. */
module Lzma2Enc {
  import opened Bytes
  import opened Lzma2Dec

  const PACK_SIZE_MAX: nat := 0x1_0000
  const UNPACK_SIZE_MAX: nat := 0x20_0000

  /** The fields of CLzma2EncInt. */
  datatype Enc = Enc(propsByte: byte, needInitState: bool, needInitProp: bool, srcPos: nat)

  /** Lzma2EncInt_InitBlock. */
  function InitBlock(e: Enc): Enc { e.(srcPos := 0, needInitState := true, needInitProp := true) }

  const SZ_OK: int := 0
  const SZ_ERROR_OUTPUT_EOF: int := 7

  /** What LzmaEnc_CodeOneMemBlock did: the packed bytes, and the bytes of input it took. */
  datatype Coded = Coded(res: int, packed: seq<byte>, raw: seq<byte>)

  /** Its contract: the sizes it was given are kept to, and the range coder's first byte is zero. */
  predicate Contract(c: Coded, room: nat) {
    && |c.raw| <= UNPACK_SIZE_MAX && |c.packed| <= room
    && (c.res == SZ_OK && c.raw != [] ==> c.packed != [] && c.packed[0] == 0)
  }

  function HeaderSize(e: Enc): nat { 5 + if e.needInitProp then 1 else 0 }

  predicate UseCopy(c: Coded) {
    c.res != SZ_OK || |c.packed| + 2 >= |c.raw| || |c.packed| > PACK_SIZE_MAX
  }

  // ----- the bytes of a chunk -----

  function CopyHeader(first: bool, u: nat): (r: seq<byte>)
    requires 0 < u <= PACK_SIZE_MAX
    ensures |r| == 3
  {
    [if first then 1 else 2, (u - 1) / 0x100, (u - 1) % 0x100]
  }

  function Mode(e: Enc): nat {
    if e.srcPos == 0 then 3 else if e.needInitState then (if e.needInitProp then 2 else 1) else 0
  }

  function LzmaHeader(e: Enc, u: nat, p: nat): seq<byte>
    requires 0 < u <= UNPACK_SIZE_MAX && 0 < p <= PACK_SIZE_MAX
  {
    [0x80 + 0x20 * Mode(e) + (u - 1) / 0x1_0000 % 0x20, (u - 1) / 0x100 % 0x100, (u - 1) % 0x100,
        (p - 1) / 0x100 % 0x100, (p - 1) % 0x100]
    + if e.needInitProp then [e.propsByte] else []
  }

  /** The copy chunks of some bytes of input. */
  function CopyChunks(srcPos: nat, raw: seq<byte>): seq<byte>
    decreases |raw|
  {
    if raw == [] then []
    else
      var u := Min(|raw|, PACK_SIZE_MAX);
      CopyHeader(srcPos == 0, u) + raw[..u] + CopyChunks(srcPos + u, raw[u..])
  }

  /** The bytes of a subblock. */
  function Subblock(e: Enc, c: Coded): seq<byte>
    requires Contract(c, |c.packed|) && (c.res == SZ_OK || c.res == SZ_ERROR_OUTPUT_EOF)
  {
    if c.raw == [] then []
    else if UseCopy(c) then CopyChunks(e.srcPos, c.raw)
    else LzmaHeader(e, |c.raw|, |c.packed|) + c.packed
  }

  function AfterSubblock(e: Enc, c: Coded): Enc {
    if c.raw == [] then e
    else if UseCopy(c) then e.(srcPos := e.srcPos + |c.raw|)
    else e.(srcPos := e.srcPos + |c.raw|, needInitState := false, needInitProp := false)
  }

  // ----- the encoder -----

  class Encoder {
    var propsByte: byte
    var needInitState: bool
    var needInitProp: bool
    var srcPos: nat
    /** What was written to outBuf or outStream. */
    var out: seq<byte>

    function Abs(): Enc
      reads this
    {
      Enc(propsByte, needInitState, needInitProp, srcPos)
    }

    constructor (propsByte: byte)
      ensures Abs() == InitBlock(Enc(propsByte, true, true, 0)) && out == []
    {
      this.propsByte, needInitState, needInitProp, srcPos, out := propsByte, true, true, 0, [];
    }

    method StartBlock()
      modifies this
      ensures Abs() == InitBlock(old(Abs())) && out == old(out)
    {
      srcPos, needInitState, needInitProp := 0, true, true;
    }

    /** The loop that writes the input as copy chunks. */
    method CopyBlock(packSizeLimit: nat, toStream: bool, raw: seq<byte>) returns (res: int, packSizeRes: nat)
      modifies this`out, this`srcPos
      ensures res == SZ_OK || res == SZ_ERROR_OUTPUT_EOF
      ensures res == SZ_OK ==>
                && out == old(out) + CopyChunks(old(srcPos), raw) && packSizeRes == |CopyChunks(old(srcPos), raw)|
                && srcPos == old(srcPos) + |raw| && (!toStream ==> packSizeRes <= packSizeLimit)
    {
      hide CopyHeader, CopyChunks;
      var done, destPos := 0, 0;
      packSizeRes := 0;
      ghost var written: seq<byte> := [];
      assert raw[0..] == raw && [] + CopyChunks(srcPos, raw) == CopyChunks(srcPos, raw);
      while done < |raw|
        invariant done <= |raw| && srcPos == old(srcPos) + done && out == old(out) + written && packSizeRes == |written|
        invariant !toStream ==> destPos == packSizeRes <= packSizeLimit
        invariant written + CopyChunks(srcPos, raw[done..]) == CopyChunks(old(srcPos), raw)
      {
        var left := |raw| - done;
        var u := if left < PACK_SIZE_MAX then left else PACK_SIZE_MAX;
        if packSizeLimit < destPos + u + 3 { return SZ_ERROR_OUTPUT_EOF, packSizeRes; }
        var chunk := CopyHeader(srcPos == 0, u) + raw[done..done + u];
        FirstChunk(srcPos, raw, done);
        out := out + chunk;
        packSizeRes := packSizeRes + |chunk|;
        destPos := if toStream then 0 else destPos + |chunk|;
        srcPos := srcPos + u;
        done := done + u;
        assert written + (chunk + CopyChunks(srcPos, raw[done..])) == (written + chunk)
            + CopyChunks(srcPos, raw[done..]);
        written := written + chunk;
      }
      NoChunk(srcPos, raw[done..]);
      assert written + [] == written;
      return SZ_OK, packSizeRes;
    }

    /** Lzma2EncInt_EncodeSubblock; packSizeLimit is the room of outBuf, toStream tells whether it is emptied
        after each chunk. */
    method EncodeSubblock(packSizeLimit: nat, toStream: bool, c: Coded) returns (res: int, packSizeRes: nat)
      requires packSizeLimit >= HeaderSize(Abs()) ==> Contract(c, packSizeLimit - HeaderSize(Abs()))
      modifies this
      ensures packSizeLimit < HeaderSize(old(Abs())) ==> res == SZ_ERROR_OUTPUT_EOF
      ensures propsByte == old(propsByte)
      ensures res == SZ_OK ==>
                && Contract(c, |c.packed|) && (c.res == SZ_OK || (c.res == SZ_ERROR_OUTPUT_EOF && c.raw != []))
                && out == old(out) + Subblock(old(Abs()), c)
                && Abs() == AfterSubblock(old(Abs()), c) && packSizeRes == |Subblock(old(Abs()), c)|
                && (!toStream ==> packSizeRes <= packSizeLimit)
    {
      hide CopyHeader, CopyChunks, Mode;
      var lzHeaderSize := 5 + if needInitProp then 1 else 0;
      if packSizeLimit < lzHeaderSize { return SZ_ERROR_OUTPUT_EOF, 0; }
      if c.raw == [] { return c.res, 0; }
      if c.res != SZ_OK && c.res != SZ_ERROR_OUTPUT_EOF { return c.res, 0; }
      if c.res != SZ_OK || |c.packed| + 2 >= |c.raw| || |c.packed| > PACK_SIZE_MAX {
        res, packSizeRes := CopyBlock(packSizeLimit, toStream, c.raw);
        return;
      }
      var header := LzmaHeader(Abs(), |c.raw|, |c.packed|);
      out := out + (header + c.packed);
      packSizeRes := |header| + |c.packed|;
      needInitProp := false;
      needInitState := false;
      srcPos := srcPos + |c.raw|;
      return SZ_OK, packSizeRes;
    }
  }

  lemma FirstChunk(srcPos: nat, raw: seq<byte>, done: nat)
    requires done < |raw|
    ensures var u := Min(|raw| - done, PACK_SIZE_MAX);
            0 < u && CopyChunks(srcPos, raw[done..]) == CopyHeader(srcPos == 0, u) + raw[done..done + u]
                + CopyChunks(srcPos + u, raw[done + u..])
  {
    var u := Min(|raw| - done, PACK_SIZE_MAX);
    assert raw[done..][..u] == raw[done..done + u] && raw[done..][u..] == raw[done + u..];
  }

  lemma NoChunk(srcPos: nat, raw: seq<byte>)
    requires raw == []
    ensures CopyChunks(srcPos, raw) == []
  {}
}
