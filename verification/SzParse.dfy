/** SzGetNextFolderItem and the folder loop of ReadUnpackInfo, compression/LZMA/7zArcIn.c. */
module SzParse {
  import opened Bytes
  import opened RangeCoder
  import opened SzNumber
  import opened SzFolder

  /** The main byte of a coder, checked; the id bytes are still ahead. */
  method GetMainByte(sd: SzData) returns (ok: bool, fault: Fault, mainByte: byte)
    modifies sd
    ensures if ok then
              old(sd.Data) != [] && sd.Data == old(sd.Data)[1..] && mainByte == old(sd.Data)[0]
              && mainByte as int % 16 <= |sd.Data|
              && CoderHead(old(sd.Data)) == Ok(Head(mainByte, sd.Data[..mainByte as int % 16]),
                  sd.Data[mainByte as int % 16..])
            else CoderHead(old(sd.Data)) == Err(fault)
  {
    ok, mainByte := sd.ReadByte();
    if !ok { return false, Archive, 0; }
    if mainByte >= 0x40 { return false, Unsupported, 0; }
    var idSize := mainByte as int % 16;
    if idSize > 8 { return false, Unsupported, 0; }
    if idSize > |sd.Data| { return false, Archive, 0; }
    fault := Archive;
    ghost var s := old(sd.Data);
    assert s[1..][..idSize] == s[1..1 + idSize] && s[1..][idSize..] == s[1 + idSize..];
  }

  /** The id, highest byte first. */
  method GetId(sd: SzData, idSize: nat) returns (id: nat)
    requires idSize <= |sd.Data|
    modifies sd
    ensures id == Val(old(sd.Data)[..idSize]) && sd.Data == old(sd.Data)[idSize..]
  {
    hide Val;
    ghost var s := sd.Data;
    id := 0;
    var j := 0;
    ValEmpty();
    while j < idSize
      invariant j <= idSize && sd.Data == s[j..] && id == Val(s[..j])
    {
      ValAppend(s[..j], s[j]);
      assert s[..j] + [s[j]] == s[..j + 1];
      var _, b := sd.ReadByte();
      id := 256 * id + b;
      j := j + 1;
    }
  }

  lemma ValEmpty()
    ensures forall s: seq<byte> :: |s| == 0 ==> Val(s) == 0
  {}

  /** A coder in SzGetNextFolderItem. */
  method GetCoder(sd: SzData, numIn: nat, dataSize: nat) returns (ok: bool, fault: Fault, c: Coder)
    modifies sd
    ensures if ok then ItemCoder(old(sd.Data), numIn, dataSize) == Ok(c, sd.Data)
            else ItemCoder(old(sd.Data), numIn, dataSize) == Err(fault)
  {
    hide Val, CoderHead, Number32;
    c := Coder(0, 1, 0, 0);
    var mainByte, numStreams, propsSize;
    ok, fault, mainByte := GetMainByte(sd);
    if !ok { return; }
    var id := GetId(sd, mainByte as int % 16);
    if id > 0xFFFF_FFFF { return false, Unsupported, c; }
    c := c.(MethodID := id);
    if IsComplex(mainByte) {
      ok, numStreams, fault := sd.ReadNumber32();
      if !ok { return; }
      if numStreams > NUM_STREAMS_MAX { return false, Unsupported, c; }
      c := c.(NumStreams := numStreams);
      ok, numStreams, fault := sd.ReadNumber32();
      if !ok { return; }
      if numStreams != 1 { return false, Unsupported, c; }
    }
    if numIn + c.NumStreams > NUM_STREAMS_MAX { return false, Unsupported, c; }
    if HasProps(mainByte) {
      ok, propsSize, fault := sd.ReadNumber32();
      if !ok { return; }
      if propsSize > |sd.Data| { return false, Archive, c; }
      if propsSize >= 0x80 { return false, Unsupported, c; }
      c := c.(PropsOffset := if dataSize >= |sd.Data| then dataSize - |sd.Data| else 0, PropsSize := propsSize);
      sd.Data := sd.Data[propsSize..];
    }
    ok := true;
  }

  /** The coders read so far, and those still to come. */
  function AfterCoders(cs: seq<Coder>, r: Read<(seq<Coder>, nat)>): Read<(seq<Coder>, nat)> {
    if r.Ok? then Ok((cs + r.value.0, r.value.1), r.rest) else r
  }

  lemma CodersStep(cs: seq<Coder>, s: seq<byte>, n: nat, numIn: nat, total: nat)
    requires n > 0
    ensures var c := ItemCoder(s, numIn, total);
            AfterCoders(cs, ItemCoders(s, n, numIn, total))
            == if c.Err? then Err(c.fault)
               else AfterCoders(cs + [c.value], ItemCoders(c.rest, n - 1, numIn + c.value.NumStreams, total))
  {
    hide ItemCoder;
    var c := ItemCoder(s, numIn, total);
    if c.Ok? {
      var r := ItemCoders(c.rest, n - 1, numIn + c.value.NumStreams, total);
      if r.Ok? { assert cs + ([c.value] + r.value.0) == cs + [c.value] + r.value.0; }
    }
  }

  lemma CodersEnds(cs: seq<Coder>, s: seq<byte>, n: nat, numIn: nat, total: nat)
    ensures AfterCoders([], ItemCoders(s, n, numIn, total)) == ItemCoders(s, n, numIn, total)
    ensures AfterCoders(cs, ItemCoders(s, 0, numIn, total)) == Ok((cs, numIn), s)
  {
    var r := ItemCoders(s, n, numIn, total);
    if r.Ok? { assert [] + r.value.0 == r.value.0; }
    assert cs + [] == cs;
  }

  method GetCoders(sd: SzData, numCoders: nat, dataSize: nat)
    returns (ok: bool, fault: Fault, coders: seq<Coder>, numInStreams: nat)
    modifies sd
    ensures var r := ItemCoders(old(sd.Data), numCoders, 0, dataSize);
            if ok then r == Ok((coders, numInStreams), sd.Data) else r == Err(fault)
  {
    hide ItemCoder, ItemCoders, AfterCoders;
    coders, numInStreams, fault := [], 0, Archive;
    var i := 0;
    CodersEnds([], sd.Data, numCoders, 0, dataSize);
    while i < numCoders
      invariant i <= numCoders
      invariant AfterCoders(coders, ItemCoders(sd.Data, numCoders - i, numInStreams, dataSize))
                == ItemCoders(old(sd.Data), numCoders, 0, dataSize)
    {
      CodersStep(coders, sd.Data, numCoders - i, numInStreams, dataSize);
      var coder;
      ok, fault, coder := GetCoder(sd, numInStreams, dataSize);
      if !ok { return; }
      coders := coders + [coder];
      numInStreams := numInStreams + coder.NumStreams;
      i := i + 1;
    }
    CodersEnds(coders, sd.Data, 0, numInStreams, dataSize);
    ok := true;
  }

  function AfterBonds(bs: seq<Bond>, r: Read<(seq<Bond>, seq<bool>, seq<bool>)>): Read<(seq<Bond>,
        seq<bool>, seq<bool>)> {
    if r.Ok? then Ok((bs + r.value.0, r.value.1, r.value.2), r.rest) else r
  }

  lemma BondsStep(bs: seq<Bond>, s: seq<byte>, n: nat, su: seq<bool>, cu: seq<bool>)
    requires n > 0
    ensures var all := AfterBonds(bs, ReadBonds(s, n, su, cu));
            var i := Number32(s);
            if i.Err? then all == Err(i.fault)
            else if i.value >= |su| || su[i.value] then all == Err(Archive)
            else
              var o := Number32(i.rest);
              if o.Err? then all == Err(o.fault)
              else if o.value >= |cu| || cu[o.value] then all == Err(Archive)
              else all == AfterBonds(bs + [Bond(i.value, o.value)],
                  ReadBonds(o.rest, n - 1, su[i.value := true], cu[o.value := true]))
  {
    hide Number32;
    var i := Number32(s);
    if i.Ok? && i.value < |su| && !su[i.value] {
      var o := Number32(i.rest);
      if o.Ok? && o.value < |cu| && !cu[o.value] {
        var r := ReadBonds(o.rest, n - 1, su[i.value := true], cu[o.value := true]);
        var b := Bond(i.value, o.value);
        if r.Ok? { assert bs + ([b] + r.value.0) == bs + [b] + r.value.0; }
      }
    }
  }

  lemma BondsEnds(bs: seq<Bond>, s: seq<byte>, n: nat, su: seq<bool>, cu: seq<bool>)
    ensures AfterBonds([], ReadBonds(s, n, su, cu)) == ReadBonds(s, n, su, cu)
    ensures AfterBonds(bs, ReadBonds(s, 0, su, cu)) == Ok((bs, su, cu), s)
  {
    var r := ReadBonds(s, n, su, cu);
    if r.Ok? { assert [] + r.value.0 == r.value.0; }
    assert bs + [] == bs;
  }

  /** The loop over the bonds, which both parsers have; bonds is only kept by SzGetNextFolderItem. */
  method GetBonds(sd: SzData, numBonds: nat, streamUsed: array<bool>,
                  numInStreams: nat, coderUsed: array<bool>, numCoders: nat)
    returns (ok: bool, fault: Fault, bonds: seq<Bond>)
    requires numInStreams <= streamUsed.Length && numCoders <= coderUsed.Length && streamUsed != coderUsed
    modifies sd, streamUsed, coderUsed
    ensures var r := ReadBonds(old(sd.Data), numBonds, old(streamUsed[..numInStreams]), old(coderUsed[..numCoders]));
            if ok then r == Ok((bonds, streamUsed[..numInStreams], coderUsed[..numCoders]), sd.Data)
                else r == Err(fault)
  {
    hide ReadBonds, AfterBonds, Number32;
    bonds, fault := [], Archive;
    var i := 0;
    BondsEnds([], sd.Data, numBonds, streamUsed[..numInStreams], coderUsed[..numCoders]);
    ghost var all := ReadBonds(sd.Data, numBonds, streamUsed[..numInStreams], coderUsed[..numCoders]);
    while i < numBonds
      invariant i <= numBonds
      invariant AfterBonds(bonds, ReadBonds(sd.Data, numBonds - i, streamUsed[..numInStreams], coderUsed[..numCoders]))
                == all
    {
      BondsStep(bonds, sd.Data, numBonds - i, streamUsed[..numInStreams], coderUsed[..numCoders]);
      var inIndex, outIndex;
      ok, inIndex, fault := sd.ReadNumber32();
      if !ok { return; }
      if inIndex >= numInStreams || streamUsed[inIndex] { return false, Archive, bonds; }
      ok, outIndex, fault := sd.ReadNumber32();
      if !ok { return; }
      if outIndex >= numCoders || coderUsed[outIndex] { return false, Archive, bonds; }
      ghost var su, cu := streamUsed[..numInStreams], coderUsed[..numCoders];
      streamUsed[inIndex] := true;
      coderUsed[outIndex] := true;
      assert streamUsed[..numInStreams] == su[inIndex := true];
      assert coderUsed[..numCoders] == cu[outIndex := true];
      bonds := bonds + [Bond(inIndex, outIndex)];
      i := i + 1;
    }
    BondsEnds(bonds, sd.Data, 0, streamUsed[..numInStreams], coderUsed[..numCoders]);
    ok := true;
  }

  function AfterPacks(ps: seq<nat>, r: Read<seq<nat>>): Read<seq<nat>> {
    if r.Ok? then Ok(ps + r.value, r.rest) else r
  }

  lemma PacksStep(ps: seq<nat>, s: seq<byte>, n: nat, su: seq<bool>)
    requires n > 0
    ensures var all := AfterPacks(ps, ReadPacks(s, n, su));
            var i := Number32(s);
            if i.Err? then all == Err(i.fault)
            else if i.value >= |su| || su[i.value] then all == Err(Archive)
            else all == AfterPacks(ps + [i.value], ReadPacks(i.rest, n - 1, su[i.value := true]))
  {
    hide Number32;
    var i := Number32(s);
    if i.Ok? && i.value < |su| && !su[i.value] {
      var r := ReadPacks(i.rest, n - 1, su[i.value := true]);
      if r.Ok? { assert ps + ([i.value] + r.value) == ps + [i.value] + r.value; }
    }
  }

  lemma PacksEnds(ps: seq<nat>, s: seq<byte>, n: nat, su: seq<bool>)
    ensures AfterPacks([], ReadPacks(s, n, su)) == ReadPacks(s, n, su)
    ensures AfterPacks(ps, ReadPacks(s, 0, su)) == Ok(ps, s)
  {
    var r := ReadPacks(s, n, su);
    if r.Ok? { assert [] + r.value == r.value; }
    assert ps + [] == ps;
  }

  /** The loop over the pack streams, which both parsers have. */
  method GetPacks(sd: SzData, numPackStreams: nat, streamUsed: array<bool>, numInStreams: nat)
    returns (ok: bool, fault: Fault, packs: seq<nat>)
    requires numInStreams <= streamUsed.Length
    modifies sd, streamUsed
    ensures var r := ReadPacks(old(sd.Data), numPackStreams, old(streamUsed[..numInStreams]));
            if ok then r == Ok(packs, sd.Data) else r == Err(fault)
  {
    hide ReadPacks, AfterPacks, Number32;
    packs, fault := [], Archive;
    var i := 0;
    PacksEnds([], sd.Data, numPackStreams, streamUsed[..numInStreams]);
    ghost var all := ReadPacks(sd.Data, numPackStreams, streamUsed[..numInStreams]);
    while i < numPackStreams
      invariant i <= numPackStreams
      invariant AfterPacks(packs, ReadPacks(sd.Data, numPackStreams - i, streamUsed[..numInStreams])) == all
    {
      PacksStep(packs, sd.Data, numPackStreams - i, streamUsed[..numInStreams]);
      var index;
      ok, index, fault := sd.ReadNumber32();
      if !ok { return; }
      if index >= numInStreams || streamUsed[index] { return false, Archive, packs; }
      ghost var su := streamUsed[..numInStreams];
      streamUsed[index] := true;
      assert streamUsed[..numInStreams] == su[index := true];
      packs := packs + [index];
      i := i + 1;
    }
    PacksEnds(packs, sd.Data, 0, streamUsed[..numInStreams]);
    ok := true;
  }

  /** The first unused of n, or n. */
  method FindFree(used: array<bool>, n: nat) returns (i: nat)
    requires n <= used.Length
    ensures i == LeastFree(used[..n])
  {
    hide LeastFree;
    i := 0;
    while i < n
      invariant i <= n && forall k :: 0 <= k < i ==> used[k]
    {
      if !used[i] { break; }
      i := i + 1;
    }
    assert i < n ==> !used[..n][i];
  }

  /** False for the first n. */
  method Clear(used: array<bool>, n: nat)
    requires n <= used.Length
    modifies used
    ensures used[..n] == Unused(n)
  {
    var i := 0;
    while i < n
      invariant i <= n && forall k :: 0 <= k < i ==> !used[k]
    {
      used[i] := false;
      i := i + 1;
    }
  }
}
