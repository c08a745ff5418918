/** The methods of both parsers: one record, read by SzGetNextFolderItem or passed over by the scan of
    ReadUnpackInfo. */
module SzRead {
  import opened Bytes
  import opened SzNumber
  import opened SzFolder
  import opened SzParse

  /** Bonds and pack streams in SzGetNextFolderItem. */
  method GetLinks(sd: SzData, coders: seq<Coder>, numInStreams: nat) returns (ok: bool, fault: Fault, f: Folder)
    requires 0 < |coders| <= NUM_CODERS_MAX && numInStreams <= NUM_STREAMS_MAX
    modifies sd
    ensures var r := ItemLinks(old(sd.Data), coders, numInStreams);
            if ok then r == Ok(f, sd.Data) else r == Err(fault)
  {
    hide ReadBonds, ReadPacks, LeastFree, Unused;
    f := Folder([], [], [], 0);
    var numCoders := |coders|;
    var streamUsed := new bool[NUM_STREAMS_MAX];
    var numBonds := numCoders - 1;
    if numInStreams < numBonds { return false, Archive, f; }
    var numPackStreams := numInStreams - numBonds;
    if numPackStreams > NUM_PACK_STREAMS_MAX { return false, Unsupported, f; }
    Clear(streamUsed, numInStreams);
    var bonds, packs, main := [], [], 0;
    if numBonds != 0 {
      var coderUsed := new bool[NUM_CODERS_MAX];
      Clear(coderUsed, numCoders);
      ok, fault, bonds := GetBonds(sd, numBonds, streamUsed, numInStreams, coderUsed, numCoders);
      if !ok { return; }
      main := FindFree(coderUsed, numCoders);
      if main == numCoders { return false, Archive, f; }
    } else {
      NoBonds(sd.Data, numInStreams);
    }
    ok, fault, packs := GetPackStreams(sd, numPackStreams, streamUsed, numInStreams);
    if !ok { return; }
    f := Folder(coders, bonds, packs, main);
  }

  /** A single pack stream is not stored: it is the stream without a bond. */
  method GetPackStreams(sd: SzData, numPackStreams: nat, streamUsed: array<bool>, numInStreams: nat)
    returns (ok: bool, fault: Fault, packs: seq<nat>)
    requires numInStreams <= streamUsed.Length
    modifies sd, streamUsed
    ensures var used := old(streamUsed[..numInStreams]);
            var r := if numPackStreams != 1 then ReadPacks(old(sd.Data), numPackStreams, used)
                     else if LeastFree(used) == numInStreams then Err(Archive) else Ok([LeastFree(used)], old(sd.Data));
            if ok then r == Ok(packs, sd.Data) else r == Err(fault)
  {
    hide ReadPacks, LeastFree;
    if numPackStreams == 1 {
      var i := FindFree(streamUsed, numInStreams);
      if i == numInStreams { return false, Archive, []; }
      return true, Archive, [i];
    }
    ok, fault, packs := GetPacks(sd, numPackStreams, streamUsed, numInStreams);
  }

  lemma NoBonds(s: seq<byte>, numIn: nat)
    ensures ReadBonds(s, 0, Unused(numIn), Unused(1)) == Ok(([], Unused(numIn), Unused(1)), s)
            && LeastFree(Unused(1)) == 0
  {
    assert Unused(0) == [] && Unused(1) == [false];
  }

  /** SzGetNextFolderItem. */
  method GetNextFolderItem(sd: SzData) returns (ok: bool, fault: Fault, f: Folder)
    modifies sd
    ensures var r := Item(old(sd.Data), |old(sd.Data)|);
            if ok then r == Ok(f, sd.Data) else r == Err(fault)
  {
    hide Number32, ItemCoders, ItemLinks;
    f := Folder([], [], [], 0);
    var dataSize := |sd.Data|;
    var numCoders, coders, numInStreams;
    ok, numCoders, fault := sd.ReadNumber32();
    if !ok { return; }
    if numCoders == 0 || numCoders > NUM_CODERS_MAX { return false, Unsupported, f; }
    ok, fault, coders, numInStreams := GetCoders(sd, numCoders, dataSize);
    if !ok { return; }
    ok, fault, f := GetLinks(sd, coders, numInStreams);
  }

  lemma ScanCodersStep(s: seq<byte>, n: nat)
    requires n > 0
    ensures ScanCoders(s, n) ==
            match ScanCoder(s)
            case Err(f) => Err(f)
            case Ok(streams, rest) =>
              match ScanCoders(rest, n - 1)
              case Err(f) => Err(f)
              case Ok(more, rest') => Ok(streams + more, rest')
  {
    hide CoderHead, Streams, Props;
  }

  function ScanCoder(s: seq<byte>): Read<nat> {
    match CoderHead(s)
    case Err(f) => Err(f)
    case Ok(head, s1) =>
      match Streams(s1, head.mainByte, SCAN_NUM_STREAMS_MAX, false)
      case Err(f) => Err(f)
      case Ok(streams, s2) =>
        match Props(s2, head.mainByte)
        case Err(f) => Err(f)
        case Ok(_, s3) => Ok(streams, s3)
  }

  /** A coder in the scan. */
  method PassCoder(sd: SzData) returns (ok: bool, fault: Fault, coderInStreams: nat)
    modifies sd
    ensures if ok then ScanCoder(old(sd.Data)) == Ok(coderInStreams, sd.Data) else ScanCoder(old(sd.Data)) == Err(fault)
  {
    hide CoderHead, Number32;
    coderInStreams := 1;
    var mainByte, coderOutStreams, propsSize;
    ok, fault, mainByte := GetMainByte(sd);
    if !ok { return; }
    sd.Data := sd.Data[mainByte as int % 16..];
    if IsComplex(mainByte) {
      ok, coderInStreams, fault := sd.ReadNumber32();
      if !ok { return; }
      ok, coderOutStreams, fault := sd.ReadNumber32();
      if !ok { return; }
      if coderInStreams > SCAN_NUM_STREAMS_MAX || coderOutStreams != 1 { return false, Unsupported, coderInStreams; }
    }
    if HasProps(mainByte) {
      ok, propsSize, fault := sd.ReadNumber32();
      if !ok { return; }
      if propsSize > |sd.Data| { return false, Archive, coderInStreams; }
      sd.Data := sd.Data[propsSize..];
    }
    ok := true;
  }

  function Added(n: nat, r: Read<nat>): Read<nat> {
    if r.Ok? then Ok(n + r.value, r.rest) else r
  }

  method PassCoders(sd: SzData, numCoders: nat) returns (ok: bool, fault: Fault, numInStreams: nat)
    modifies sd
    ensures var r := ScanCoders(old(sd.Data), numCoders);
            if ok then r == Ok(numInStreams, sd.Data) else r == Err(fault)
  {
    hide ScanCoder, ScanCoders;
    numInStreams, fault := 0, Archive;
    var ci := 0;
    while ci < numCoders
      invariant ci <= numCoders
      invariant Added(numInStreams, ScanCoders(sd.Data, numCoders - ci)) == ScanCoders(old(sd.Data), numCoders)
    {
      ScanCodersStep(sd.Data, numCoders - ci);
      var coderInStreams;
      ok, fault, coderInStreams := PassCoder(sd);
      if !ok { return; }
      numInStreams := numInStreams + coderInStreams;
      ci := ci + 1;
    }
    NoCoders(sd.Data);
    ok := true;
  }

  lemma NoCoders(s: seq<byte>)
    ensures ScanCoders(s, 0) == Ok(0, s)
  {}

  /** Bonds and pack streams in the scan. */
  method PassLinks(sd: SzData, numCoders: nat, numInStreams: nat)
    returns (ok: bool, fault: Fault, numPackStreams: nat, main: nat)
    requires 0 < numCoders <= SCAN_NUM_CODERS_MAX
    modifies sd
    ensures var r := ScanLinks(old(sd.Data), numCoders, numInStreams);
            if ok then r == Ok(Scanned(numCoders, numPackStreams, main), sd.Data) else r == Err(fault)
  {
    hide ReadBonds, ReadPacks, LeastFree, Unused;
    main, numPackStreams, fault := 0, 1, Archive;
    if numCoders != 1 || numInStreams != 1 {
      var streamUsed := new bool[SCAN_NUM_STREAMS_MAX];
      var coderUsed := new bool[SCAN_NUM_CODERS_MAX];
      var numBonds := numCoders - 1;
      if numInStreams < numBonds { return false, Archive, 1, 0; }
      if numInStreams > SCAN_NUM_STREAMS_MAX { return false, Unsupported, 1, 0; }
      Clear(streamUsed, numInStreams);
      Clear(coderUsed, numCoders);
      var bonds, packs;
      ok, fault, bonds := GetBonds(sd, numBonds, streamUsed, numInStreams, coderUsed, numCoders);
      if !ok { return; }
      numPackStreams := numInStreams - numBonds;
      if numPackStreams != 1 {
        ok, fault, packs := GetPacks(sd, numPackStreams, streamUsed, numInStreams);
        if !ok { return; }
      }
      main := FindFree(coderUsed, numCoders);
      if main == numCoders { return false, Archive, 1, 0; }
    }
    ok := true;
  }

  /** One round of the loop over the folders in ReadUnpackInfo. */
  method PassFolder(sd: SzData) returns (ok: bool, fault: Fault, r: Scanned)
    modifies sd
    ensures if ok then Scan(old(sd.Data)) == Ok(r, sd.Data) else Scan(old(sd.Data)) == Err(fault)
  {
    hide Number32, ScanCoders, ScanLinks;
    r := Scanned(0, 0, 0);
    var numCoders, numInStreams, numPackStreams, main;
    ok, numCoders, fault := sd.ReadNumber32();
    if !ok { return; }
    if numCoders == 0 || numCoders > SCAN_NUM_CODERS_MAX { return false, Unsupported, r; }
    ok, fault, numInStreams := PassCoders(sd, numCoders);
    if !ok { return; }
    ok, fault, numPackStreams, main := PassLinks(sd, numCoders, numInStreams);
    if !ok { return; }
    r := Scanned(numCoders, numPackStreams, main);
  }
}
