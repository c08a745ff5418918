/** The table of folders that the scan leaves, and the checks of SzAr_DecodeFolder in compression/LZMA/7zDec.c. */
module SzTable {
  import opened Bytes
  import opened SzNumber
  import opened SzFolder
  import opened SzLockstep
  import opened SzRead

  /** The scan of the folder at offset `from` ended at offset `to`. */
  ghost predicate ScannedAs(buffer: seq<byte>, from: nat, to: nat, r: Scanned) {
    from <= to <= |buffer| && Scan(buffer[from..]) == Ok(r, buffer[to..])
  }

  lemma ScanStops(buffer: seq<byte>, from: nat)
    requires from <= |buffer| && Scan(buffer[from..]).Ok?
    ensures var rest := Scan(buffer[from..]).rest;
            |rest| <= |buffer| - from && rest == buffer[|buffer| - |rest|..]
            && ScannedAs(buffer, from, |buffer| - |rest|, Scan(buffer[from..]).value)
  {
    hide Scan;
    ScanTail(buffer[from..]);
    var rest := Scan(buffer[from..]).rest;
    assert buffer[from..][|buffer| - from - |rest|..] == buffer[|buffer| - |rest|..];
  }

  /** Lockstep for a slice of the stored coder data, which ends where the last folder does. */
  lemma SliceInStep(buffer: seq<byte>, data: seq<byte>, from: nat, to: nat, r: Scanned)
    requires ScannedAs(buffer, from, to, r) && to <= |data| && data <= buffer
    requires Item(data[from..to], to - from).Ok?
    ensures var a := Item(data[from..to], to - from);
            a.rest == [] && a.value.UnpackStream == r.main
            && |a.value.PackStreams| == r.numPackStreams && |a.value.Coders| == r.numCoders
  {
    hide Item, Scan;
    assert buffer[from..] == data[from..to] + buffer[to..] by {
      assert data[from..to] == buffer[from..to];
    }
    Lockstep(buffer[from..], data[from..to]);
  }

  datatype Outcome = Ready(folder: Folder) | Refused(fault: Fault) | Fail

  /** The recorded rows are what was seen: where each folder ends, and the sums of pack streams and coders. */
  ghost predicate Row(buffer: seq<byte>, seen: seq<Scanned>, offsets: seq<nat>, packs: seq<nat>, sizes: seq<nat>,
                      mains: seq<nat>, fo: nat)
    requires |offsets| == |packs| == |sizes| == |seen| + 1 && |mains| == |seen|
    requires fo < |seen|
  {
    && ScannedAs(buffer, offsets[fo], offsets[fo + 1], seen[fo]) && mains[fo] == seen[fo].main
    && packs[fo + 1] == packs[fo] + seen[fo].numPackStreams && sizes[fo + 1] == sizes[fo] + seen[fo].numCoders
  }

  ghost predicate Rows(buffer: seq<byte>, seen: seq<Scanned>, offsets: seq<nat>,
                       packs: seq<nat>, sizes: seq<nat>, mains: seq<nat>) {
    && |offsets| == |packs| == |sizes| == |seen| + 1 && |mains| == |seen|
    && offsets[0] == packs[0] == sizes[0] == 0
    && forall fo: nat :: fo < |seen| ==> Row(buffer, seen, offsets, packs, sizes, mains, fo)
  }

  lemma RowsMore(buffer: seq<byte>, seen: seq<Scanned>, offsets: seq<nat>, packs: seq<nat>, sizes: seq<nat>,
                 mains: seq<nat>, r: Scanned, to: nat)
    requires Rows(buffer, seen, offsets, packs, sizes, mains) && ScannedAs(buffer, offsets[|seen|], to, r)
    ensures Rows(buffer, seen + [r], offsets + [to], packs + [packs[|seen|] + r.numPackStreams],
            sizes + [sizes[|seen|] + r.numCoders], mains + [r.main])
  {
    hide ScannedAs;
    var seen', offsets', mains' := seen + [r], offsets + [to], mains + [r.main];
    var packs', sizes' := packs + [packs[|seen|] + r.numPackStreams], sizes + [sizes[|seen|] + r.numCoders];
    forall fo: nat | fo < |seen'| ensures Row(buffer, seen', offsets', packs', sizes', mains', fo) {
      if fo < |seen| { assert Row(buffer, seen, offsets, packs, sizes, mains, fo); }
    }
  }

  lemma RowsStart(buffer: seq<byte>)
    ensures Rows(buffer, [], [0], [0], [0], [])
  {}

  lemma RowsEnd(buffer: seq<byte>, seen: seq<Scanned>, offsets: seq<nat>,
                packs: seq<nat>, sizes: seq<nat>, mains: seq<nat>)
    requires Rows(buffer, seen, offsets, packs, sizes, mains)
    ensures |offsets| == |packs| == |sizes| == |seen| + 1 && |mains| == |seen|
  {}

  /** The offsets never go back. */
  lemma {:induction false} OffsetsRise(buffer: seq<byte>, seen: seq<Scanned>, offsets: seq<nat>, packs: seq<nat>,
                                       sizes: seq<nat>, mains: seq<nat>, fo: nat)
    requires Rows(buffer, seen, offsets, packs, sizes, mains) && fo <= |seen|
    ensures offsets[fo] <= offsets[|seen|]
    decreases |seen| - fo
  {
    if fo < |seen| {
      assert Row(buffer, seen, offsets, packs, sizes, mains, fo);
      OffsetsRise(buffer, seen, offsets, packs, sizes, mains, fo + 1);
    }
  }

  /** The fields of CSzAr that ReadUnpackInfo fills while it scans the folders. */
  class FolderTable {
    var CodersData: seq<byte>
    var FoCodersOffsets: seq<nat>
    var FoStartPackStreamIndex: seq<nat>
    var FoToCoderUnpackSizes: seq<nat>
    var FoToMainUnpackSizeIndex: seq<nat>
    /** What the scan was given and what it saw. */
    ghost var buffer: seq<byte>
    ghost var seen: seq<Scanned>

    ghost predicate Valid()
      reads this
    {
      && Rows(buffer, seen, FoCodersOffsets, FoStartPackStreamIndex, FoToCoderUnpackSizes, FoToMainUnpackSizeIndex)
      && CodersData <= buffer && |CodersData| == FoCodersOffsets[|seen|]
    }

    constructor ()
      ensures Valid() && seen == []
    {
      CodersData, FoCodersOffsets, FoStartPackStreamIndex, FoToCoderUnpackSizes := [], [0], [0], [0];
      FoToMainUnpackSizeIndex := [];
      buffer, seen := [], [];
      new;
      RowsStart([]);
    }

    /** The loop over the folders in ReadUnpackInfo, on a data block of its own or the rest of the header. */
    method ReadFolders(sd: SzData, numFolders: nat, numPackStreams: nat) returns (ok: bool, fault: Fault)
      modifies this, sd
      ensures ok ==>
                && Valid() && |seen| == numFolders && buffer == old(sd.Data) && |CodersData| <= |buffer|
                && sd.Data == buffer[|CodersData|..]
    {
      hide Scan, ScannedAs, Rows;
      var startBuf := sd.Data;
      FoCodersOffsets, FoStartPackStreamIndex, FoToCoderUnpackSizes, FoToMainUnpackSizeIndex := [], [], [], [];
      buffer, seen := sd.Data, [];
      var packStreamIndex: nat, numCodersOutStreams: nat, fo := 0, 0, 0;
      fault := Archive;
      RowsStart(startBuf);
      assert startBuf[0..] == startBuf;
      assert [] + [0] == [0];
      while fo < numFolders
        invariant fo == |seen| <= numFolders && buffer == startBuf && packStreamIndex <= numPackStreams
                  && numCodersOutStreams < TWO32
        invariant |sd.Data| <= |startBuf| && sd.Data == startBuf[|startBuf| - |sd.Data|..]
        invariant Rows(startBuf, seen, FoCodersOffsets + [|startBuf| - |sd.Data|],
                  FoStartPackStreamIndex + [packStreamIndex],
                       FoToCoderUnpackSizes + [numCodersOutStreams], FoToMainUnpackSizeIndex)
      {
        ghost var pos: nat := |startBuf| - |sd.Data|;
        RowsEnd(startBuf, seen, FoCodersOffsets + [pos], FoStartPackStreamIndex + [packStreamIndex],
                FoToCoderUnpackSizes + [numCodersOutStreams], FoToMainUnpackSizeIndex);
        FoCodersOffsets := FoCodersOffsets + [|startBuf| - |sd.Data|];
        var r;
        ok, fault, r := PassFolder(sd);
        if !ok { return; }
        ScanStops(startBuf, pos);
        ghost var to: nat := |startBuf| - |sd.Data|;
        RowsMore(startBuf, seen, FoCodersOffsets, FoStartPackStreamIndex + [packStreamIndex],
                 FoToCoderUnpackSizes + [numCodersOutStreams], FoToMainUnpackSizeIndex, r, to);
        FoStartPackStreamIndex := FoStartPackStreamIndex + [packStreamIndex];
        FoToCoderUnpackSizes := FoToCoderUnpackSizes + [numCodersOutStreams];
        FoToMainUnpackSizeIndex := FoToMainUnpackSizeIndex + [r.main];
        seen := seen + [r];
        numCodersOutStreams := (numCodersOutStreams + r.numCoders) % TWO32;
        if numCodersOutStreams < r.numCoders { return false, Unsupported; }
        if r.numPackStreams > numPackStreams - packStreamIndex { return false, Archive; }
        packStreamIndex := packStreamIndex + r.numPackStreams;
        fo := fo + 1;
      }
      var dataSize := |startBuf| - |sd.Data|;
      FoToCoderUnpackSizes := FoToCoderUnpackSizes + [numCodersOutStreams];
      FoStartPackStreamIndex := FoStartPackStreamIndex + [packStreamIndex];
      FoCodersOffsets := FoCodersOffsets + [dataSize];
      CodersData := startBuf[..dataSize];
      RowsEnd(startBuf, seen, FoCodersOffsets, FoStartPackStreamIndex, FoToCoderUnpackSizes, FoToMainUnpackSizeIndex);
      ok := true;
    }

    /** The start of SzAr_DecodeFolder: what is handed to the decoder. The stored slice that both parsers accept
        leaves nothing over and has the recorded main coder, so SZ_ERROR_FAIL is never returned here. */
    method OpenFolder(folderIndex: nat) returns (res: Outcome)
      requires Valid() && folderIndex < |seen|
      ensures res != Fail
      ensures res.Ready? ==> res.folder.UnpackStream == FoToMainUnpackSizeIndex[folderIndex]
      ensures res.Ready? ==>
              FoStartPackStreamIndex[folderIndex] + |res.folder.PackStreams| == FoStartPackStreamIndex[folderIndex + 1]
      ensures res.Ready? ==>
              FoToCoderUnpackSizes[folderIndex] + |res.folder.Coders| == FoToCoderUnpackSizes[folderIndex + 1]
    {
      hide Item, Scan;
      var from, to := FoCodersOffsets[folderIndex], FoCodersOffsets[folderIndex + 1];
      assert Row(buffer, seen, FoCodersOffsets, FoStartPackStreamIndex,
          FoToCoderUnpackSizes, FoToMainUnpackSizeIndex, folderIndex);
      OffsetsRise(buffer, seen, FoCodersOffsets, FoStartPackStreamIndex,
          FoToCoderUnpackSizes, FoToMainUnpackSizeIndex, folderIndex + 1);
      var sd := new SzData(CodersData[from..to]);
      var ok, fault, folder := GetNextFolderItem(sd);
      if !ok { return Refused(fault); }
      SliceInStep(buffer, CodersData, from, to, seen[folderIndex]);
      if |sd.Data| != 0 || folder.UnpackStream != FoToMainUnpackSizeIndex[folderIndex] { return Fail; }
      res := Ready(folder);
    }
  }
}
