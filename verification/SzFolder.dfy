/** The folder record of a 7z header as its two parsers in compression/LZMA/7zArcIn.c see it: the scan of
    ReadUnpackInfo, and SzGetNextFolderItem. */
module SzFolder {
  import opened Bytes
  import opened RangeCoder
  import opened SzNumber

  const NUM_CODERS_MAX: nat := 4
  const NUM_PACK_STREAMS_MAX: nat := 4
  const NUM_STREAMS_MAX: nat := 7
  const SCAN_NUM_CODERS_MAX: nat := 64
  const SCAN_NUM_STREAMS_MAX: nat := 64

  datatype Coder = Coder(MethodID: nat, NumStreams: nat, PropsOffset: nat, PropsSize: nat)

  datatype Bond = Bond(InIndex: nat, OutIndex: nat)

  datatype Folder = Folder(Coders: seq<Coder>, Bonds: seq<Bond>, PackStreams: seq<nat>, UnpackStream: nat)

  /** The id of a coder, before the flags are looked at. */
  datatype Head = Head(mainByte: byte, id: seq<byte>)

  function CoderHead(s: seq<byte>): (r: Read<Head>)
    ensures r.Ok? ==> |r.value.id| <= 8
  {
    if s == [] then Err(Archive)
    else if s[0] >= 0x40 || s[0] % 16 > 8 then Err(Unsupported)
    else if s[0] as int % 16 > |s| - 1 then Err(Archive)
    else Ok(Head(s[0], s[1..1 + s[0] as int % 16]), s[1 + s[0] as int % 16..])
  }

  predicate IsComplex(mainByte: byte) { mainByte / 0x10 % 2 == 1 }

  predicate HasProps(mainByte: byte) { mainByte / 0x20 % 2 == 1 }

  /** The numbers of streams of a coder: given if it is complex, else one and one. The scan compares the
      first with its limit only after reading the second. */
  function Streams(s: seq<byte>, mainByte: byte, limit: nat, early: bool): Read<nat> {
    if !IsComplex(mainByte) then Ok(1, s) else
    match Number32(s)
    case Err(f) => Err(f)
    case Ok(numIn, rest) =>
      if early && numIn > limit then Err(Unsupported) else
      match Number32(rest)
      case Err(f) => Err(f)
      case Ok(numOut, rest') => if numIn > limit || numOut != 1 then Err(Unsupported) else Ok(numIn, rest')
  }

  /** The properties of a coder: how many bytes, already passed over. */
  function Props(s: seq<byte>, mainByte: byte): Read<nat> {
    if !HasProps(mainByte) then Ok(0, s) else
    match Number32(s)
    case Err(f) => Err(f)
    case Ok(size, rest) => if size > |rest| then Err(Archive) else Ok(size, rest[size..])
  }

  /** The bonds: stream and coder indices, none used twice. */
  function ReadBonds(s: seq<byte>, n: nat, streamUsed: seq<bool>,
                     coderUsed: seq<bool>): (r: Read<(seq<Bond>, seq<bool>, seq<bool>)>)
    ensures r.Ok? ==> |r.value.0| == n && |r.value.1| == |streamUsed| && |r.value.2| == |coderUsed|
    decreases n
  {
    if n == 0 then Ok(([], streamUsed, coderUsed), s) else
    match Number32(s)
    case Err(f) => Err(f)
    case Ok(i, rest) =>
      if i >= |streamUsed| || streamUsed[i] then Err(Archive) else
      match Number32(rest)
      case Err(f) => Err(f)
      case Ok(o, rest') =>
        if o >= |coderUsed| || coderUsed[o] then Err(Archive) else
        match ReadBonds(rest', n - 1, streamUsed[i := true], coderUsed[o := true])
        case Err(f) => Err(f)
        case Ok(all, rest'') => Ok(([Bond(i, o)] + all.0, all.1, all.2), rest'')
  }

  /** The indices of the pack streams. */
  function ReadPacks(s: seq<byte>, n: nat, streamUsed: seq<bool>): (r: Read<seq<nat>>)
    ensures r.Ok? ==> |r.value| == n
    decreases n
  {
    if n == 0 then Ok([], s) else
    match Number32(s)
    case Err(f) => Err(f)
    case Ok(i, rest) =>
      if i >= |streamUsed| || streamUsed[i] then Err(Archive) else
      match ReadPacks(rest, n - 1, streamUsed[i := true])
      case Err(f) => Err(f)
      case Ok(all, rest') => Ok([i] + all, rest')
  }

  /** The first that is not used, or the number of all. */
  function LeastFree(used: seq<bool>): (i: nat)
    ensures i <= |used| && (i < |used| ==> !used[i]) && forall k :: 0 <= k < i ==> used[k]
  {
    if used == [] || !used[0] then 0 else 1 + LeastFree(used[1..])
  }

  function Unused(n: nat): (u: seq<bool>)
    ensures |u| == n && forall k :: 0 <= k < n ==> !u[k]
  {
    if n == 0 then [] else Unused(n - 1) + [false]
  }

  /** A coder in SzGetNextFolderItem; numIn streams came before, and the record began `total` bytes before the end. */
  function ItemCoder(s: seq<byte>, numIn: nat, total: nat): (r: Read<Coder>)
    ensures r.Ok? ==> numIn + r.value.NumStreams <= NUM_STREAMS_MAX
  {
    match CoderHead(s)
    case Err(f) => Err(f)
    case Ok(head, s1) =>
      if Val(head.id) > 0xFFFF_FFFF then Err(Unsupported) else
      match Streams(s1, head.mainByte, NUM_STREAMS_MAX, true)
      case Err(f) => Err(f)
      case Ok(streams, s2) =>
        if numIn + streams > NUM_STREAMS_MAX then Err(Unsupported) else
        match Props(s2, head.mainByte)
        case Err(f) => Err(f)
        case Ok(size, s3) =>
          if size >= 0x80 then Err(Unsupported) else
          Ok(Coder(Val(head.id), streams, if HasProps(head.mainByte)
              && total >= |s3| + size then total - |s3| - size else 0, size), s3)
  }

  function ItemCoders(s: seq<byte>, n: nat, numIn: nat, total: nat): (r: Read<(seq<Coder>, nat)>)
    ensures r.Ok? ==> |r.value.0| == n && (n > 0 ==> r.value.1 <= NUM_STREAMS_MAX)
    decreases n
  {
    if n == 0 then Ok(([], numIn), s) else
    match ItemCoder(s, numIn, total)
    case Err(f) => Err(f)
    case Ok(c, rest) =>
      match ItemCoders(rest, n - 1, numIn + c.NumStreams, total)
      case Err(f) => Err(f)
      case Ok(all, rest') => Ok(([c] + all.0, all.1), rest')
  }

  /** Bonds and pack streams in SzGetNextFolderItem. */
  function ItemLinks(s: seq<byte>, coders: seq<Coder>, numIn: nat): Read<Folder>
    requires coders != []
  {
    var numBonds := |coders| - 1;
    if numIn < numBonds then Err(Archive)
    else if numIn - numBonds > NUM_PACK_STREAMS_MAX then Err(Unsupported) else
    match ReadBonds(s, numBonds, Unused(numIn), Unused(|coders|))
    case Err(f) => Err(f)
    case Ok(all, rest) =>
      var main := LeastFree(all.2);
      if main == |coders| then Err(Archive)
      else if numIn - numBonds == 1 then
        (var i := LeastFree(all.1);
         if i == numIn then Err(Archive) else Ok(Folder(coders, all.0, [i], main), rest))
      else
        match ReadPacks(rest, numIn - numBonds, all.1)
        case Err(f) => Err(f)
        case Ok(packs, rest') => Ok(Folder(coders, all.0, packs, main), rest')
  }

  /** SzGetNextFolderItem. */
  function Item(s: seq<byte>, total: nat): Read<Folder> {
    match Number32(s)
    case Err(f) => Err(f)
    case Ok(n, rest) =>
      if n == 0 || n > NUM_CODERS_MAX then Err(Unsupported) else
      match ItemCoders(rest, n, 0, total)
      case Err(f) => Err(f)
      case Ok(all, rest') => ItemLinks(rest', all.0, all.1)
  }

  /** The streams of the coders in the scan. */
  function ScanCoders(s: seq<byte>, n: nat): Read<nat>
    decreases n
  {
    if n == 0 then Ok(0, s) else
    match CoderHead(s)
    case Err(f) => Err(f)
    case Ok(head, s1) =>
      match Streams(s1, head.mainByte, SCAN_NUM_STREAMS_MAX, false)
      case Err(f) => Err(f)
      case Ok(streams, s2) =>
        match Props(s2, head.mainByte)
        case Err(f) => Err(f)
        case Ok(_, s3) =>
          match ScanCoders(s3, n - 1)
          case Err(f) => Err(f)
          case Ok(more, rest) => Ok(streams + more, rest)
  }

  datatype Scanned = Scanned(numCoders: nat, numPackStreams: nat, main: nat)

  /** Bonds and pack streams in the scan. */
  function ScanLinks(s: seq<byte>, numCoders: nat, numIn: nat): Read<Scanned>
    requires numCoders > 0
  {
    if numCoders == 1 && numIn == 1 then Ok(Scanned(1, 1, 0), s) else
    var numBonds := numCoders - 1;
    if numIn < numBonds then Err(Archive)
    else if numIn > SCAN_NUM_STREAMS_MAX then Err(Unsupported) else
    match ReadBonds(s, numBonds, Unused(numIn), Unused(numCoders))
    case Err(f) => Err(f)
    case Ok(all, rest) =>
      match (if numIn - numBonds == 1 then Ok([0], rest) else ReadPacks(rest, numIn - numBonds, all.1))
      case Err(f) => Err(f)
      case Ok(packs, rest') =>
        var main := LeastFree(all.2);
        if main == numCoders then Err(Archive) else Ok(Scanned(numCoders, numIn - numBonds, main), rest')
  }

  /** One folder in ReadUnpackInfo. */
  function Scan(s: seq<byte>): Read<Scanned> {
    match Number32(s)
    case Err(f) => Err(f)
    case Ok(n, rest) =>
      if n == 0 || n > SCAN_NUM_CODERS_MAX then Err(Unsupported) else
      match ScanCoders(rest, n)
      case Err(f) => Err(f)
      case Ok(numIn, rest') => ScanLinks(rest', n, numIn)
  }
}
