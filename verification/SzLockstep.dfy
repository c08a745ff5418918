/** The two parsers of a 7z folder record stay in step. */
module SzLockstep {
  import opened Bytes
  import opened RangeCoder
  import opened SzNumber
  import opened SzFolder

  /** What was read successfully is read again when more data follows. */
  ghost predicate Extends<T>(a: Read<T>, b: Read<T>, t: seq<byte>) {
    a.Ok? ==> b == Ok(a.value, a.rest + t)
  }

  lemma NumberMore(s: seq<byte>, t: seq<byte>)
    ensures Extends(Number32(s), Number32(s + t), t)
  {
    hide Little, Power, Rest;
    if Number(s).Ok? {
      var n := Extra(s[0]);
      assert (s + t)[1..1 + n] == s[1..1 + n];
      assert (s + t)[1 + n..] == s[1 + n..] + t;
    }
  }

  lemma HeadMore(s: seq<byte>, t: seq<byte>)
    ensures Extends(CoderHead(s), CoderHead(s + t), t)
  {
    if CoderHead(s).Ok? {
      var n := s[0] as int % 16;
      assert (s + t)[1..1 + n] == s[1..1 + n];
      assert (s + t)[1 + n..] == s[1 + n..] + t;
    }
  }

  lemma StreamsMore(s: seq<byte>, t: seq<byte>, mainByte: byte, limit: nat, early: bool)
    ensures Extends(Streams(s, mainByte, limit, early), Streams(s + t, mainByte, limit, early), t)
  {
    hide Number32;
    NumberMore(s, t);
    if Number32(s).Ok? { NumberMore(Number32(s).rest, t); }
  }

  lemma PropsMore(s: seq<byte>, t: seq<byte>, mainByte: byte)
    ensures Extends(Props(s, mainByte), Props(s + t, mainByte), t)
  {
    hide Number32;
    NumberMore(s, t);
    if Number32(s).Ok? {
      var r := Number32(s);
      if r.value <= |r.rest| { assert (r.rest + t)[r.value..] == r.rest[r.value..] + t; }
    }
  }

  lemma {:induction false} BondsMore(s: seq<byte>, t: seq<byte>, n: nat, su: seq<bool>, cu: seq<bool>)
    ensures Extends(ReadBonds(s, n, su, cu), ReadBonds(s + t, n, su, cu), t)
    decreases n
  {
    hide Number32;
    if n > 0 && ReadBonds(s, n, su, cu).Ok? {
      NumberMore(s, t);
      var i := Number32(s);
      NumberMore(i.rest, t);
      var o := Number32(i.rest);
      BondsMore(o.rest, t, n - 1, su[i.value := true], cu[o.value := true]);
    }
  }

  lemma {:induction false} PacksMore(s: seq<byte>, t: seq<byte>, n: nat, su: seq<bool>)
    ensures Extends(ReadPacks(s, n, su), ReadPacks(s + t, n, su), t)
    decreases n
  {
    hide Number32;
    if n > 0 && ReadPacks(s, n, su).Ok? {
      NumberMore(s, t);
      var i := Number32(s);
      PacksMore(i.rest, t, n - 1, su[i.value := true]);
    }
  }

  lemma ItemCoderMore(s: seq<byte>, t: seq<byte>, numIn: nat, total: nat)
    ensures Extends(ItemCoder(s, numIn, total), ItemCoder(s + t, numIn, total + |t|), t)
  {
    hide CoderHead, Streams, Props, Val, HasProps;
    HeadMore(s, t);
    if CoderHead(s).Ok? {
      var head, s1 := CoderHead(s).value, CoderHead(s).rest;
      StreamsMore(s1, t, head.mainByte, NUM_STREAMS_MAX, true);
      var r := Streams(s1, head.mainByte, NUM_STREAMS_MAX, true);
      if r.Ok? { PropsMore(r.rest, t, head.mainByte); }
    }
  }

  lemma {:induction false} ItemCodersMore(s: seq<byte>, t: seq<byte>, n: nat, numIn: nat, total: nat)
    ensures Extends(ItemCoders(s, n, numIn, total), ItemCoders(s + t, n, numIn, total + |t|), t)
    decreases n
  {
    hide ItemCoder;
    if n > 0 && ItemCoder(s, numIn, total).Ok? {
      ItemCoderMore(s, t, numIn, total);
      var c := ItemCoder(s, numIn, total);
      ItemCodersMore(c.rest, t, n - 1, numIn + c.value.NumStreams, total);
    }
  }

  lemma ItemLinksMore(s: seq<byte>, t: seq<byte>, coders: seq<Coder>, numIn: nat)
    requires coders != []
    ensures Extends(ItemLinks(s, coders, numIn), ItemLinks(s + t, coders, numIn), t)
  {
    hide ReadBonds, ReadPacks, LeastFree, Unused;
    if ItemLinks(s, coders, numIn).Ok? {
      var numBonds := |coders| - 1;
      BondsMore(s, t, numBonds, Unused(numIn), Unused(|coders|));
      var r := ReadBonds(s, numBonds, Unused(numIn), Unused(|coders|));
      PacksMore(r.rest, t, numIn - numBonds, r.value.1);
    }
  }

  lemma ItemMore(s: seq<byte>, t: seq<byte>, total: nat)
    ensures Extends(Item(s, total), Item(s + t, total + |t|), t)
  {
    hide Number32, ItemCoders, ItemLinks;
    NumberMore(s, t);
    var n := Number32(s);
    if n.Ok? && 0 < n.value <= NUM_CODERS_MAX {
      ItemCodersMore(n.rest, t, n.value, 0, total);
      var c := ItemCoders(n.rest, n.value, 0, total);
      if c.Ok? { ItemLinksMore(c.rest, t, c.value.0, c.value.1); }
    }
  }

  lemma StreamsAgree(s: seq<byte>, mainByte: byte)
    requires Streams(s, mainByte, NUM_STREAMS_MAX, true).Ok?
    ensures Streams(s, mainByte, SCAN_NUM_STREAMS_MAX, false) == Streams(s, mainByte, NUM_STREAMS_MAX, true)
  {
    hide Number32;
  }

  /** If both read the coders, they end at the same place with the same number of streams. */
  lemma {:induction false} CodersAgree(s: seq<byte>, n: nat, numIn: nat, total: nat)
    requires ItemCoders(s, n, numIn, total).Ok?
    ensures var a, b := ItemCoders(s, n, numIn, total), ScanCoders(s, n);
            b.Ok? && b.rest == a.rest && numIn + b.value == a.value.1
    decreases n
  {
    hide CoderHead, Streams, Props, Val, HasProps;
    if n > 0 {
      var c := ItemCoder(s, numIn, total);
      StreamsAgree(CoderHead(s).rest, CoderHead(s).value.mainByte);
      CodersAgree(c.rest, n - 1, numIn + c.value.NumStreams, total);
    }
  }

  lemma SingleLinks(s: seq<byte>, coders: seq<Coder>)
    requires |coders| == 1
    ensures ItemLinks(s, coders, 1) == Ok(Folder(coders, [], [0], 0), s)
  {
    assert Unused(0) == [] && Unused(1) == [false];
    assert LeastFree([false]) == 0;
  }

  lemma LinksAgree(s: seq<byte>, coders: seq<Coder>, numIn: nat)
    requires coders != [] && numIn <= NUM_STREAMS_MAX
    requires ItemLinks(s, coders, numIn).Ok?
    ensures var a, b := ItemLinks(s, coders, numIn), ScanLinks(s, |coders|, numIn);
            b == Ok(Scanned(|coders|, |a.value.PackStreams|, a.value.UnpackStream), a.rest)
            && a.value.Coders == coders && |a.value.Bonds| == |coders| - 1
  {
    hide ReadBonds, ReadPacks, LeastFree, Unused;
    if |coders| == 1 && numIn == 1 { SingleLinks(s, coders); }
  }

  /** Every record that SzGetNextFolderItem accepts is accepted by the scan, which ends at the same place with
      the same number of coders and pack streams and the same main coder. */
  lemma ItemIsScanned(s: seq<byte>, total: nat)
    requires Item(s, total).Ok?
    ensures var a, b := Item(s, total), Scan(s);
            b == Ok(Scanned(|a.value.Coders|, |a.value.PackStreams|, a.value.UnpackStream), a.rest)
            && |a.value.Bonds| == |a.value.Coders| - 1
  {
    hide Number32, ItemCoders, ScanCoders, ItemLinks, ScanLinks;
    var n := Number32(s);
    CodersAgree(n.rest, n.value, 0, total);
    var c := ItemCoders(n.rest, n.value, 0, total);
    LinksAgree(c.rest, c.value.0, c.value.1);
  }

  /** The slice that the scan recorded for a folder: if SzGetNextFolderItem accepts it, it uses up the whole
      slice and finds the recorded main coder and number of pack streams. */
  lemma Lockstep(s: seq<byte>, slice: seq<byte>)
    requires Scan(s).Ok? && s == slice + Scan(s).rest
    requires Item(slice, |slice|).Ok?
    ensures var a, b := Item(slice, |slice|), Scan(s);
            a.rest == [] && a.value.UnpackStream == b.value.main
            && |a.value.PackStreams| == b.value.numPackStreams && |a.value.Coders| == b.value.numCoders
  {
    hide Item, Scan;
    var rest := Scan(s).rest;
    ItemMore(slice, rest, |slice|);
    ItemIsScanned(s, |slice| + |rest|);
    var r := Item(slice, |slice|).rest;
    assert |r + rest| == |rest|;
  }

  ghost predicate Tail(rest: seq<byte>, s: seq<byte>) {
    |rest| <= |s| && rest == s[|s| - |rest|..]
  }

  /** What is left after a successful reading is the end of the data. */
  ghost predicate LeavesTail<T>(r: Read<T>, s: seq<byte>) {
    r.Ok? ==> Tail(r.rest, s)
  }

  lemma TailOfTail(a: seq<byte>, b: seq<byte>, s: seq<byte>)
    requires Tail(a, b) && Tail(b, s)
    ensures Tail(a, s)
  {}

  lemma NumberTail(s: seq<byte>)
    ensures LeavesTail(Number32(s), s)
  {
    hide Little, Power, Rest;
  }

  lemma HeadTail(s: seq<byte>)
    ensures LeavesTail(CoderHead(s), s)
  {}

  lemma StreamsTail(s: seq<byte>, mainByte: byte, limit: nat, early: bool)
    ensures LeavesTail(Streams(s, mainByte, limit, early), s)
  {
    hide Number32;
    NumberTail(s);
    if Streams(s, mainByte, limit, early).Ok? && IsComplex(mainByte) {
      var r := Number32(s).rest;
      NumberTail(r);
      TailOfTail(Number32(r).rest, r, s);
    }
  }

  lemma PropsTail(s: seq<byte>, mainByte: byte)
    ensures LeavesTail(Props(s, mainByte), s)
  {
    hide Number32;
    NumberTail(s);
    if Props(s, mainByte).Ok? && HasProps(mainByte) {
      var r := Number32(s);
      TailOfTail(r.rest[r.value..], r.rest, s);
    }
  }

  lemma {:induction false} BondsTail(s: seq<byte>, n: nat, su: seq<bool>, cu: seq<bool>)
    ensures LeavesTail(ReadBonds(s, n, su, cu), s)
    decreases n
  {
    hide Number32, Tail;
    if n == 0 {
      TailSelf(s);
    } else if ReadBonds(s, n, su, cu).Ok? {
      NumberTail(s);
      var i := Number32(s);
      NumberTail(i.rest);
      var o := Number32(i.rest);
      var su', cu' := su[i.value := true], cu[o.value := true];
      BondsTail(o.rest, n - 1, su', cu');
      TailOfTail(o.rest, i.rest, s);
      TailOfTail(ReadBonds(o.rest, n - 1, su', cu').rest, o.rest, s);
    }
  }

  lemma TailSelf(s: seq<byte>)
    ensures Tail(s, s)
  {}

  lemma {:induction false} PacksTail(s: seq<byte>, n: nat, su: seq<bool>)
    ensures LeavesTail(ReadPacks(s, n, su), s)
    decreases n
  {
    hide Number32, Tail;
    if n == 0 {
      TailSelf(s);
    } else if ReadPacks(s, n, su).Ok? {
      NumberTail(s);
      var i := Number32(s);
      PacksTail(i.rest, n - 1, su[i.value := true]);
      TailOfTail(ReadPacks(i.rest, n - 1, su[i.value := true]).rest, i.rest, s);
    }
  }

  lemma {:induction false} ScanCodersTail(s: seq<byte>, n: nat)
    ensures LeavesTail(ScanCoders(s, n), s)
    decreases n
  {
    hide CoderHead, Streams, Props, Tail;
    if n == 0 {
      TailSelf(s);
    } else if ScanCoders(s, n).Ok? {
      HeadTail(s);
      var h := CoderHead(s);
      StreamsTail(h.rest, h.value.mainByte, SCAN_NUM_STREAMS_MAX, false);
      var r := Streams(h.rest, h.value.mainByte, SCAN_NUM_STREAMS_MAX, false);
      PropsTail(r.rest, h.value.mainByte);
      var p := Props(r.rest, h.value.mainByte);
      ScanCodersTail(p.rest, n - 1);
      TailOfTail(r.rest, h.rest, s);
      TailOfTail(p.rest, r.rest, s);
      TailOfTail(ScanCoders(p.rest, n - 1).rest, p.rest, s);
    }
  }

  lemma ScanLinksTail(s: seq<byte>, numCoders: nat, numIn: nat)
    requires numCoders > 0
    ensures LeavesTail(ScanLinks(s, numCoders, numIn), s)
  {
    hide ReadBonds, ReadPacks, LeastFree, Unused, Tail;
    if numCoders == 1 && numIn == 1 {
      TailSelf(s);
    } else if ScanLinks(s, numCoders, numIn).Ok? {
      var numBonds := numCoders - 1;
      BondsTail(s, numBonds, Unused(numIn), Unused(numCoders));
      var r := ReadBonds(s, numBonds, Unused(numIn), Unused(numCoders));
      if numIn - numBonds != 1 {
        PacksTail(r.rest, numIn - numBonds, r.value.1);
        TailOfTail(ReadPacks(r.rest, numIn - numBonds, r.value.1).rest, r.rest, s);
      }
    }
  }

  lemma ScanTail(s: seq<byte>)
    ensures LeavesTail(Scan(s), s)
  {
    hide Number32, ScanCoders, ScanLinks, Tail;
    if Scan(s).Ok? {
      NumberTail(s);
      var n := Number32(s);
      ScanCodersTail(n.rest, n.value);
      var c := ScanCoders(n.rest, n.value);
      ScanLinksTail(c.rest, n.value, c.value);
      TailOfTail(c.rest, n.rest, s);
      TailOfTail(Scan(s).rest, c.rest, s);
    }
  }

  function Count(used: seq<bool>): (n: nat)
    ensures n <= |used|
  {
    if used == [] then 0 else Count(used[..|used| - 1]) + if used[|used| - 1] then 1 else 0
  }

  lemma {:induction false} CountMore(used: seq<bool>, i: nat)
    requires i < |used| && !used[i]
    ensures Count(used[i := true]) == Count(used) + 1
    decreases |used|
  {
    var n := |used| - 1;
    if i < n {
      CountMore(used[..n], i);
      assert used[i := true][..n] == used[..n][i := true];
    } else {
      assert used[i := true][..n] == used[..n];
    }
  }

  lemma {:induction false} CountNone(n: nat)
    ensures Count(Unused(n)) == 0
  {
    if n > 0 {
      CountNone(n - 1);
      assert Unused(n)[..n - 1] == Unused(n - 1);
    }
  }

  lemma {:induction false} CountFull(used: seq<bool>)
    requires forall k :: 0 <= k < |used| ==> used[k]
    ensures Count(used) == |used|
    decreases |used|
  {
    if used != [] { CountFull(used[..|used| - 1]); }
  }

  /** Every bond uses one more stream and one more coder. */
  lemma {:induction false} BondsCount(s: seq<byte>, n: nat, su: seq<bool>, cu: seq<bool>)
    requires ReadBonds(s, n, su, cu).Ok?
    ensures var r := ReadBonds(s, n, su, cu).value; Count(r.1) == Count(su) + n && Count(r.2) == Count(cu) + n
    decreases n
  {
    hide Number32, Count;
    if n > 0 {
      var i := Number32(s);
      var o := Number32(i.rest);
      CountMore(su, i.value);
      CountMore(cu, o.value);
      BondsCount(o.rest, n - 1, su[i.value := true], cu[o.value := true]);
    }
  }

  /** With fewer bonds than streams and coders, a free one of each is always found. */
  lemma FreeOnes(s: seq<byte>, n: nat, numIn: nat, numCoders: nat)
    requires ReadBonds(s, n, Unused(numIn), Unused(numCoders)).Ok? && n < numIn && n < numCoders
    ensures var r := ReadBonds(s, n, Unused(numIn), Unused(numCoders)).value;
            LeastFree(r.1) < numIn && LeastFree(r.2) < numCoders
  {
    hide Count, ReadBonds, Unused;
    var r := ReadBonds(s, n, Unused(numIn), Unused(numCoders)).value;
    BondsCount(s, n, Unused(numIn), Unused(numCoders));
    CountNone(numIn);
    CountNone(numCoders);
    if LeastFree(r.1) == numIn { CountFull(r.1); }
    if LeastFree(r.2) == numCoders { CountFull(r.2); }
  }

  ghost predicate Accepted<T>(r: Read<T>) { r.Ok? || r == Err(Unsupported) }

  lemma StreamsAccepted(s: seq<byte>, mainByte: byte)
    requires Streams(s, mainByte, SCAN_NUM_STREAMS_MAX, false).Ok?
    ensures var r := Streams(s, mainByte, NUM_STREAMS_MAX, true);
            r == Err(Unsupported) || r == Streams(s, mainByte, SCAN_NUM_STREAMS_MAX, false)
  {
    hide Number32;
  }

  lemma {:induction false} CodersAccepted(s: seq<byte>, n: nat, numIn: nat, total: nat)
    requires ScanCoders(s, n).Ok?
    ensures Accepted(ItemCoders(s, n, numIn, total))
    decreases n
  {
    hide CoderHead, Streams, Props, Val, HasProps;
    if n > 0 {
      StreamsAccepted(CoderHead(s).rest, CoderHead(s).value.mainByte);
      var c := ItemCoder(s, numIn, total);
      if c.Ok? { CodersAccepted(c.rest, n - 1, numIn + c.value.NumStreams, total); }
    }
  }

  lemma LinksAccepted(s: seq<byte>, coders: seq<Coder>, numIn: nat)
    requires coders != [] && ScanLinks(s, |coders|, numIn).Ok?
    ensures Accepted(ItemLinks(s, coders, numIn))
  {
    hide ReadBonds, ReadPacks, LeastFree, Unused;
    var numBonds := |coders| - 1;
    if |coders| == 1 && numIn == 1 {
      SingleLinks(s, coders);
    } else if numIn - numBonds == 1 {
      FreeOnes(s, numBonds, numIn, |coders|);
    }
  }

  /** A record that the scan accepts is at worst too big for SzGetNextFolderItem; it is never malformed. */
  lemma ScannedIsItem(s: seq<byte>, total: nat)
    requires Scan(s).Ok?
    ensures Accepted(Item(s, total))
  {
    hide Number32, ItemCoders, ScanCoders, ItemLinks, ScanLinks;
    var n := Number32(s);
    if n.value <= NUM_CODERS_MAX {
      CodersAccepted(n.rest, n.value, 0, total);
      var c := ItemCoders(n.rest, n.value, 0, total);
      if c.Ok? {
        CodersAgree(n.rest, n.value, 0, total);
        LinksAccepted(c.rest, c.value.0, c.value.1);
      }
    }
  }
}
