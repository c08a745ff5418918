/** The match finder, compression/LZMA/LzFind.c, in its four-byte binary tree mode. */
module LzFind {
  import opened Bytes
  import opened LzOrder
  import opened LzTree
  import opened LzSon
  import opened LzLoops
  import opened LzHash
  import opened LzBuckets
  import opened LzWindow

  const MAX_VAL_FOR_NORMALIZE: int := 0xFFFF_FFFF
  const MAX_HISTORY_SIZE: int := 0xE000_0000

  /** Subtraction and addition of UInt32 values. */
  function Sub(a: u32, b: u32): u32 { if a >= b then a - b else a - b + TWO32 }

  function Add(a: u32, b: u32): u32 { if a + b < TWO32 then a + b else a + b - TWO32 }

  /** What MatchFinder_GetSubValue subtracts: a multiple of the step. */
  function SubValue(pos: u32, historySize: nat): (r: nat)
    requires historySize < pos
    ensures r <= pos - historySize - 1
  {
    var x := pos - historySize - 1;
    x - x % 0x400
  }

  /** What one round of reading brings: at least so many bytes, or an error. */
  datatype Io = Io(bytes: nat, fails: bool)

  /** MatchFinder_SetLimits on the differences. */
  function Limit(left: nat, room: nat, avail: nat, keep: nat): nat {
    var limit := if room < left then room else left;
    var limit2 := if avail <= keep then (if avail > 0 then 1 else 0) else avail - keep;
    if limit2 < limit then limit2 else limit
  }

  /** A reported pair: the bytes agree, and the distance is inside the window. */
  ghost predicate Reported(d: seq<byte>, cur: nat, lenLimit: nat, size: nat, m: Match) {
    2 <= m.len <= lenLimit && m.dist + 1 < size && m.dist + 1 <= cur
    && m.len <= Common(d, cur - 1 - m.dist, cur, lenLimit)
  }

  ghost predicate AllReported(d: seq<byte>, cur: nat, lenLimit: nat, size: nat, f: seq<Match>) {
    forall k: nat | k < |f| :: Reported(d, cur, lenLimit, size, f[k])
  }

  /** The cyclic position goes round with the position in the stream. */
  lemma SlotStep(v: View)
    requires v.size > 0
    ensures Slot(v, v.now) < v.size
    ensures Slot(v, v.now + 1) == if Slot(v, v.now) + 1 == v.size then 0 else Slot(v, v.now) + 1
  {
    var n, q, r := v.size, v.now / v.size, v.now % v.size;
    assert v.now == n * q + r;
    if r + 1 == n {
      assert n * (q + 1) == n * q + n;
      DivModUnique(v.now + 1, n, q + 1, 0);
    } else {
      DivModUnique(v.now + 1, n, q, r + 1);
    }
  }

  lemma SlotSame(v: View, u: View, i: nat)
    requires v.size == u.size > 0
    ensures Slot(v, i) == Slot(u, i)
  {}

  // ----- what the pieces of a result say together -----

  lemma TreeMatches(d: seq<byte>, t: Tree, v: View, n: nat, f: seq<Match>)
    requires AllTrue(d, t, v.now, n, f) && Rising(f, 1) && Stored(v, t)
    ensures AllReported(d, v.now, n, v.size, f)
  {
    hide Common, Slot;
    forall k: nat | k < |f|
      ensures Reported(d, v.now, n, v.size, f[k])
    {
      assert TrueMatch(d, t, v.now, n, f[k]);
    }
  }

  lemma RisingLower(f: seq<Match>, best: nat, less: nat)
    requires Rising(f, best) && less <= best
    ensures Rising(f, less)
  {}

  lemma JoinMatches(d: seq<byte>, cur: nat, n: nat, size: nat, h: seq<Match>, f: seq<Match>, best: nat)
    requires AllReported(d, cur, n, size, h) && AllReported(d, cur, n, size, f)
    requires Rising(h, 1) && Rising(f, best) && Longest(h, 1) <= best && best >= 1
    ensures AllReported(d, cur, n, size, h + f) && Rising(h + f, 1)
    ensures f != [] ==> Longest(h + f, 3) == Longest(f, best)
    ensures f == [] ==> h + f == h
  {
    hide Reported;
    var g := h + f;
    forall k: nat | k < |g|
      ensures Reported(d, cur, n, size, g[k]) && 1 < g[k].len
    {
      if k >= |h| { assert g[k] == f[k - |h|]; }
    }
    forall j: nat, k: nat | j < k < |g|
      ensures g[j].len < g[k].len
    {
      if k >= |h| {
        assert g[k] == f[k - |h|];
        if j >= |h| { assert g[j] == f[j - |h|]; } else { assert g[j].len <= Longest(h, 1); }
      }
    }
    if f != [] { assert g[|g| - 1] == f[|f| - 1]; }
  }

  /** The length that the search for matches starts from. */
  function StartLen(maxLen: nat): nat { if maxLen < 3 then 3 else maxLen }

  /** The result of one position: what it says to the encoder. */
  ghost predicate Result(d: seq<byte>, cur: nat, n: nat, size: nat, f: seq<Match>, t: Tree, cut: nat) {
    && AllReported(d, cur, n, size, f) && Rising(f, 1)
    && (Height(t) <= cut ==> forall x: nat | x in Nodes(t) ::
                               Common(d, x, cur, n) <= Longest(f, 3) || Common(d, x, cur, n) <= 3)
  }

  /** The heads gave h; the tree gives f. */
  lemma ResultTree(d: seq<byte>, v: View, n: nat, cut: nat, h: seq<Match>, maxLen: nat, t: Tree)
    requires 3 < n && maxLen < n && Search(d, t, n) && Older(t, v.now) && Stored(v, t)
    requires AllReported(d, v.now, n, v.size, h) && Rising(h, 1) && (h != [] ==> Longest(h, 1) == maxLen)
             && (h == [] ==> maxLen == 0)
    ensures var f := Found(d, t, v.now, n, cut, 0, 0, StartLen(maxLen));
            Result(d, v.now, n, v.size, h + f, t, cut)
  {
    hide Search, Stored, Found, Common, AllReported, Rising, Height;
    var best := StartLen(maxLen);
    var f := Found(d, t, v.now, n, cut, 0, 0, best);
    assert Bounded(d, t, v.now, 0, 0);
    FoundTrue(d, t, v.now, n, cut, 0, 0, best);
    RisingLower(f, best, 1);
    TreeMatches(d, t, v, n, f);
    JoinMatches(d, v.now, n, v.size, h, f, best);
    if Height(t) <= cut {
      forall x: nat | x in Nodes(t)
        ensures Common(d, x, v.now, n) <= Longest(h + f, 3) || Common(d, x, v.now, n) <= 3
      {
        FoundLongest(d, t, v.now, n, cut, 0, 0, best, x);
      }
    }
  }

  /** The heads already gave a match of full length. */
  lemma ResultFull(d: seq<byte>, cur: nat, n: nat, size: nat, h: seq<Match>, t: Tree, cut: nat)
    requires AllReported(d, cur, n, size, h) && Rising(h, 1) && h != [] && Longest(h, 3) == n
    ensures Result(d, cur, n, size, h, t, cut)
  {
    hide AllReported, Rising, Height;
  }

  lemma AgreeTwo(d: seq<byte>, i: nat, j: nat, n: nat)
    requires n >= 2 && At(d, i) == At(d, j) && At(d, i + 1) == At(d, j + 1)
    ensures Common(d, i, j, n) >= 2
  {
    assert Common(d, i + 1, j + 1, n - 1) >= 1;
  }

  lemma AgreeThree(d: seq<byte>, i: nat, j: nat, n: nat)
    requires n >= 3 && At(d, i) == At(d, j) && At(d, i + 1) == At(d, j + 1) && At(d, i + 2) == At(d, j + 2)
    ensures Common(d, i, j, n) >= 3
  {
    assert Common(d, i + 2, j + 2, n - 2) >= 1;
    assert Common(d, i + 1, j + 1, n - 1) >= 2;
  }

  /** The h2 head at distance d2 is a match of two bytes. */
  lemma Head2Match(d: seq<byte>, crc: Table, hash: seq<u32>, v: View, n: nat, d2: int)
    requires HeadsOk(d, crc, hash, v) && n >= 2 && v.size <= v.now + v.base
    requires d2 == v.now + v.base - hash[Hash2(crc, d, v.now)] < v.size
    ensures 0 < d2 <= v.now
    ensures At(d, v.now - d2) == At(d, v.now) ==> Common(d, v.now - d2, v.now, n) >= 2
  {
    hide Temp, Common;
    assert Head2Ok(d, crc, hash, v, Hash2(crc, d, v.now));
    if At(d, v.now - d2) == At(d, v.now) {
      Hash2Means(crc, d, v.now - d2, v.now);
      AgreeTwo(d, v.now - d2, v.now, n);
    }
  }

  lemma Head3Match(d: seq<byte>, crc: Table, hash: seq<u32>, v: View, n: nat, d3: int)
    requires HeadsOk(d, crc, hash, v) && n >= 3 && v.size <= v.now + v.base
    requires d3 == v.now + v.base - hash[FIX3 + Hash3(crc, d, v.now)] < v.size
    ensures 0 < d3 <= v.now
    ensures At(d, v.now - d3) == At(d, v.now) ==> Common(d, v.now - d3, v.now, n) >= 3
  {
    hide Temp3, Common;
    assert Head3Ok(d, crc, hash, v, Hash3(crc, d, v.now));
    if At(d, v.now - d3) == At(d, v.now) {
      Hash3Means(crc, d, v.now - d3, v.now);
      AgreeThree(d, v.now - d3, v.now, n);
    }
  }

  lemma HeadDistances(d: seq<byte>, crc: Table, hash: seq<u32>, v: View)
    requires HeadsOk(d, crc, hash, v)
    ensures hash[Hash2(crc, d, v.now)] <= v.now + v.base && hash[FIX3 + Hash3(crc, d, v.now)] <= v.now + v.base
  {
    hide Temp, Temp3;
    assert Head2Ok(d, crc, hash, v, Hash2(crc, d, v.now));
    assert Head3Ok(d, crc, hash, v, Hash3(crc, d, v.now));
  }

  class MatchFinder {
    /** Everything the stream will deliver. */
    const d: seq<byte>
    const crc: Table
    const hash: array<u32>
    const son: array<u32>
    const historySize: nat
    const cyclicBufferSize: nat
    const matchMaxLen: nat
    const keepSizeAfter: nat
    const blockSize: nat
    const hashMask: nat
    const cutValue: nat

    /** The position of the current byte in the stream. */
    var buffer: nat
    var pos: u32
    var posLimit: u32
    var streamPos: u32
    var lenLimit: nat
    var cyclicBufferPos: nat
    var streamEndWasReached: bool
    var result: int
    /** The search tree of every bucket. */
    ghost var trees: seq<Tree>

    /** MatchFinder_GetNumAvailableBytes. */
    function Avail(): u32
      reads this`pos, this`streamPos
    {
      Sub(streamPos, pos)
    }

    predicate Stopped()
      reads this
    {
      streamEndWasReached || result != 0
    }

    ghost function Window(): View
      reads this
    {
      View(pos - buffer, cyclicBufferSize, buffer)
    }

    /** What MatchFinder_Create fixes. */
    ghost predicate Created() {
      && hash != son
      && cyclicBufferSize == historySize + 1 && historySize <= MAX_HISTORY_SIZE
      && matchMaxLen <= keepSizeAfter < blockSize < TWO32
      && hash.Length == FIX4 + hashMask + 1 && son.Length == 2 * cyclicBufferSize
    }

    ghost predicate Positions()
      reads this
    {
      && cyclicBufferSize <= pos && cyclicBufferSize > 0 && buffer + Avail() <= |d|
      && cyclicBufferPos == Slot(Window(), buffer)
      && lenLimit == (if Avail() > matchMaxLen then matchMaxLen else Avail())
      && (Stopped() || Avail() > keepSizeAfter)
    }

    /** Until the next CheckLimits neither the cyclic buffer nor the data nor the numbers run out. */
    ghost predicate Limits()
      reads this`pos, this`posLimit, this`streamPos, this`cyclicBufferPos
    {
      && pos <= posLimit && (Avail() > 0 ==> pos < posLimit)
      && posLimit - pos <= cyclicBufferSize - cyclicBufferPos
      && posLimit - pos <= if Avail() <= keepSizeAfter then (if Avail() > 0 then 1 else 0) else Avail() - keepSizeAfter
    }

    ghost predicate Links()
      reads this, hash, son
    {
      && |trees| == hashMask + 1
      && HeadsOk(d, crc, hash[..], Window()) && (lenLimit >= 4 ==> HeadsRecent(d, crc, hash[..], Window()))
      && BucketsOk(d, crc, hash[..], son[..], Window(), trees, lenLimit)
    }

    /** The trees hold every older position of the window. */
    ghost predicate Whole()
      reads this
    {
      lenLimit >= 4 ==> Complete(d, crc, cyclicBufferSize, buffer, trees, lenLimit)
    }

    /** The search at the current position will not be cut off. */
    ghost predicate Enough()
      reads this
    {
      EnoughAt(d, crc, buffer, trees, lenLimit, cutValue)
    }

    ghost predicate Valid()
      reads this, hash, son
    {
      Created() && Positions() && Limits() && Links()
    }

    /** MatchFinder_Create and MatchFinder_Init. The links of `son` are not initialised. */
    constructor (input: seq<byte>, table: Table, historySize: nat, matchMaxLen: nat, keepSizeAfter: nat, blockSize: nat,
                 hashMask: nat, cutValue: nat, links: seq<u32>, io: Io)
      requires historySize <= MAX_HISTORY_SIZE && matchMaxLen <= keepSizeAfter < blockSize < TWO32
      requires |links| == 2 * (historySize + 1)
      ensures Valid() && fresh(hash) && fresh(son) && buffer == 0 && d == input
      ensures trees == seq(hashMask + 1, _ => Leaf) && Whole()
    {
      this.d, this.crc, this.historySize, this.matchMaxLen := input, table, historySize, matchMaxLen;
      this.keepSizeAfter, this.blockSize, this.hashMask, this.cutValue := keepSizeAfter, blockSize, hashMask, cutValue;
      cyclicBufferSize := historySize + 1;
      hash := new u32[FIX4 + hashMask + 1](_ => 0);
      son := new u32[2 * (historySize + 1)](i requires 0 <= i < |links| => links[i]);
      buffer, cyclicBufferPos, pos, streamPos, posLimit, lenLimit := 0,
          0, historySize + 1, historySize + 1, historySize + 1, 0;
      streamEndWasReached, result := false, 0;
      trees := seq(hashMask + 1, _ => Leaf);
      new;
      ReadBlock(io);
      SetLimits();
      EmptyLinks(hash[..], son[..]);
    }

    lemma EmptyLinks(heads: seq<u32>, links: seq<u32>)
      requires Created() && buffer == 0 && pos == cyclicBufferSize > 0 && trees == seq(hashMask + 1, _ => Leaf)
      requires |heads| == FIX4 + hashMask + 1 && (forall i: nat | i < |heads| :: heads[i] == 0)
               && |links| == 2 * cyclicBufferSize
      ensures HeadsOk(d, crc, heads, Window()) && HeadsRecent(d, crc, heads, Window())
      ensures BucketsOk(d, crc, heads, links, Window(), trees, lenLimit)
    {
      hide Hash2, Hash3, Hash4;
    }

    /** MatchFinder_SetLimits. */
    method SetLimits()
      requires Created() && cyclicBufferSize > 0 && cyclicBufferPos < cyclicBufferSize && pos < MAX_VAL_FOR_NORMALIZE
      modifies this`posLimit, this`lenLimit
      ensures Limits()
      ensures lenLimit == (if Avail() > matchMaxLen then matchMaxLen else Avail())
    {
      var limit := MAX_VAL_FOR_NORMALIZE - pos;
      var limit2 := cyclicBufferSize - cyclicBufferPos;
      if limit2 < limit { limit := limit2; }
      limit2 := Sub(streamPos, pos);
      if limit2 <= keepSizeAfter {
        if limit2 > 0 { limit2 := 1; }
      } else {
        limit2 := limit2 - keepSizeAfter;
      }
      if limit2 < limit { limit := limit2; }
      var newLimit := Sub(streamPos, pos);
      if newLimit > matchMaxLen { newLimit := matchMaxLen; }
      lenLimit := newLimit;
      posLimit := pos + limit;
    }

    /** MatchFinder_ReadBlock. */
    method ReadBlock(io: Io)
      requires Created() && buffer + Avail() <= |d|
      modifies this`streamPos, this`result, this`streamEndWasReached
      ensures buffer + Avail() <= |d| && Avail() >= old(Avail())
      ensures Stopped() || Avail() > keepSizeAfter
      ensures old(Stopped()) ==> Avail() == old(Avail()) && Stopped()
    {
      if streamEndWasReached || result != 0 { return; }
      var avail := Sub(streamPos, pos);
      var rest, room := |d| - buffer - avail, if avail < blockSize then blockSize - avail else 0;
      var most := if rest < room then rest else room;
      var got := if io.bytes < most then io.bytes else most;
      if io.fails {
        result := 1;
      } else if avail + got <= keepSizeAfter {
        if avail + most <= keepSizeAfter {
          got := most;
          streamEndWasReached := true;
        } else {
          got := keepSizeAfter + 1 - avail;
        }
      }
      streamPos := Add(streamPos, got);
    }

    /** MatchFinder_Normalize3. */
    static method Normalize3(subValue: nat, items: array<u32>)
      modifies items
      ensures items[..] == LowerAll(old(items[..]), subValue)
    {
      ghost var was := items[..];
      var i := 0;
      while i < items.Length
        invariant i <= items.Length && items.Length == |was|
        invariant forall k: nat | k < i :: items[k] == Lower(was[k], subValue)
        invariant forall k: nat | i <= k < items.Length :: items[k] == was[k]
      {
        var value := items[i];
        if value <= subValue { value := 0; } else { value := value - subValue; }
        items[i] := value;
        i := i + 1;
      }
      assert items[..] == LowerAll(was, subValue);
    }

    /** MatchFinder_Normalize. */
    method Normalize()
      requires Created() && cyclicBufferSize <= pos == MAX_VAL_FOR_NORMALIZE && posLimit == pos && Links()
      modifies this`pos, this`posLimit, this`streamPos, hash, son
      ensures Links() && cyclicBufferSize <= pos < MAX_VAL_FOR_NORMALIZE && Avail() == old(Avail())
    {
      hide HeadsOk, HeadsRecent, BucketsOk;
      var subValue := SubValue(pos, historySize);
      ghost var v := Window();
      assert v.size + subValue <= v.now + v.base;
      LowerBuckets(d, crc, hash[..], son[..], v, trees, lenLimit, subValue);
      LowerHeads(d, crc, hash[..], v, subValue);
      if lenLimit >= 4 { LowerRecent(d, crc, hash[..], v, subValue); }
      Normalize3(subValue, hash);
      Normalize3(subValue, son);
      posLimit := Sub(posLimit, subValue);
      pos := Sub(pos, subValue);
      streamPos := Sub(streamPos, subValue);
      assert Window() == Lowered(v, subValue);
    }

    /** MatchFinder_CheckLimits. */
    method CheckLimits(io: Io)
      requires Created() && cyclicBufferSize <= pos == posLimit && buffer + Avail() <= |d| && Links()
      requires cyclicBufferPos <= cyclicBufferSize
      requires Slot(Window(), buffer) == if cyclicBufferPos == cyclicBufferSize then 0 else cyclicBufferPos
      requires Stopped() || (Avail() >= keepSizeAfter && lenLimit == matchMaxLen)
      requires lenLimit >= if Avail() > matchMaxLen then matchMaxLen else Avail()
      modifies this`pos, this`posLimit, this`streamPos, this`cyclicBufferPos, this`lenLimit, this`result,
               this`streamEndWasReached, hash, son
      ensures Valid() && lenLimit <= old(lenLimit) && Avail() >= old(Avail()) && buffer == old(buffer)
              && trees == old(trees)
    {
      hide HeadsOk, HeadsRecent, BucketsOk, Slot;
      ghost var v, n := Window(), lenLimit;
      if pos == MAX_VAL_FOR_NORMALIZE { Normalize(); }
      if !streamEndWasReached && keepSizeAfter == Sub(streamPos, pos) { ReadBlock(io); }
      if cyclicBufferPos == cyclicBufferSize { cyclicBufferPos := 0; }
      SetLimits();
      SlotSame(v, Window(), buffer);
      ShorterBuckets(d, crc, hash[..], son[..], Window(), trees, n, lenLimit);
    }

    /** MOVE_POS: the links are already those of the next position. */
    method MovePos(io: Io)
      requires Created() && Positions() && Limits() && Avail() > 0
      requires |trees| == hashMask + 1 && HeadsOk(d, crc, hash[..], Next(Window()))
      requires BucketsOk(d, crc, hash[..], son[..], Next(Window()), trees, lenLimit)
      requires lenLimit >= 4 ==> HeadsRecent(d, crc, hash[..], Next(Window()))
      modifies this`buffer, this`pos, this`posLimit, this`streamPos, this`cyclicBufferPos, this`lenLimit, this`result,
               this`streamEndWasReached, hash, son
      ensures Valid() && buffer == old(buffer) + 1 && lenLimit <= old(lenLimit) && Avail() >= old(Avail()) - 1
    {
      hide HeadsOk, HeadsRecent, BucketsOk, Slot;
      ghost var v := Window();
      SlotStep(v);
      cyclicBufferPos := cyclicBufferPos + 1;
      buffer := buffer + 1;
      pos := pos + 1;
      SlotSame(v, Window(), buffer);
      if pos == posLimit { CheckLimits(io); }
    }

    /** The heads of the two short hashes: at most one match of two bytes, then one that is followed to its end. */
    method HeadMatches(d2: nat, d3: nat) returns (distances: seq<Match>, maxLen: nat)
      requires 4 <= lenLimit && buffer + lenLimit <= |d|
      requires d2 < cyclicBufferSize ==>
                 0 < d2 <= buffer && (At(d, buffer - d2) == At(d, buffer) ==>
                     Common(d, buffer - d2, buffer, lenLimit) >= 2)
      requires d3 < cyclicBufferSize ==>
                 0 < d3 <= buffer && (At(d, buffer - d3) == At(d, buffer) ==>
                     Common(d, buffer - d3, buffer, lenLimit) >= 3)
      ensures AllReported(d, buffer, lenLimit, cyclicBufferSize, distances) && Rising(distances, 1)
              && maxLen <= lenLimit
      ensures if distances == [] then maxLen == 0 else Longest(distances, 1) == maxLen
    {
      hide Common;
      maxLen, distances := 0, [];
      var last := d2;
      if d2 < cyclicBufferSize && d[buffer - d2] == d[buffer] {
        maxLen := 2;
        distances := [Match(2, d2 - 1)];
      }
      ghost var first := distances;
      if d2 != d3 && d3 < cyclicBufferSize && d[buffer - d3] == d[buffer] {
        maxLen := 3;
        distances := distances + [Match(3, d3 - 1)];
        last := d3;
      }
      if distances != [] {
        ScanSound(d, buffer - last, buffer, maxLen, lenLimit);
        maxLen := Extend(d, buffer, last, maxLen, lenLimit);
        distances := distances[|distances| - 1 := Match(maxLen, last - 1)];
      }
    }

    /** The current position's tree and what both loops need of it. */
    lemma TreeReady(hv: nat)
      requires Valid() && 0 < lenLimit && hv <= hashMask
      ensures buffer + lenLimit <= |d| && cyclicBufferSize > 0 && cyclicBufferPos == Slot(Window(), buffer)
      ensures Search(d, trees[hv], lenLimit) && Older(trees[hv], buffer) && Stored(Window(), trees[hv])
      ensures Ready(d, Window(), Open(son[..], 2 * cyclicBufferPos + 1, 2 * cyclicBufferPos),
              hash[FIX4 + hv], trees[hv], lenLimit)
    {
      hide HeadsOk, HeadsRecent, Search, Rep, Hashed, Slot, Ready, Stored, Older;
      assert hash[..][FIX4 + hv] == hash[FIX4 + hv];
      assert BucketOk(d, crc, son[..], hash[..][FIX4 + hv], Window(), trees[hv], lenLimit, |trees|, hv);
      ReadyStart(d, son[..], Window(), hash[FIX4 + hv], trees[hv], lenLimit);
      RepStored(son[..], Window(), hash[FIX4 + hv], trees[hv]);
    }

    /** The arrays hold the trees of the next position. */
    lemma Relinked(hash0: seq<u32>, son0: seq<u32>, v: View, hv: nat, n: nat)
      requires v == Window() && Created() && Positions() && |trees| == hashMask + 1 && n > 0
      requires hv == Hash4(crc, d, buffer, hashMask + 1) <= hashMask && |hash0| == hash.Length
      requires hash[..] == SetHeads(hash0, Hash2(crc, d, buffer), Hash3(crc, d, buffer), hv, pos)
      requires Hash2(crc, d, buffer) < HASH2 && Hash3(crc, d, buffer) < HASH3
      requires BucketsOk(d, crc, hash0, son0, v, trees, n)
      requires Untouched(Open(son0, 2 * cyclicBufferPos + 1, 2 * cyclicBufferPos), son[..], v, trees[hv])
      requires Rep(son[..], v, pos, Insert(d, trees[hv], buffer, n, cutValue))
      ensures BucketsOk(d, crc, hash[..], son[..], Next(v), InsertTrees(d, v, trees, hv, n, cutValue), n)
    {
      hide BucketsOk, Slot, Hash2, Hash3, Hash4, Rep, Insert, Untouched, Prune;
      forall h: nat | h < |trees| && h != hv
        ensures SameHead(hash0, hash[..], h)
      {
      }
      assert Open(son0, 2 * cyclicBufferPos + 1, 2 * cyclicBufferPos) == Start(son0, v);
      InsertBuckets(d, crc, hash0, hash[..], son0, son[..], v, trees, n, hv, cutValue);
    }

    /** One position later the trees still hold every position of the window. */
    lemma StepWhole(hash0: seq<u32>, son0: seq<u32>, v: View, trees0: seq<Tree>, n: nat)
      requires BucketsOk(d, crc, hash0, son0, v, trees0, n) && n >= 4 && |trees0| > 0 && v.size == cyclicBufferSize
      requires Complete(d, crc, v.size, v.now, trees0, n) && EnoughAt(d, crc, v.now, trees0, n, cutValue)
      requires trees == AfterOne(d, crc, v, trees0, n, cutValue) && buffer == v.now + 1 && lenLimit <= n
      ensures Whole()
    {
      hide BucketsOk, Complete, Height, InsertTrees, Hash4;
      HashRanges(crc, d, v.now, |trees0|);
      InsertComplete(d, crc, hash0, son0, v, trees0, Hash4(crc, d, v.now, |trees0|), n, cutValue);
      CompleteShorter(d, crc, cyclicBufferSize, buffer, trees, n, lenLimit);
    }

    /** The current position is in its bucket's links: the trees are those of the next position. */
    method Enter(io: Io, ghost hash0: seq<u32>, ghost son0: seq<u32>, hv: nat)
      requires Created() && Positions() && Limits() && Avail() > 0 && |trees| == hashMask + 1 && 4 <= lenLimit
      requires hv == Hash4(crc, d, buffer, hashMask + 1) <= hashMask && |hash0| == hash.Length
      requires Hash2(crc, d, buffer) < HASH2 && Hash3(crc, d, buffer) < HASH3
      requires hash[..] == SetHeads(hash0, Hash2(crc, d, buffer), Hash3(crc, d, buffer), hv, pos)
      requires HeadsOk(d, crc, hash[..], Next(Window())) && HeadsRecent(d, crc, hash[..], Next(Window()))
      requires BucketsOk(d, crc, hash0, son0, Window(), trees, lenLimit)
      requires Untouched(Open(son0, 2 * cyclicBufferPos + 1, 2 * cyclicBufferPos), son[..], Window(), trees[hv])
      requires Rep(son[..], Window(), pos, Insert(d, trees[hv], buffer, lenLimit, cutValue))
      modifies this, hash, son
      ensures Valid() && buffer == old(buffer) + 1 && lenLimit <= old(lenLimit) && Avail() >= old(Avail()) - 1
      ensures trees == AfterOne(d, crc, old(Window()), old(trees), old(lenLimit), cutValue)
      ensures old(Whole() && Enough()) ==> Whole()
    {
      hide HeadsOk, HeadsRecent, BucketsOk, Slot, Hash2, Hash3, Hash4, Prune, Insert, Untouched, Rep, Limits, SetHeads,
           Complete, EnoughAt;
      ghost var v, n, whole, trees0 := Window(), lenLimit, Whole() && Enough(), trees;
      Relinked(hash0, son0, v, hv, n);
      trees := InsertTrees(d, v, trees, hv, n, cutValue);
      MovePos(io);
      if whole { StepWhole(hash0, son0, v, trees0, n); }
    }

    /** A position with less than four bytes left is not entered. */
    method PassOver(io: Io)
      requires Valid() && Avail() > 0 && lenLimit < 4
      modifies this, hash, son
      ensures Valid() && buffer == old(buffer) + 1 && lenLimit <= old(lenLimit) && Avail() >= old(Avail()) - 1
      ensures trees == NextTrees(old(Window()), old(trees))
    {
      hide HeadsOk, HeadsRecent, BucketsOk, Slot, Prune;
      ghost var v := Window();
      NextHeads(d, crc, hash[..], v);
      NextBuckets(d, crc, hash[..], son[..], v, trees, lenLimit);
      trees := NextTrees(v, trees);
      MovePos(io);
    }

    /** HASH4_CALC, the distances of the short heads, the root of the tree; the position becomes all three heads. */
    method SetHashes() returns (d2: nat, d3: nat, hv: nat, curMatch: u32)
      requires Valid() && 4 <= lenLimit
      modifies hash
      ensures hv == Hash4(crc, d, buffer, hashMask + 1) <= hashMask && curMatch == old(hash[FIX4 + hv])
      ensures Hash2(crc, d, buffer) < HASH2 && Hash3(crc, d, buffer) < HASH3
      ensures hash[..] == SetHeads(old(hash[..]), Hash2(crc, d, buffer), Hash3(crc, d, buffer), hv, pos)
      ensures HeadsOk(d, crc, hash[..], Next(Window())) && HeadsRecent(d, crc, hash[..], Next(Window()))
      ensures d2 < cyclicBufferSize ==>
                0 < d2 <= buffer && (At(d, buffer - d2) == At(d, buffer) ==>
                    Common(d, buffer - d2, buffer, lenLimit) >= 2)
      ensures d3 < cyclicBufferSize ==>
                0 < d3 <= buffer && (At(d, buffer - d3) == At(d, buffer) ==>
                    Common(d, buffer - d3, buffer, lenLimit) >= 3)
    {
      hide HeadsOk, HeadsRecent, BucketsOk, Slot, Hash2, Hash3, Hash4, Common;
      ghost var v, hash0 := Window(), hash[..];
      var h2, h3 := Hash2(crc, d, buffer), Hash3(crc, d, buffer);
      hv := Hash4(crc, d, buffer, hashMask + 1);
      HashRanges(crc, d, buffer, hashMask + 1);
      HeadDistances(d, crc, hash0, v);
      d2, d3, curMatch := pos - hash[h2], pos - hash[FIX3 + h3], hash[FIX4 + hv];
      if d2 < cyclicBufferSize { Head2Match(d, crc, hash0, v, lenLimit, d2); }
      if d3 < cyclicBufferSize { Head3Match(d, crc, hash0, v, lenLimit, d3); }
      hash[h2] := pos;
      hash[FIX3 + h3] := pos;
      hash[FIX4 + hv] := pos;
      assert hash[..] == SetHeads(hash0, h2, h3, hv, pos);
      SetHeadsOk(d, crc, hash0, v, hv);
      SetHeadsRecent(d, crc, hash0, v, hv);
    }

    /** Bt4_MatchFinder_GetMatches. */
    method GetMatches(io: Io) returns (distances: seq<Match>)
      requires Valid() && Avail() > 0
      modifies this, hash, son
      ensures Valid() && buffer == old(buffer) + 1 && lenLimit <= old(lenLimit) && Avail() >= old(Avail()) - 1
      ensures trees == AfterOne(d, crc, old(Window()), old(trees), old(lenLimit), cutValue)
      ensures old(lenLimit) < 4 ==> distances == []
      ensures old(lenLimit) >= 4 ==>
                var hv := Hash4(crc, d, old(buffer), hashMask + 1);
                hv <= hashMask && Result(d, old(buffer), old(lenLimit),
                    cyclicBufferSize, distances, old(trees)[hv], cutValue)
      ensures old(Whole() && Enough()) ==> Whole()
      ensures old(Whole() && Enough()) && old(lenLimit) >= 4 ==>
                NoneLonger(d, cyclicBufferSize, old(buffer), old(lenLimit), Longest(distances, 3))
    {
      hide HeadsOk, HeadsRecent, Complete, NoneLonger, Height, BucketsOk, Slot, Result, Hash2, Hash3, Hash4, Prune,
           Insert, Ready, Stored, Search, AllReported, Rising, Older, Found, Untouched, Rep, Common, Limits, SetHeads;
      if lenLimit < 4 {
        PassOver(io);
        return [];
      }
      ghost var v, hash0, son0, n := Window(), hash[..], son[..], lenLimit;
      TreeReady(Hash4(crc, d, buffer, hashMask + 1)) by { HashRanges(crc, d, buffer, hashMask + 1); }
      var d2, d3, hv, curMatch := SetHashes();
      var maxLen;
      distances, maxLen := HeadMatches(d2, d3);
      ghost var t := trees[hv];
      if distances != [] && maxLen == lenLimit {
        SkipMatchesSpec(d, lenLimit, curMatch, pos, buffer, son, cyclicBufferPos, cyclicBufferSize, cutValue, v, t);
        FullLength(distances, n);
        ResultFull(d, buffer, n, cyclicBufferSize, distances, t, cutValue);
      } else {
        var found := GetMatchesSpec1(d, lenLimit, curMatch, pos, buffer, son, cyclicBufferPos, cyclicBufferSize,
            cutValue, StartLen(maxLen), v, t);
        ResultTree(d, v, n, cutValue, distances, maxLen, t);
        distances := distances + found;
      }
      if Whole() && Enough() { BestOfWindow(d, crc, cyclicBufferSize, buffer, trees, n, cutValue, distances); }
      Enter(io, hash0, son0, hv);
    }

    /** Bt4_MatchFinder_Skip, for one position. */
    method SkipOne(io: Io)
      requires Valid() && Avail() > 0
      modifies this, hash, son
      ensures Valid() && buffer == old(buffer) + 1 && lenLimit <= old(lenLimit) && Avail() >= old(Avail()) - 1
      ensures trees == AfterOne(d, crc, old(Window()), old(trees), old(lenLimit), cutValue)
      ensures old(Whole() && Enough()) ==> Whole()
    {
      hide HeadsOk, HeadsRecent, Complete, Height, BucketsOk, Slot, Hash2, Hash3, Hash4, Prune, Insert, Ready, Stored,
           Search, Older, Untouched, Rep, Common, Limits, SetHeads;
      if lenLimit < 4 {
        PassOver(io);
        return;
      }
      ghost var v, hash0, son0, n := Window(), hash[..], son[..], lenLimit;
      TreeReady(Hash4(crc, d, buffer, hashMask + 1)) by { HashRanges(crc, d, buffer, hashMask + 1); }
      var _, _, hv, curMatch := SetHashes();
      SkipMatchesSpec(d, lenLimit, curMatch, pos, buffer, son,
          cyclicBufferPos, cyclicBufferSize, cutValue, v, trees[hv]);
      Enter(io, hash0, son0, hv);
    }

    /** Bt4_MatchFinder_Skip; lens are the lengths that were available at the skipped positions. */
    method Skip(num: nat, ios: seq<Io>) returns (ghost lens: seq<nat>)
      requires Valid() && 0 < num <= Avail() && |ios| == num
      modifies this, hash, son
      ensures Valid() && buffer == old(buffer) + num
      ensures |lens| == num && lens[0] == old(lenLimit) && Falling(lens) && lenLimit <= lens[num - 1]
      ensures trees == AfterAll(d, crc, cyclicBufferSize, old(buffer), old(trees), lens, cutValue)
      ensures old(Whole()) && AllEnough(d, crc, cyclicBufferSize, old(buffer), old(trees), lens, cutValue) ==> Whole()
    {
      hide HeadsOk, HeadsRecent, BucketsOk, Complete, EnoughAt, AfterOne, Positions, Limits, AfterAll, AllEnough,
           Falling;
      ghost var first, trees0, whole := buffer, trees, Whole();
      lens := [];
      NoneSkipped(d, crc, cyclicBufferSize, first, trees0, cutValue);
      var left := num;
      while left != 0
        invariant 0 <= left <= num && Valid() && buffer == first + (num - left) && left <= Avail()
        invariant |lens| == num - left && Falling(lens) && (lens != [] ==> lens[0] == old(lenLimit))
        invariant lenLimit <= if lens == [] then old(lenLimit) else lens[|lens| - 1]
        invariant lens == [] ==> lenLimit == old(lenLimit)
        invariant trees == AfterAll(d, crc, cyclicBufferSize, first, trees0, lens, cutValue)
        invariant whole && AllEnough(d, crc, cyclicBufferSize, first, trees0, lens, cutValue) ==> Whole()
        modifies this, hash, son
      {
        SkippedMore(d, crc, Window(), first, trees0, lens, lenLimit, cutValue);
        lens := lens + [lenLimit];
        SkipOne(ios[num - left]);
        left := left - 1;
      }
    }
  }

  lemma NoneSkipped(d: seq<byte>, crc: Table, size: nat, now: nat, trees: seq<Tree>, cut: nat)
    requires |trees| > 0
    ensures AfterAll(d, crc, size, now, trees, [], cut) == trees && AllEnough(d, crc, size, now, trees, [], cut)
            && Falling([])
  {}

  /** One more position, at which n bytes were available. */
  lemma SkippedMore(d: seq<byte>, crc: Table, v: View, first: nat, trees: seq<Tree>, lens: seq<nat>, n: nat, cut: nat)
    requires |trees| > 0 && v.now == first + |lens| && Falling(lens) && (lens != [] ==> n <= lens[|lens| - 1])
    ensures Falling(lens + [n])
    ensures AfterAll(d, crc, v.size, first, trees, lens + [n], cut)
            == AfterOne(d, crc, v, AfterAll(d, crc, v.size, first, trees, lens, cut), n, cut)
    ensures AllEnough(d, crc, v.size, first, trees, lens + [n], cut) <==>
            AllEnough(d, crc, v.size, first, trees, lens, cut)
            && EnoughAt(d, crc, v.now, AfterAll(d, crc, v.size, first, trees, lens, cut), n, cut)
  {
    hide AfterOne, EnoughAt;
    assert (lens + [n])[..|lens|] == lens;
    AfterSame(d, crc, v, View(0, v.size, v.now), AfterAll(d, crc, v.size, first, trees, lens, cut), n, cut);
  }

  predicate Falling(lens: seq<nat>) { forall j: nat, k: nat | j < k < |lens| :: lens[k] <= lens[j] }

  /** The trees after the positions from `now` on, at which these lengths were available. */
  function AfterAll(d: seq<byte>, crc: Table, size: nat, now: nat, trees: seq<Tree>, lens: seq<nat>,
                    cut: nat): (r: seq<Tree>)
    requires |trees| > 0
    ensures |r| == |trees|
    decreases |lens|
  {
    if lens == [] then trees
    else
      var k := |lens| - 1;
      AfterOne(d, crc, View(0, size, now + k), AfterAll(d, crc, size, now, trees, lens[..k], cut), lens[k], cut)
  }

  /** No search among these positions is cut off. */
  ghost predicate AllEnough(d: seq<byte>, crc: Table, size: nat, now: nat, trees: seq<Tree>, lens: seq<nat>, cut: nat)
    requires |trees| > 0
    decreases |lens|
  {
    lens != [] ==>
      var k := |lens| - 1;
      && AllEnough(d, crc, size, now, trees, lens[..k], cut)
      && EnoughAt(d, crc, now + k, AfterAll(d, crc, size, now, trees, lens[..k], cut), lens[k], cut)
  }

  lemma {:induction false} PruneSame(v: View, u: View, t: Tree)
    requires v.size == u.size && v.now == u.now
    ensures Prune(v, t) == Prune(u, t)
    decreases t
  {
    if t.Node? {
      PruneSame(v, u, t.left);
      PruneSame(v, u, t.right);
    }
  }

  lemma NextSame(v: View, u: View, trees: seq<Tree>)
    requires v.size == u.size && v.now == u.now
    ensures NextTrees(v, trees) == NextTrees(u, trees)
  {
    forall h: nat | h < |trees|
      ensures Prune(Next(v), trees[h]) == Prune(Next(u), trees[h])
    {
      PruneSame(Next(v), Next(u), trees[h]);
    }
    hide Prune;
    assert forall h: nat | h < |trees| :: NextTrees(v, trees)[h] == NextTrees(u, trees)[h];
  }

  /** The trees do not depend on how positions are numbered. */
  lemma AfterSame(d: seq<byte>, crc: Table, v: View, u: View, trees: seq<Tree>, n: nat, cut: nat)
    requires v.size == u.size && v.now == u.now && |trees| > 0
    ensures AfterOne(d, crc, v, trees, n, cut) == AfterOne(d, crc, u, trees, n, cut)
  {
    hide NextTrees, Hash4, Insert;
    HashRanges(crc, d, v.now, |trees|);
    NextSame(v, u, trees);
    if n >= 4 {
      NextSame(v, u, trees[Hash4(crc, d, v.now, |trees|) := Insert(d,
          trees[Hash4(crc, d, v.now, |trees|)], v.now, n, cut)]);
    }
  }

  ghost predicate EnoughAt(d: seq<byte>, crc: Table, now: nat, trees: seq<Tree>, n: nat, cut: nat) {
    n >= 4 && |trees| > 0 ==>
      var hv := Hash4(crc, d, now, |trees|); hv < |trees| && Height(trees[hv]) <= cut
  }

  /** What is reported for the tree is the best of the window. */
  lemma BestOfWindow(d: seq<byte>, crc: Table, size: nat, now: nat, trees: seq<Tree>, n: nat, cut: nat, f: seq<Match>)
    requires |trees| > 0 && n >= 4 && Complete(d, crc, size, now, trees, n) && EnoughAt(d, crc, now, trees, n, cut)
    requires Result(d, now, n, size, f, trees[Hash4(crc, d, now, |trees|)], cut)
    ensures NoneLonger(d, size, now, n, Longest(f, 3))
  {
    hide Hash4, Height, Complete, Common, Longest, AllReported, Rising, NoneLonger;
    TreeIsWindow(d, crc, size, now, trees, n, Longest(f, 3));
  }

  /** The trees after one position, whether it was searched or skipped. */
  function AfterOne(d: seq<byte>, crc: Table, v: View, trees: seq<Tree>, n: nat, cut: nat): (r: seq<Tree>)
    requires |trees| > 0
    ensures |r| == |trees|
  {
    if n < 4 then NextTrees(v, trees)
    else
      HashRanges(crc, d, v.now, |trees|);
      InsertTrees(d, v, trees, Hash4(crc, d, v.now, |trees|), n, cut)
  }

  lemma HashRanges(crc: Table, d: seq<byte>, i: nat, size: nat)
    requires size > 0
    ensures Hash2(crc, d, i) < HASH2 && Hash3(crc, d, i) < HASH3 && Hash4(crc, d, i, size) < size
  {
    hide Xor, Temp, Temp3;
  }

  lemma FullLength(f: seq<Match>, n: nat)
    requires f != [] && Longest(f, 1) == n
    ensures Longest(f, 3) == n
  {}
}
