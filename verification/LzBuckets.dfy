/** All hash heads and all trees of the match finder, and how they survive a step and a renumbering. */
module LzBuckets {
  import opened Bytes
  import opened LzTree
  import opened LzSon
  import opened LzHash

  const FIX3: nat := HASH2
  const FIX4: nat := HASH2 + HASH3

  /** A link that is not ahead of the current position. */
  predicate Past(w: int, v: View) { w <= v.now + v.base }

  /** The distance test that every use of a link starts with. */
  predicate OutOfRange(w: int, v: View) { v.now + v.base - w >= v.size }

  ghost predicate Head2Ok(d: seq<byte>, crc: Table, hash: seq<u32>, v: View, h: nat)
    requires h < HASH2 && FIX4 <= |hash|
  {
    var w := hash[h];
    Past(w, v) && (OutOfRange(w, v) || (0 <= w - v.base < v.now && Hash2(crc, d, w - v.base) == h))
  }

  ghost predicate Head3Ok(d: seq<byte>, crc: Table, hash: seq<u32>, v: View, h: nat)
    requires h < HASH3 && FIX4 <= |hash|
  {
    var w := hash[FIX3 + h];
    Past(w, v) && (OutOfRange(w, v) || (0 <= w - v.base < v.now && Hash3(crc, d, w - v.base) == h))
  }

  ghost predicate HeadsOk(d: seq<byte>, crc: Table, hash: seq<u32>, v: View) {
    && |hash| >= FIX4
    && (forall h: nat | h < HASH2 :: Head2Ok(d, crc, hash, v, h))
    && (forall h: nat | h < HASH3 :: Head3Ok(d, crc, hash, v, h))
  }

  /** The heads of position q's short hashes are not older than q. */
  ghost predicate Since(d: seq<byte>, crc: Table, hash: seq<u32>, v: View, q: nat) {
    && |hash| >= FIX4 && Hash2(crc, d, q) < HASH2 && Hash3(crc, d, q) < HASH3
    && q + v.base <= hash[Hash2(crc, d, q)] && q + v.base <= hash[FIX3 + Hash3(crc, d, q)]
  }

  /** No position of the window is more recent than the heads of its short hashes. */
  ghost predicate HeadsRecent(d: seq<byte>, crc: Table, hash: seq<u32>, v: View) {
    forall q: nat | q < v.now && v.now - q < v.size :: Since(d, crc, hash, v, q)
  }

  ghost predicate Hashed(d: seq<byte>, crc: Table, t: Tree, size: nat, h: nat) {
    size > 0 && forall i: nat | i in Nodes(t) :: Hash4(crc, d, i, size) == h
  }

  /** Bucket h holds a search tree of older positions with that hash value. */
  ghost predicate BucketOk(d: seq<byte>, crc: Table, son: seq<u32>,
                           w: int, v: View, t: Tree, n: nat, size: nat, h: nat) {
    Rep(son, v, w, t) && Search(d, t, n) && Older(t, v.now) && Hashed(d, crc, t, size, h)
  }

  ghost predicate BucketsOk(d: seq<byte>, crc: Table, hash: seq<u32>,
                            son: seq<u32>, v: View, trees: seq<Tree>, n: nat) {
    && |hash| == FIX4 + |trees| && v.size > 0 && 2 * v.size <= |son|
    && forall h: nat | h < |trees| :: BucketOk(d, crc, son, hash[FIX4 + h], v, trees[h], n, |trees|, h)
  }

  // ----- positions drop out of range -----

  function Next(v: View): View { v.(now := v.now + 1) }

  /** The tree without the positions that are out of range. */
  function Prune(v: View, t: Tree): Tree {
    if t.Leaf? || !Live(v, t.at) then Leaf else Node(Prune(v, t.left), t.at, Prune(v, t.right))
  }

  lemma {:induction false} PruneNodes(v: View, t: Tree)
    ensures Nodes(Prune(v, t)) <= Nodes(t)
    decreases t
  {
    if t.Node? && Live(v, t.at) {
      PruneNodes(v, t.left);
      PruneNodes(v, t.right);
    }
  }

  /** Nothing else is lost. */
  lemma {:induction false} PruneKeeps(d: seq<byte>, v: View, t: Tree, n: nat, i: nat)
    requires Search(d, t, n) && i in Nodes(t) && Live(v, i) && Older(t, v.now)
    ensures i in Nodes(Prune(v, t))
    decreases t
  {
    assert t.at in Nodes(t);
    if i in Nodes(t.left) { PruneKeeps(d, v, t.left, n, i); }
    if i in Nodes(t.right) { PruneKeeps(d, v, t.right, n, i); }
  }

  lemma {:induction false} PruneSearch(d: seq<byte>, v: View, t: Tree, n: nat)
    requires Search(d, t, n)
    ensures Search(d, Prune(v, t), n)
    decreases t
  {
    if t.Node? && Live(v, t.at) {
      PruneSearch(d, v, t.left, n);
      PruneSearch(d, v, t.right, n);
      PruneNodes(v, t.left);
      PruneNodes(v, t.right);
    }
  }

  lemma {:induction false} PruneRep(son: seq<u32>, v: View, w: int, t: Tree)
    requires Rep(son, v, w, t)
    ensures Rep(son, Next(v), w, Prune(Next(v), t))
    decreases t
  {
    hide Slot;
    if t.Node? && Live(Next(v), t.at) {
      assert Slot(Next(v), t.at) == Slot(v, t.at) by { SlotNext(v, t.at); }
      PruneRep(son, v, son[2 * Slot(v, t.at)], t.left);
      PruneRep(son, v, son[2 * Slot(v, t.at) + 1], t.right);
    }
  }

  lemma SlotNext(v: View, i: nat)
    requires v.size > 0
    ensures Slot(Next(v), i) == Slot(v, i)
  {}

  lemma NextBucket(d: seq<byte>, crc: Table, son: seq<u32>, w: int, v: View, t: Tree, n: nat, size: nat, h: nat)
    requires Rep(son, v, w, t) && Search(d, t, n) && Older(t, v.now + 1) && Hashed(d, crc, t, size, h)
    ensures BucketOk(d, crc, son, w, Next(v), Prune(Next(v), t), n, size, h)
  {
    hide Search, Rep, Hash4;
    PruneRep(son, v, w, t);
    PruneSearch(d, Next(v), t, n);
    PruneNodes(Next(v), t);
  }

  lemma NextHeads(d: seq<byte>, crc: Table, hash: seq<u32>, v: View)
    requires HeadsOk(d, crc, hash, v)
    ensures HeadsOk(d, crc, hash, Next(v))
  {
    hide Hash2, Hash3;
    forall h: nat | h < HASH2
      ensures Head2Ok(d, crc, hash, Next(v), h)
    {
      assert Head2Ok(d, crc, hash, v, h);
    }
    forall h: nat | h < HASH3
      ensures Head3Ok(d, crc, hash, Next(v), h)
    {
      assert Head3Ok(d, crc, hash, v, h);
    }
  }

  /** The trees one position later. */
  function NextTrees(v: View, trees: seq<Tree>): (r: seq<Tree>)
    ensures |r| == |trees|
  {
    seq(|trees|, h requires 0 <= h < |trees| => Prune(Next(v), trees[h]))
  }

  /** A position that is not inserted. */
  lemma NextBuckets(d: seq<byte>, crc: Table, hash: seq<u32>, son: seq<u32>, v: View, trees: seq<Tree>, n: nat)
    requires BucketsOk(d, crc, hash, son, v, trees, n)
    ensures BucketsOk(d, crc, hash, son, Next(v), NextTrees(v, trees), n)
  {
    hide Search, Rep, Hashed, Prune;
    forall h: nat | h < |trees|
      ensures BucketOk(d, crc, son, hash[FIX4 + h], Next(v), Prune(Next(v), trees[h]), n, |trees|, h)
    {
      assert BucketOk(d, crc, son, hash[FIX4 + h], v, trees[h], n, |trees|, h);
      NextBucket(d, crc, son, hash[FIX4 + h], v, trees[h], n, |trees|, h);
    }
  }

  // ----- the current position is inserted -----

  /** The three heads of the current position. */
  function SetHeads(hash: seq<u32>, h2: nat, h3: nat, hv: nat, pos: u32): (r: seq<u32>)
    requires h2 < HASH2 && h3 < HASH3 && FIX4 + hv < |hash|
    ensures |r| == |hash|
  {
    hash[h2 := pos][FIX3 + h3 := pos][FIX4 + hv := pos]
  }

  lemma SetHeadsOk(d: seq<byte>, crc: Table, hash: seq<u32>, v: View, hv: nat)
    requires HeadsOk(d, crc, hash, v) && FIX4 + hv < |hash| && 0 <= v.now + v.base < TWO32 && v.size > 0
    ensures HeadsOk(d, crc, SetHeads(hash, Hash2(crc, d, v.now), Hash3(crc, d, v.now), hv, v.now + v.base), Next(v))
  {
    NextHeads(d, crc, hash, v);
    hide Temp, Temp3, OutOfRange;
    var hash' := SetHeads(hash, Hash2(crc, d, v.now), Hash3(crc, d, v.now), hv, v.now + v.base);
    forall h: nat | h < HASH2
      ensures Head2Ok(d, crc, hash', Next(v), h)
    {
      assert Head2Ok(d, crc, hash, Next(v), h);
    }
    forall h: nat | h < HASH3
      ensures Head3Ok(d, crc, hash', Next(v), h)
    {
      assert Head3Ok(d, crc, hash, Next(v), h);
    }
  }

  lemma SetHeadsRecent(d: seq<byte>, crc: Table, hash: seq<u32>, v: View, hv: nat)
    requires HeadsRecent(d, crc, hash, v) && FIX4 + hv < |hash| && 0 <= v.now + v.base < TWO32
    requires Hash2(crc, d, v.now) < HASH2 && Hash3(crc, d, v.now) < HASH3
    ensures HeadsRecent(d, crc, SetHeads(hash, Hash2(crc, d, v.now), Hash3(crc, d, v.now), hv, v.now + v.base), Next(v))
  {
    hide Hash2, Hash3;
    var hash' := SetHeads(hash, Hash2(crc, d, v.now), Hash3(crc, d, v.now), hv, v.now + v.base);
    forall q: nat | q < v.now + 1 && v.now + 1 - q < v.size
      ensures Since(d, crc, hash', Next(v), q)
    {
      if q < v.now { assert Since(d, crc, hash, v, q); }
    }
  }

  /** Trees of different buckets share no position. */
  lemma OtherBucket(d: seq<byte>, crc: Table, t: Tree, u: Tree, size: nat, g: nat, h: nat)
    requires Hashed(d, crc, t, size, g) && Hashed(d, crc, u, size, h) && g != h
    ensures Nodes(t) !! Nodes(u)
  {
    hide Hash4;
    assert forall i: nat | i in Nodes(t) :: Hash4(crc, d, i, size) != h;
  }

  /** Relinking one bucket's tree leaves the others as they are. */
  lemma OtherKept(d: seq<byte>, crc: Table, son: seq<u32>, son': seq<u32>, v: View, t: Tree, w: int, u: Tree, n: nat,
                  size: nat, g: nat, h: nat)
    requires v.size > 0 && 2 * v.size <= |son| && Stored(v, t) && Hashed(d, crc, t, size, g) && g != h && 0 <= w < TWO32
    requires BucketOk(d, crc, son, w, v, u, n, size, h) && Untouched(Start(son, v), son', v, t)
    ensures Rep(son', v, w, u)
  {
    hide Slot, Search, Hash4, Rep, Untouched, Hashed, SameLinks;
    OtherBucket(d, crc, t, u, size, g, h);
    RepStored(son, v, w, u);
    hide Stored;
    assert v.now !in Nodes(u);
    SlotRange(v, v.now);
    LinksApart(v, u, v.now);
    OtherTree(Start(son, v), son', v, t, u);
    UntouchedSize(Start(son, v), son', v, t);
    RepAway(son, son', v, w, u);
  }

  lemma UntouchedSize(o: Open, son': seq<u32>, v: View, t: Tree)
    requires v.size > 0 && Untouched(o, son', v, t)
    ensures |son'| == |o.son|
  {}

  /** The trees after the current position was inserted in bucket hv. */
  function InsertTrees(d: seq<byte>, v: View, trees: seq<Tree>, hv: nat, n: nat, cut: nat): (r: seq<Tree>)
    requires hv < |trees| && n > 0
    ensures |r| == |trees|
  {
    NextTrees(v, trees[hv := Insert(d, trees[hv], v.now, n, cut)])
  }

  lemma InsertHashed(d: seq<byte>, crc: Table, t: Tree, c: nat, n: nat, cut: nat, size: nat)
    requires size > 0 && n > 0 && Search(d, t, n) && Older(t, c) && Hashed(d, crc, t, size, Hash4(crc, d, c, size))
    ensures Hashed(d, crc, Insert(d, t, c, n, cut), size, Hash4(crc, d, c, size))
    ensures Search(d, Insert(d, t, c, n, cut), n) && Older(Insert(d, t, c, n, cut), c + 1)
  {
    hide Search, Hash4, Insert;
    InsertKeeps(d, t, c, n, cut);
  }

  predicate SameHead(hash: seq<u32>, hash': seq<u32>, h: nat)
    requires |hash'| == |hash| && FIX4 + h < |hash|
  {
    hash'[FIX4 + h] == hash[FIX4 + h]
  }

  lemma InsertBuckets(d: seq<byte>, crc: Table, hash: seq<u32>, hash': seq<u32>, son: seq<u32>, son': seq<u32>,
                      v: View, trees: seq<Tree>, n: nat, hv: nat, cut: nat)
    requires BucketsOk(d, crc, hash, son, v, trees, n) && n > 0 && hv < |trees| && hv == Hash4(crc, d, v.now, |trees|)
    requires |hash'| == |hash| && hash'[FIX4 + hv] == v.now + v.base
    requires forall h: nat | h < |trees| && h != hv :: SameHead(hash, hash', h)
    requires Untouched(Start(son, v), son', v, trees[hv])
             && Rep(son', v, v.now + v.base, Insert(d, trees[hv], v.now, n, cut))
    ensures BucketsOk(d, crc, hash', son', Next(v), InsertTrees(d, v, trees, hv, n, cut), n)
  {
    hide Search, Rep, Hashed, Hash4, Prune, Untouched, Insert, Start, Older, Stored;
    var now := trees[hv := Insert(d, trees[hv], v.now, n, cut)];
    UntouchedSize(Start(son, v), son', v, trees[hv]);
    assert |Start(son, v).son| == |son| by { StartIs(son, v); }
    forall h: nat | h < |trees|
      ensures BucketOk(d, crc, son', hash'[FIX4 + h], Next(v), Prune(Next(v), now[h]), n, |trees|, h)
    {
      assert BucketOk(d, crc, son, hash[FIX4 + hv], v, trees[hv], n, |trees|, hv);
      assert BucketOk(d, crc, son, hash[FIX4 + h], v, trees[h], n, |trees|, h);
      InsertHashed(d, crc, trees[hv], v.now, n, cut, |trees|);
      if h != hv {
        assert SameHead(hash, hash', h);
        RepStored(son, v, hash[FIX4 + hv], trees[hv]);
        OtherKept(d, crc, son, son', v, trees[hv], hash[FIX4 + h], trees[h], n, |trees|, hv, h);
        OlderMore(trees[h], v.now);
      }
      NextBucket(d, crc, son', hash'[FIX4 + h], v, now[h], n, |trees|, h);
    }
  }

  lemma StartIs(son: seq<u32>, v: View)
    requires v.size > 0
    ensures Start(son, v).son == son
  {}

  lemma OlderMore(t: Tree, c: nat)
    requires Older(t, c)
    ensures Older(t, c + 1)
  {}

  lemma ShorterBuckets(d: seq<byte>, crc: Table, hash: seq<u32>,
                       son: seq<u32>, v: View, trees: seq<Tree>, n: nat, m: nat)
    requires BucketsOk(d, crc, hash, son, v, trees, n) && m <= n
    ensures BucketsOk(d, crc, hash, son, v, trees, m)
  {
    hide Search, Rep, Hashed;
    forall h: nat | h < |trees|
      ensures BucketOk(d, crc, son, hash[FIX4 + h], v, trees[h], m, |trees|, h)
    {
      assert BucketOk(d, crc, son, hash[FIX4 + h], v, trees[h], n, |trees|, h);
      SearchShorter(d, trees[h], n, m);
    }
  }

  // ----- renumbering -----

  /** MatchFinder_Normalize3 on one link. */
  function Lower(w: u32, sub: nat): u32 { if w <= sub then 0 else w - sub }

  function LowerAll(s: seq<u32>, sub: nat): (r: seq<u32>)
    ensures |r| == |s|
  {
    seq(|s|, i requires 0 <= i < |s| => Lower(s[i], sub))
  }

  function Lowered(v: View, sub: nat): View { v.(base := v.base - sub) }

  /** No distance test changes its outcome, and distances in range stay the same. */
  lemma LowerKeepsTests(w: u32, v: View, sub: nat)
    requires Past(w, v) && sub + v.size <= v.now + v.base
    ensures Past(Lower(w, sub), Lowered(v, sub))
    ensures OutOfRange(w, v) <==> OutOfRange(Lower(w, sub), Lowered(v, sub))
    ensures !OutOfRange(w, v) ==> v.now + v.base - w == Lowered(v, sub).now + Lowered(v, sub).base - Lower(w, sub)
  {}

  lemma {:induction false} LowerRep(son: seq<u32>, v: View, w: u32, t: Tree, sub: nat)
    requires Rep(son, v, w, t) && sub + v.size <= v.now + v.base
    ensures Rep(LowerAll(son, sub), Lowered(v, sub), Lower(w, sub), t)
    decreases t
  {
    hide Slot;
    if t.Node? {
      assert Slot(Lowered(v, sub), t.at) == Slot(v, t.at) by { SlotLowered(v, sub, t.at); }
      LowerRep(son, v, son[2 * Slot(v, t.at)], t.left, sub);
      LowerRep(son, v, son[2 * Slot(v, t.at) + 1], t.right, sub);
    }
  }

  lemma SlotLowered(v: View, sub: nat, i: nat)
    requires v.size > 0
    ensures Slot(Lowered(v, sub), i) == Slot(v, i)
  {}

  /** The renumbered arrays hold the same trees and the same heads. */
  lemma LowerBuckets(d: seq<byte>, crc: Table, hash: seq<u32>,
                     son: seq<u32>, v: View, trees: seq<Tree>, n: nat, sub: nat)
    requires BucketsOk(d, crc, hash, son, v, trees, n) && sub + v.size <= v.now + v.base
    ensures BucketsOk(d, crc, LowerAll(hash, sub), LowerAll(son, sub), Lowered(v, sub), trees, n)
  {
    hide Search, Rep, Hashed;
    forall h: nat | h < |trees|
      ensures BucketOk(d, crc, LowerAll(son, sub), LowerAll(hash, sub)[FIX4 + h],
              Lowered(v, sub), trees[h], n, |trees|, h)
    {
      assert BucketOk(d, crc, son, hash[FIX4 + h], v, trees[h], n, |trees|, h);
      LowerRep(son, v, hash[FIX4 + h], trees[h], sub);
    }
  }

  lemma LowerHeads(d: seq<byte>, crc: Table, hash: seq<u32>, v: View, sub: nat)
    requires HeadsOk(d, crc, hash, v) && sub + v.size <= v.now + v.base
    ensures HeadsOk(d, crc, LowerAll(hash, sub), Lowered(v, sub))
  {
    hide Hash2, Hash3;
    forall h: nat | h < HASH2
      ensures Head2Ok(d, crc, LowerAll(hash, sub), Lowered(v, sub), h)
    {
      assert Head2Ok(d, crc, hash, v, h);
    }
    forall h: nat | h < HASH3
      ensures Head3Ok(d, crc, LowerAll(hash, sub), Lowered(v, sub), h)
    {
      assert Head3Ok(d, crc, hash, v, h);
    }
  }

  lemma LowerRecent(d: seq<byte>, crc: Table, hash: seq<u32>, v: View, sub: nat)
    requires HeadsRecent(d, crc, hash, v) && sub + v.size <= v.now + v.base
    ensures HeadsRecent(d, crc, LowerAll(hash, sub), Lowered(v, sub))
  {
    hide Hash2, Hash3;
    forall q: nat | q < v.now && v.now - q < v.size
      ensures Since(d, crc, LowerAll(hash, sub), Lowered(v, sub), q)
    {
      assert Since(d, crc, hash, v, q);
    }
  }
}
