/** Which positions of the window the trees still hold, when every insertion had comparisons enough. */
module LzWindow {
  import opened Bytes
  import opened LzOrder
  import opened LzTree
  import opened LzSon
  import opened LzHash
  import opened LzBuckets

  /** A position that agrees with another one in all n bytes is as good for any search. */
  lemma {:induction false} CommonSame(d: seq<byte>, i: nat, j: nat, c: nat, n: nat)
    requires Common(d, i, j, n) == n
    ensures Common(d, i, c, n) == Common(d, j, c, n)
    decreases n
  {
    if n > 0 { CommonSame(d, i + 1, j + 1, c + 1, n - 1); }
  }

  lemma {:induction false} CommonShorter(d: seq<byte>, i: nat, j: nat, n: nat, m: nat)
    requires Common(d, i, j, n) == n && m <= n
    ensures Common(d, i, j, m) == m
    decreases m
  {
    if m > 0 { CommonShorter(d, i + 1, j + 1, n - 1, m - 1); }
  }

  lemma {:induction false} CommonSelf(d: seq<byte>, i: nat, n: nat)
    ensures Common(d, i, i, n) == n
    decreases n
  {
    if n > 0 { CommonSelf(d, i + 1, n - 1); }
  }

  /** Positions that agree in four bytes are in the same bucket. */
  lemma HashSame(d: seq<byte>, crc: Table, i: nat, j: nat, n: nat, size: nat)
    requires Common(d, i, j, n) >= 4 && size > 0
    ensures Hash4(crc, d, i, size) == Hash4(crc, d, j, size)
  {
    hide Xor;
    CommonMeans(d, i, j, n);
    assert Same(d, i, j, 0) && Same(d, i, j, 1) && Same(d, i, j, 2) && Same(d, i, j, 3);
  }

  /** Position j of the tree stands for i: it is not older, and the search cannot tell them apart. */
  ghost predicate StandsFor(d: seq<byte>, t: Tree, n: nat, i: nat, j: nat) {
    j in Nodes(t) && i <= j && Common(d, i, j, n) == n
  }

  ghost predicate Held(d: seq<byte>, crc: Table, trees: seq<Tree>, n: nat, i: nat) {
    |trees| > 0 && var h := Hash4(crc, d, i, |trees|); h < |trees| && exists j: nat :: StandsFor(d, trees[h], n, i, j)
  }

  /** Every older position of the window is held. */
  ghost predicate Complete(d: seq<byte>, crc: Table, size: nat, now: nat, trees: seq<Tree>, n: nat) {
    forall i: nat | i < now && now - i < size :: Held(d, crc, trees, n, i)
  }

  lemma CompleteShorter(d: seq<byte>, crc: Table, size: nat, now: nat, trees: seq<Tree>, n: nat, m: nat)
    requires Complete(d, crc, size, now, trees, n) && m <= n
    ensures Complete(d, crc, size, now, trees, m)
  {
    hide Hash4, Common;
    forall i: nat | i < now && now - i < size
      ensures Held(d, crc, trees, m, i)
    {
      assert Held(d, crc, trees, n, i);
      var h := Hash4(crc, d, i, |trees|);
      var j: nat :| StandsFor(d, trees[h], n, i, j);
      CommonShorter(d, i, j, n, m);
      assert StandsFor(d, trees[h], m, i, j);
    }
  }

  /** An inserted position stands for those that the insertion drops. */
  lemma InsertStands(d: seq<byte>, t: Tree, c: nat, n: nat, cut: nat, i: nat, j: nat)
    requires n > 0 && Search(d, t, n) && Older(t, c) && Height(t) <= cut && StandsFor(d, t, n, i, j)
    ensures exists k: nat :: StandsFor(d, Insert(d, t, c, n, cut), n, i, k)
  {
    hide Search, Common, Split, Height;
    assert Bounded(d, t, c, 0, 0);
    hide Bounded;
    if Common(d, j, c, n) < n {
      SplitAll(d, t, c, n, cut, 0, 0, j);
      assert StandsFor(d, Insert(d, t, c, n, cut), n, i, j);
    } else {
      CommonSame(d, i, j, c, n);
      assert StandsFor(d, Insert(d, t, c, n, cut), n, i, c);
    }
  }

  /** What stands for a position of the window is in the window itself. */
  lemma PruneStands(d: seq<byte>, v: View, t: Tree, n: nat, i: nat, j: nat)
    requires Search(d, t, n) && Older(t, v.now) && v.now - i < v.size && StandsFor(d, t, n, i, j)
    ensures StandsFor(d, Prune(v, t), n, i, j)
  {
    hide Search, Common;
    PruneKeeps(d, v, t, n, j);
  }

  lemma InsertHolds(d: seq<byte>, crc: Table, v: View, trees: seq<Tree>, hv: nat, n: nat, cut: nat, i: nat)
    requires n > 0 && hv < |trees| && hv == Hash4(crc, d, v.now, |trees|) && Height(trees[hv]) <= cut
    requires forall h: nat | h < |trees| :: Search(d, trees[h], n) && Older(trees[h], v.now)
    requires i <= v.now && v.now + 1 - i < v.size && (i < v.now ==> Held(d, crc, trees, n, i))
    ensures Held(d, crc, InsertTrees(d, v, trees, hv, n, cut), n, i)
  {
    hide Hash4, Search, Common, Insert, Prune, Older, Height;
    var h := Hash4(crc, d, i, |trees|);
    var now := trees[hv := Insert(d, trees[hv], v.now, n, cut)];
    var j: nat;
    InsertOlder(d, trees[hv], v.now, n, cut);
    if i == v.now {
      j := i;
      CommonSelf(d, i, n);
    } else {
      j :| StandsFor(d, trees[h], n, i, j);
      if h == hv {
        InsertStands(d, trees[hv], v.now, n, cut, i, j);
        j :| StandsFor(d, now[h], n, i, j);
      } else {
        OlderMore(trees[h], v.now);
      }
    }
    PruneStands(d, Next(v), now[h], n, i, j);
    assert InsertTrees(d, v, trees, hv, n, cut)[h] == Prune(Next(v), now[h]);
    assert StandsFor(d, InsertTrees(d, v, trees, hv, n, cut)[h], n, i, j);
  }

  lemma InsertOlder(d: seq<byte>, t: Tree, c: nat, n: nat, cut: nat)
    requires n > 0 && Search(d, t, n) && Older(t, c)
    ensures Search(d, Insert(d, t, c, n, cut), n) && Older(Insert(d, t, c, n, cut), c + 1)
    ensures c in Nodes(Insert(d, t, c, n, cut))
  {
    InsertKeeps(d, t, c, n, cut);
    hide Search, Split;
  }

  /** With comparisons enough the trees go on holding every position of the window. */
  lemma InsertComplete(d: seq<byte>, crc: Table, hash: seq<u32>, son: seq<u32>,
                       v: View, trees: seq<Tree>, hv: nat, n: nat, cut: nat)
    requires BucketsOk(d, crc, hash, son, v, trees, n) && n > 0 && hv < |trees| && hv == Hash4(crc, d, v.now, |trees|)
    requires Complete(d, crc, v.size, v.now, trees, n) && Height(trees[hv]) <= cut
    ensures Complete(d, crc, v.size, v.now + 1, InsertTrees(d, v, trees, hv, n, cut), n)
  {
    hide Hash4, Search, Rep, Hashed, Held, InsertTrees, Height, Older;
    forall h: nat | h < |trees|
      ensures Search(d, trees[h], n) && Older(trees[h], v.now)
    {
      assert BucketOk(d, crc, son, hash[FIX4 + h], v, trees[h], n, |trees|, h);
    }
    forall i: nat | i < v.now + 1 && v.now + 1 - i < v.size
      ensures Held(d, crc, InsertTrees(d, v, trees, hv, n, cut), n, i)
    {
      InsertHolds(d, crc, v, trees, hv, n, cut, i);
    }
  }

  /** No position of the window has a longer match than L, unless that match has at most three bytes. */
  ghost predicate NoneLonger(d: seq<byte>, size: nat, now: nat, n: nat, L: nat) {
    forall x: nat | x < now && now - x < size :: Common(d, x, now, n) <= L || Common(d, x, now, n) <= 3
  }

  /** What no node of the bucket's tree exceeds, no position of the window exceeds. */
  lemma TreeIsWindow(d: seq<byte>, crc: Table, size: nat, now: nat, trees: seq<Tree>, n: nat, L: nat)
    requires |trees| > 0 && Complete(d, crc, size, now, trees, n)
    requires var hv := Hash4(crc, d, now, |trees|);
             hv < |trees| && forall x: nat | x in Nodes(trees[hv]) ::
                               Common(d, x, now, n) <= L || Common(d, x, now, n) <= 3
    ensures NoneLonger(d, size, now, n, L)
  {
    hide Hash4, Common;
    forall x: nat | x < now && now - x < size
      ensures Common(d, x, now, n) <= L || Common(d, x, now, n) <= 3
    {
      if Common(d, x, now, n) > 3 {
        HashSame(d, crc, x, now, n, |trees|);
        assert Held(d, crc, trees, n, x);
        var j: nat :| StandsFor(d, trees[Hash4(crc, d, now, |trees|)], n, x, j);
        CommonSame(d, x, j, now, n);
      }
    }
  }
}
