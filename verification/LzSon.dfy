/** The trees as they lie in the cyclic array `son`, and the two loops that relink them in place. */
module LzSon {
  import opened Bytes
  import opened LzTree

  /** Position i of the input is stored as i + base; positions older than size bytes before now are out of range. */
  datatype View = View(base: int, size: nat, now: nat)

  /** The pair of links of position i. */
  function Slot(v: View, i: nat): nat
    requires v.size > 0
  {
    i % v.size
  }

  predicate Live(v: View, i: nat) { i <= v.now && v.now - i < v.size }

  lemma SlotRange(v: View, i: nat)
    requires v.size > 0
    ensures Slot(v, i) < v.size
  {}

  lemma SlotsDiffer(v: View, i: nat, j: nat)
    requires v.size > 0 && Live(v, i) && Live(v, j) && i < j
    ensures Slot(v, i) != Slot(v, j)
  {
    var n, p, q := v.size, i / v.size, j / v.size;
    if i % n == j % n {
      assert j - i == n * q - n * p == n * (q - p);
      if q > p { MulMonotone(n, 1, q - p); } else { MulMonotone(n, q - p, 0); }
    }
  }

  /** The array index that the loops compute from the distance. */
  lemma SlotOfDelta(v: View, cyc: nat, delta: nat)
    requires delta < v.size && delta <= v.now && cyc == Slot(v, v.now)
    ensures cyc - delta + (if delta > cyc then v.size else 0) == Slot(v, v.now - delta)
  {
    var n, q := v.size, v.now / v.size;
    assert v.now == n * q + cyc;
    if delta > cyc {
      assert n * (q - 1) == n * q - n;
      DivModUnique(v.now - delta, n, q - 1, cyc - delta + n);
    } else {
      DivModUnique(v.now - delta, n, q, cyc - delta);
    }
  }

  /** Link w leads to tree t: a link to a position out of range ends the tree. */
  ghost predicate Rep(son: seq<u32>, v: View, w: int, t: Tree)
    decreases t
  {
    if t.Leaf? then v.now + v.base - w >= v.size
    else
      && w == t.at + v.base && Live(v, t.at)
      && 0 < v.size && 2 * v.size <= |son| && Slot(v, t.at) < v.size
      && Rep(son, v, son[2 * Slot(v, t.at)], t.left) && Rep(son, v, son[2 * Slot(v, t.at) + 1], t.right)
  }

  lemma RepNode(son: seq<u32>, v: View, w: int, t: Tree)
    requires t.Node? && Rep(son, v, w, t)
    ensures w == t.at + v.base && Live(v, t.at) && 0 < v.size && 2 * v.size <= |son| && Slot(v, t.at) < v.size
    ensures Rep(son, v, son[2 * Slot(v, t.at)], t.left) && Rep(son, v, son[2 * Slot(v, t.at) + 1], t.right)
  {}

  /** Both links of position i are the same. */
  predicate SamePair(son: seq<u32>, son': seq<u32>, v: View, i: nat)
    requires v.size > 0 && 2 * v.size <= |son| && |son'| == |son|
  {
    Slot(v, i) < v.size && son'[2 * Slot(v, i)] == son[2 * Slot(v, i)]
    && son'[2 * Slot(v, i) + 1] == son[2 * Slot(v, i) + 1]
  }

  ghost predicate SameLinks(son: seq<u32>, son': seq<u32>, v: View, t: Tree)
    requires v.size > 0 && 2 * v.size <= |son| && |son'| == |son|
  {
    forall i: nat | i in Nodes(t) :: SamePair(son, son', v, i)
  }

  lemma {:induction false} RepAway(son: seq<u32>, son': seq<u32>, v: View, w: int, t: Tree)
    requires v.size > 0 && 2 * v.size <= |son| && |son'| == |son|
    requires Rep(son, v, w, t) && SameLinks(son, son', v, t)
    ensures Rep(son', v, w, t)
    decreases t
  {
    hide Slot;
    if t.Node? {
      assert t.at in Nodes(t) && SamePair(son, son', v, t.at);
      RepAway(son, son', v, son[2 * Slot(v, t.at)], t.left);
      RepAway(son, son', v, son[2 * Slot(v, t.at) + 1], t.right);
    }
  }

  /** Index p of the array is not a link of t. */
  ghost predicate Apart(v: View, t: Tree, p: nat)
    requires v.size > 0
  {
    forall i: nat | i in Nodes(t) :: p != 2 * Slot(v, i) && p != 2 * Slot(v, i) + 1
  }

  // ----- the loop, as a function on the array's contents -----

  /** The array with its two open links: p1 will lead to what comes before the new position, p0 to what comes after
      it. */
  datatype Open = Open(son: seq<u32>, p0: nat, p1: nat)

  predicate Fits(v: View, o: Open) {
    v.size > 0 && 2 * v.size <= |o.son| && o.p0 < |o.son| && o.p1 < |o.son|
  }

  ghost predicate Stored(v: View, t: Tree) {
    v.size > 0 && forall i: nat | i in Nodes(t) :: 0 <= i + v.base < TWO32 && Live(v, i) && Slot(v, i) < v.size
  }

  lemma StoredBelow(v: View, t: Tree)
    requires t.Node? && Stored(v, t)
    ensures Stored(v, t.left) && Stored(v, t.right) && t.at in Nodes(t)
    ensures Live(v, t.at) && 0 <= t.at + v.base < TWO32 && Slot(v, t.at) < v.size
  {
    hide Slot;
  }

  /** The root of t goes to the open link on its side, and one of its own links becomes the open one. */
  function Pass(v: View, t: Tree, o: Open, right: bool): (r: Open)
    requires t.Node? && Fits(v, o) && Slot(v, t.at) < v.size && 0 <= t.at + v.base < TWO32
    ensures Fits(v, r) && |r.son| == |o.son|
  {
    var s, w := 2 * Slot(v, t.at), t.at + v.base;
    if right then Open(o.son[o.p1 := w], o.p0, s + 1) else Open(o.son[o.p0 := w], s, o.p1)
  }

  /** The array after the loop, from any of its iterations. */
  function Relink(d: seq<byte>, v: View, o: Open, t: Tree, n: nat, cut: nat, len0: nat, len1: nat): (r: seq<u32>)
    requires len0 < n && len1 < n && Fits(v, o) && Stored(v, t)
    ensures |r| == |o.son|
    decreases t
  {
    if t.Leaf? || cut == 0 then o.son[o.p1 := 0][o.p0 := 0]
    else
      StoredBelow(v, t);
      var len := LenAt(d, t, v.now, n, len0, len1);
      var s := 2 * Slot(v, t.at);
      if len == n then o.son[o.p1 := o.son[s]][o.p0 := o.son[s + 1]]
      else
        var b := Descend(d, t, v.now, len, len0, len1);
        Relink(d, v, Pass(v, t, o, Before(d, t, v.now, len)), b.t, n, cut - 1, b.len0, b.len1)
  }

  /** Only the open links and the links of t are written. */
  ghost predicate Untouched(o: Open, son': seq<u32>, v: View, t: Tree)
    requires v.size > 0
  {
    |son'| == |o.son| && forall p: nat | p < |o.son| && p != o.p0 && p != o.p1 && Apart(v, t, p) :: son'[p] == o.son[p]
  }

  lemma PassFrame(d: seq<byte>, v: View, o: Open, t: Tree, len: nat, len0: nat, len1: nat, son': seq<u32>)
    requires t.Node? && Stored(v, t) && Fits(v, o) && Slot(v, t.at) < v.size && 0 <= t.at + v.base < TWO32
    requires Untouched(Pass(v, t, o, Before(d, t, v.now, len)), son', v, Descend(d, t, v.now, len, len0, len1).t)
    ensures Untouched(o, son', v, t)
  {
    hide Slot, Before, Live, Stored;
  }

  lemma {:induction false} RelinkFrame(d: seq<byte>, v: View, o: Open, t: Tree, n: nat, cut: nat, len0: nat, len1: nat)
    requires len0 < n && len1 < n && Fits(v, o) && Stored(v, t)
    ensures Untouched(o, Relink(d, v, o, t, n, cut, len0, len1), v, t)
    decreases t
  {
    hide Slot, LenAt, Before, Live, Stored, Pass;
    if t.Node? && cut > 0 {
      StoredBelow(v, t);
      var len := LenAt(d, t, v.now, n, len0, len1);
      if len < n {
        hide Untouched;
        var b := Descend(d, t, v.now, len, len0, len1);
        var o1 := Pass(v, t, o, Before(d, t, v.now, len));
        RelinkFrame(d, v, o1, b.t, n, cut - 1, b.len0, b.len1);
        PassFrame(d, v, o, t, len, len0, len1, Relink(d, v, o1, b.t, n, cut - 1, b.len0, b.len1));
      }
    }
  }

  /** The links of a position in range are not those of a tree it is not in. */
  lemma LinksApart(v: View, t: Tree, x: nat)
    requires Stored(v, t) && Live(v, x) && x !in Nodes(t)
    ensures Apart(v, t, 2 * Slot(v, x)) && Apart(v, t, 2 * Slot(v, x) + 1)
  {
    forall i: nat | i in Nodes(t)
      ensures Slot(v, i) != Slot(v, x)
    {
      if i < x { SlotsDiffer(v, i, x); } else { SlotsDiffer(v, x, i); }
    }
  }

  /** The links of tree u are untouched by work on tree t. */
  lemma OtherTree(o: Open, son': seq<u32>, v: View, t: Tree, u: Tree)
    requires Stored(v, t) && Stored(v, u) && Nodes(t) !! Nodes(u) && 2 * v.size <= |o.son|
    requires Untouched(o, son', v, t) && Apart(v, u, o.p0) && Apart(v, u, o.p1)
    ensures SameLinks(o.son, son', v, u)
  {
    forall i: nat | i in Nodes(u)
      ensures SamePair(o.son, son', v, i)
    {
      LinksApart(v, t, i);
    }
  }

  lemma OneWrite(son: seq<u32>, v: View, t: Tree, p: nat, x: u32)
    requires Stored(v, t) && 2 * v.size <= |son| && p < |son| && Apart(v, t, p)
    ensures SameLinks(son, son[p := x], v, t)
  {
    hide Slot;
  }

  lemma RepWrite(son: seq<u32>, v: View, w: int, t: Tree, p: nat, x: u32)
    requires Stored(v, t) && 2 * v.size <= |son| && p < |son| && Apart(v, t, p) && Rep(son, v, w, t)
    ensures Rep(son[p := x], v, w, t)
  {
    hide Slot, Rep, Apart, SameLinks;
    OneWrite(son, v, t, p, x);
    RepAway(son, son[p := x], v, w, t);
  }

  /** What the loop needs: the open links are two, and not among the links of the tree that w leads to. */
  ghost predicate Ready(d: seq<byte>, v: View, o: Open, w: int, t: Tree, n: nat) {
    && Fits(v, o) && o.p0 != o.p1 && v.now + v.base >= v.size
    && Stored(v, t) && Search(d, t, n) && Rep(o.son, v, w, t) && Apart(v, t, o.p0) && Apart(v, t, o.p1)
  }

  lemma SearchBelow(d: seq<byte>, t: Tree, n: nat)
    requires t.Node? && Search(d, t, n)
    ensures Search(d, t.left, n) && Search(d, t.right, n) && Nodes(t.left) !! Nodes(t.right)
    ensures t.at !in Nodes(t.left) && t.at !in Nodes(t.right)
  {}

  lemma ApartBelow(v: View, t: Tree, p: nat)
    requires t.Node? && v.size > 0 && Apart(v, t, p)
    ensures Apart(v, t.left, p) && Apart(v, t.right, p)
    ensures p != 2 * Slot(v, t.at) && p != 2 * Slot(v, t.at) + 1
  {
    hide Slot;
    assert t.at in Nodes(t);
  }

  /** The new position takes over the links of one that agrees in everything. */
  lemma RelinkEqual(d: seq<byte>, v: View, o: Open, w: int, t: Tree, n: nat)
    requires t.Node? && Ready(d, v, o, w, t, n)
    ensures var s := 2 * Slot(v, t.at);
            && s + 1 < |o.son|
            && (var son' := o.son[o.p1 := o.son[s]][o.p0 := o.son[s + 1]];
                Rep(son', v, o.son[s], t.left) && Rep(son', v, o.son[s + 1], t.right))
  {
    hide Slot, Rep, Live, Stored, Search, Apart;
    StoredBelow(v, t);
    RepNode(o.son, v, w, t);
    ApartBelow(v, t, o.p0);
    ApartBelow(v, t, o.p1);
    var s := 2 * Slot(v, t.at);
    var son1 := o.son[o.p1 := o.son[s]];
    RepWrite(o.son, v, o.son[s], t.left, o.p1, o.son[s]);
    RepWrite(son1, v, o.son[s], t.left, o.p0, o.son[s + 1]);
    RepWrite(o.son, v, o.son[s + 1], t.right, o.p1, o.son[s]);
    RepWrite(son1, v, o.son[s + 1], t.right, o.p0, o.son[s + 1]);
  }

  /** The side of the root on which the search goes on, and the other one. */
  function Near(t: Tree, right: bool): Tree
    requires t.Node?
  {
    if right then t.right else t.left
  }

  /** One pass round the loop. */
  lemma PassReady(d: seq<byte>, v: View, o: Open, w: int, t: Tree, n: nat, right: bool)
    requires t.Node? && Ready(d, v, o, w, t, n)
    ensures Slot(v, t.at) < v.size && 0 <= t.at + v.base < TWO32
    ensures var o1, s := Pass(v, t, o, right), 2 * Slot(v, t.at);
            && Ready(d, v, o1, o1.son[s + if right then 1 else 0], Near(t, right), n)
            && Rep(o1.son, v, o1.son[s + if right then 0 else 1], Near(t, !right))
            && Apart(v, t.left, s) && Apart(v, t.left, s + 1) && Apart(v, t.right, s) && Apart(v, t.right, s + 1)
  {
    hide Slot, Rep, Live, Stored, Search, Apart;
    StoredBelow(v, t);
    RepNode(o.son, v, w, t);
    ApartBelow(v, t, o.p0);
    ApartBelow(v, t, o.p1);
    SearchBelow(d, t, n);
    LinksApart(v, t.right, t.at);
    LinksApart(v, t.left, t.at);
    var s, p := 2 * Slot(v, t.at), if right then o.p1 else o.p0;
    RepWrite(o.son, v, o.son[s], t.left, p, t.at + v.base);
    RepWrite(o.son, v, o.son[s + 1], t.right, p, t.at + v.base);
  }

  /** After the rest of the loop the open links lead to the two halves of t. */
  lemma PassJoins(d: seq<byte>, v: View, o: Open, w: int, t: Tree, n: nat, right: bool, son': seq<u32>, h: Halves)
    requires t.Node? && Ready(d, v, o, w, t, n) && Slot(v, t.at) < v.size && 0 <= t.at + v.base < TWO32
    requires var o1 := Pass(v, t, o, right);
             Untouched(o1, son', v, Near(t, right)) && Rep(son', v, son'[o1.p1], h.less)
             && Rep(son', v, son'[o1.p0], h.more)
    ensures |son'| == |o.son|
    ensures right ==> Rep(son', v, son'[o.p1], Node(t.left, t.at, h.less)) && Rep(son', v, son'[o.p0], h.more)
    ensures !right ==> Rep(son', v, son'[o.p1], h.less) && Rep(son', v, son'[o.p0], Node(h.more, t.at, t.right))
  {
    hide Slot, Live, Stored, Search, Apart, Rep, SameLinks;
    PassReady(d, v, o, w, t, n, right);
    StoredBelow(v, t);
    ApartBelow(v, t, o.p0);
    ApartBelow(v, t, o.p1);
    SearchBelow(d, t, n);
    var o1, s := Pass(v, t, o, right), 2 * Slot(v, t.at);
    var near, far := Near(t, right), Near(t, !right);
    OtherTree(o1, son', v, near, far);
    var q := s + if right then 0 else 1;
    RepAway(o1.son, son', v, o1.son[q], far);
    assert son'[q] == o1.son[q];
    var p := if right then o.p1 else o.p0;
    assert son'[p] == o1.son[p] == t.at + v.base;
    if right { RepMake(son', v, Node(t.left, t.at, h.less)); } else { RepMake(son', v, Node(h.more, t.at, t.right)); }
  }

  lemma RepMake(son: seq<u32>, v: View, t: Tree)
    requires t.Node? && Live(v, t.at) && 0 < v.size && 2 * v.size <= |son| && Slot(v, t.at) < v.size
    requires Rep(son, v, son[2 * Slot(v, t.at)], t.left) && Rep(son, v, son[2 * Slot(v, t.at) + 1], t.right)
    ensures Rep(son, v, t.at + v.base, t)
  {}

  /** The open links end up leading to the two halves of the tree. */
  lemma RelinkIs(d: seq<byte>, v: View, o: Open, t: Tree, n: nat, cut: nat, len0: nat, len1: nat)
    requires len0 < n && len1 < n && Fits(v, o) && Stored(v, t) && t.Node? && cut > 0
    requires Slot(v, t.at) < v.size && 0 <= t.at + v.base < TWO32 && Stored(v, t.left) && Stored(v, t.right)
    ensures var len, s := LenAt(d, t, v.now, n, len0, len1), 2 * Slot(v, t.at);
            if len == n then Relink(d, v, o, t, n, cut, len0, len1) == o.son[o.p1 := o.son[s]][o.p0 := o.son[s + 1]]
            else
              var right := Before(d, t, v.now, len);
              Relink(d, v, o, t, n, cut, len0, len1)
              == Relink(d, v, Pass(v, t, o, right), Near(t, right), n, cut - 1, if right then len0 else len,
                  if right then len else len1)
  {
    hide Slot, LenAt, Before, Stored, Pass;
  }

  lemma SplitIs(d: seq<byte>, t: Tree, c: nat, n: nat, cut: nat, len0: nat, len1: nat)
    requires len0 < n && len1 < n && t.Node? && cut > 0
    ensures var len := LenAt(d, t, c, n, len0, len1);
            if len == n then Split(d, t, c, n, cut, len0, len1) == Halves(t.left, t.right)
            else
              var right := Before(d, t, c, len);
              var h := Split(d, Near(t, right), c, n, cut - 1, if right then len0 else len,
                  if right then len else len1);
              Split(d, t, c, n, cut, len0, len1)
              == if right then Halves(Node(t.left, t.at, h.less), h.more)
                  else Halves(h.less, Node(h.more, t.at, t.right))
  {
    hide LenAt, Before;
  }

  /** The open links end up leading to the two halves of the tree. */
  lemma RelinkStops(d: seq<byte>, v: View, o: Open, w: int, t: Tree, n: nat, cut: nat, len0: nat, len1: nat)
    requires len0 < n && len1 < n && Ready(d, v, o, w, t, n) && Fits(v, o) && Stored(v, t) && (t.Leaf? || cut == 0)
    ensures var son', h := Relink(d, v, o, t, n, cut, len0, len1), Split(d, t, v.now, n, cut, len0, len1);
            |son'| == |o.son| && Rep(son', v, son'[o.p1], h.less) && Rep(son', v, son'[o.p0], h.more)
  {
    hide Slot, LenAt, Before, Live, Nodes, Untouched, Stored, Pass;
  }

  lemma {:induction false} RelinkRep(d: seq<byte>, v: View, o: Open,
                                     w: int, t: Tree, n: nat, cut: nat, len0: nat, len1: nat)
    requires len0 < n && len1 < n && Ready(d, v, o, w, t, n) && Fits(v, o) && Stored(v, t)
    ensures var son', h := Relink(d, v, o, t, n, cut, len0, len1), Split(d, t, v.now, n, cut, len0, len1);
            Rep(son', v, son'[o.p1], h.less) && Rep(son', v, son'[o.p0], h.more)
    decreases t
  {
    hide Slot, LenAt, Before, Ready, Live, Nodes, Untouched, Stored, Pass, Rep, Relink, Split;
    ReadyFits(d, v, o, w, t, n);
    if t.Leaf? || cut == 0 {
      RelinkStops(d, v, o, w, t, n, cut, len0, len1);
    } else {
      StoredBelow(v, t);
      RelinkIs(d, v, o, t, n, cut, len0, len1);
      SplitIs(d, t, v.now, n, cut, len0, len1);
      var len := LenAt(d, t, v.now, n, len0, len1);
      if len == n {
        RelinkEqual(d, v, o, w, t, n);
      } else {
        var right := Before(d, t, v.now, len);
        var n0, n1 := if right then len0 else len, if right then len else len1;
        PassReady(d, v, o, w, t, n, right);
        var o1, near := Pass(v, t, o, right), Near(t, right);
        RelinkRep(d, v, o1, o1.son[2 * Slot(v, t.at) + if right then 1 else 0], near, n, cut - 1, n0, n1);
        RelinkFrame(d, v, o1, near, n, cut - 1, n0, n1);
        PassJoins(d, v, o, w, t, n, right, Relink(d, v, o1, near, n, cut - 1, n0, n1),
            Split(d, near, v.now, n, cut - 1, n0, n1));
      }
    }
  }

  lemma ReadyFits(d: seq<byte>, v: View, o: Open, w: int, t: Tree, n: nat)
    requires Ready(d, v, o, w, t, n)
    ensures Fits(v, o) && Stored(v, t) && o.p0 != o.p1 && v.now + v.base >= v.size
  {}

  lemma {:induction false} RepStored(son: seq<u32>, v: View, w: int, t: Tree)
    requires Rep(son, v, w, t) && 0 <= w < TWO32 && v.size > 0
    ensures Stored(v, t)
    decreases t
  {
    if t.Node? {
      RepStored(son, v, son[2 * Slot(v, t.at)], t.left);
      RepStored(son, v, son[2 * Slot(v, t.at) + 1], t.right);
    }
  }

  /** The open links at the start: those of the current position. */
  function Start(son: seq<u32>, v: View): Open
    requires v.size > 0
  {
    Open(son, 2 * Slot(v, v.now) + 1, 2 * Slot(v, v.now))
  }

  lemma ReadyStart(d: seq<byte>, son: seq<u32>, v: View, w: int, t: Tree, n: nat)
    requires v.size > 0 && 2 * v.size <= |son| && 0 <= w < TWO32 && v.size <= v.now + v.base
    requires Search(d, t, n) && Older(t, v.now) && Rep(son, v, w, t)
    ensures Ready(d, v, Start(son, v), w, t, n)
  {
    hide Slot, Search, Rep;
    SlotRange(v, v.now);
    RepStored(son, v, w, t);
    LinksApart(v, t, v.now);
  }

  /** The finished array holds the tree with the new position at its root. */
  lemma RelinkInsert(d: seq<byte>, son: seq<u32>, v: View, w: int, t: Tree, n: nat, cut: nat)
    requires n > 0 && v.size > 0 && Ready(d, v, Start(son, v), w, t, n)
    ensures var o := Start(son, v);
            && Fits(v, o) && Stored(v, t)
            && (var son' := Relink(d, v, o, t, n, cut, 0, 0);
                Untouched(o, son', v, t) && Rep(son', v, v.now + v.base, Insert(d, t, v.now, n, cut)))
  {
    hide Slot, Ready, Stored, Relink, Split, Rep, Untouched;
    var o := Start(son, v);
    ReadyFits(d, v, o, w, t, n);
    RelinkRep(d, v, o, w, t, n, cut, 0, 0);
    RelinkFrame(d, v, o, t, n, cut, 0, 0);
    var son' := Relink(d, v, o, t, n, cut, 0, 0);
    SlotRange(v, v.now);
    RepMake(son', v, Insert(d, t, v.now, n, cut));
  }
}
