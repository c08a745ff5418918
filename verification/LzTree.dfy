/** The binary search tree of a hash bucket: what GetMatchesSpec1 and SkipMatchesSpec do to it. */
module LzTree {
  import opened Bytes
  import opened LzOrder

  /** A node holds a position of the input. */
  datatype Tree = Leaf | Node(left: Tree, at: nat, right: Tree)

  function Nodes(t: Tree): set<nat> {
    if t.Leaf? then {} else Nodes(t.left) + {t.at} + Nodes(t.right)
  }

  function Height(t: Tree): nat {
    if t.Leaf? then 0 else 1 + if Height(t.left) < Height(t.right) then Height(t.right) else Height(t.left)
  }

  ghost predicate AllLe(d: seq<byte>, t: Tree, j: nat, n: nat) { forall x: nat | x in Nodes(t) :: Le(d, x, j, n) }

  ghost predicate AllGe(d: seq<byte>, t: Tree, j: nat, n: nat) { forall x: nat | x in Nodes(t) :: Le(d, j, x, n) }

  ghost predicate Older(t: Tree, c: nat) { forall x: nat | x in Nodes(t) :: x < c }

  /** Ordered by the next n bytes, children older than their parent, no position twice. */
  ghost predicate Search(d: seq<byte>, t: Tree, n: nat) {
    t.Node? ==>
      && Search(d, t.left, n) && Search(d, t.right, n)
      && Older(t.left, t.at) && Older(t.right, t.at) && Nodes(t.left) !! Nodes(t.right)
      && AllLe(d, t.left, t.at, n) && AllGe(d, t.right, t.at, n)
  }

  lemma {:induction false} SearchShorter(d: seq<byte>, t: Tree, n: nat, m: nat)
    requires Search(d, t, n) && m <= n
    ensures Search(d, t, m)
  {
    if t.Node? {
      SearchShorter(d, t.left, n, m);
      SearchShorter(d, t.right, n, m);
      forall x: nat | x in Nodes(t.left)
        ensures Le(d, x, t.at, m)
      {
        LeShorter(d, x, t.at, n, m);
      }
      forall x: nat | x in Nodes(t.right)
        ensures Le(d, t.at, x, m)
      {
        LeShorter(d, t.at, x, n, m);
      }
    }
  }

  // ----- insertion: the tree is split at the new position -----

  function Min(a: nat, b: nat): (r: nat)
    ensures r <= a && r <= b
  {
    if a < b then a else b
  }

  /** The comparison length at the root. */
  function LenAt(d: seq<byte>, t: Tree, c: nat, n: nat, len0: nat, len1: nat): (r: nat)
    requires t.Node? && len0 < n && len1 < n
    ensures r <= n
  {
    Scan(d, t.at, c, Min(len0, len1), n)
  }

  /** The root is before the new position. */
  predicate Before(d: seq<byte>, t: Tree, c: nat, len: nat)
    requires t.Node?
  {
    At(d, t.at + len) < At(d, c + len)
  }

  /** Where the search goes on, with the lengths known on either side. */
  datatype Below = Below(t: Tree, len0: nat, len1: nat)

  function Descend(d: seq<byte>, t: Tree, c: nat, len: nat, len0: nat, len1: nat): Below
    requires t.Node?
  {
    if Before(d, t, c, len) then Below(t.right, len0, len) else Below(t.left, len, len1)
  }

  datatype Halves = Halves(less: Tree, more: Tree)

  function Join(d: seq<byte>, t: Tree, c: nat, len: nat, h: Halves): Halves
    requires t.Node?
  {
    if Before(d, t, c, len) then Halves(Node(t.left, t.at, h.less), h.more)
        else Halves(h.less, Node(h.more, t.at, t.right))
  }

  /** What becomes of the tree when c is inserted, with at most cut comparisons. */
  function Split(d: seq<byte>, t: Tree, c: nat, n: nat, cut: nat, len0: nat, len1: nat): Halves
    requires len0 < n && len1 < n
  {
    if t.Leaf? || cut == 0 then Halves(Leaf, Leaf)
    else
      var len := LenAt(d, t, c, n, len0, len1);
      if len == n then Halves(t.left, t.right)
      else
        var b := Descend(d, t, c, len, len0, len1);
        Join(d, t, c, len, Split(d, b.t, c, n, cut - 1, b.len0, b.len1))
  }

  datatype Match = Match(len: nat, dist: nat)

  function Head(t: Tree, c: nat, len: nat, hit: bool): seq<Match>
    requires t.Node? && t.at < c
  {
    if hit then [Match(len, c - t.at - 1)] else []
  }

  /** The (length, distance - 1) pairs that are reported. */
  function Found(d: seq<byte>, t: Tree, c: nat, n: nat, cut: nat, len0: nat, len1: nat, best: nat): seq<Match>
    requires len0 < n && len1 < n && best < n && Older(t, c)
  {
    if t.Leaf? || cut == 0 then []
    else
      var len := LenAt(d, t, c, n, len0, len1);
      var hit := len > Min(len0, len1) && best < len;
      assert t.at in Nodes(t);
      if len == n then Head(t, c, len, hit)
      else
        var b := Descend(d, t, c, len, len0, len1);
        Head(t, c, len, hit) + Found(d, b.t, c, n, cut - 1, b.len0, b.len1, if hit then len else best)
  }

  /** All positions in t agree with c as far as the search may assume. */
  ghost predicate Bounded(d: seq<byte>, t: Tree, c: nat, len0: nat, len1: nat) {
    AllLe(d, t, c, len0) && AllGe(d, t, c, len1)
  }

  lemma SubtreesBounded(d: seq<byte>, t: Tree, c: nat, len0: nat, len1: nat)
    requires t.Node? && Bounded(d, t, c, len0, len1)
    ensures Bounded(d, t.left, c, len0, len1) && Bounded(d, t.right, c, len0, len1)
  {}

  /** Starting the comparison at the smaller of the two lengths is sound. */
  lemma StartIsSound(d: seq<byte>, t: Tree, c: nat, n: nat, len0: nat, len1: nat)
    requires t.Node? && len0 < n && len1 < n && Bounded(d, t, c, len0, len1)
    ensures LenAt(d, t, c, n, len0, len1) == Common(d, t.at, c, n) >= Min(len0, len1)
  {
    var m := Min(len0, len1);
    assert t.at in Nodes(t);
    LeShorter(d, t.at, c, len0, m);
    LeShorter(d, c, t.at, len1, m);
    LeBoth(d, t.at, c, n, m);
    ScanSound(d, t.at, c, m, n);
  }

  /** Behind a root that comes before c, everything agrees with c as far as the root does, or comes after it. */
  lemma RightBounded(d: seq<byte>, t: Tree, c: nat, n: nat, len0: nat, len1: nat)
    requires t.Node? && Search(d, t, n) && Bounded(d, t, c, len0, len1)
    ensures Bounded(d, t.right, c, len0, Common(d, t.at, c, n))
  {
    var len := Common(d, t.at, c, n);
    SubtreesBounded(d, t, c, len0, len1);
    forall x: nat | x in Nodes(t.right)
      ensures Le(d, c, x, len)
    {
      LeCommon(d, t.at, c, n, len);
      LeShorter(d, t.at, x, n, len);
      LeTrans(d, c, t.at, x, len);
    }
  }

  lemma LeftBounded(d: seq<byte>, t: Tree, c: nat, n: nat, len0: nat, len1: nat)
    requires t.Node? && Search(d, t, n) && Bounded(d, t, c, len0, len1)
    ensures Bounded(d, t.left, c, Common(d, t.at, c, n), len1)
  {
    var len := Common(d, t.at, c, n);
    SubtreesBounded(d, t, c, len0, len1);
    forall x: nat | x in Nodes(t.left)
      ensures Le(d, x, c, len)
    {
      LeCommon(d, t.at, c, n, len);
      LeShorter(d, x, t.at, n, len);
      LeTrans(d, x, t.at, c, len);
    }
  }

  /** The search goes on in a search tree in which it may assume the new lengths. */
  lemma DescendBounded(d: seq<byte>, t: Tree, c: nat, n: nat, len0: nat, len1: nat)
    requires t.Node? && len0 < n && len1 < n && Search(d, t, n) && Bounded(d, t, c, len0, len1)
    ensures var b := Descend(d, t, c, LenAt(d, t, c, n, len0, len1), len0, len1);
            Bounded(d, b.t, c, b.len0, b.len1) && Search(d, b.t, n) && Nodes(b.t) <= Nodes(t)
  {
    StartIsSound(d, t, c, n, len0, len1);
    RightBounded(d, t, c, n, len0, len1);
    LeftBounded(d, t, c, n, len0, len1);
  }

  /** What the comparison at the root says about the whole n bytes. */
  lemma RootOrder(d: seq<byte>, t: Tree, c: nat, n: nat)
    requires t.Node?
    ensures var len := Common(d, t.at, c, n);
            && (len == n ==> Le(d, t.at, c, n) && Le(d, c, t.at, n))
            && (len < n && Before(d, t, c, len) ==> Le(d, t.at, c, n))
            && (len < n && !Before(d, t, c, len) ==> Le(d, c, t.at, n))
  {
    LeByCommon(d, t.at, c, n);
    LeByCommon(d, c, t.at, n);
    CommonSym(d, t.at, c, n);
    CommonMeans(d, t.at, c, n);
  }

  lemma AllLeTrans(d: seq<byte>, t: Tree, i: nat, j: nat, n: nat)
    requires AllLe(d, t, i, n) && Le(d, i, j, n)
    ensures AllLe(d, t, j, n)
  {
    forall x: nat | x in Nodes(t)
      ensures Le(d, x, j, n)
    {
      LeTrans(d, x, i, j, n);
    }
  }

  lemma AllGeTrans(d: seq<byte>, t: Tree, i: nat, j: nat, n: nat)
    requires AllGe(d, t, i, n) && Le(d, j, i, n)
    ensures AllGe(d, t, j, n)
  {
    forall x: nat | x in Nodes(t)
      ensures Le(d, j, x, n)
    {
      LeTrans(d, j, i, x, n);
    }
  }

  /** The halves are search trees with only old positions, none of them twice. */
  lemma {:induction false} SplitNodes(d: seq<byte>, t: Tree, c: nat, n: nat, cut: nat, len0: nat, len1: nat)
    requires len0 < n && len1 < n && Search(d, t, n)
    ensures var h := Split(d, t, c, n, cut, len0, len1);
            && Nodes(h.less) + Nodes(h.more) <= Nodes(t) && Nodes(h.less) !! Nodes(h.more)
            && Search(d, h.less, n) && Search(d, h.more, n)
    decreases t
  {
    if t.Node? && cut > 0 {
      var len := LenAt(d, t, c, n, len0, len1);
      hide LenAt, Before, Le;
      if len < n {
        var b := Descend(d, t, c, len, len0, len1);
        SplitNodes(d, b.t, c, n, cut - 1, b.len0, b.len1);
      }
    }
  }

  /** The new position separates the halves. */
  lemma {:induction false} SplitOrder(d: seq<byte>, t: Tree, c: nat, n: nat, cut: nat, len0: nat, len1: nat)
    requires len0 < n && len1 < n && Search(d, t, n) && Bounded(d, t, c, len0, len1)
    ensures var h := Split(d, t, c, n, cut, len0, len1); AllLe(d, h.less, c, n) && AllGe(d, h.more, c, n)
    decreases t
  {
    if t.Node? && cut > 0 {
      var len := LenAt(d, t, c, n, len0, len1);
      StartIsSound(d, t, c, n, len0, len1);
      RootOrder(d, t, c, n);
      if Le(d, t.at, c, n) { AllLeTrans(d, t.left, t.at, c, n); }
      if Le(d, c, t.at, n) { AllGeTrans(d, t.right, t.at, c, n); }
      if len < n {
        DescendBounded(d, t, c, n, len0, len1);
        hide LenAt, Le, Search, Bounded, Common;
        var b := Descend(d, t, c, len, len0, len1);
        SplitOrder(d, b.t, c, n, cut - 1, b.len0, b.len1);
      }
    }
  }

  /** The tree after c has been inserted. */
  function Insert(d: seq<byte>, t: Tree, c: nat, n: nat, cut: nat): Tree
    requires n > 0
  {
    var h := Split(d, t, c, n, cut, 0, 0);
    Node(h.less, c, h.more)
  }

  /** Insertion keeps a search tree; the new position is the root. */
  lemma InsertKeeps(d: seq<byte>, t: Tree, c: nat, n: nat, cut: nat)
    requires n > 0 && Search(d, t, n) && Older(t, c)
    ensures Search(d, Insert(d, t, c, n, cut), n)
    ensures Nodes(Insert(d, t, c, n, cut)) <= Nodes(t) + {c}
  {
    SplitNodes(d, t, c, n, cut, 0, 0);
    SplitOrder(d, t, c, n, cut, 0, 0);
  }

  /** With enough comparisons allowed only a position that agrees in all n bytes is dropped. */
  lemma {:induction false} SplitAll(d: seq<byte>, t: Tree, c: nat, n: nat, cut: nat, len0: nat, len1: nat, x: nat)
    requires len0 < n && len1 < n && Search(d, t, n) && Bounded(d, t, c, len0, len1)
    requires Height(t) <= cut && x in Nodes(t) && Common(d, x, c, n) < n
    ensures var h := Split(d, t, c, n, cut, len0, len1); x in Nodes(h.less) + Nodes(h.more)
    decreases t
  {
    hide LenAt, Le, Search, Bounded, Common, Before;
    var len := LenAt(d, t, c, n, len0, len1);
    StartIsSound(d, t, c, n, len0, len1);
    if len < n {
      DescendBounded(d, t, c, n, len0, len1);
      var b := Descend(d, t, c, len, len0, len1);
      if x in Nodes(b.t) { SplitAll(d, b.t, c, n, cut - 1, b.len0, b.len1, x); }
    }
  }

  // ----- the reported matches -----

  /** A match is a position of the tree, and its length is all that agrees. */
  ghost predicate TrueMatch(d: seq<byte>, t: Tree, c: nat, n: nat, m: Match) {
    m.dist < c && c - 1 - m.dist in Nodes(t) && m.len == Common(d, c - 1 - m.dist, c, n) > 0
  }

  ghost predicate AllTrue(d: seq<byte>, t: Tree, c: nat, n: nat, f: seq<Match>) {
    forall k: nat | k < |f| :: TrueMatch(d, t, c, n, f[k])
  }

  ghost predicate Rising(f: seq<Match>, best: nat) {
    && (forall k: nat | k < |f| :: best < f[k].len)
    && (forall j: nat, k: nat | j < k < |f| :: f[j].len < f[k].len)
  }

  lemma RisingHead(h: seq<Match>, f: seq<Match>, best: nat, len: nat)
    requires (h == [] && len == best) || (|h| == 1 && best < h[0].len == len)
    requires Rising(f, len)
    ensures Rising(h + f, best)
  {
    var g := h + f;
    forall k: nat | k < |g|
      ensures best < g[k].len
    {
      if k >= |h| { assert g[k] == f[k - |h|]; }
    }
    forall j: nat, k: nat | j < k < |g|
      ensures g[j].len < g[k].len
    {
      assert g[k] == f[k - |h|];
      if j >= |h| { assert g[j] == f[j - |h|]; }
    }
  }

  lemma TrueAppend(d: seq<byte>, t: Tree, c: nat, n: nat, h: seq<Match>, f: seq<Match>)
    requires AllTrue(d, t, c, n, h) && AllTrue(d, t, c, n, f)
    ensures AllTrue(d, t, c, n, h + f)
  {
    var g := h + f;
    forall k: nat | k < |g|
      ensures TrueMatch(d, t, c, n, g[k])
    {
      if k >= |h| { assert g[k] == f[k - |h|]; }
    }
  }

  lemma TrueUp(d: seq<byte>, s: Tree, t: Tree, c: nat, n: nat, f: seq<Match>)
    requires Nodes(s) <= Nodes(t) && AllTrue(d, s, c, n, f)
    ensures AllTrue(d, t, c, n, f)
  {}

  /** Every reported pair is a true match, and the lengths rise strictly above the length known before. */
  lemma {:induction false} FoundTrue(d: seq<byte>, t: Tree, c: nat, n: nat, cut: nat, len0: nat, len1: nat, best: nat)
    requires len0 < n && len1 < n && best < n && Search(d, t, n) && Older(t, c) && Bounded(d, t, c, len0, len1)
    ensures var f := Found(d, t, c, n, cut, len0, len1, best); Rising(f, best) && AllTrue(d, t, c, n, f)
    decreases t
  {
    hide LenAt, Le, Search, Bounded, Common, Before;
    if t.Node? && cut > 0 {
      var len := LenAt(d, t, c, n, len0, len1);
      StartIsSound(d, t, c, n, len0, len1);
      assert t.at in Nodes(t);
      var hit := len > Min(len0, len1) && best < len;
      var h := Head(t, c, len, hit);
      assert AllTrue(d, t, c, n, h);
      if len < n {
        DescendBounded(d, t, c, n, len0, len1);
        var b := Descend(d, t, c, len, len0, len1);
        var best' := if hit then len else best;
        hide Descend, Nodes, TrueMatch, AllTrue, Rising;
        assert Older(b.t, c);
        FoundTrue(d, b.t, c, n, cut - 1, b.len0, b.len1, best');
        var f := Found(d, b.t, c, n, cut - 1, b.len0, b.len1, best');
        TrueUp(d, b.t, t, c, n, f);
        TrueAppend(d, t, c, n, h, f);
        RisingHead(h, f, best, best');
      }
    }
  }

  /** The longest length known after the search. */
  function Longest(f: seq<Match>, best: nat): nat {
    if f == [] then best else f[|f| - 1].len
  }

  /** With enough comparisons allowed, no position of the tree has a longer match than the last one reported. */
  lemma {:induction false} FoundLongest(d: seq<byte>, t: Tree, c: nat,
                                        n: nat, cut: nat, len0: nat, len1: nat, best: nat, x: nat)
    requires len0 <= best < n && len1 <= best && Search(d, t, n) && Older(t, c) && Bounded(d, t, c, len0, len1)
    requires Height(t) <= cut && x in Nodes(t)
    ensures Common(d, x, c, n) <= Longest(Found(d, t, c, n, cut, len0, len1, best), best)
    decreases t
  {
    hide Le, Search, Bounded, Common, Before, Longest, LenAt, Rising;
    var len := LenAt(d, t, c, n, len0, len1);
    StartIsSound(d, t, c, n, len0, len1);
    DescendBounded(d, t, c, n, len0, len1);
    assert t.at in Nodes(t);
    var hit := len > Min(len0, len1) && best < len;
    var h := Head(t, c, len, hit);
    assert Longest(h, best) == if hit then len else best by { LongestHead(h, best); }
    if len < n {
      var b := Descend(d, t, c, len, len0, len1);
      var best' := if hit then len else best;
      FoundTrue(d, b.t, c, n, cut - 1, b.len0, b.len1, best');
      var f := Found(d, b.t, c, n, cut - 1, b.len0, b.len1, best');
      LongestAppend(h, f, best);
      if x in Nodes(b.t) {
        FoundLongest(d, b.t, c, n, cut - 1, b.len0, b.len1, best', x);
      } else {
        NotBelow(d, t, c, n, len, len0, len1, x);
        LongestRises(f, best');
      }
    }
  }

  lemma LongestHead(h: seq<Match>, best: nat)
    requires |h| <= 1
    ensures Longest(h, best) == if |h| == 1 then h[0].len else best
  {}

  lemma LongestAppend(h: seq<Match>, f: seq<Match>, best: nat)
    ensures Longest(h + f, best) == Longest(f, Longest(h, best))
  {
    if f == [] { assert h + f == h; }
  }

  lemma LongestRises(f: seq<Match>, best: nat)
    requires Rising(f, best)
    ensures best <= Longest(f, best)
  {}

  /** A position on the other side of the root agrees no longer than the root does. */
  lemma NotBelow(d: seq<byte>, t: Tree, c: nat, n: nat, len: nat, len0: nat, len1: nat, x: nat)
    requires t.Node? && Search(d, t, n) && len == Common(d, t.at, c, n) < n
    requires x in Nodes(t) && x !in Nodes(Descend(d, t, c, len, len0, len1).t)
    ensures Common(d, x, c, n) <= len
  {
    hide Le, Common;
    RootOrder(d, t, c, n);
    if x != t.at {
      if Before(d, t, c, len) { CommonBetween(d, x, t.at, c, n); } else { CommonAbove(d, c, t.at, x, n); }
    }
  }

  lemma CommonAbove(d: seq<byte>, c: nat, i: nat, x: nat, n: nat)
    requires Le(d, c, i, n) && Le(d, i, x, n)
    ensures Common(d, x, c, n) <= Common(d, i, c, n)
  {
    CommonBetween(d, c, i, x, n);
    CommonSym(d, c, x, n);
    CommonSym(d, c, i, n);
  }
}
