/** The tree of unions: every split keeps the rows, read off the unsplit unions in the order of their numbers. */
module UnionTree {
  import opened UnionSplit
  import opened UnionTry

  /** A Union; kind is its type: -3 empty, -2 not looked at, -1 split, 0 constant, 1 and 2 of fixed and of any
      length. */
  datatype Node = Node(num: nat, kind: int, sample: Sample, constant: string, length: nat)

  /** What union i of the first `done` processed ones contributes to row r. */
  function Piece(tree: seq<Node>, done: nat, i: nat, r: nat): string {
    if i >= |tree| || r >= |tree[i].sample.data| || (i < done && tree[i].kind == -1) then "" else tree[i].sample.data[r]
  }

  function Joined(tree: seq<Node>, done: nat, order: seq<nat>, r: nat): string {
    if order == [] then "" else
    Joined(tree, done, order[..|order| - 1], r) + Piece(tree, done, order[|order| - 1], r)
  }

  /** order[k] is the union with number k. */
  ghost predicate Numbers(tree: seq<Node>, order: seq<nat>) {
    && |order| == |tree|
    && (forall k :: 0 <= k < |tree| ==> order[k] < |tree| && tree[order[k]].num == k)
    && (forall i :: 0 <= i < |tree| ==> tree[i].num < |tree| && order[tree[i].num] == i)
  }

  ghost predicate Kept(tree: seq<Node>, r: nat) {
    forall i :: 0 <= i < |tree| ==> r !in tree[i].sample.outlier
  }

  ghost predicate Shapes(tree: seq<Node>, tot: nat) {
    forall i :: 0 <= i < |tree| ==> Valid(tree[i].sample) && |tree[i].sample.data| == tot
  }

  /** The numbers are 0 to |tree| - 1, and every row without an outlier is the concatenation of its pieces. */
  ghost predicate Inv(tree: seq<Node>, done: nat, order: seq<nat>, rows: seq<string>) {
    && done <= |tree| && Numbers(tree, order) && Shapes(tree, |rows|)
    && forall r :: 0 <= r < |rows| && Kept(tree, r) ==> Joined(tree, done, order, r) == rows[r]
  }

  lemma {:induction false} JoinedConcat(tree: seq<Node>, done: nat, a: seq<nat>, b: seq<nat>, r: nat)
    ensures Joined(tree, done, a + b, r) == Joined(tree, done, a, r) + Joined(tree, done, b, r)
    decreases |b|
  {
    hide Piece;
    if b == [] {
      assert a + b == a;
    } else {
      var n := |b| - 1;
      assert (a + b)[..|a + b| - 1] == a + b[..n];
      JoinedConcat(tree, done, a, b[..n], r);
      var x, y, z := Joined(tree, done, a, r), Joined(tree, done, b[..n], r), Piece(tree, done, b[n], r);
      assert (x + y) + z == x + (y + z);
    }
  }

  lemma {:induction false} JoinedSame(tree: seq<Node>, done: nat, tree': seq<Node>, done': nat, a: seq<nat>, r: nat)
    requires forall k :: 0 <= k < |a| ==> Piece(tree, done, a[k], r) == Piece(tree', done', a[k], r)
    ensures Joined(tree, done, a, r) == Joined(tree', done', a, r)
    decreases |a|
  {
    hide Piece;
    if a != [] { JoinedSame(tree, done, tree', done', a[..|a| - 1], r); }
  }

  lemma JoinedThree(tree: seq<Node>, done: nat, i: nat, j: nat, k: nat, r: nat)
    ensures Joined(tree, done, [i, j, k], r) == Piece(tree, done, i, r) + Piece(tree, done, j, r)
            + Piece(tree, done, k, r)
  {
    hide Piece;
    JoinedOne(tree, done, i, r);
    JoinedOne(tree, done, j, r);
    JoinedOne(tree, done, k, r);
    assert [i, j, k] == [i] + [j] + [k];
    JoinedConcat(tree, done, [i], [j], r);
    JoinedConcat(tree, done, [i] + [j], [k], r);
  }

  lemma JoinedOne(tree: seq<Node>, done: nat, i: nat, r: nat)
    ensures Joined(tree, done, [i], r) == Piece(tree, done, i, r)
  {
    hide Piece;
    assert [i][..0] == [];
    assert Joined(tree, done, [], r) == "";
    assert "" + Piece(tree, done, i, r) == Piece(tree, done, i, r);
  }

  /** Part t of a row that is cut in three. */
  function Part(s: string, d: (int, int), t: nat): string
    requires 0 <= d.0 <= d.1 <= |s|
  {
    if t == 0 then s[..d.0] else if t == 1 then s[d.0..d.1] else s[d.1..]
  }

  lemma PartsJoin(s: string, d: (int, int))
    requires CutAt(s, d)
    ensures Part(s, d, 0) + Part(s, d, 1) + Part(s, d, 2) == s
    ensures |Part(s, d, 0)| + |Part(s, d, 1)| + |Part(s, d, 2)| == |s|
  {}

  /** Part t of every row of the sample; nothing of the outliers. */
  function Parts(u: Sample, delimer: seq<(int, int)>, t: nat, n: nat): (r: seq<string>)
    requires |delimer| == |u.data| && n <= |u.data| && forall i :: 0 <= i < n && i !in u.outlier ==>
             0 <= delimer[i].0 <= delimer[i].1 <= |u.data[i]|
    ensures |r| == n && forall i :: 0 <= i < n ==> r[i] == if i in u.outlier then "" else Part(u.data[i], delimer[i], t)
  {
    if n == 0 then [] else
    Parts(u, delimer, t, n - 1) + [if n - 1 in u.outlier then "" else Part(u.data[n - 1], delimer[n - 1], t)]
  }

  function Child(u: Sample, delimer: seq<(int, int)>, t: nat): (c: Sample)
    requires |delimer| == |u.data| && forall i :: 0 <= i < |u.data| && i !in u.outlier ==>
             0 <= delimer[i].0 <= delimer[i].1 <= |u.data[i]|
  {
    Sample(Parts(u, delimer, t, |u.data|), u.outlier)
  }

  /** Numbers above n make room for three. */
  function Shifted(tree: seq<Node>, n: nat): (r: seq<Node>)
    ensures |r| == |tree| && forall i :: 0 <= i < |tree| ==>
            r[i] == if tree[i].num > n then tree[i].(num := tree[i].num + 3) else tree[i]
  {
    if tree == [] then [] else
    var last := tree[|tree| - 1];
    Shifted(tree[..|tree| - 1], n) + [if last.num > n then last.(num := last.num + 3) else last]
  }

  /** The tree after union w was split. */
  ghost predicate Grown(tree: seq<Node>, w: nat, u': Sample, delimer: seq<(int, int)>, tree': seq<Node>)
    requires w < |tree| && Cuts(u', delimer)
  {
    var n, e := tree[w].num, |tree|;
    && |tree'| == e + 3
    && tree'[w].num == n && tree'[w].kind == -1 && tree'[w].sample == u'
    && (forall i :: 0 <= i < e && i != w ==>
        tree'[i] == if tree[i].num > n then tree[i].(num := tree[i].num + 3) else tree[i])
    && IsNew(tree'[e], n + 1, Child(u', delimer, 0)) && IsNew(tree'[e + 1], n + 2, Child(u', delimer, 1))
    && IsNew(tree'[e + 2], n + 3, Child(u', delimer, 2))
  }

  ghost predicate IsNew(x: Node, num: nat, u: Sample) {
    x.num == num && x.kind == -2 && x.sample == u
  }

  /** The new unions are numbered behind the one that was split. */
  function Inserted(order: seq<nat>, n: nat): (r: seq<nat>)
    requires n < |order|
  {
    order[..n + 1] + [|order|, |order| + 1, |order| + 2] + order[n + 1..]
  }

  lemma GrownNumbers(tree: seq<Node>, w: nat, u': Sample, delimer: seq<(int, int)>, tree': seq<Node>, order: seq<nat>)
    requires w < |tree| && Cuts(u', delimer) && Grown(tree, w, u', delimer, tree') && Numbers(tree, order)
    ensures Numbers(tree', Inserted(order, tree[w].num))
  {
    hide Child;
    var n, e := tree[w].num, |tree|;
    var order' := Inserted(order, n);
    forall k | 0 <= k < e + 3 ensures order'[k] < e + 3 && tree'[order'[k]].num == k {
      if n < k <= n + 3 {
        assert order'[k] == e + (k - n - 1);
      } else {
        assert order'[k] == order[if k <= n then k else k - 3];
      }
    }
    forall i | 0 <= i < e + 3 ensures tree'[i].num < e + 3 && order'[tree'[i].num] == i {
      if i >= e {
        assert tree'[i].num == n + 1 + (i - e);
      } else {
        assert order[tree[i].num] == i;
      }
    }
  }

  lemma OtherPiece(tree: seq<Node>, w: nat, u': Sample, delimer: seq<(int, int)>, tree': seq<Node>, i: nat, r: nat)
    requires w < |tree| && Cuts(u', delimer) && Grown(tree, w, u', delimer, tree') && i < |tree| && i != w
    ensures Piece(tree', w + 1, i, r) == Piece(tree, w, i, r)
  {
    hide Child, IsNew;
  }

  lemma SplitPieces(tree: seq<Node>, w: nat, u': Sample, delimer: seq<(int, int)>, tree': seq<Node>, r: nat)
    requires w < |tree| && Cuts(u', delimer) && Grown(tree, w, u', delimer, tree') && u'.data == tree[w].sample.data
    requires r < |u'.data| && r !in u'.outlier
    ensures var e := |tree|;
            Piece(tree', w + 1, w, r) == "" && Piece(tree, w, w, r)
            == Piece(tree', w + 1, e, r) + Piece(tree', w + 1, e + 1, r) + Piece(tree', w + 1, e + 2, r)
  {
    PartsJoin(u'.data[r], delimer[r]);
  }

  /** A split keeps the text of every row that is still no outlier. */
  lemma GrownRow(tree: seq<Node>, w: nat, u': Sample, delimer: seq<(int, int)>,
                 tree': seq<Node>, order: seq<nat>, r: nat)
    requires w < |tree| && Numbers(tree, order) && Cuts(u', delimer) && Grown(tree, w, u', delimer, tree')
    requires u'.data == tree[w].sample.data && r < |u'.data| && r !in u'.outlier
    ensures Joined(tree', w + 1, Inserted(order, tree[w].num), r) == Joined(tree, w, order, r)
  {
    hide Piece, Grown, Joined;
    var n, e := tree[w].num, |tree|;
    var a, b, c := order[..n], order[n + 1..], [e, e + 1, e + 2];
    assert order == a + ([w] + b);
    assert Inserted(order, n) == a + ([w] + (c + b));
    forall k | 0 <= k < |a| ensures Piece(tree, w, a[k], r) == Piece(tree', w + 1, a[k], r) {
      OtherPiece(tree, w, u', delimer, tree', a[k], r);
    }
    JoinedSame(tree, w, tree', w + 1, a, r);
    forall k | 0 <= k < |b| ensures Piece(tree, w, b[k], r) == Piece(tree', w + 1, b[k], r) {
      OtherPiece(tree, w, u', delimer, tree', b[k], r);
    }
    JoinedSame(tree, w, tree', w + 1, b, r);
    JoinedConcat(tree, w, a, [w] + b, r);
    JoinedConcat(tree, w, [w], b, r);
    JoinedOne(tree, w, w, r);
    JoinedConcat(tree', w + 1, a, [w] + (c + b), r);
    JoinedConcat(tree', w + 1, [w], c + b, r);
    JoinedOne(tree', w + 1, w, r);
    JoinedConcat(tree', w + 1, c, b, r);
    JoinedThree(tree', w + 1, e, e + 1, e + 2, r);
    SplitPieces(tree, w, u', delimer, tree', r);
    assert "" + Joined(tree', w + 1, c + b, r) == Joined(tree', w + 1, c + b, r);
  }

  lemma GrownKept(tree: seq<Node>, w: nat, u': Sample, delimer: seq<(int, int)>, tree': seq<Node>, r: nat)
    requires w < |tree| && Cuts(u', delimer) && Grown(tree, w, u', delimer, tree')
             && tree[w].sample.outlier <= u'.outlier && Kept(tree', r)
    ensures Kept(tree, r) && r !in u'.outlier
  {
    hide Child, IsNew;
    assert r !in tree'[w].sample.outlier;
    forall i | 0 <= i < |tree| ensures r !in tree[i].sample.outlier {
      assert r !in tree'[i].sample.outlier;
    }
  }

  lemma GrownShapes(tree: seq<Node>, w: nat, u': Sample, delimer: seq<(int, int)>, tree': seq<Node>, tot: nat)
    requires w < |tree| && Cuts(u', delimer) && Grown(tree, w, u', delimer, tree') && Shapes(tree, tot) && Valid(u')
             && |u'.data| == tot
    ensures Shapes(tree', tot)
  {
    hide Part;
  }

  /** A split keeps the numbering and the rows. */
  lemma SplitKeeps(tree: seq<Node>, w: nat, u': Sample, delimer: seq<(int, int)>,
                   tree': seq<Node>, order: seq<nat>, rows: seq<string>)
    requires w < |tree| && Inv(tree, w, order, rows) && SplitOf(tree[w].sample, u', delimer)
             && Grown(tree, w, u', delimer, tree')
    ensures Inv(tree', w + 1, Inserted(order, tree[w].num), rows)
  {
    hide Piece, Grown, Joined, Inserted, Cuts, Kept, Shapes, Numbers;
    InvParts(tree, w, order, rows);
    GrownNumbers(tree, w, u', delimer, tree', order);
    GrownShapes(tree, w, u', delimer, tree', |rows|);
    GrownSize(tree, w, u', delimer, tree');
    var order' := Inserted(order, tree[w].num);
    forall r | 0 <= r < |rows| && Kept(tree', r) ensures Joined(tree', w + 1, order', r) == rows[r] {
      GrownKept(tree, w, u', delimer, tree', r);
      GrownRow(tree, w, u', delimer, tree', order, r);
    }
  }

  lemma GrownSize(tree: seq<Node>, w: nat, u': Sample, delimer: seq<(int, int)>, tree': seq<Node>)
    requires w < |tree| && Cuts(u', delimer) && Grown(tree, w, u', delimer, tree')
    ensures |tree'| == |tree| + 3
  {}

  lemma InvParts(tree: seq<Node>, done: nat, order: seq<nat>, rows: seq<string>)
    requires Inv(tree, done, order, rows)
    ensures Numbers(tree, order) && Shapes(tree, |rows|)
    ensures forall i :: 0 <= i < |tree| ==>
            |tree[i].sample.data| == |rows| && Valid(tree[i].sample) && tree[i].num < |tree| == |order|
  {}

  /** A union that was not split keeps its rows whatever kind it is. */
  lemma FixedKeeps(tree: seq<Node>, w: nat, x: Node, order: seq<nat>, rows: seq<string>)
    requires w < |tree| && Inv(tree, w, order, rows)
    requires x.num == tree[w].num && x.sample == tree[w].sample && x.kind != -1
    ensures Inv(tree[w := x], w + 1, order, rows)
  {
    var tree' := tree[w := x];
    forall r | 0 <= r < |rows| && Kept(tree', r) ensures Joined(tree', w + 1, order, r) == rows[r] {
      assert Kept(tree, r) by {
        forall i | 0 <= i < |tree| ensures r !in tree[i].sample.outlier { assert r !in tree'[i].sample.outlier; }
      }
      JoinedSame(tree, w, tree', w + 1, order, r);
    }
  }
}
