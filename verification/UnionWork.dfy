/** The worklist over the unions of a variable: Union::execute and Union::equeue in compression/union.cpp, and the
    loops of proc in compression/main.cpp that run it and put the unsplit unions in order. */
module UnionWork {
  import opened UnionSplit
  import opened UnionTry
  import opened UnionTree

  /** The characters in the first n rows of the sample. */
  function Total(u: Sample, n: nat): nat
    requires n <= |u.data|
  {
    if n == 0 then 0 else Total(u, n - 1) + if n - 1 in u.outlier then 0 else |u.data[n - 1]|
  }

  function Weight(u: Sample): nat {
    var t := Total(u, |u.data|);
    if t > 0 then t - 1 else 0
  }

  lemma {:induction false} TotalFewer(u: Sample, u': Sample, n: nat)
    requires u'.data == u.data && u.outlier <= u'.outlier && n <= |u.data|
    ensures Total(u', n) <= Total(u, n)
  {
    if n > 0 { TotalFewer(u, u', n - 1); }
  }

  lemma {:induction false} TotalParts(u: Sample, delimer: seq<(int, int)>, n: nat)
    requires Cuts(u, delimer) && n <= |u.data|
    ensures Total(Child(u, delimer, 0), n) + Total(Child(u, delimer, 1), n) + Total(Child(u, delimer, 2), n)
            == Total(u, n)
    decreases n
  {
    hide Part;
    if n > 0 {
      TotalParts(u, delimer, n - 1);
      if n - 1 !in u.outlier { PartsJoin(u.data[n - 1], delimer[n - 1]); }
    }
  }

  lemma {:induction false} TotalAtLeast(u: Sample, i: nat, n: nat)
    requires i < n <= |u.data| && i !in u.outlier
    ensures Total(u, n) >= |u.data[i]|
    decreases n
  {
    if i < n - 1 { TotalAtLeast(u, i, n - 1); }
  }

  lemma DividedParts(s: string, d: (int, int))
    requires Divides(s, d)
    ensures |Part(s, d, 1)| > 0 && (|Part(s, d, 0)| > 0 || |Part(s, d, 2)| > 0)
  {}

  /** The three new samples together weigh less than the one that was split. */
  lemma ChildrenLighter(u: Sample, u': Sample, delimer: seq<(int, int)>)
    requires SplitOf(u, u', delimer)
    ensures Weight(Child(u', delimer, 0)) + Weight(Child(u', delimer, 1)) + Weight(Child(u', delimer, 2)) < Weight(u)
  {
    hide Part;
    var n := |u.data|;
    TotalFewer(u, u', n);
    TotalParts(u', delimer, n);
    var i :| 0 <= i < |u.data| && i !in u'.outlier && Divides(u.data[i], delimer[i]);
    DividedParts(u.data[i], delimer[i]);
    TotalAtLeast(Child(u', delimer, 0), i, n);
    TotalAtLeast(Child(u', delimer, 1), i, n);
    TotalAtLeast(Child(u', delimer, 2), i, n);
  }

  /** The weight of the unions not yet looked at. */
  function Potential(tree: seq<Node>, from: nat): nat
    decreases |tree| - from
  {
    if from >= |tree| then 0 else Weight(tree[from].sample) + Potential(tree, from + 1)
  }

  lemma {:induction false} PotentialGrown(tree: seq<Node>, w: nat, u': Sample, delimer: seq<(int, int)>,
                                          tree': seq<Node>, from: nat)
    requires w < |tree| && Cuts(u', delimer) && Grown(tree, w, u', delimer, tree') && w < from <= |tree|
    ensures Potential(tree', from) == Potential(tree, from) + Weight(Child(u', delimer, 0))
            + Weight(Child(u', delimer, 1)) + Weight(Child(u', delimer, 2))
    decreases |tree| - from
  {
    hide Weight, Child;
    if from < |tree| {
      PotentialGrown(tree, w, u', delimer, tree', from + 1);
    } else {
      var e := |tree|;
      assert Potential(tree', e + 3) == 0;
      assert Potential(tree', e + 2) == Weight(tree'[e + 2].sample);
      assert Potential(tree', e + 1) == Weight(tree'[e + 1].sample) + Potential(tree', e + 2);
    }
  }

  lemma {:induction false} PotentialSame(tree: seq<Node>, w: nat, x: Node, from: nat)
    requires w < |tree| && w < from
    ensures Potential(tree[w := x], from) == Potential(tree, from)
    decreases |tree| - from
  {
    hide Weight;
    if from < |tree| { PotentialSame(tree, w, x, from + 1); }
  }

  function CountValue(u: Sample, v: string, n: nat): nat
    requires n <= |u.data|
  {
    if n == 0 then 0 else CountValue(u, v, n - 1) + if n - 1 !in u.outlier && u.data[n - 1] == v then 1 else 0
  }

  function CountLength(u: Sample, l: nat, n: nat): nat
    requires n <= |u.data|
  {
    if n == 0 then 0 else CountLength(u, l, n - 1) + if n - 1 !in u.outlier && |u.data[n - 1]| == l then 1 else 0
  }

  /** How often each value and each length occurs. */
  method CountAll(u: Sample) returns (counter: map<string, nat>, lenCounter: map<nat, nat>)
    ensures forall v :: (v in counter <==> CountValue(u, v, |u.data|) > 0)
              && (v in counter ==> counter[v] == CountValue(u, v, |u.data|))
    ensures forall l :: (l in lenCounter <==> CountLength(u, l, |u.data|) > 0)
              && (l in lenCounter ==> lenCounter[l] == CountLength(u, l, |u.data|))
  {
    counter, lenCounter := map[], map[];
    for i := 0 to |u.data|
      invariant forall v ::
                  (v in counter <==> CountValue(u, v, i) > 0) && (v in counter ==> counter[v] == CountValue(u, v, i))
      invariant forall l ::
                  (l in lenCounter <==> CountLength(u, l, i) > 0)
                  && (l in lenCounter ==> lenCounter[l] == CountLength(u, l, i))
    {
      if i !in u.outlier {
        var temp := u.data[i];
        counter := counter[temp := if temp in counter then counter[temp] + 1 else 1];
        var nowLength := |temp|;
        lenCounter := lenCounter[nowLength := if nowLength in lenCounter then lenCounter[nowLength] + 1 else 1];
      }
    }
  }

  /** The key with the largest count; `none` if there is no key. */
  method MostFrequent<T(==)>(counter: map<T, nat>, none: T) returns (most: T, max: nat)
    ensures if most in counter then max == counter[most] else counter == map[] && most == none && max == 0
    ensures forall v :: v in counter ==> counter[v] <= max
  {
    most, max := none, 0;
    var left := counter.Keys;
    if left == {} { return; }
    most :| most in left;
    max := counter[most];
    left := left - {most};
    while left != {}
      invariant left <= counter.Keys && most in counter && max == counter[most]
      invariant forall v :: v in counter && v !in left ==> counter[v] <= max
      decreases |left|
    {
      var v :| v in left;
      if counter[v] > max { most, max := v, counter[v]; }
      left := left - {v};
    }
  }

  /** What the kind of a union that was looked at says about its sample. */
  ghost predicate KindOk(x: Node) {
    var u, tot := x.sample, |x.sample.data|;
    match x.kind
    case -3 => Common(CountValue(u, "", tot), tot)
    case 0 => x.constant != "" && x.length == |x.constant| && Common(CountValue(u, x.constant, tot), tot)
    case 1 => (forall v :: !Common(CountValue(u, v, tot), tot)) && Common(CountLength(u, x.length, tot), tot)
    case 2 => (forall v :: !Common(CountValue(u, v, tot), tot)) && (forall l :: !Common(CountLength(u, l, tot), tot))
    case _ => x.kind == -1
  }

  lemma RootOk(data: seq<string>)
    ensures Inv([Node(0, -1, Sample(data, {}), "", 0)], 0, [0], data)
  {
    var tree := [Node(0, -1, Sample(data, {}), "", 0)];
    forall r | 0 <= r < |data| ensures Joined(tree, 0, [0], r) == data[r] {
      JoinedOne(tree, 0, 0, r);
    }
  }

  lemma InvSize(tree: seq<Node>, done: nat, order: seq<nat>, rows: seq<string>)
    requires Inv(tree, done, order, rows)
    ensures done <= |tree|
  {}

  lemma PotentialIs(tree: seq<Node>, w: nat)
    requires w < |tree|
    ensures Potential(tree, w) == Weight(tree[w].sample) + Potential(tree, w + 1)
  {
    hide Weight;
  }

  lemma NoParts(u: Sample, delimer: seq<(int, int)>)
    requires Cuts(u, delimer)
    ensures forall t: nat :: t < 3 ==> Parts(u, delimer, t, 0) == []
  {}

  lemma PartsMore(u: Sample, delimer: seq<(int, int)>, i: nat)
    requires Cuts(u, delimer) && i < |u.data|
    ensures forall t: nat :: t < 3 ==>
              Parts(u, delimer, t, i + 1) == Parts(u, delimer, t, i)
                  + [if i in u.outlier then "" else Part(u.data[i], delimer[i], t)]
  {
    hide Part;
  }

  /** The three data sets of equeue. */
  method Dataset(u: Sample, delimer: seq<(int, int)>) returns (first: Sample, second: Sample, third: Sample)
    requires Cuts(u, delimer)
    ensures first == Child(u, delimer, 0) && second == Child(u, delimer, 1) && third == Child(u, delimer, 2)
  {
    hide Parts;
    var a: seq<string>, b: seq<string>, c: seq<string> := [], [], [];
    NoParts(u, delimer);
    for i := 0 to |u.data|
      invariant a == Parts(u, delimer, 0, i) && b == Parts(u, delimer, 1, i) && c == Parts(u, delimer, 2, i)
    {
      PartsMore(u, delimer, i);
      if i in u.outlier {
        a, b, c := a + [""], b + [""], c + [""];
      } else {
        var temp, d := u.data[i], delimer[i];
        a, b, c := a + [temp[..d.0]], b + [temp[d.0..d.1]], c + [temp[d.1..]];
      }
    }
    first, second, third := Sample(a, u.outlier), Sample(b, u.outlier), Sample(c, u.outlier);
  }

  /** What execute finds out about a union: a new kind, or how it is split. */
  method Classify(x: Node, index: nat, pick: Choice)
    returns (parts: nat, u': Sample, delimer: seq<(int, int)>, fixed: Node)
    requires Valid(x.sample)
    ensures if parts == 0 then fixed.num == x.num && fixed.sample == x.sample && fixed.kind != -1 && KindOk(fixed)
            else SplitOf(x.sample, u', delimer)
  {
    hide CountValue, CountLength;
    var u, tot := x.sample, |x.sample.data|;
    parts, u', delimer, fixed := 0, u, [], x;
    var counter, lenCounter := CountAll(u);
    var mostFP, max := MostFrequent(counter, "");
    var maxLength, maxCount := MostFrequent(lenCounter, 0);
    if Common(max, tot) {
      if |mostFP| == 0 {
        fixed := x.(kind := -3);
      } else {
        fixed := x.(kind := 0, constant := mostFP, length := |mostFP|);
      }
      return;
    }
    parts, u', delimer := Split(u, index, pick);
    if parts == 0 {
      fixed := if Common(maxCount, tot) then x.(kind := 1, length := maxLength) else x.(kind := 2);
    }
  }

  lemma IsGrown(tree: seq<Node>, w: nat, u': Sample, delimer: seq<(int, int)>, tree': seq<Node>)
    requires w < |tree| && Cuts(u', delimer) && |tree'| == |tree| + 3
    requires tree'[w].num == tree[w].num && tree'[w].kind == -1 && tree'[w].sample == u'
    requires forall i :: 0 <= i < |tree| && i != w ==>
               tree'[i] == if tree[i].num > tree[w].num then tree[i].(num := tree[i].num + 3) else tree[i]
    requires var n, e := tree[w].num, |tree|;
             IsNew(tree'[e], n + 1, Child(u', delimer, 0)) && IsNew(tree'[e + 1], n + 2, Child(u', delimer, 1))
             && IsNew(tree'[e + 2], n + 3, Child(u', delimer, 2))
    ensures Grown(tree, w, u', delimer, tree')
  {
    hide Child;
  }

  /** The kinds of the unions before the current one do not change with their numbers. */
  lemma KindsKept(tree: seq<Node>, w: nat, tree': seq<Node>)
    requires w < |tree| <= |tree'| && KindOk(tree'[w]) && forall i :: 0 <= i < w ==> KindOk(tree[i])
    requires forall i :: 0 <= i < w ==> tree'[i].(num := 0) == tree[i].(num := 0)
    ensures forall i :: 0 <= i < w + 1 ==> KindOk(tree'[i])
  {
    forall i | 0 <= i < w + 1 ensures KindOk(tree'[i]) {
      if i < w { SameKind(tree[i], tree'[i]); }
    }
  }

  lemma SameKind(x: Node, y: Node)
    requires KindOk(x) && x.(num := 0) == y.(num := 0)
    ensures KindOk(y)
  {
    hide CountValue, CountLength;
    assert y.kind == x.kind && y.sample == x.sample && y.constant == x.constant && y.length == x.length by {
      assert y == y.(num := 0).(num := y.num);
    }
  }

  lemma SplitKind(x: Node)
    requires x.kind == -1
    ensures KindOk(x)
  {}

  /** The array of unions, and how far it has been worked off. */
  class Tree {
    var tree: seq<Node>
    var nowStart: nat
    /** The sampled rows, and the unions in the order of their numbers. */
    ghost const rows: seq<string>
    ghost var order: seq<nat>

    ghost predicate Correct()
      reads this
    {
      Inv(tree, nowStart, order, rows) && forall i :: 0 <= i < nowStart ==> KindOk(tree[i])
    }

    /** The root holds the whole sample. */
    constructor (data: seq<string>)
      ensures Correct() && rows == data && nowStart == 0
    {
      tree, nowStart, order := [Node(0, -1, Sample(data, {}), "", 0)], 0, [0];
      rows := data;
      new;
      RootOk(data);
    }

    /** equeue: three new unions behind all others, and room for their numbers. */
    method Equeue(delimer: seq<(int, int)>, u: Sample)
      requires nowStart < |tree| && Cuts(u, delimer)
      modifies this`tree
      ensures |tree| == |old(tree)| + 3
      ensures tree[nowStart] == old(tree)[nowStart].(sample := u)
      ensures forall i :: 0 <= i < |old(tree)| && i != nowStart ==>
                tree[i] == if old(tree)[i].num > old(tree)[nowStart].num
                    then old(tree)[i].(num := old(tree)[i].num + 3) else old(tree)[i]
      ensures var n, e := old(tree)[nowStart].num, |old(tree)|;
              IsNew(tree[e], n + 1, Child(u, delimer, 0)) && IsNew(tree[e + 1], n + 2, Child(u, delimer, 1))
              && IsNew(tree[e + 2], n + 3, Child(u, delimer, 2))
    {
      hide Child;
      var num := tree[nowStart].num;
      var first, second, third := Dataset(u, delimer);
      ghost var t := tree;
      tree := tree[nowStart := tree[nowStart].(sample := u)];
      tree := Shifted(tree, num) + [Node(num + 1, -2, first, "", 0), Node(num + 2, -2, second, "", 0),
          Node(num + 3, -2, third, "", 0)];
    }

    /** execute on the union at nowStart: a constant, empty, split, or of fixed or any length. */
    method Execute(pick: Choice)
      requires Correct() && nowStart < |tree|
      modifies this
      ensures Correct() && nowStart == old(nowStart) + 1
      ensures Potential(tree, nowStart) < Potential(old(tree), old(nowStart))
              || (Potential(tree, nowStart) <= Potential(old(tree), old(nowStart)) && |tree| == |old(tree)|)
    {
      hide Inv, KindOk, Potential, Grown, Child;
      ghost var t, w := tree, nowStart;
      InvParts(t, w, order, rows);
      PotentialIs(t, w);
      var x := tree[nowStart];
      var parts, u', delimer, fixed := Classify(x, nowStart, pick);
      if parts == 0 {
        tree := tree[nowStart := fixed];
        FixedKeeps(t, w, fixed, order, rows);
        PotentialSame(t, w, fixed, w + 1);
      } else {
        Equeue(delimer, u');
        tree := tree[nowStart := tree[nowStart].(kind := -1)];
        IsGrown(t, w, u', delimer, tree);
        order := Inserted(order, x.num);
        SplitKeeps(t, w, u', delimer, tree, old(order), rows);
        PotentialGrown(t, w, u', delimer, tree, w + 1);
        ChildrenLighter(x.sample, u', delimer);
        SplitKind(tree[w]);
      }
      nowStart := nowStart + 1;
      KindsKept(t, w, tree);
    }

    /** The loop of proc; it ends. */
    method Work(pick: Choice)
      requires Correct()
      modifies this
      ensures Correct() && nowStart == |tree|
    {
      hide Inv, KindOk, Potential;
      InvSize(tree, nowStart, order, rows);
      while nowStart < |tree|
        invariant Correct() && nowStart <= |tree|
        decreases Potential(tree, nowStart), |tree| - nowStart
      {
        Execute(pick);
        InvSize(tree, nowStart, order, rows);
      }
    }
  }

  /** The unions of the given order whose rows are written: not split and not empty. */
  function Leaves(tree: seq<Node>, order: seq<nat>): seq<nat> {
    if order == [] then [] else
    var i := order[|order| - 1];
    Leaves(tree, order[..|order| - 1]) + if i < |tree| && tree[i].kind >= 0 then [i] else []
  }

  /** The loop of proc that collects them: the union with number 0, then 1, and so on. */
  method LeafOrder(tree: seq<Node>, ghost order: seq<nat>) returns (container: seq<nat>)
    requires Numbers(tree, order)
    ensures container == Leaves(tree, order)
  {
    container := [];
    var nowNum := 0;
    while true
      invariant 0 <= nowNum <= |tree| && container == Leaves(tree, order[..nowNum])
      decreases |tree| - nowNum
    {
      var find := false;
      ghost var before := nowNum;
      for count := 0 to |tree|
        invariant before <= nowNum <= |tree| && container == Leaves(tree, order[..nowNum])
        invariant find <==> nowNum > before
        invariant !find ==> forall i :: 0 <= i < count ==> tree[i].num != nowNum
      {
        if tree[count].num == nowNum {
          find := true;
          assert order[..nowNum + 1] == order[..nowNum] + [count];
          LeavesMore(tree, order[..nowNum], count);
          nowNum := nowNum + 1;
          if tree[count].kind >= 0 {
            container := container + [count];
          }
        }
      }
      if !find { break; }
    }
    if nowNum < |tree| { SomeHas(tree, order, nowNum); }
    assert order[..|order|] == order;
  }

  ghost predicate HasNumber(tree: seq<Node>, k: nat) {
    exists i :: 0 <= i < |tree| && tree[i].num == k
  }

  lemma SomeHas(tree: seq<Node>, order: seq<nat>, k: int)
    requires Numbers(tree, order) && 0 <= k < |tree|
    ensures HasNumber(tree, k)
  {
    assert tree[order[k]].num == k;
  }

  lemma LeavesMore(tree: seq<Node>, order: seq<nat>, i: nat)
    ensures Leaves(tree, order + [i]) == if i < |tree| && tree[i].kind >= 0 then Leaves(tree, order) + [i]
            else Leaves(tree, order)
  {
    var more := order + [i];
    assert more[..|order|] == order && more[|order|] == i;
  }

  /** Row r, read off the given unions. */
  function RowOf(tree: seq<Node>, container: seq<nat>, r: nat): string {
    if container == [] then "" else
    var i := container[|container| - 1];
    RowOf(tree, container[..|container| - 1], r) + if i < |tree| && r < |tree[i].sample.data|
        then tree[i].sample.data[r] else ""
  }

  /** The unions that the collecting loop leaves out because their type is below 0, and that were not split, have
      nothing of row r: its guard `type >= 0`. */
  ghost predicate NothingEmpty(tree: seq<Node>, r: nat) {
    forall i :: 0 <= i < |tree| && tree[i].kind == -3 && r < |tree[i].sample.data| ==> tree[i].sample.data[r] == ""
  }

  lemma {:induction false} LeavesJoin(tree: seq<Node>, order: seq<nat>, r: nat)
    requires NothingEmpty(tree, r) && forall i :: 0 <= i < |tree| ==> KindOk(tree[i])
    ensures RowOf(tree, Leaves(tree, order), r) == Joined(tree, |tree|, order, r)
    decreases |order|
  {
    hide KindOk, Joined, Leaves, RowOf, Piece, NothingEmpty;
    if order == [] {
      NoRow(tree, r);
    } else {
      var n := |order| - 1;
      var i := order[n];
      LeavesJoin(tree, order[..n], r);
      assert order == order[..n] + [i];
      JoinedConcat(tree, |tree|, order[..n], [i], r);
      JoinedOne(tree, |tree|, i, r);
      LeavesMore(tree, order[..n], i);
      RowMore(tree, Leaves(tree, order[..n]), i, r);
      LeafPiece(tree, i, r);
    }
  }

  lemma NoRow(tree: seq<Node>, r: nat)
    ensures RowOf(tree, Leaves(tree, []), r) == Joined(tree, |tree|, [], r) == ""
  {}

  lemma LeafPiece(tree: seq<Node>, i: nat, r: nat)
    requires NothingEmpty(tree, r) && forall i :: 0 <= i < |tree| ==> KindOk(tree[i])
    ensures Piece(tree, |tree|, i, r)
            == if i < |tree| && tree[i].kind >= 0 && r < |tree[i].sample.data| then tree[i].sample.data[r] else ""
  {
    hide KindOk;
    if i < |tree| { KindsAre(tree[i]); }
  }

  lemma KindsAre(x: Node)
    requires KindOk(x)
    ensures x.kind == -3 || x.kind == -1 || x.kind >= 0
  {
    hide CountValue, CountLength;
  }

  lemma RowMore(tree: seq<Node>, container: seq<nat>, i: nat, r: nat)
    ensures RowOf(tree, container + [i], r)
            == RowOf(tree, container, r) + if i < |tree| && r < |tree[i].sample.data| then tree[i].sample.data[r]
                else ""
    ensures RowOf(tree, container, r) + "" == RowOf(tree, container, r)
  {
    assert (container + [i])[..|container|] == container;
  }

  /** Characters of row r in an empty union are missing. */
  lemma {:induction false} LeavesMiss(tree: seq<Node>, order: seq<nat>, r: nat)
    requires forall i :: 0 <= i < |tree| ==> KindOk(tree[i])
    ensures |RowOf(tree, Leaves(tree, order), r)| <= |Joined(tree, |tree|, order, r)|
    ensures forall k :: 0 <= k < |order| && Lost(tree, order[k], r) ==>
            |RowOf(tree, Leaves(tree, order), r)| < |Joined(tree, |tree|, order, r)|
    decreases |order|
  {
    hide KindOk, Joined, Leaves, RowOf, Piece, Lost;
    if order == [] {
      NoRow(tree, r);
    } else {
      var n := |order| - 1;
      var i := order[n];
      LeavesMiss(tree, order[..n], r);
      assert order == order[..n] + [i];
      assert forall k :: 0 <= k < n ==> order[..n][k] == order[k];
      JoinedConcat(tree, |tree|, order[..n], [i], r);
      JoinedOne(tree, |tree|, i, r);
      LeavesMore(tree, order[..n], i);
      RowMore(tree, Leaves(tree, order[..n]), i, r);
      MissPiece(tree, i, r);
    }
  }

  /** Row r has something in union i, which was found empty. */
  ghost predicate Lost(tree: seq<Node>, i: nat, r: nat) {
    i < |tree| && tree[i].kind == -3 && r < |tree[i].sample.data| && tree[i].sample.data[r] != ""
  }

  lemma MissPiece(tree: seq<Node>, i: nat, r: nat)
    requires forall i :: 0 <= i < |tree| ==> KindOk(tree[i])
    ensures i < |tree| && tree[i].kind >= 0 && r < |tree[i].sample.data| ==>
            Piece(tree, |tree|, i, r) == tree[i].sample.data[r]
    ensures Lost(tree, i, r) ==> tree[i].kind < 0 && |Piece(tree, |tree|, i, r)| > 0
    ensures i >= |tree| ==> !Lost(tree, i, r)
  {
    hide KindOk;
  }

  /** At the end of the worklist: a sampled row that is an outlier of no union is the concatenation of its parts in
      the collected unions if and only if the unions found empty, which are not collected, have nothing of it. */
  lemma RowsComeBack(t: Tree, container: seq<nat>, r: nat)
    requires t.Correct() && t.nowStart == |t.tree| && container == Leaves(t.tree, t.order)
    requires r < |t.rows| && Kept(t.tree, r)
    ensures RowOf(t.tree, container, r) == t.rows[r] <==> NothingEmpty(t.tree, r)
  {
    hide KindOk, Joined, RowOf, Leaves, Piece;
    if NothingEmpty(t.tree, r) {
      LeavesJoin(t.tree, t.order, r);
    } else {
      LeavesMiss(t.tree, t.order, r);
      var i :| 0 <= i < |t.tree| && t.tree[i].kind == -3 && r < |t.tree[i].sample.data|
      && t.tree[i].sample.data[r] != "";
      assert Lost(t.tree, t.order[t.tree[i].num], r);
    }
  }

  /** Every union has its own number, and the numbers are those below the number of unions. */
  lemma NumbersPermute(t: Tree)
    requires t.Correct()
    ensures forall i :: 0 <= i < |t.tree| ==> t.tree[i].num < |t.tree|
    ensures forall i, j :: 0 <= i < |t.tree| && 0 <= j < |t.tree| && t.tree[i].num == t.tree[j].num ==> i == j
    ensures forall k :: 0 <= k < |t.tree| ==> HasNumber(t.tree, k)
  {
    hide KindOk, Joined, Shapes, Kept;
    forall k | 0 <= k < |t.tree| ensures HasNumber(t.tree, k) {
      SomeHas(t.tree, t.order, k);
    }
  }
}
