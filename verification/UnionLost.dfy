/** A variable of which the worklist of compression/union.cpp loses a row: a union that is empty in more than nine
    tenths of the rows is not collected, whatever the other rows have in it. The variable has a hundred values, all of
    them in the sample, and too many different ones for a dictionary. */
module UnionLost {
  import opened UnionSplit
  import opened UnionTry
  import opened UnionTree
  import opened UnionWork
  import opened CapsuleNumber
  import CapsuleMain

  /** Fifty letters, each twice. */
  function First(i: nat): char
    requires i < 100
  {
    if i < 50 then ('A' as int + i / 2) as char else ('a' as int + (i - 50) / 2) as char
  }

  /** A letter and a dot; the last row goes on behind the dot. */
  function Row(i: nat): string
    requires i < 100
  {
    [First(i)] + if i < 99 then "." else ".x"
  }

  /** The part before the dot, the dot, and the part behind it. */
  function RowPart(i: nat, t: nat): string
    requires i < 100
  {
    if t == 0 then [First(i)] else if t == 1 then "." else if i < 99 then "" else "x"
  }

  function All(): Sample { Sample(seq(100, i requires 0 <= i < 100 => Row(i)), {}) }

  function New(t: nat): Sample { Sample(seq(100, i requires 0 <= i < 100 => RowPart(i, t)), {}) }

  /** The cuts around the dot. */
  function Dots(): seq<(int, int)> { seq(100, i => (1, 2)) }

  lemma RowCut(i: nat, t: nat)
    requires i < 100 && t < 3
    ensures CutAt(All().data[i], Dots()[i]) && Part(All().data[i], Dots()[i], t) == RowPart(i, t)
  {
    var s := Row(i);
    assert s[..1] == RowPart(i, 0) && s[1..2] == RowPart(i, 1) && s[2..] == RowPart(i, 2);
  }

  lemma FirstDivides()
    ensures Divides(All().data[0], Dots()[0])
  {}

  lemma RowsCut()
    ensures SplitOf(All(), All(), Dots())
  {
    hide Part, Row, RowPart;
    forall i | 0 <= i < 100 ensures CutAt(All().data[i], Dots()[i]) { RowCut(i, 0); }
    FirstDivides();
  }

  lemma NewIs(t: nat)
    requires t < 3 && Cuts(All(), Dots())
    ensures Child(All(), Dots(), t) == New(t)
  {
    var p := Parts(All(), Dots(), t, 100);
    forall i: nat | i < 100 ensures p[i] == RowPart(i, t) { RowCut(i, t); }
    hide Row, RowPart, Part;
    assert p == New(t).data;
  }

  /** What execute makes of the root, in which no value is common. */
  function Splitted(): seq<Node> {
    [Node(0, -1, All(), "", 0), Node(1, -2, New(0), "", 0), Node(2, -2, New(1), "", 0), Node(3, -2, New(2), "", 0)]
  }

  /** And of the three new unions: of fixed length, constant, and empty. */
  function Final(): seq<Node> {
    [Node(0, -1, All(), "", 0), Node(1, 1, New(0), "", 1), Node(2, 0, New(1), ".", 1), Node(3, -3, New(2), "", 0)]
  }

  lemma SplittedGrown()
    requires Cuts(All(), Dots())
    ensures Grown([Node(0, -1, All(), "", 0)], 0, All(), Dots(), Splitted())
  {
    hide Dots, New, All, Child, Cuts;
    NewIs(0);
    NewIs(1);
    NewIs(2);
  }

  lemma SplittedInv()
    ensures Inv(Splitted(), 1, [0, 1, 2, 3], All().data)
  {
    hide Dots, Inv, New, All, SplitOf, Grown;
    RowsCut();
    CutsIs();
    hide Cuts;
    SplittedGrown();
    RootIs();
    RootOk(All().data);
    var root := [Node(0, -1, All(), "", 0)];
    SplitKeeps(root, 0, All(), Dots(), Splitted(), [0], All().data);
    assert Inserted([0], 0) == [0, 1, 2, 3];
  }

  lemma FinalInv()
    ensures Inv(Final(), 4, [0, 1, 2, 3], All().data)
  {
    hide Inv, New, All;
    SplittedInv();
    var t := Splitted();
    var t1 := t[1 := Final()[1]];
    FixedKeeps(t, 1, Final()[1], [0, 1, 2, 3], All().data);
    var t2 := t1[2 := Final()[2]];
    FixedKeeps(t1, 2, Final()[2], [0, 1, 2, 3], All().data);
    FixedKeeps(t2, 3, Final()[3], [0, 1, 2, 3], All().data);
    assert t2[3 := Final()[3]] == Final();
  }

  lemma RootIs()
    ensures All() == Sample(All().data, {})
  {}

  lemma CutsIs()
    requires SplitOf(All(), All(), Dots())
    ensures Cuts(All(), Dots())
  {}

  lemma NewRow(i: nat, t: nat)
    requires i < 100
    ensures |New(t).data| == 100 && New(t).outlier == {} && New(t).data[i] == RowPart(i, t)
  {}

  /** A capital is in the first half only, everything else in the second. */
  function Half(v: string, n: nat): nat {
    if v != "" && v[0] < 'a' then (if n < 50 then n else 50) else if n <= 50 then 0 else n - 50
  }

  /** No first part is in more than half of the rows, and all are of length 1. */
  lemma {:induction false} FirstCounts(v: string, n: nat)
    requires n <= 100 == |New(0).data|
    ensures CountValue(New(0), v, n) <= n && CountLength(New(0), 1, n) == n
    ensures CountValue(New(0), v, n) <= Half(v, n)
  {
    hide New;
    if n > 0 {
      FirstCounts(v, n - 1);
      NewRow(n - 1, 0);
    }
  }

  /** The second parts are all dots, the third parts all but one empty. */
  lemma {:induction false} OtherCounts(n: nat)
    requires n <= 100 == |New(1).data| == |New(2).data|
    ensures CountValue(New(1), ".", n) == n
    ensures CountValue(New(2), "", n) == if n < 100 then n else 99
  {
    hide New;
    if n > 0 {
      OtherCounts(n - 1);
      NewRow(n - 1, 1);
      NewRow(n - 1, 2);
    }
  }

  lemma FinalKinds()
    ensures forall i :: 0 <= i < 4 ==> KindOk(Final()[i])
  {
    hide New, CountValue, CountLength, RowPart;
    NewRow(0, 0);
    NewRow(0, 1);
    NewRow(0, 2);
    OtherCounts(100);
    forall v ensures !Common(CountValue(New(0), v, 100), 100) { FirstCounts(v, 100); }
    FirstCounts("", 100);
  }

  // ----- the worklist gets these values and cuts them like this -----

  lemma RowHash(i: nat)
    requires i < 99
    ensures StringHash(Row(i)) == First(i) as int * 131 + '.' as int
  {
    var s := Row(i);
    assert s == [First(i), '.'] && s[..1] == [First(i)] && s[..1][..0] == "";
    assert RawHash([First(i)]) == First(i) as int;
  }

  /** The rows 0, 2, ..., 98 have different hashes, so no dictionary is built. */
  lemma NoDictionary()
    ensures CapsuleMain.Choose(All().data) == CapsuleMain.SubPatterns
  {
    hide Firsts, StringHash, Row, All;
    var tokens := All().data;
    assert |tokens| == 100 && forall i :: 0 <= i < 100 ==> tokens[i] == Row(i) by { AllRows(); }
    var a: seq<nat> := [];
    for n := 0 to 50
      invariant |a| == n && forall i :: 0 <= i < n ==> a[i] == Original(tokens, 2 * i) && a[i] in Firsts(tokens, 100)
    {
      var k := FirstOf(tokens, 100, 2 * n);
      a := a + [Original(tokens, 2 * n)];
    }
    forall i, j | 0 <= i < j < |a| ensures a[i] != a[j] {
      RowHash(2 * i);
      RowHash(2 * j);
    }
    CapsuleMain.NotMore(a, Firsts(tokens, 100));
  }

  lemma AllRows()
    ensures |All().data| == 100 && forall i :: 0 <= i < 100 ==> All().data[i] == Row(i)
  {}

  lemma {:induction false} RootCounts(v: string, n: nat)
    requires n <= 100 == |All().data|
    ensures CountValue(All(), v, n) <= Half(v, n) && CountSplittable(All(), '.', n) == n
  {
    hide All;
    if n > 0 {
      RootCounts(v, n - 1);
      AllRows();
      assert All().outlier == {} by { RootIs(); }
      assert Row(n - 1)[0] == First(n - 1) && Row(n - 1)[1] == '.';
    }
  }

  /** Whatever rows rand() selects, the root is cut around the dot: no value is common, every row begins with a letter,
      a dot follows, and the dot is in all rows. The first parts are single letters, which no attempt cuts. */
  lemma OnlyDots()
    ensures |All().data| == |New(0).data| == |Dots()| == 100
    ensures forall v :: !Common(CountValue(All(), v, 100), 100)
    ensures Common(CountSplittable(All(), '.', 100), 100)
    ensures forall i :: 0 <= i < 100 ==> IsAlnum(All().data[i][0]) && SplitAt(All().data[i], '.', Dots()[i])
    ensures forall i :: 0 <= i < 100 ==> |New(0).data[i]| == 1 && IsAlnum(New(0).data[i][0])
  {
    AllRows();
    forall v ensures !Common(CountValue(All(), v, 100), 100) { RootCounts(v, 100); }
    RootCounts("", 100);
    forall i | 0 <= i < 100
      ensures IsAlnum(All().data[i][0]) && SplitAt(All().data[i], '.', Dots()[i])
      ensures |New(0).data[i]| == 1 && IsAlnum(New(0).data[i][0])
    {
      DotAt(i);
      NewRow(i, 0);
    }
  }

  lemma DotAt(i: nat)
    requires i < 100
    ensures IsAlnum(First(i)) && Row(i)[0] == First(i) && IndexOf(Row(i), '.') == 1
  {
    FirstIndex(Row(i), '.', 1);
  }

  /** No dictionary is built, the worklist is done, all kinds are right, the last row is an outlier nowhere, and it does
      not come back. */
  lemma LastRowIsLost()
    ensures CapsuleMain.Choose(All().data) == CapsuleMain.SubPatterns
    ensures Inv(Final(), |Final()|, [0, 1, 2, 3], All().data)
    ensures forall i :: 0 <= i < |Final()| ==> KindOk(Final()[i])
    ensures Kept(Final(), 99) && |All().data| == 100 && All().data[99] == "y.x"
    ensures RowOf(Final(), Leaves(Final(), [0, 1, 2, 3]), 99) == "y."
  {
    hide KindOk, Inv, CapsuleMain.Choose;
    NoDictionary();
    FinalInv();
    FinalKinds();
    LastRow();
  }

  lemma LastRow()
    ensures Kept(Final(), 99) && |All().data| == 100 && All().data[99] == "y.x"
    ensures RowOf(Final(), Leaves(Final(), [0, 1, 2, 3]), 99) == "y."
  {
    hide RowOf, Leaves;
    FinalLeaves();
    NewRow(99, 0);
    NewRow(99, 1);
    hide New;
    var t := Final();
    assert RowOf(t, [], 99) == "" by { NoneRow(); }
    RowMore(t, [], 1, 99);
    RowMore(t, [1], 2, 99);
    assert [] + [1] == [1] && [1] + [2] == [1, 2];
    assert "" + "y" + "." == "y.";
  }

  lemma NoneRow()
    ensures RowOf(Final(), [], 99) == ""
  {}

  lemma NoLeaves(t: seq<Node>)
    ensures Leaves(t, []) == []
  {}

  lemma FinalLeaves()
    ensures Leaves(Final(), [0, 1, 2, 3]) == [1, 2]
  {
    hide New, All, Leaves;
    var t := Final();
    NoLeaves(t);
    LeavesMore(t, [], 0);
    LeavesMore(t, [0], 1);
    LeavesMore(t, [0, 1], 2);
    LeavesMore(t, [0, 1, 2], 3);
    assert [] + [0] == [0] && [0] + [1] == [0, 1] && [0, 1] + [2] == [0, 1, 2] && [0, 1, 2] + [3] == [0, 1, 2, 3];
    assert [] + [1] == [1] && [1] + [2] == [1, 2];
  }
}
