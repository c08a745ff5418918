/** Union::split in compression/union.cpp: three attempts with random rows. */
module UnionTry {
  import opened Kmp
  import opened UnionSplit

  /** The cut leaves something in two of the three parts. */
  predicate Divides(s: string, d: (int, int)) {
    0 <= d.0 <= d.1 <= |s| && 0 < d.1 - d.0 < |s|
  }

  /** A successful split: rows may have become outliers, all others are cut, and some row is really divided. */
  ghost predicate SplitOf(u: Sample, u': Sample, delimer: seq<(int, int)>) {
    && Valid(u') && u'.data == u.data && u.outlier <= u'.outlier && Cuts(u', delimer)
    && exists i :: 0 <= i < |u.data| && i !in u'.outlier && Divides(u.data[i], delimer[i])
  }

  /** The rows that rand() selects, by the union's index and the number of attempts left. */
  type Choice = (nat, nat) -> (nat, nat)

  /** split of the union with this index; pick stands for rand(), and an attempt whose rows are outliers is given up. */
  method Split(u: Sample, index: nat, pick: Choice) returns (parts: nat, u': Sample, delimer: seq<(int, int)>)
    requires Valid(u)
    ensures parts == 0 || parts == 3
    ensures if parts == 0 then u' == u else SplitOf(u, u', delimer)
  {
    hide First, IndexOf, IsAlnum;
    parts, u', delimer := 0, u, [];
    var trial := 3;
    while trial > 0
      invariant parts == 0 && u' == u
    {
      trial := trial - 1;
      var chosen := pick(index, trial);
      if chosen.0 >= |u.data| || chosen.0 in u.outlier || chosen.1 >= |u.data| || chosen.1 in u.outlier { continue; }
      parts, u', delimer := TrySpliters(u, u.data[chosen.0]);
      if parts > 0 { return; }
      parts, u', delimer := TryLCS(u, chosen.0, chosen.1);
      if parts > 0 { return; }
    }
  }

  /** Every character of the pivot that is no letter or digit. */
  method TrySpliters(u: Sample, pivot: string) returns (parts: nat, u': Sample, delimer: seq<(int, int)>)
    requires Valid(u)
    ensures parts == 0 || parts == 3
    ensures if parts == 0 then u' == u else SplitOf(u, u', delimer)
  {
    hide IndexOf, IsAlnum;
    parts, u', delimer := 0, u, [];
    var index := 0;
    while index < |pivot|
      invariant parts == 0 && u' == u
    {
      var nowChar := pivot[index];
      if !IsAlnum(nowChar) {
        parts := TestSpliter(u, nowChar);
        if parts > 0 {
          u', delimer := MatchSpliter(u, nowChar);
          SpliterDivides(u, nowChar, u', delimer);
          return;
        }
      }
      index := index + 1;
    }
  }

  lemma SpliterDivides(u: Sample, c: char, u': Sample, delimer: seq<(int, int)>)
    requires Common(CountSplittable(u, c, |u.data|), |u.data|)
    requires Valid(u') && u'.data == u.data && u.outlier <= u'.outlier && |delimer| == |u.data|
    requires forall i :: 0 <= i < |u.data| && i !in u.outlier ==> (i in u'.outlier <==> c !in u.data[i])
    requires forall i :: 0 <= i < |u.data| && i !in u'.outlier ==> SplitAt(u.data[i], c, delimer[i])
    ensures SplitOf(u, u', delimer)
  {
    var i := SomeSplittable(u, c, |u.data|);
    assert SplitAt(u.data[i], c, delimer[i]);
    assert Divides(u.data[i], delimer[i]);
  }

  /** The common part of two rows, made shorter until it is common. */
  method TryLCS(u: Sample, p: nat, q: nat) returns (parts: nat, u': Sample, delimer: seq<(int, int)>)
    requires Valid(u) && p < |u.data| && p !in u.outlier && q < |u.data|
    ensures parts == 0 || parts == 3
    ensures if parts == 0 then u' == u else SplitOf(u, u', delimer)
  {
    hide First;
    parts, u', delimer := 0, u, [];
    var pivot, pivot2 := u.data[p], u.data[q];
    var LCS := GetLCS(pivot, pivot2);
    if LCS == pivot || LCS == pivot2 || |LCS| < 3 { return; }
    var nowSize := |LCS|;
    parts, u' := TestLCS(u, LCS, nowSize);
    ghost var tested := nowSize;
    while true
      invariant 2 <= nowSize <= tested <= |LCS| && Valid(u')
      invariant parts == 0 ==> u' == u
      invariant parts > 0 ==> parts == 3 && nowSize == tested && u'.data == u.data && u.outlier <= u'.outlier
                              && forall i :: 0 <= i < |u.data| && i !in u.outlier ==>
                                  (i in u'.outlier <==> !Has(u.data[i], LCS[..tested]))
      decreases nowSize
    {
      var again := nowSize >= 3;
      nowSize := nowSize - 1;
      if !again || parts != 0 { break; }
      parts, u' := TestLCS(u, LCS, nowSize);
      tested := nowSize;
    }
    if parts > 0 {
      ContainsShorter(u, u', LCS, tested, p);
      delimer := MatchLCS(u', LCS[..nowSize]);
      MatchDivides(u, u', LCS, tested, p, delimer);
    }
  }

  /** The text that is matched is one shorter than the one found common. */
  lemma ContainsShorter(u: Sample, u': Sample, LCS: string, tested: nat, p: nat)
    requires 2 <= tested <= |LCS| && p < |u.data| && p !in u.outlier && Has(u.data[p], LCS) && u'.data == u.data
             && u.outlier <= u'.outlier
    requires forall i :: 0 <= i < |u.data| && i !in u.outlier ==> (i in u'.outlier <==> !Has(u.data[i], LCS[..tested]))
    ensures forall i :: 0 <= i < |u.data| && i !in u'.outlier ==> Has(u.data[i], LCS[..tested - 1])
    ensures p !in u'.outlier
  {
    hide First;
    HasPrefix(u.data[p], LCS, tested);
    forall i | 0 <= i < |u.data| && i !in u'.outlier ensures Has(u.data[i], LCS[..tested - 1]) {
      HasPrefix(u.data[i], LCS[..tested], tested - 1);
      assert LCS[..tested][..tested - 1] == LCS[..tested - 1];
    }
  }

  lemma MatchDivides(u: Sample, u': Sample, LCS: string, tested: nat, p: nat, delimer: seq<(int, int)>)
    requires Valid(u') && u'.data == u.data && u.outlier <= u'.outlier && 2 <= tested <= |LCS|
    requires p < |u.data| && p !in u'.outlier && Has(u.data[p], LCS) && LCS != u.data[p]
    requires |delimer| == |u.data| && forall i :: 0 <= i < |u.data| && i !in u'.outlier ==>
             MatchAt(u.data[i], LCS[..tested - 1], delimer[i])
    ensures SplitOf(u, u', delimer)
  {
    hide First;
    forall i | 0 <= i < |u.data| && i !in u'.outlier ensures CutAt(u.data[i], delimer[i]) {
      FirstIsLeast(u.data[i], LCS[..tested - 1], 0);
    }
    FirstIsLeast(u.data[p], LCS, 0);
    Proper(u.data[p], LCS);
    assert Divides(u.data[p], delimer[p]);
  }

  lemma Proper(s: string, t: string)
    requires Has(s, t) && t != s
    ensures |t| < |s|
  {
    hide First;
    FirstIsLeast(s, t, 0);
    if |t| == |s| { WholeOccurs(s, t, First(s, t, 0)); }
  }

  lemma WholeOccurs(s: string, t: string, p: int)
    requires OccursAt(s, t, p) && |t| == |s|
    ensures t == s
  {
    assert s[0..|s|] == s;
  }
}
