/** Splitting the sampled values of a variable: the tests and matches of Union in compression/union.cpp. */
module UnionSplit {
  import opened Kmp

  /** The rows that are no outliers are the sample; the others are not looked at again. */
  datatype Sample = Sample(data: seq<string>, outlier: set<nat>)

  ghost predicate Valid(u: Sample) {
    forall i :: i in u.outlier ==> i < |u.data|
  }

  predicate IsAlnum(c: char) { '0' <= c <= '9' || 'A' <= c <= 'Z' || 'a' <= c <= 'z' }

  /** success > tot * threashold, with a threshold of nine tenths. */
  predicate Common(success: nat, tot: nat) { 10 * success > 9 * tot }

  function IndexOf(s: string, c: char): (i: int)
    ensures -1 <= i < |s| && (i >= 0 ==> s[i] == c && forall k :: 0 <= k < i ==> s[k] != c)
    ensures i < 0 ==> c !in s
  {
    if s == "" then -1 else if s[0] == c then 0 else
    var r := IndexOf(s[1..], c);
    if r < 0 then -1 else r + 1
  }

  /** Where a row is cut in three. */
  ghost predicate CutAt(s: string, d: (int, int)) {
    0 <= d.0 <= d.1 <= |s|
  }

  /** Every row of the sample has its cut. */
  ghost predicate Cuts(u: Sample, delimer: seq<(int, int)>) {
    |delimer| == |u.data| && forall i :: 0 <= i < |u.data| && i !in u.outlier ==> CutAt(u.data[i], delimer[i])
  }

  /** A row that a splitter makes at least two parts of. */
  predicate Splittable(s: string, c: char) { c in s && |s| != 1 }

  function CountSplittable(u: Sample, c: char, n: nat): nat
    requires n <= |u.data|
  {
    if n == 0 then 0 else
    CountSplittable(u, c, n - 1) + if n - 1 !in u.outlier && Splittable(u.data[n - 1], c) then 1 else 0
  }

  lemma {:induction false} SomeSplittable(u: Sample, c: char, n: nat) returns (i: nat)
    requires n <= |u.data| && CountSplittable(u, c, n) > 0
    ensures i < n && i !in u.outlier && Splittable(u.data[i], c)
  {
    if n - 1 !in u.outlier && Splittable(u.data[n - 1], c) { i := n - 1; } else { i := SomeSplittable(u, c, n - 1); }
  }

  /** testSpliter. */
  method TestSpliter(u: Sample, tester: char) returns (parts: nat)
    ensures parts == if Common(CountSplittable(u, tester, |u.data|), |u.data|) then 3 else 0
  {
    var success := 0;
    for i := 0 to |u.data|
      invariant success == CountSplittable(u, tester, i)
    {
      if i !in u.outlier {
        var temp := u.data[i];
        var index := 0;
        while index < |temp|
          invariant index <= |temp| && success == CountSplittable(u, tester, i)
          invariant |temp| != 1 ==> tester !in temp[..index]
        {
          if temp[index] == tester {
            if |temp| != 1 {
              success := success + 1;
              break;
            }
          }
          index := index + 1;
        }
        assert index == |temp| ==> temp[..index] == temp;
      }
    }
    return if Common(success, |u.data|) then 3 else 0;
  }

  /** What one row contributes to matchSpliter. */
  ghost predicate SplitAt(s: string, c: char, d: (int, int)) {
    IndexOf(s, c) >= 0 && d == (IndexOf(s, c), IndexOf(s, c) + 1)
  }

  /** matchSpliter: the rows without the splitter become outliers. */
  method MatchSpliter(u: Sample, spliter: char) returns (u': Sample, delimer: seq<(int, int)>)
    requires Valid(u)
    ensures Valid(u') && u'.data == u.data && u.outlier <= u'.outlier && |delimer| == |u.data|
    ensures forall i :: 0 <= i < |u.data| && i !in u.outlier ==> (i in u'.outlier <==> spliter !in u.data[i])
    ensures forall i :: 0 <= i < |u.data| && i !in u'.outlier ==> SplitAt(u.data[i], spliter, delimer[i])
  {
    hide IndexOf;
    delimer := [];
    var outlier: set<nat> := u.outlier;
    for i: nat := 0 to |u.data|
      invariant |delimer| == i && u.outlier <= outlier && forall k :: k in outlier ==> k < |u.data|
      invariant forall k :: i <= k < |u.data| && k !in u.outlier ==> k !in outlier
      invariant forall k :: 0 <= k < i && k !in u.outlier ==> (k in outlier <==> spliter !in u.data[k])
      invariant forall k :: 0 <= k < i && k !in outlier ==> SplitAt(u.data[k], spliter, delimer[k])
    {
      if i in u.outlier {
        delimer := delimer + [(-2, -2)];
      } else {
        var index := FindChar(u.data[i], spliter);
        if index < 0 {
          outlier := outlier + {i};
          delimer := delimer + [(-2, -2)];
        } else {
          delimer := delimer + [(index, index + 1)];
        }
      }
    }
    u' := u.(outlier := outlier);
  }

  method FindChar(temp: string, spliter: char) returns (index: int)
    ensures index == IndexOf(temp, spliter)
  {
    index := 0;
    while index < |temp|
      invariant 0 <= index <= |temp| && spliter !in temp[..index]
    {
      if temp[index] == spliter {
        FirstIndex(temp, spliter, index);
        return;
      }
      index := index + 1;
    }
    assert temp[..index] == temp;
    index := -1;
  }

  lemma FirstIndex(s: string, c: char, i: nat)
    requires i < |s| && s[i] == c && c !in s[..i]
    ensures IndexOf(s, c) == i
  {
    var r := IndexOf(s, c);
    if 0 <= r < i { NotBefore(s, c, i, r); }
  }

  lemma NotBefore(s: string, c: char, i: int, r: int)
    requires 0 <= r < i <= |s| && c !in s[..i]
    ensures s[r] != c
  {
    assert s[..i][r] == s[r];
  }

  /** A row that contains the text. */
  predicate Has(s: string, t: string) { First(s, t, 0) >= 0 }

  function CountHas(u: Sample, t: string, n: nat): nat
    requires n <= |u.data|
  {
    if n == 0 then 0 else CountHas(u, t, n - 1) + if n - 1 !in u.outlier && Has(u.data[n - 1], t) then 1 else 0
  }

  /** testLCS: if the text is common, the rows without it become outliers. */
  method TestLCS(u: Sample, tester: string, size: nat) returns (parts: nat, u': Sample)
    requires Valid(u) && size <= |tester|
    ensures parts == if Common(CountHas(u, tester[..size], |u.data|), |u.data|) then 3 else 0
    ensures parts == 0 ==> u' == u
    ensures Valid(u') && u'.data == u.data && u.outlier <= u'.outlier
    ensures parts > 0 ==> forall i :: 0 <= i < |u.data| && i !in u.outlier ==>
            (i in u'.outlier <==> !Has(u.data[i], tester[..size]))
  {
    hide First;
    var nowTest := tester[..size];
    var out: set<nat>, success := {}, 0;
    for i: nat := 0 to |u.data|
      invariant success == CountHas(u, nowTest, i)
      invariant forall k :: k in out <==> 0 <= k < i && k !in u.outlier && !Has(u.data[k], nowTest)
    {
      if i !in u.outlier {
        HasItself(u.data[i]);
        if u.data[i] != nowTest && First(u.data[i], nowTest, 0) == -1 {
          out := out + {i};
        } else {
          FirstIsLeast(u.data[i], nowTest, 0);
          success := success + 1;
        }
      }
    }
    if Common(success, |u.data|) {
      return 3, u.(outlier := u.outlier + out);
    } else {
      return 0, u;
    }
  }

  lemma HasItself(s: string)
    ensures Has(s, s)
  {
    FirstIsLeast(s, s, 0);
    assert s[0..|s|] == s;
    assert OccursAt(s, s, 0);
  }

  /** A prefix of a contained text is contained. */
  lemma HasPrefix(s: string, t: string, n: nat)
    requires Has(s, t) && n <= |t|
    ensures Has(s, t[..n])
  {
    FirstIsLeast(s, t, 0);
    FirstIsLeast(s, t[..n], 0);
    var p := First(s, t, 0);
    assert s[p..p + n] == s[p..p + |t|][..n];
    assert OccursAt(s, t[..n], p);
  }

  ghost predicate MatchAt(s: string, t: string, d: (int, int)) {
    Has(s, t) && d == (First(s, t, 0), First(s, t, 0) + |t|)
  }

  /** matchLCS. */
  method MatchLCS(u: Sample, LCS: string) returns (delimer: seq<(int, int)>)
    requires forall i :: 0 <= i < |u.data| && i !in u.outlier ==> Has(u.data[i], LCS)
    ensures |delimer| == |u.data|
    ensures forall i :: 0 <= i < |u.data| && i !in u.outlier ==> MatchAt(u.data[i], LCS, delimer[i])
  {
    hide First;
    delimer := [];
    for i := 0 to |u.data|
      invariant |delimer| == i && forall k :: 0 <= k < i && k !in u.outlier ==> MatchAt(u.data[k], LCS, delimer[k])
    {
      if i in u.outlier {
        delimer := delimer + [(-2, -2)];
      } else {
        var pos := First(u.data[i], LCS, 0);
        delimer := delimer + [(pos, pos + |LCS|)];
      }
    }
  }

  /** The length of the longest common end of the first i and the first j characters. */
  function CommonEnd(t1: string, i: nat, t2: string, j: nat): (n: nat)
    requires i <= |t1| && j <= |t2|
    ensures n <= i && n <= j && t1[i - n..i] == t2[j - n..j]
  {
    if i == 0 || j == 0 || t1[i - 1] != t2[j - 1] then 0 else
    var n := CommonEnd(t1, i - 1, t2, j - 1);
    assert t1[i - 1 - n..i] == t1[i - 1 - n..i - 1] + [t1[i - 1]];
    assert t2[j - 1 - n..j] == t2[j - 1 - n..j - 1] + [t2[j - 1]];
    n + 1
  }

  lemma {:induction false} CommonEndLongest(t1: string, i: nat, t2: string, j: nat, n: nat)
    requires n <= i <= |t1| && n <= j <= |t2| && t1[i - n..i] == t2[j - n..j]
    ensures CommonEnd(t1, i, t2, j) >= n
    decreases n
  {
    if n > 0 {
      assert t1[i - n..i][n - 1] == t2[j - n..j][n - 1];
      assert t1[i - n..i - 1] == t1[i - n..i][..n - 1] && t2[j - n..j - 1] == t2[j - n..j][..n - 1];
      CommonEndLongest(t1, i - 1, t2, j - 1, n - 1);
    }
  }

  /** All ends before (i, j), row by row, are at most n long. */
  ghost predicate AtMost(t1: string, t2: string, i: nat, j: nat, n: nat) {
    && i <= |t1| + 1 && j <= |t2| + 1
    && (forall a: nat, b: nat :: a < i && a <= |t1| && b <= |t2| ==> CommonEnd(t1, a, t2, b) <= n)
    && (forall b: nat :: b < j && i <= |t1| && b <= |t2| ==> CommonEnd(t1, i, t2, b) <= n)
  }

  /** getLCS: a common part of both, and none is longer. */
  method GetLCS(s1: string, s2: string) returns (LCS: string)
    ensures Has(s1, LCS) && Has(s2, LCS)
    ensures forall t :: Has(s1, t) && Has(s2, t) ==> |t| <= |LCS|
  {
    var t1, t2 := s1, s2;
    if |t1| > |t2| { t1, t2 := t2, t1; }
    var m, n := |t1|, |t2|;
    var maxlen, end := FillTable(t1, t2);
    LCS := t1[end - maxlen..end];
    LongestPart(t1, t2, maxlen, end);
  }

  /** Some end as long as maxlen lies at `end`, and no end is longer. */
  ghost predicate Found(t1: string, t2: string, maxlen: nat, end: nat) {
    && maxlen <= end <= |t1| && (exists j: nat :: j <= |t2| && CommonEnd(t1, end, t2, j) >= maxlen)
  }

  /** An entry from the one above and to the left. */
  method Entry(t1: string, t2: string, DP: array2<nat>, i: nat, j: nat) returns (v: nat)
    requires i <= |t1| && j <= |t2| && DP.Length0 == |t1| + 1 && DP.Length1 == |t2| + 1
    requires i > 0 && j > 0 ==> DP[i - 1, j - 1] == CommonEnd(t1, i - 1, t2, j - 1)
    ensures v == CommonEnd(t1, i, t2, j)
  {
    if i == 0 || j == 0 {
      v := 0;
    } else if t1[i - 1] == t2[j - 1] {
      v := DP[i - 1, j - 1] + 1;
    } else {
      v := 0;
    }
  }

  /** One row of the table. */
  method FillRow(t1: string, t2: string, DP: array2<nat>, i: nat, maxlen0: nat, end0: nat)
    returns (maxlen: nat, end: nat)
    requires i <= |t1| && DP.Length0 == |t1| + 1 && DP.Length1 == |t2| + 1
    requires forall a, b :: 0 <= a < i && 0 <= b <= |t2| ==> DP[a, b] == CommonEnd(t1, a, t2, b)
    requires Found(t1, t2, maxlen0, end0) && AtMost(t1, t2, i, 0, maxlen0)
    modifies DP
    ensures forall a, b :: 0 <= a <= i && 0 <= b <= |t2| ==> DP[a, b] == CommonEnd(t1, a, t2, b)
    ensures Found(t1, t2, maxlen, end) && AtMost(t1, t2, i + 1, 0, maxlen)
  {
    hide AtMost, Found, CommonEnd;
    maxlen, end := maxlen0, end0;
    for j := 0 to |t2| + 1
      invariant Found(t1, t2, maxlen, end) && AtMost(t1, t2, i, j, maxlen)
      invariant forall a, b :: 0 <= a < i && 0 <= b <= |t2| ==> DP[a, b] == CommonEnd(t1, a, t2, b)
      invariant forall b :: 0 <= b < j ==> DP[i, b] == CommonEnd(t1, i, t2, b)
    {
      FoundNext(t1, t2, i, j, maxlen, end);
      var v := Entry(t1, t2, DP, i, j);
      DP[i, j] := v;
      if v > maxlen { maxlen, end := v, i; }
    }
    NextRow(t1, t2, i, maxlen);
  }

  /** The table of getLCS. */
  method FillTable(t1: string, t2: string) returns (maxlen: nat, end: nat)
    ensures Found(t1, t2, maxlen, end) && AtMost(t1, t2, |t1| + 1, 0, maxlen)
  {
    hide AtMost, Found, CommonEnd;
    var DP := new nat[|t1| + 1, |t2| + 1];
    maxlen, end := 0, 0;
    FoundStart(t1, t2);
    for i := 0 to |t1| + 1
      invariant Found(t1, t2, maxlen, end) && AtMost(t1, t2, i, 0, maxlen)
      invariant forall a, b :: 0 <= a < i && 0 <= b <= |t2| ==> DP[a, b] == CommonEnd(t1, a, t2, b)
    {
      maxlen, end := FillRow(t1, t2, DP, i, maxlen, end);
    }
  }

  lemma FoundStart(t1: string, t2: string)
    ensures Found(t1, t2, 0, 0) && AtMost(t1, t2, 0, 0, 0)
  {
    assert CommonEnd(t1, 0, t2, 0) >= 0;
  }

  lemma FoundNext(t1: string, t2: string, i: nat, j: nat, maxlen: nat, end: nat)
    requires i <= |t1| && j <= |t2| && Found(t1, t2, maxlen, end) && AtMost(t1, t2, i, j, maxlen)
    ensures var v := CommonEnd(t1, i, t2, j);
            (v > maxlen ==> Found(t1, t2, v, i)) && AtMost(t1, t2, i, j + 1, if v > maxlen then v else maxlen)
    ensures CommonEnd(t1, i, t2, j) == if i == 0 || j == 0 || t1[i - 1] != t2[j - 1] then 0
            else CommonEnd(t1, i - 1, t2, j - 1) + 1
  {}

  lemma NextRow(t1: string, t2: string, i: nat, n: nat)
    requires AtMost(t1, t2, i, |t2| + 1, n) && i <= |t1|
    ensures AtMost(t1, t2, i + 1, 0, n)
  {
    hide CommonEnd;
  }

  lemma LongestPart(t1: string, t2: string, maxlen: nat, end: nat)
    requires Found(t1, t2, maxlen, end) && AtMost(t1, t2, |t1| + 1, 0, maxlen)
    ensures Has(t1, t1[end - maxlen..end]) && Has(t2, t1[end - maxlen..end])
    ensures forall t :: Has(t1, t) && Has(t2, t) ==> |t| <= maxlen
  {
    hide First, CommonEnd, Has, AtMost, OccursAt;
    var j: nat :| j <= |t2| && CommonEnd(t1, end, t2, j) >= maxlen;
    PartFound(t1, t2, maxlen, end, j);
    forall t | Has(t1, t) && Has(t2, t) ensures |t| <= maxlen {
      NoneLonger(t1, t2, maxlen, t);
    }
  }

  lemma PartFound(t1: string, t2: string, maxlen: nat, end: nat, j: nat)
    requires maxlen <= end <= |t1| && j <= |t2| && CommonEnd(t1, end, t2, j) >= maxlen
    ensures Has(t1, t1[end - maxlen..end]) && Has(t2, t1[end - maxlen..end])
  {
    hide First, CommonEnd;
    var n, t := CommonEnd(t1, end, t2, j), t1[end - maxlen..end];
    assert t == t1[end - n..end][n - maxlen..];
    assert t2[j - maxlen..j] == t2[j - n..j][n - maxlen..];
    FirstIsLeast(t1, t, 0);
    FirstIsLeast(t2, t, 0);
    assert OccursAt(t1, t, end - maxlen) && OccursAt(t2, t, j - maxlen);
  }

  lemma NoneLonger(t1: string, t2: string, maxlen: nat, t: string)
    requires AtMost(t1, t2, |t1| + 1, 0, maxlen) && Has(t1, t) && Has(t2, t)
    ensures |t| <= maxlen
  {
    hide First, CommonEnd;
    FirstIsLeast(t1, t, 0);
    FirstIsLeast(t2, t, 0);
    var p, q := First(t1, t, 0), First(t2, t, 0);
    assert OccursAt(t1, t, p) && OccursAt(t2, t, q);
    CommonEndLongest(t1, p + |t|, t2, q + |t|, |t|);
  }
}
