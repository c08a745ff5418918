/** Substring search with the shortened failure table, cmdline_loggrep/SearchAlgorithm.cpp. */
module Kmp {
  const MAX_VALUE_LEN := 1024
  const MAX_LINE_SIZE := 122400

  /** QTYPE_ALIGN_FULL to QTYPE_ALIGN_ANY; Dic stands for every other value. */
  datatype QueryType = AlignFull | AlignLeft | AlignRight | AlignAny | Dic

  predicate OccursAt(S: seq<char>, T: seq<char>, p: int) {
    0 <= p && p + |T| <= |S| && S[p..p + |T|] == T
  }

  /** The k characters before T[i] are the first k of T. */
  predicate Border(T: seq<char>, i: int, k: int) {
    0 <= k < i <= |T| && T[..k] == T[i - k..i]
  }

  /** v is the largest border of i that is not followed by T[i] again, or -1. */
  ghost predicate IsNext(T: seq<char>, i: int, v: int) {
    && 0 <= i < |T| && -1 <= v < i
    && (v >= 0 ==> Border(T, i, v) && T[v] != T[i])
    && forall k :: v < k < i && Border(T, i, k) ==> T[k] == T[i]
  }

  lemma BorderStep(T: seq<char>, i: int, k: int)
    requires 0 <= k < i < |T|
    ensures Border(T, i + 1, k + 1) <==> Border(T, i, k) && T[k] == T[i]
  {
    assert T[..k + 1] == T[..k] + [T[k]];
    assert T[i - k..i + 1] == T[i - k..i] + [T[i]];
  }

  lemma BorderInside(T: seq<char>, i: int, j: int, k: int)
    requires Border(T, i, j) && 0 <= k < j
    ensures Border(T, i, k) <==> Border(T, j, k)
  {
    assert T[..j][j - k..] == T[i - j..i][j - k..];
    assert T[..j][j - k..] == T[j - k..j];
    assert T[i - j..i][j - k..] == T[i - k..i];
  }

  /** j is a border of i, or -1, and no longer border of i goes on with T[i]. */
  ghost predicate Candidate(T: seq<char>, i: int, j: int) {
    && 0 <= i < |T| && -1 <= j < i
    && (j >= 0 ==> Border(T, i, j))
    && forall k :: j < k < i && Border(T, i, k) ==> T[k] != T[i]
  }

  /** The longest border of i. */
  ghost predicate Longest(T: seq<char>, i: int, j: int) {
    Border(T, i, j) && forall k :: j < k < i ==> !Border(T, i, k)
  }

  lemma CandidateFits(T: seq<char>, i: int, j: int)
    requires Candidate(T, i, j) && i + 1 < |T| && (j == -1 || T[i] == T[j])
    ensures Longest(T, i + 1, j + 1)
  {
    if j >= 0 { BorderStep(T, i, j); }
    forall k {:trigger Border(T, i + 1, k)} | j + 1 < k < i + 1 ensures !Border(T, i + 1, k) {
      BorderStep(T, i, k - 1);
    }
  }

  lemma CandidateFails(T: seq<char>, i: int, j: int, v: int)
    requires Candidate(T, i, j) && j >= 0 && T[i] != T[j] && IsNext(T, j, v)
    ensures Candidate(T, i, v)
  {
    if v >= 0 { BorderInside(T, i, j, v); }
    forall k | v < k < i && Border(T, i, k) ensures T[k] != T[i] {
      if k < j { BorderInside(T, i, j, k); }
    }
  }

  lemma NextOf(T: seq<char>, i: int, j: int, v: int)
    requires 0 < i < |T| && Longest(T, i, j)
    requires if T[i] != T[j] then v == j else IsNext(T, j, v)
    ensures IsNext(T, i, v)
  {
    forall k | 0 <= k < j ensures Border(T, i, k) <==> Border(T, j, k) { BorderInside(T, i, j, k); }
  }

  lemma CandidateRange(T: seq<char>, i: int, j: int)
    requires Candidate(T, i, j)
    ensures 0 <= i < |T| && -1 <= j < i
  {}

  lemma LongestIsCandidate(T: seq<char>, i: int, j: int)
    requires Longest(T, i, j) && i < |T|
    ensures Candidate(T, i, j)
  {}

  /** The first n entries are right. */
  ghost predicate IsTable(T: seq<char>, next: seq<int>, n: int) {
    n <= |T| && n <= |next| && forall i :: 0 <= i < n ==> IsNext(T, i, next[i])
  }

  lemma Entry(T: seq<char>, next: seq<int>, n: int, i: int)
    requires IsTable(T, next, n) && 0 <= i < n
    ensures IsNext(T, i, next[i]) && -1 <= next[i] < i
  {}

  lemma OneMore(T: seq<char>, next: seq<int>, n: nat, v: int)
    requires IsTable(T, next, n) && n < |T| && n < |next| && IsNext(T, n, v)
    ensures IsTable(T, next[n := v], n + 1)
  {}

  lemma FirstEntry(T: seq<char>, next: seq<int>)
    requires |next| == MAX_VALUE_LEN && next[0] == -1
    ensures IsTable(T, next, if T == [] then 0 else 1) && (T != [] ==> Candidate(T, 0, -1))
  {}

  /** InitKmpNext. */
  method InitKmpNext(T: seq<char>) returns (next: array<int>)
    requires |T| <= MAX_VALUE_LEN
    ensures fresh(next) && next.Length == MAX_VALUE_LEN && IsTable(T, next[..], |T|)
  {
    hide Candidate, Longest, IsNext, IsTable, Border;
    next := new int[MAX_VALUE_LEN];
    var i := 0;
    next[0] := -1;
    var j := -1;
    FirstEntry(T, next[..]);
    while i < |T| - 1
      invariant -1 <= j <= i <= |T|
      invariant if T == [] then i == 0 && IsTable(T, next[..], 0) else Candidate(T, i, j) && IsTable(T, next[..], i + 1)
      decreases |T| - i, j
    {
      CandidateRange(T, i, j);
      if j == -1 || T[i] == T[j] {
        CandidateFits(T, i, j);
        i := i + 1;
        j := j + 1;
        LongestIsCandidate(T, i, j);
        Entry(T, next[..], i, j);
        ghost var v := if T[i] != T[j] then j else next[j];
        NextOf(T, i, j, v);
        OneMore(T, next[..], i, v);
        if T[i] != T[j] {
          next[i] := j;
        } else {
          next[i] := next[j];
        }
      } else {
        Entry(T, next[..], i + 1, j);
        CandidateFails(T, i, j, next[j]);
        j := next[j];
      }
    }
    CandidateRangeEnd(T, i, j);
  }

  lemma CandidateRangeEnd(T: seq<char>, i: int, j: int)
    requires i >= |T| - 1 && (T != [] ==> Candidate(T, i, j))
    ensures T != [] ==> i + 1 == |T|
  {}

  /** The least position from p on at which T occurs, or -1. */
  function First(S: seq<char>, T: seq<char>, p: nat): int
    decreases |S| - p
  {
    if p + |T| > |S| then -1 else if OccursAt(S, T, p) then p else First(S, T, p + 1)
  }

  lemma {:induction false} FirstIsLeast(S: seq<char>, T: seq<char>, p: nat)
    ensures var r := First(S, T, p);
            if r < 0 then r == -1 && forall q :: q >= p ==> !OccursAt(S, T, q)
            else r >= p && OccursAt(S, T, r) && forall q :: p <= q < r ==> !OccursAt(S, T, q)
    decreases |S| - p
  {
    if p + |T| > |S| {
    } else if !OccursAt(S, T, p) {
      FirstIsLeast(S, T, p + 1);
    }
  }

  /** What the search answers for each kind of query. */
  function Answer(S: seq<char>, T: seq<char>, queryType: QueryType): int {
    var r := First(S, T, 0);
    match queryType
    case AlignAny => r
    case AlignFull => r
    case AlignRight => if r >= 0 && r + |T| == |S| then r else -1
    case AlignLeft => if r == 0 then 0 else -1
    case Dic => if r >= 0 && |S| == |T| then r else -1
  }

  /** T[..j] stands before S[i], and T does not occur further left. */
  ghost predicate Reached(S: seq<char>, T: seq<char>, i: int, j: int) {
    && 0 <= i <= |S| && -1 <= j <= i && j <= |T|
    && (j >= 0 ==> S[i - j..i] == T[..j])
    && forall p :: 0 <= p < i - j ==> !OccursAt(S, T, p)
  }

  lemma ReachedFits(S: seq<char>, T: seq<char>, i: int, j: int)
    requires Reached(S, T, i, j) && i < |S| && j < |T| && (j == -1 || S[i] == T[j])
    ensures Reached(S, T, i + 1, j + 1)
  {
    if j >= 0 {
      assert S[i - j..i + 1] == S[i - j..i] + [S[i]];
      assert T[..j + 1] == T[..j] + [T[j]];
    }
  }

  /** An occurrence that starts k before i, inside the part that T[..j] covers, makes k a border of j. */
  lemma OccurrenceBorder(S: seq<char>, T: seq<char>, i: int, j: int, k: int)
    requires 0 <= k < j <= |T| && j <= i < |S| && S[i - j..i] == T[..j] && OccursAt(S, T, i - k) && k < |T|
    ensures Border(T, j, k) && T[k] == S[i]
  {
    assert T[k] == S[i - k..i - k + |T|][k];
    assert T[..k] == S[i - k..i - k + |T|][..k];
    assert S[i - k..i - k + |T|][..k] == S[i - k..i];
    assert S[i - j..i][j - k..] == S[i - k..i];
    assert T[..j][j - k..] == T[j - k..j];
  }

  lemma OtherwiseThere(S: seq<char>, T: seq<char>, i: int, j: int)
    requires 0 <= j <= i < |S| && j < |T| && S[i] != T[j]
    ensures !OccursAt(S, T, i - j)
  {
    if i - j + |T| <= |S| { assert S[i - j..i - j + |T|][j] == S[i]; }
  }

  lemma ReachedFails(S: seq<char>, T: seq<char>, i: int, j: int, v: int)
    requires Reached(S, T, i, j) && i < |S| && 0 <= j < |T| && S[i] != T[j] && IsNext(T, j, v)
    ensures Reached(S, T, i, v)
  {
    if v >= 0 {
      assert S[i - j..i][j - v..] == S[i - v..i];
      assert T[..j][j - v..] == T[j - v..j];
    }
    forall p | 0 <= p < i - v ensures !OccursAt(S, T, p) {
      if p == i - j {
        OtherwiseThere(S, T, i, j);
      } else if p > i - j && OccursAt(S, T, p) {
        OccurrenceBorder(S, T, i, j, i - p);
      }
    }
  }

  lemma ReachedEnd(S: seq<char>, T: seq<char>, i: int, j: int)
    requires Reached(S, T, i, j) && (j == |T| || i == |S|)
    ensures First(S, T, 0) == if j == |T| then i - j else -1
  {
    FirstIsLeast(S, T, 0);
    if j == |T| { assert T[..j] == T; assert OccursAt(S, T, i - j); }
  }

  /** KMP on one value. */
  method Search(S: seq<char>, T: seq<char>, next: array<int>, queryType: QueryType) returns (r: int)
    requires IsTable(T, next[..], |T|)
    ensures r == Answer(S, T, queryType)
  {
    var i, j := 0, 0;
    while i < |S| && j < |T|
      invariant Reached(S, T, i, j)
      decreases |S| - i, j
    {
      if j == -1 || S[i] == T[j] {
        ReachedFits(S, T, i, j);
        i := i + 1;
        j := j + 1;
      } else {
        Entry(T, next[..], |T|, j);
        ReachedFails(S, T, i, j, next[j]);
        j := next[j];
      }
    }
    ReachedEnd(S, T, i, j);
    if j == |T| {
      match queryType {
        case AlignAny => return i - j;
        case AlignRight => if i == |S| { return i - j; }
        case AlignLeft => if i - j == 0 { return i - j; }
        case AlignFull => return i - j;
        case Dic => if |S| == |T| { return i - j; }
      }
      return -1;
    }
    return -1;
  }

  predicate OccursBefore(S: seq<char>, T: seq<char>, n: int) {
    exists p :: 0 <= p < n && OccursAt(S, T, p)
  }

  predicate Occurs(S: seq<char>, T: seq<char>) { OccursBefore(S, T, |S| + 1) }

  predicate IsSuffix(S: seq<char>, T: seq<char>) { OccursAt(S, T, |S| - |T|) }

  /** QTYPE_ALIGN_ANY finds the least occurrence, and finds one if there is one. */
  lemma AnyIsLeast(S: seq<char>, T: seq<char>)
    ensures Answer(S, T, AlignAny) >= 0 <==> Occurs(S, T)
    ensures Answer(S, T, AlignAny) >= 0 ==> OccursAt(S, T, Answer(S, T, AlignAny))
    ensures forall p :: 0 <= p < Answer(S, T, AlignAny) ==> !OccursAt(S, T, p)
  {
    FirstIsLeast(S, T, 0);
  }

  /** QTYPE_ALIGN_LEFT answers 0 exactly on the values that start with T. */
  lemma LeftIsPrefix(S: seq<char>, T: seq<char>)
    ensures Answer(S, T, AlignLeft) == if T <= S then 0 else -1
  {
    FirstIsLeast(S, T, 0);
    assert T <= S <==> OccursAt(S, T, 0) by {
      if T <= S { assert S[0..|T|] == T; }
    }
  }

  /** The kind of query used for dictionary entries answers 0 exactly on equal values. */
  lemma DicIsEqual(S: seq<char>, T: seq<char>)
    ensures Answer(S, T, Dic) == if S == T then 0 else -1
  {
    FirstIsLeast(S, T, 0);
    if S == T { assert S[0..|T|] == T; assert OccursAt(S, T, 0); }
    if |S| == |T| && First(S, T, 0) >= 0 { assert S[0..|T|] == S; }
  }

  /** QTYPE_ALIGN_RIGHT looks at the first occurrence only, so it tells whether T ends the value
      exactly on the values in which a T at the end is not preceded by another occurrence. */
  lemma RightIsSuffix(S: seq<char>, T: seq<char>)
    ensures (Answer(S, T, AlignRight) >= 0 <==> IsSuffix(S, T)) <==> !(IsSuffix(S, T) && OccursBefore(S, T, |S| - |T|))
  {
    FirstIsLeast(S, T, 0);
  }

  /** A value that ends with T and is not found. */
  lemma RightMisses()
    ensures IsSuffix("aba", "a") && Answer("aba", "a", AlignRight) == -1
  {
    assert "aba"[0..1] == "a" && "aba"[2..3] == "a";
    assert First("aba", "a", 0) == 0;
  }

  /** QTYPE_ALIGN_FULL does not compare the lengths, so it tells whether the value is T exactly on
      the values as long as T and those without T. */
  lemma FullIsEqual(S: seq<char>, T: seq<char>)
    ensures (Answer(S, T, AlignFull) >= 0 <==> S == T) <==> (|S| == |T| || !Occurs(S, T))
  {
    AnyIsLeast(S, T);
    DicIsEqual(S, T);
    if S == T { assert S[0..|T|] == T; assert OccursAt(S, T, 0); }
  }

  /** A longer value that is found. */
  lemma FullOverstates()
    ensures Answer("ab", "a", AlignFull) == 0
  {
    assert "ab"[0..1] == "a";
  }

  function LineLen(S: seq<char>): (n: nat)
    ensures n <= |S| && (n < |S| ==> S[n] == '\n') && forall k :: 0 <= k < n ==> S[k] != '\n'
  {
    if S == [] || S[0] == '\n' then 0 else 1 + LineLen(S[1..])
  }

  /** The lines of a file; a newline at the end begins no line. */
  function Lines(S: seq<char>): seq<seq<char>>
    decreases |S|
  {
    if S == [] then [] else
    var n := LineLen(S);
    [S[..n]] + if n < |S| then Lines(S[n + 1..]) else []
  }

  lemma LinesIs(S: seq<char>)
    requires S != []
    ensures Lines(S) == [S[..LineLen(S)]] + if LineLen(S) < |S| then Lines(S[LineLen(S) + 1..]) else []
  {
    hide LineLen;
  }

  lemma LinesNext(S: seq<char>, i: nat)
    requires i < |S|
    ensures var n := LineLen(S[i..]);
            Lines(S[i..]) == [S[i..i + n]] + if i + n < |S| then Lines(S[i + n + 1..]) else []
  {
    hide LineLen, Lines;
    var n, rest := LineLen(S[i..]), S[i..];
    LinesIs(rest);
    assert rest[..n] == S[i..i + n];
    if n < |rest| { assert rest[n + 1..] == S[i + n + 1..]; }
  }

  /** Copies the line at S[i] into the buffer. */
  method ReadLine(S: seq<char>, i: nat, vars: array<char>) returns (offset: nat)
    requires i < |S| && LineLen(S[i..]) < vars.Length
    modifies vars
    ensures offset == LineLen(S[i..]) && vars[..offset] == S[i..i + offset]
  {
    offset := 0;
    ghost var rest := S[i..];
    while i + offset < |S| && S[i + offset] != '\n'
      invariant offset <= LineLen(rest)
      invariant vars[..offset] == S[i..i + offset]
    {
      assert rest[offset] == S[i + offset];
      vars[offset] := S[i + offset];
      offset := offset + 1;
      assert vars[..offset] == S[i..i + offset];
    }
    vars[offset] := '\0';
    assert i + offset < |S| ==> rest[offset] == S[i + offset];
  }

  /** Different numbers below n outside of a set below n: together at most n. */
  lemma {:induction false} Fewer(s: seq<nat>, n: nat, others: set<nat>)
    requires forall k :: 0 <= k < |s| ==> s[k] < n && s[k] !in others
    requires forall k, m :: 0 <= k < m < |s| ==> s[k] != s[m]
    requires forall x :: x in others ==> x < n
    ensures |s| + |others| <= n
  {
    if s == [] {
      Below(others, n);
    } else {
      Fewer(s[1..], n, others + {s[0]});
    }
  }

  lemma {:induction false} Below(a: set<nat>, n: nat)
    requires forall x :: x in a ==> x < n
    ensures |a| <= n
  {
    if n > 0 {
      Below(a - {n - 1}, n - 1);
    } else {
      assert a == {};
    }
  }

  /** A set of line numbers, with the list of its members. */
  class BitMap {
    var Bitmap: seq<bool>
    const Index: array<nat>
    var Size: nat
    const TotalSize: nat

    ghost predicate Valid()
      reads this, Index
    {
      && |Bitmap| == Index.Length == TotalSize && Size <= TotalSize
      && (forall k :: 0 <= k < Size ==> Index[k] < TotalSize && Bitmap[Index[k]])
      && (forall pos :: 0 <= pos < TotalSize && Bitmap[pos] ==> pos in Index[..Size])
      && (forall k, m :: 0 <= k < m < Size ==> Index[k] != Index[m])
    }

    constructor (tolsize: nat)
      ensures Valid() && fresh(Index) && TotalSize == tolsize && Size == 0
      ensures forall pos :: 0 <= pos < tolsize ==> !Bitmap[pos]
    {
      TotalSize := tolsize;
      Index := new nat[tolsize];
      Size := 0;
      Bitmap := seq(tolsize, i => false);
    }

    lemma NotFull(pos: nat)
      requires Valid() && pos < TotalSize && !Bitmap[pos]
      ensures Size < TotalSize
    {
      Fewer(Index[..Size], TotalSize, {pos});
    }

    /** Union(pos). */
    method Union(pos: nat)
      requires Valid() && pos < TotalSize
      modifies this, Index
      ensures Valid() && Bitmap == old(Bitmap)[pos := true]
    {
      if !Bitmap[pos] {
        NotFull(pos);
        Bitmap := Bitmap[pos := true];
        Index[Size] := pos;
        Size := Size + 1;
        assert Index[..Size] == old(Index[..Size]) + [pos];
      }
    }
  }

  /** Of the first n lines exactly those with an answer have been added. */
  ghost predicate Marked(before: seq<bool>, after: seq<bool>,
                         lines: seq<seq<char>>, n: nat, T: seq<char>, queryType: QueryType) {
    && |after| == |before| && n <= |lines|
    && forall pos :: 0 <= pos < |after| ==>
         (after[pos] <==> (before[pos] || (pos < n && Answer(lines[pos], T, queryType) >= 0)))
  }

  /** The lines from number lineNo on begin at S[i]. */
  ghost predicate AtLine(S: seq<char>, i: nat, lineNo: nat) {
    lineNo <= |Lines(S)| && Lines(S)[lineNo..] == if i < |S| then Lines(S[i..]) else []
  }

  lemma AtLineStart(S: seq<char>)
    ensures AtLine(S, 0, 0)
  {
    hide LineLen;
    assert S[0..] == S;
  }

  lemma AtLineStep(S: seq<char>, i: nat, lineNo: nat)
    requires i < |S| && AtLine(S, i, lineNo)
    ensures var n := LineLen(S[i..]);
            lineNo < |Lines(S)| && Lines(S)[lineNo] == S[i..i + n] && AtLine(S, i + n + 1, lineNo + 1)
  {
    var n := LineLen(S[i..]);
    var rest := if i + n < |S| then Lines(S[i + n + 1..]) else [];
    LinesNext(S, i);
    assert Lines(S)[lineNo] == Lines(S)[lineNo..][0];
    assert Lines(S)[lineNo + 1..] == Lines(S)[lineNo..][1..];
    assert ([S[i..i + n]] + rest)[1..] == rest;
    if i + n + 1 == |S| { assert S[i + n + 1..] == []; }
  }

  lemma AtLineEnd(S: seq<char>, i: nat, lineNo: nat)
    requires i >= |S| && AtLine(S, i, lineNo)
    ensures lineNo == |Lines(S)|
  {}

  lemma MarkedStart(now: seq<bool>, lines: seq<seq<char>>, T: seq<char>, queryType: QueryType)
    ensures Marked(now, now, lines, 0, T, queryType)
  {}

  lemma MarkedStep(before: seq<bool>, after: seq<bool>, lines: seq<seq<char>>,
                   n: nat, T: seq<char>, queryType: QueryType)
    requires Marked(before, after, lines, n, T, queryType) && n < |lines| && n < |after|
    ensures Marked(before, if Answer(lines[n], T, queryType) >= 0 then after[n := true] else after,
            lines, n + 1, T, queryType)
  {
    hide Answer;
  }

  /** KMP on a file: every line is searched, and the numbers of the lines with an answer go into the bitmap. */
  method SearchLines(S: seq<char>, T: seq<char>, bitmap: BitMap, queryType: QueryType) returns (size: nat)
    requires |T| <= MAX_VALUE_LEN && '\0' !in S
    requires |Lines(S)| <= bitmap.TotalSize && forall line :: line in Lines(S) ==> |line| < MAX_LINE_SIZE
    requires bitmap.Valid()
    modifies bitmap, bitmap.Index
    ensures bitmap.Valid() && size == bitmap.Size
    ensures Marked(old(bitmap.Bitmap), bitmap.Bitmap, Lines(S), |Lines(S)|, T, queryType)
  {
    hide Lines, LineLen, First, OccursAt, IsTable, Answer, AtLine, Marked;
    AtLineStart(S);
    var i, lineNo, offset := 0, 0, 0;
    MarkedStart(bitmap.Bitmap, Lines(S), T, queryType);
    var next := InitKmpNext(T);
    var vars := new char[MAX_LINE_SIZE];
    while i < |S| && S[i] != '\0'
      invariant offset == 0 && bitmap.Valid()
      invariant AtLine(S, i, lineNo)
      invariant Marked(old(bitmap.Bitmap), bitmap.Bitmap, Lines(S), lineNo, T, queryType)
      invariant IsTable(T, next[..], |T|)
    {
      AtLineStep(S, i, lineNo);
      assert Lines(S)[lineNo] in Lines(S);
      offset := ReadLine(S, i, vars);
      i := i + offset;
      MarkedStep(old(bitmap.Bitmap), bitmap.Bitmap, Lines(S), lineNo, T, queryType);
      var matchResult := Search(vars[..offset], T, next, queryType);
      if matchResult >= 0 {
        bitmap.Union(lineNo);
      }
      offset := 0;
      lineNo := lineNo + 1;
      i := i + 1;
    }
    AtLineEnd(S, i, lineNo);
    size := bitmap.Size;
  }
}
