/** The two loops that search and relink a tree of the array `son` in place. */
module LzLoops {
  import opened Bytes
  import opened LzOrder
  import opened LzTree
  import opened LzSon

  /** How far the bytes at cur agree with those delta before, from start on. */
  method Extend(d: seq<byte>, cur: nat, delta: nat, start: nat, lenLimit: nat) returns (len: nat)
    requires 0 < delta <= cur && start <= lenLimit && cur + lenLimit <= |d|
    ensures len == Scan(d, cur - delta, cur, start, lenLimit)
  {
    var pb := cur - delta;
    ghost var a, c := pb + start, cur + start;
    len := start;
    while len != lenLimit && d[pb + len] == d[cur + len]
      invariant start <= len <= lenLimit
      invariant forall k: nat | k < len - start :: Same(d, a, c, k)
    {
      assert Same(d, a, c, len - start);
      len := len + 1;
    }
    assert len < lenLimit ==> !Same(d, a, c, len - start);
    CommonIs(d, a, c, lenLimit - start, len - start);
  }

  /** In an iteration: the position compared with, and its links. */
  lemma ReadyNode(d: seq<byte>, v: View, o: Open, w: int, t: Tree, n: nat)
    requires Ready(d, v, o, w, t, n) && Older(t, v.now)
    ensures w <= v.now + v.base && Fits(v, o) && Stored(v, t)
    ensures t.Leaf? <==> v.now + v.base - w >= v.size
    ensures t.Node? ==> w == t.at + v.base && Slot(v, t.at) < v.size && t.at < v.now && 0 <= t.at + v.base < TWO32
  {
    hide Slot, Search;
    if t.Node? { StoredBelow(v, t); }
  }

  lemma OlderBelow(t: Tree, c: nat)
    requires t.Node? && Older(t, c)
    ensures Older(t.left, c) && Older(t.right, c)
  {
    assert Nodes(t.left) <= Nodes(t) && Nodes(t.right) <= Nodes(t);
  }

  lemma BeforeIs(d: seq<byte>, t: Tree, c: nat, len: nat)
    requires t.Node? && t.at + len < |d| && c + len < |d|
    ensures Before(d, t, c, len) == (d[t.at + len] < d[c + len])
  {}

  lemma LenIs(d: seq<byte>, t: Tree, c: nat, n: nat, len0: nat, len1: nat)
    requires t.Node? && len0 < n && len1 < n
    ensures LenAt(d, t, c, n, len0, len1) == Scan(d, t.at, c, if len0 < len1 then len0 else len1, n)
  {}

  /** The array, with its open links and the rest of the tree, will become `final`. */
  ghost predicate Linking(d: seq<byte>, v: View, o: Open, w: int, t: Tree,
                          n: nat, cut: nat, len0: nat, len1: nat, final: seq<u32>) {
    && len0 < n && len1 < n && Ready(d, v, o, w, t, n) && Older(t, v.now) && Fits(v, o) && Stored(v, t)
    && Relink(d, v, o, t, n, cut, len0, len1) == final
  }

  lemma LinkingStops(d: seq<byte>, v: View, o: Open, w: int, t: Tree,
                     n: nat, cut: nat, len0: nat, len1: nat, final: seq<u32>)
    requires Linking(d, v, o, w, t, n, cut, len0, len1, final) && (t.Leaf? || cut == 0)
    ensures Fits(v, o) && final == o.son[o.p1 := 0][o.p0 := 0]
  {}

  lemma LinkingTurns(d: seq<byte>, v: View, o: Open, w: int, t: Tree,
                     n: nat, cut: nat, len0: nat, len1: nat, final: seq<u32>)
    requires Linking(d, v, o, w, t, n, cut, len0, len1, final) && t.Node? && cut > 0
    ensures Fits(v, o) && len0 < n && len1 < n && Slot(v, t.at) < v.size && 0 <= t.at + v.base < TWO32
    ensures var len, s := LenAt(d, t, v.now, n, len0, len1), 2 * Slot(v, t.at);
            if len == n then o.p1 != s + 1 && final == o.son[o.p1 := o.son[s]][o.p0 := o.son[s + 1]]
            else if Before(d, t, v.now, len) then
              var o1 := Open(o.son[o.p1 := t.at + v.base], o.p0, s + 1);
              Linking(d, v, o1, o1.son[s + 1], t.right, n, cut - 1, len0, len, final)
            else
              var o1 := Open(o.son[o.p0 := t.at + v.base], s, o.p1);
              Linking(d, v, o1, o1.son[s], t.left, n, cut - 1, len, len1, final)
  {
    hide Slot, Before, Ready, Live, Nodes, Older, Stored, LenAt, Relink;
    StoredBelow(v, t);
    OlderBelow(t, v.now);
    RelinkIs(d, v, o, t, n, cut, len0, len1);
    EqualWrites(d, v, o, w, t, n);
    PassReady(d, v, o, w, t, n, Before(d, t, v.now, LenAt(d, t, v.now, n, len0, len1)));
  }

  /** Writing the first link does not change the one that is copied next. */
  lemma EqualWrites(d: seq<byte>, v: View, o: Open, w: int, t: Tree, n: nat)
    requires t.Node? && Ready(d, v, o, w, t, n)
    ensures v.size > 0 && o.p1 != 2 * Slot(v, t.at) + 1
  {
    hide Slot, Rep, Search, Stored;
    assert t.at in Nodes(t);
  }

  /** With what will be found in the rest of the tree, the matches found so far become `all`. */
  ghost predicate Finding(d: seq<byte>, t: Tree, c: nat, n: nat, cut: nat, len0: nat, len1: nat, best: nat,
                          found: seq<Match>, all: seq<Match>) {
    len0 < n && len1 < n && best < n && Older(t, c) && found + Found(d, t, c, n, cut, len0, len1, best) == all
  }

  lemma FindingStops(d: seq<byte>, t: Tree, c: nat, n: nat, cut: nat, len0: nat, len1: nat, best: nat,
                     found: seq<Match>, all: seq<Match>)
    requires Finding(d, t, c, n, cut, len0, len1, best, found, all) && (t.Leaf? || cut == 0)
    ensures found == all
  {}

  lemma FindingTurns(d: seq<byte>, t: Tree, c: nat, n: nat, cut: nat, len0: nat, len1: nat, best: nat,
                     found: seq<Match>, all: seq<Match>)
    requires Finding(d, t, c, n, cut, len0, len1, best, found, all) && t.Node? && t.at < c && cut > 0
    ensures len0 < n && len1 < n && best < n
    ensures var len := LenAt(d, t, c, n, len0, len1);
            var hit := len > (if len0 < len1 then len0 else len1) && best < len;
            var found' := if hit then found + [Match(len, c - t.at - 1)] else found;
            if len == n then found' == all
            else if Before(d, t, c, len) then Finding(d, t.right, c, n, cut - 1,
                len0, len, if hit then len else best, found', all)
            else Finding(d, t.left, c, n, cut - 1, len, len1, if hit then len else best, found', all)
  {
    hide LenAt, Before, Older;
    OlderBelow(t, c);
  }

  /** Before the first iteration. */
  lemma Begins(d: seq<byte>, v: View, o: Open, w: int, t: Tree, n: nat, cut: nat, best: nat)
    requires n > 0 && Ready(d, v, o, w, t, n) && Older(t, v.now)
    ensures Fits(v, o) && Stored(v, t) && Linking(d, v, o, w, t, n, cut, 0, 0, Relink(d, v, o, t, n, cut, 0, 0))
    ensures best < n ==> Finding(d, t, v.now, n, cut, 0, 0, best, [], Found(d, t, v.now, n, cut, 0, 0, best))
  {
    hide Ready, Relink, Found, Stored, Older;
    ReadyFits(d, v, o, w, t, n);
  }

  lemma LinkingNode(d: seq<byte>, v: View, o: Open, w: int, t: Tree,
                    n: nat, cut: nat, len0: nat, len1: nat, final: seq<u32>)
    requires Linking(d, v, o, w, t, n, cut, len0, len1, final)
    ensures w <= v.now + v.base && Fits(v, o)
    ensures t.Leaf? <==> v.now + v.base - w >= v.size
    ensures t.Node? ==> w == t.at + v.base && t.at < v.now
  {
    hide Ready, Relink, Stored, Older;
    ReadyNode(d, v, o, w, t, n);
  }

  /** Nothing is left of the tree. */
  method EndLinks(son: array<u32>, ptr0: nat, ptr1: nat)
    requires ptr0 < son.Length && ptr1 < son.Length
    modifies son
    ensures son[..] == old(son[..])[ptr1 := 0][ptr0 := 0]
  {
    son[ptr1] := 0;
    son[ptr0] := 0;
  }

  /** The node's own links go where it was found. */
  method TakeLinks(son: array<u32>, ptr0: nat, ptr1: nat, pair: nat)
    requires ptr0 < son.Length && ptr1 < son.Length && pair + 1 < son.Length && ptr1 != pair + 1
    modifies son
    ensures son[..] == old(son[..])[ptr1 := old(son[pair])][ptr0 := old(son[pair + 1])]
  {
    var pair0 := son[pair];
    son[ptr1] := pair0;
    son[ptr0] := son[pair + 1];
  }

  /** GetMatchesSpec1: report the matches of the current position with the tree, and make it the root. */
  method GetMatchesSpec1(d: seq<byte>, lenLimit: nat, hashMatch: u32,
                         pos: u32, cur: nat, son: array<u32>, cyclicBufferPos: nat,
                         cyclicBufferSize: nat, cutValue: nat, longest: nat, ghost v: View, ghost t: Tree)
    returns (distances: seq<Match>)
    requires v == View(pos - cur, cyclicBufferSize, cur) && cyclicBufferSize > 0 && cyclicBufferPos == Slot(v, cur)
    requires longest < lenLimit && cur + lenLimit <= |d| && Older(t, cur)
    requires Ready(d, v, Open(son[..], 2 * cyclicBufferPos + 1, 2 * cyclicBufferPos), hashMatch, t, lenLimit)
    modifies son
    ensures Untouched(Open(old(son[..]), 2 * cyclicBufferPos + 1, 2 * cyclicBufferPos), son[..], v, t)
    ensures Rep(son[..], v, pos, Insert(d, t, cur, lenLimit, cutValue))
    ensures distances == Found(d, t, cur, lenLimit, cutValue, 0, 0, longest)
  {
    hide Ready, Slot, Split, LenAt, Rep, Stored, Live, Untouched, Older, Before, Relink, Found, Insert, Scan, Linking,
         Finding;
    ghost var o := Start(son[..], v);
    RelinkInsert(d, son[..], v, hashMatch, t, lenLimit, cutValue);
    ghost var final, all := Relink(d, v, o, t, lenLimit, cutValue, 0, 0),
        Found(d, t, cur, lenLimit, cutValue, 0, 0, longest);
    var ptr0: nat, ptr1: nat, len0: nat, len1: nat := 2 * cyclicBufferPos + 1, 2 * cyclicBufferPos, 0, 0;
    var maxLen: nat, cut: nat, curMatch := longest, cutValue, hashMatch;
    ghost var u := t;
    distances := [];
    Begins(d, v, o, curMatch, t, lenLimit, cut, longest);
    while true
      invariant len0 < lenLimit && len1 < lenLimit && maxLen < lenLimit && o == Open(son[..], ptr0, ptr1)
      invariant Linking(d, v, o, curMatch, u, lenLimit, cut, len0, len1, final)
      invariant Finding(d, u, cur, lenLimit, cut, len0, len1, maxLen, distances, all)
      decreases cut
    {
      LinkingNode(d, v, o, curMatch, u, lenLimit, cut, len0, len1, final);
      var delta := pos - curMatch;
      if cut == 0 || delta >= cyclicBufferSize {
        LinkingStops(d, v, o, curMatch, u, lenLimit, cut, len0, len1, final);
        FindingStops(d, u, cur, lenLimit, cut, len0, len1, maxLen, distances, all);
        EndLinks(son, ptr0, ptr1);
        return;
      }
      LinkingTurns(d, v, o, curMatch, u, lenLimit, cut, len0, len1, final);
      FindingTurns(d, u, cur, lenLimit, cut, len0, len1, maxLen, distances, all);
      cut := cut - 1;
      SlotOfDelta(v, cyclicBufferPos, delta);
      var pair := 2 * (cyclicBufferPos - delta + if delta > cyclicBufferPos then cyclicBufferSize else 0);
      var start := if len0 < len1 then len0 else len1;
      var len := Extend(d, cur, delta, start, lenLimit);
      LenIs(d, u, cur, lenLimit, len0, len1);
      if len > start && maxLen < len {
        maxLen := len;
        distances := distances + [Match(len, delta - 1)];
      }
      if len == lenLimit {
        TakeLinks(son, ptr0, ptr1, pair);
        return;
      }
      BeforeIs(d, u, cur, len);
      if d[cur - delta + len] < d[cur + len] {
        son[ptr1] := curMatch;
        ptr1 := pair + 1;
        curMatch := son[ptr1];
        len1 := len;
        u, o := u.right, Open(son[..], ptr0, ptr1);
      } else {
        son[ptr0] := curMatch;
        ptr0 := pair;
        curMatch := son[ptr0];
        len0 := len;
        u, o := u.left, Open(son[..], ptr0, ptr1);
      }
    }
  }

  /** SkipMatchesSpec: only make the current position the root. */
  method SkipMatchesSpec(d: seq<byte>, lenLimit: nat, hashMatch: u32,
                         pos: u32, cur: nat, son: array<u32>, cyclicBufferPos: nat,
                         cyclicBufferSize: nat, cutValue: nat, ghost v: View, ghost t: Tree)
    requires v == View(pos - cur, cyclicBufferSize, cur) && cyclicBufferSize > 0 && cyclicBufferPos == Slot(v, cur)
    requires 0 < lenLimit && cur + lenLimit <= |d| && Older(t, cur)
    requires Ready(d, v, Open(son[..], 2 * cyclicBufferPos + 1, 2 * cyclicBufferPos), hashMatch, t, lenLimit)
    modifies son
    ensures Untouched(Open(old(son[..]), 2 * cyclicBufferPos + 1, 2 * cyclicBufferPos), son[..], v, t)
    ensures Rep(son[..], v, pos, Insert(d, t, cur, lenLimit, cutValue))
  {
    hide Ready, Slot, Split, LenAt, Rep, Stored, Live, Untouched, Older, Before, Relink, Found, Insert, Scan, Linking;
    ghost var o := Start(son[..], v);
    RelinkInsert(d, son[..], v, hashMatch, t, lenLimit, cutValue);
    ghost var final := Relink(d, v, o, t, lenLimit, cutValue, 0, 0);
    var ptr0: nat, ptr1: nat, len0: nat, len1: nat := 2 * cyclicBufferPos + 1, 2 * cyclicBufferPos, 0, 0;
    var cut: nat, curMatch := cutValue, hashMatch;
    ghost var u := t;
    Begins(d, v, o, curMatch, t, lenLimit, cut, lenLimit);
    while true
      invariant len0 < lenLimit && len1 < lenLimit && o == Open(son[..], ptr0, ptr1)
      invariant Linking(d, v, o, curMatch, u, lenLimit, cut, len0, len1, final)
      decreases cut
    {
      LinkingNode(d, v, o, curMatch, u, lenLimit, cut, len0, len1, final);
      var delta := pos - curMatch;
      if cut == 0 || delta >= cyclicBufferSize {
        LinkingStops(d, v, o, curMatch, u, lenLimit, cut, len0, len1, final);
        EndLinks(son, ptr0, ptr1);
        return;
      }
      LinkingTurns(d, v, o, curMatch, u, lenLimit, cut, len0, len1, final);
      cut := cut - 1;
      SlotOfDelta(v, cyclicBufferPos, delta);
      var pair := 2 * (cyclicBufferPos - delta + if delta > cyclicBufferPos then cyclicBufferSize else 0);
      var start := if len0 < len1 then len0 else len1;
      var len := Extend(d, cur, delta, start, lenLimit);
      LenIs(d, u, cur, lenLimit, len0, len1);
      if len == lenLimit {
        TakeLinks(son, ptr0, ptr1, pair);
        return;
      }
      BeforeIs(d, u, cur, len);
      if d[cur - delta + len] < d[cur + len] {
        son[ptr1] := curMatch;
        ptr1 := pair + 1;
        curMatch := son[ptr1];
        len1 := len;
        u, o := u.right, Open(son[..], ptr0, ptr1);
      } else {
        son[ptr0] := curMatch;
        ptr0 := pair;
        curMatch := son[ptr0];
        len0 := len;
        u, o := u.left, Open(son[..], ptr0, ptr1);
      }
    }
  }
}
