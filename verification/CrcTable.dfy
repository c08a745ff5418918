/** The tables of compression/LZMA/7zCrc.c and the loops of 7zCrcOpt.c. */
module CrcTable {
  import opened Crc

  /** The number that the low byte is. */
  function Index(r: word): (i: nat)
    ensures i < 256
  {
    Low(r) as nat
  }

  lemma Back(a: word)
    ensures (a as nat) as bv32 == a
  {}

  lemma LowOfSmall(i: word)
    requires i < 256
    ensures Low(i) == i
  {}

  lemma SameIndex(r: word, i: word)
    requires i < 256
    ensures Index(r) == i as nat <==> Low(r) == i
    ensures Index(i) == i as nat && Low(i) == i
  {
    hide Low;
    LowOfSmall(i);
    Back(Low(r));
    Back(i);
  }

  /** The entry of table k for the low byte of r. */
  function At(t: seq<word>, k: nat, r: word): word {
    if 256 * k + Index(r) < |t| then t[256 * k + Index(r)] else 0
  }

  /** Table k is the effect of k + 1 zero bytes. */
  ghost predicate IsTable(t: seq<word>, n: nat) {
    |t| >= 256 * n && forall k: nat, r :: k < n ==> At(t, k, r) == Zeros(k + 1, Low(r))
  }

  ghost predicate Started(t: seq<word>, i: word) {
    |t| >= 256 && forall r :: Low(r) < i ==> At(t, 0, r) == Eight(Low(r))
  }

  lemma AtUpdate(t: seq<word>, i: nat, v: word, r: word)
    requires i < 256 <= |t|
    ensures At(t[i := v], 0, r) == if Index(r) == i then v else At(t, 0, r)
  {
    hide Index;
  }

  lemma StartedMore(t: seq<word>, i: word)
    requires i < 256 && Started(t, i)
    ensures i as nat < 256 && Started(t[i as nat := Eight(i)], i + 1)
  {
    hide Eight, Low, Index, At;
    SameIndex(i, i);
    var k := i as nat;
    var t' := t[k := Eight(i)];
    forall r | Low(r) < i + 1 ensures At(t', 0, r) == Eight(Low(r)) {
      SameIndex(r, i);
      AtUpdate(t, k, Eight(i), r);
      NextTo(Low(r), i);
    }
  }

  lemma NextTo(x: word, i: word)
    requires x < i + 1 && i < 256
    ensures x < i || x == i
  {}

  /** Entry j of a later table comes from the entry 256 before. */
  ghost predicate Follows(t: seq<word>, j: nat)
    requires 256 <= j < |t|
  {
    t[j] == X(At(t, 0, t[j - 256]), Down(t[j - 256]))
  }

  ghost predicate AllFollow(t: seq<word>, n: nat) {
    n <= |t| && forall j :: 256 <= j < n ==> Follows(t, j)
  }

  lemma StartedNone(t: seq<word>)
    requires |t| >= 256
    ensures Started(t, 0)
  {}

  lemma FollowsMore(t: seq<word>, n: nat, v: word)
    requires 256 <= n < |t| && Started(t, 256) && AllFollow(t, n)
    requires v == X(At(t, 0, t[n - 256]), Down(t[n - 256]))
    ensures Started(t[n := v], 256) && AllFollow(t[n := v], n + 1)
  {
    hide Eight, Low, X, Down, Index;
    var t' := t[n := v];
    forall r ensures At(t', 0, r) == At(t, 0, r) {}
    forall j | 256 <= j <= n ensures Follows(t', j) {
      if j < n { assert Follows(t, j); }
    }
  }

  lemma {:induction false} TableGrows(t: seq<word>, n: nat)
    requires n > 0 && |t| >= 256 * n && Started(t, 256)
    requires AllFollow(t, 256 * n)
    ensures IsTable(t, n)
  {
    hide Eight, Low, X, Down, Zeros;
    if n > 1 { TableGrows(t, n - 1); }
    forall k: nat, r | k < n ensures At(t, k, r) == Zeros(k + 1, Low(r)) {
      LowBound(r);
      LowBound(At(t, k, r));
      if k == 0 {
        ZerosOne(Low(r));
      } else if k == n - 1 {
        var before := At(t, k - 1, r);
        assert before == t[256 * k + Index(r) - 256];
        assert Follows(t, 256 * k + Index(r));
        LowBound(before);
        EightSplit(before);
        ZerosLast(k, Low(r));
      }
    }
  }

  lemma LowBound(r: word)
    ensures Low(r) < 256
  {}

  /** The entry that follows r, by one table lookup. */
  function Next(entry: word, r: word): (v: word)
    ensures v == X(entry, Down(r))
  {
    entry ^ (r >> 8)
  }

  /** CrcGenerateTable, up to the choice of the byte order. */
  method GenerateTable(table: array<word>, numTables: nat)
    requires numTables > 0 && table.Length == 256 * numTables
    modifies table
    ensures IsTable(table[..], numTables)
  {
    hide Low, X, Down, Bits, BitStep, Zeros, Started, Follows, IsTable;
    var i: word := 0;
    StartedNone(table[..]);
    while i < 256
      invariant i <= 256 && Started(table[..], i)
      decreases 256 - i
    {
      var r := i;
      var j := 0;
      while j < 8
        invariant 0 <= j <= 8 && Bits(8 - j, r) == Eight(i) && Started(table[..], i)
      {
        CodeStep(r);
        BitsIs(8 - j, r);
        r := (r >> 1) ^ (0xEDB88320 & (0 - (r & 1)));
        j := j + 1;
      }
      BitsIs(0, r);
      StartedMore(table[..], i);
      table[i as nat] := r;
      i := i + 1;
    }
    var n := 256;
    while n < 256 * numTables
      invariant 256 <= n <= 256 * numTables && Started(table[..], 256)
      invariant AllFollow(table[..], n)
    {
      var r := table[n - 256];
      var v := Next(table[Index(r)], r);
      FollowsMore(table[..], n, v);
      table[n] := v;
      n := n + 1;
    }
    TableGrows(table[..], numTables);
  }
}
