/** Which values of a variable get a dictionary entry, and in which order: Union::buildMapping in
    compression/union.cpp. */
module CapsuleNumber {
  const MAX_DIC_PAT: nat := 4

  function CharValue(c: char): int { if c as int < 128 then c as int else c as int - 256 }

  /** _stringHash_, on 32-bit unsigned numbers. */
  function StringHash(s: string): (h: nat)
    ensures h < 0x8000_0000
  {
    RawHash(s) % 0x8000_0000
  }

  function RawHash(s: string): (h: nat) {
    if s == "" then 0 else (RawHash(s[..|s| - 1]) * 131 + CharValue(s[|s| - 1])) % 0x1_0000_0000
  }

  ghost predicate NoCollision(ss: seq<string>) {
    forall i, j :: 0 <= i < |ss| && 0 <= j < |ss| && StringHash(ss[i]) == StringHash(ss[j]) ==> ss[i] == ss[j]
  }

  function CharType(c: char): nat {
    if '0' <= c <= '9' then 1 else if 'A' <= c <= 'F' then 2 else if 'a' <= c <= 'f' then 4
    else if 'G' <= c <= 'Z' then 8 else if 'g' <= c <= 'z' then 16 else 32
  }

  /** A value with the hash of the value at i occurred before. */
  predicate Known(tokens: seq<string>, i: nat)
    requires i < |tokens|
  {
    exists j: nat :: j < i && StringHash(tokens[j]) == StringHash(tokens[i])
  }

  /** The first position from j on with the hash of the value at i. */
  function OriginalFrom(tokens: seq<string>, i: nat, j: nat): (r: nat)
    requires j <= i < |tokens|
    ensures j <= r <= i && StringHash(tokens[r]) == StringHash(tokens[i])
    ensures forall k: nat :: j <= k < r ==> StringHash(tokens[k]) != StringHash(tokens[i])
    decreases i - j
  {
    if StringHash(tokens[j]) == StringHash(tokens[i]) then j else OriginalFrom(tokens, i, j + 1)
  }

  /** Its value is what the dictionary keeps for i. */
  function Original(tokens: seq<string>, i: nat): (r: nat)
    requires i < |tokens|
    ensures r <= i && StringHash(tokens[r]) == StringHash(tokens[i]) && !Known(tokens, r)
  {
    hide StringHash;
    OriginalFrom(tokens, i, 0)
  }

  /** The positions below n whose hash did not occur before. */
  function Firsts(tokens: seq<string>, n: nat): (r: seq<nat>)
    requires n <= |tokens|
    ensures |r| <= n && forall k :: 0 <= k < |r| ==> r[k] < n
  {
    if n == 0 then [] else
    Firsts(tokens, n - 1) + if Known(tokens, n - 1) then [] else [n - 1]
  }

  /** No position twice, and no hash twice. */
  ghost predicate Different(tokens: seq<string>, ps: seq<nat>) {
    && (forall k :: 0 <= k < |ps| ==> ps[k] < |tokens|)
    && (forall j, k :: 0 <= j < |ps| && 0 <= k < |ps| && StringHash(tokens[ps[j]]) == StringHash(tokens[ps[k]]) ==>
        j == k)
  }

  lemma {:induction false} FirstsDiffer(tokens: seq<string>, n: nat)
    requires n <= |tokens|
    ensures Different(tokens, Firsts(tokens, n))
  {
    hide StringHash;
    if n > 0 {
      FirstsDiffer(tokens, n - 1);
      var before := Firsts(tokens, n - 1);
      forall k | 0 <= k < |before| ensures StringHash(tokens[before[k]]) == StringHash(tokens[n - 1]) ==>
          Known(tokens, n - 1) {
      }
    }
  }

  /** The position that stands for i is one of those. */
  lemma {:induction false} FirstOf(tokens: seq<string>, n: nat, i: nat) returns (k: nat)
    requires i < n <= |tokens|
    ensures k < |Firsts(tokens, n)| && Firsts(tokens, n)[k] == Original(tokens, i)
    decreases n
  {
    hide StringHash;
    if Original(tokens, i) < n - 1 {
      k := FirstOf(tokens, n - 1, Original(tokens, i));
      OriginalOnce(tokens, i);
    } else {
      k := |Firsts(tokens, n)| - 1;
    }
  }

  lemma OriginalOnce(tokens: seq<string>, i: nat)
    requires i < |tokens|
    ensures Original(tokens, Original(tokens, i)) == Original(tokens, i)
  {
    hide StringHash;
  }

  /** The positions among ps with the given format; formats[k] is the format of ps[k]. */
  function Having(ps: seq<nat>, formats: seq<string>, f: string): (r: seq<nat>)
    requires |ps| <= |formats|
  {
    if ps == [] then [] else
    var n := |ps| - 1;
    Having(ps[..n], formats, f) + if formats[n] == f then [ps[n]] else []
  }

  /** The positions among ps with none of the given formats. */
  function Lacking(ps: seq<nat>, formats: seq<string>, fs: seq<string>): (r: seq<nat>)
    requires |ps| <= |formats|
  {
    if ps == [] then [] else
    var n := |ps| - 1;
    Lacking(ps[..n], formats, fs) + if formats[n] in fs then [] else [ps[n]]
  }

  function Flat(groups: seq<seq<nat>>): seq<nat> {
    if groups == [] then [] else Flat(groups[..|groups| - 1]) + groups[|groups| - 1]
  }

  lemma FlatAppend(groups: seq<seq<nat>>, g: seq<nat>)
    ensures Flat(groups + [g]) == Flat(groups) + g
  {
    assert (groups + [g])[..|groups|] == groups;
  }

  /** Entry numbers so far: listing[k] has number k, and the values of ps not listed have -1. */
  ghost predicate Numbered(tokens: seq<string>, ps: seq<nat>, dictionary: map<nat, int>, listing: seq<nat>) {
    && (forall k :: 0 <= k < |ps| ==> ps[k] < |tokens| && StringHash(tokens[ps[k]]) in dictionary)
    && (forall k :: 0 <= k < |listing| ==> listing[k] in ps && dictionary[StringHash(tokens[listing[k]])] == k)
    && (forall p :: p in ps && p !in listing ==> dictionary[StringHash(tokens[p])] == -1)
  }

  lemma NumberOne(tokens: seq<string>, ps: seq<nat>, dictionary: map<nat, int>, listing: seq<nat>, p: nat)
    requires Different(tokens, ps) && Numbered(tokens, ps, dictionary, listing)
    requires p in ps && p !in listing
    ensures Numbered(tokens, ps, dictionary[StringHash(tokens[p]) := |listing|], listing + [p])
  {
    hide StringHash;
    var d, l := dictionary[StringHash(tokens[p]) := |listing|], listing + [p];
    forall k | 0 <= k < |l| ensures l[k] in ps && d[StringHash(tokens[l[k]])] == k {
      if k < |listing| { OtherHash(tokens, ps, p, listing[k]); }
    }
    forall q | q in ps && q !in l ensures d[StringHash(tokens[q])] == -1 {
      OtherHash(tokens, ps, p, q);
    }
  }

  lemma OtherHash(tokens: seq<string>, ps: seq<nat>, p: nat, q: nat)
    requires Different(tokens, ps) && p in ps && q in ps && p != q
    ensures p < |tokens| && q < |tokens| && StringHash(tokens[p]) != StringHash(tokens[q])
  {
    hide StringHash;
    var j :| 0 <= j < |ps| && ps[j] == p;
    var k :| 0 <= k < |ps| && ps[k] == q;
  }

  /** Where an element of Having or Lacking comes from. */
  lemma {:induction false} HavingFrom(ps: seq<nat>, formats: seq<string>, f: string, x: nat) returns (k: nat)
    requires |ps| <= |formats| && x in Having(ps, formats, f)
    ensures k < |ps| && ps[k] == x && formats[k] == f
  {
    var n := |ps| - 1;
    if formats[n] == f && ps[n] == x { k := n; } else { k := HavingFrom(ps[..n], formats, f, x); }
  }

  lemma {:induction false} HavingThere(ps: seq<nat>, formats: seq<string>, k: nat)
    requires |ps| <= |formats| && k < |ps|
    ensures ps[k] in Having(ps, formats, formats[k])
    decreases |ps|
  {
    var n := |ps| - 1;
    if k < n { HavingThere(ps[..n], formats, k); }
  }

  lemma {:induction false} LackingFrom(ps: seq<nat>, formats: seq<string>, fs: seq<string>, x: nat) returns (k: nat)
    requires |ps| <= |formats| && x in Lacking(ps, formats, fs)
    ensures k < |ps| && ps[k] == x && formats[k] !in fs
  {
    var n := |ps| - 1;
    if formats[n] !in fs && ps[n] == x { k := n; } else { k := LackingFrom(ps[..n], formats, fs, x); }
  }

  lemma {:induction false} LackingThere(ps: seq<nat>, formats: seq<string>, fs: seq<string>, k: nat)
    requires |ps| <= |formats| && k < |ps| && formats[k] !in fs
    ensures ps[k] in Lacking(ps, formats, fs)
    decreases |ps|
  {
    var n := |ps| - 1;
    if k < n { LackingThere(ps[..n], formats, fs, k); }
  }

  /** One group for each of the formats. */
  function Grouped(ps: seq<nat>, formats: seq<string>, fs: seq<string>): (r: seq<seq<nat>>)
    requires |ps| <= |formats|
    ensures |r| == |fs|
  {
    if fs == [] then [] else
    Grouped(ps, formats, fs[..|fs| - 1]) + [Having(ps, formats, fs[|fs| - 1])]
  }

  /** The groups of buildMapping: the three most frequent formats and the rest, or all of at most three formats. */
  function Groups(ps: seq<nat>, formats: seq<string>, order: seq<string>): (r: seq<seq<nat>>)
    requires |ps| <= |formats|
    ensures |r| == if |order| < MAX_DIC_PAT then |order| else MAX_DIC_PAT
  {
    if |order| < MAX_DIC_PAT then Grouped(ps, formats, order)
    else Grouped(ps, formats, order[..MAX_DIC_PAT - 1]) + [Lacking(ps, formats, order[..MAX_DIC_PAT - 1])]
  }

  lemma {:induction false} GroupedFrom(ps: seq<nat>, formats: seq<string>, fs: seq<string>, x: nat) returns (k: nat)
    requires |ps| <= |formats| && x in Flat(Grouped(ps, formats, fs))
    ensures k < |ps| && ps[k] == x && formats[k] in fs
  {
    var n := |fs| - 1;
    var before := Grouped(ps, formats, fs[..n]);
    FlatAppend(before, Having(ps, formats, fs[n]));
    if x in Flat(before) { k := GroupedFrom(ps, formats, fs[..n], x); } else { k := HavingFrom(ps, formats, fs[n], x); }
  }

  lemma {:induction false} GroupedThere(ps: seq<nat>, formats: seq<string>, fs: seq<string>, k: nat)
    requires |ps| <= |formats| && k < |ps| && formats[k] in fs
    ensures ps[k] in Flat(Grouped(ps, formats, fs))
  {
    var n := |fs| - 1;
    var before := Grouped(ps, formats, fs[..n]);
    FlatAppend(before, Having(ps, formats, fs[n]));
    if formats[k] == fs[n] { HavingThere(ps, formats, k); } else { GroupedThere(ps, formats, fs[..n], k); }
  }

  ghost predicate Listed(ps: seq<nat>, listing: seq<nat>) {
    forall k :: 0 <= k < |ps| ==> ps[k] in listing
  }

  /** Every value is listed, if every format is in the order. */
  lemma AllListed(ps: seq<nat>, formats: seq<string>, order: seq<string>)
    requires |ps| <= |formats| && forall k :: 0 <= k < |ps| ==> formats[k] in order
    ensures Listed(ps, Flat(Groups(ps, formats, order)))
  {
    var fs := if |order| < MAX_DIC_PAT then order else order[..MAX_DIC_PAT - 1];
    var before := Grouped(ps, formats, fs);
    if |order| >= MAX_DIC_PAT { FlatAppend(before, Lacking(ps, formats, fs)); }
    forall k | 0 <= k < |ps| ensures ps[k] in Flat(Groups(ps, formats, order)) {
      if formats[k] in fs { GroupedThere(ps, formats, fs, k); } else { LackingThere(ps, formats, fs, k); }
    }
  }

  /** The next of a format is not listed yet. */
  lemma NotYet(tokens: seq<string>, ps: seq<nat>, formats: seq<string>, fs: seq<string>, f: string, t: nat)
    requires Different(tokens, ps) && |ps| <= |formats| && t < |ps| && formats[t] == f && f !in fs
    ensures ps[t] !in Flat(Grouped(ps, formats, fs)) + Having(ps[..t], formats, f)
  {
    if ps[t] in Flat(Grouped(ps, formats, fs)) {
      var _ := GroupedFrom(ps, formats, fs, ps[t]);
    }
    if ps[t] in Having(ps[..t], formats, f) {
      var _ := HavingFrom(ps[..t], formats, f, ps[t]);
    }
  }

  /** In the last group: listed so far are exactly the selected formats and what of the rest was passed. */
  lemma RestYet(tokens: seq<string>, ps: seq<nat>, formats: seq<string>, fs: seq<string>, t: nat)
    requires Different(tokens, ps) && |ps| <= |formats| && t < |ps|
    ensures ps[t] in Flat(Grouped(ps, formats, fs)) + Lacking(ps[..t], formats, fs) <==> formats[t] in fs
  {
    if formats[t] in fs { GroupedThere(ps, formats, fs, t); }
    if ps[t] in Flat(Grouped(ps, formats, fs)) {
      var k := GroupedFrom(ps, formats, fs, ps[t]);
      assert k == t;
    }
    if ps[t] in Lacking(ps[..t], formats, fs) {
      var k := LackingFrom(ps[..t], formats, fs, ps[t]);
      assert ps[..t][k] == ps[k];
    }
  }
}
