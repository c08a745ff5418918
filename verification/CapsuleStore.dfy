/** Building and writing the dictionary of a variable: the constructor and buildMapping of Union in
    compression/union.cpp, serializeEntry and serializeDic in compression/Encoder.cpp. */
module CapsuleStore {
  import opened Capsule
  import opened CapsuleNumber

  /** getFormat: runs of letters and digits are replaced by the types of characters they contain. */
  function Format(t: string): string {
    if t == " " then "<-1> " else
    var r := FormatFrom(t, |t|);
    r.0 + (if r.1 != 0 then Slot(r.1) else "")
  }

  function FormatFrom(t: string, n: nat): (string, nat)
    requires n <= |t|
  {
    if n == 0 then ("", 0) else
    var r := FormatFrom(t, n - 1);
    if CharType(t[n - 1]) == 32 then (r.0 + (if r.1 != 0 then Slot(r.1) else "") + [t[n - 1]], 0)
    else (r.0, AddType(r.1, CharType(t[n - 1])))
  }

  /** A bitwise or with a single bit. */
  function AddType(types: nat, bit: nat): nat {
    if bit == 0 || types / bit % 2 == 1 then types else types + bit
  }

  function Slot(types: nat): string { "<V," + Decimal(types) + ">" }

  function FormatsOf(tokens: seq<string>, ps: seq<nat>): (r: seq<string>)
    ensures |r| == |ps| && forall k :: 0 <= k < |ps| ==> r[k] == Format(At(tokens, ps[k]))
  {
    if ps == [] then [] else FormatsOf(tokens, ps[..|ps| - 1]) + [Format(At(tokens, ps[|ps| - 1]))]
  }

  /** The value at a position. */
  function At(tokens: seq<string>, p: nat): string {
    if p < |tokens| then tokens[p] else ""
  }

  function MaxLen(tokens: seq<string>, ps: seq<nat>): (m: nat)
    ensures forall k :: 0 <= k < |ps| ==> |At(tokens, ps[k])| <= m
  {
    if ps == [] then 0 else
    var n := |ps| - 1;
    var m, l := MaxLen(tokens, ps[..n]), |At(tokens, ps[n])|;
    if m >= l then m else l
  }

  lemma MaxLenAppend(tokens: seq<string>, ps: seq<nat>, p: nat)
    ensures MaxLen(tokens, ps + [p]) == if MaxLen(tokens, ps) >= |At(tokens, p)| then MaxLen(tokens, ps)
            else |At(tokens, p)|
  {
    assert (ps + [p])[..|ps|] == ps;
  }

  /** The positions ps are known under the hashes of their values, without numbers. */
  ghost predicate Entered(tokens: seq<string>, ps: seq<nat>, dictionary: map<nat, int>, posDictionary: map<nat, nat>) {
    forall k :: 0 <= k < |ps| ==>
      ps[k] < |tokens| && Unnumbered(StringHash(tokens[ps[k]]), ps[k], dictionary, posDictionary)
  }

  ghost predicate Unnumbered(h: nat, p: nat, dictionary: map<nat, int>, posDictionary: map<nat, nat>) {
    h in dictionary && h in posDictionary && dictionary[h] == -1 && posDictionary[h] == p
  }

  /** Exactly the hashes of the first n values are in the dictionary. */
  ghost predicate Covers(tokens: seq<string>, n: nat, dictionary: map<nat, int>) {
    && n <= |tokens|
    && (forall i :: 0 <= i < n ==> StringHash(tokens[i]) in dictionary)
    && (forall h :: h in dictionary ==> exists i :: 0 <= i < n && h == StringHash(tokens[i]))
  }

  lemma EnteredMore(tokens: seq<string>, ps: seq<nat>, dictionary: map<nat, int>, posDictionary: map<nat, nat>, p: nat)
    requires Entered(tokens, ps, dictionary, posDictionary) && p < |tokens| && StringHash(tokens[p]) !in dictionary
    ensures Entered(tokens, ps + [p], dictionary[StringHash(tokens[p]) := -1],
            posDictionary[StringHash(tokens[p]) := p])
  {
    hide StringHash;
  }

  lemma CoversSame(tokens: seq<string>, n: nat, dictionary: map<nat, int>)
    requires Covers(tokens, n, dictionary) && n < |tokens| && StringHash(tokens[n]) in dictionary
    ensures Covers(tokens, n + 1, dictionary)
  {
    hide StringHash;
  }

  lemma CoversMore(tokens: seq<string>, n: nat, dictionary: map<nat, int>, v: int)
    requires Covers(tokens, n, dictionary) && n < |tokens|
    ensures Covers(tokens, n + 1, dictionary[StringHash(tokens[n]) := v])
  {
    hide StringHash;
    var d := dictionary[StringHash(tokens[n]) := v];
    forall h | h in d ensures exists i :: 0 <= i < n + 1 && h == StringHash(tokens[i]) {
      if h !in dictionary { assert h == StringHash(tokens[n]); }
    }
  }

  /** The dictionary tells whether the hash occurred before. */
  lemma SeenBefore(tokens: seq<string>, n: nat, dictionary: map<nat, int>)
    requires n < |tokens| && Covers(tokens, n, dictionary)
    ensures StringHash(tokens[n]) in dictionary <==> Known(tokens, n)
  {
    hide StringHash;
  }

  /** formatCmp: the most frequent first. */
  ghost predicate Sorted(order: seq<string>, counter: map<string, nat>) {
    && (forall f :: f in order <==> f in counter)
    && (forall i, j :: 0 <= i < j < |order| ==> order[i] != order[j])
    && (forall i, j :: 0 <= i < j < |order| ==> counter[order[i]] >= counter[order[j]])
  }

  /** Sorted so far, with nothing more frequent left. */
  ghost predicate Sorting(order: seq<string>, counter: map<string, nat>, left: set<string>) {
    && left <= counter.Keys && (forall f :: f in counter <==> f in order || f in left)
    && (forall f :: f in order ==> f !in left)
    && (forall i, j :: 0 <= i < j < |order| ==> order[i] != order[j])
    && (forall i, j :: 0 <= i < j < |order| ==> counter[order[i]] >= counter[order[j]])
    && (forall i, f :: 0 <= i < |order| && f in left ==> counter[order[i]] >= counter[f])
  }

  lemma SortingMore(order: seq<string>, counter: map<string, nat>, left: set<string>, f: string)
    requires Sorting(order, counter, left) && f in left && forall g :: g in left ==> counter[f] >= counter[g]
    ensures Sorting(order + [f], counter, left - {f})
  {}

  method MostFrequent(left: set<string>, counter: map<string, nat>) returns (f: string)
    requires left != {} && left <= counter.Keys
    ensures f in left && forall g :: g in left ==> counter[f] >= counter[g]
  {
    f :| f in left;
    var rest := left - {f};
    while rest != {}
      invariant rest <= left && f in left && forall g :: g in left && g !in rest ==> counter[f] >= counter[g]
      decreases |rest|
    {
      var g :| g in rest;
      rest := rest - {g};
      if counter[g] > counter[f] { f := g; }
    }
  }

  /** sort(..., formatCmp); equal counts in any order. */
  method SortFormats(counter: map<string, nat>) returns (order: seq<string>)
    ensures Sorted(order, counter)
  {
    order := [];
    var left := counter.Keys;
    while left != {}
      invariant Sorting(order, counter, left)
      decreases |left|
    {
      var f := MostFrequent(left, counter);
      SortingMore(order, counter, left, f);
      order := order + [f];
      left := left - {f};
    }
  }
}
