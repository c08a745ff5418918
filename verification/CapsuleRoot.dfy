/** The root Union of a variable, as far as the dictionary is concerned. */
module CapsuleRoot {
  import opened CapsuleNumber
  import opened CapsuleStore

  class RootUnion {
    const tokens: seq<string>
    const HashValue: array<nat>
    const UniquePos: array<nat>
    var dictionary: map<nat, int>
    var posDictionary: map<nat, nat>
    var dicMax: nat
    var patCount: nat
    var nowFormat: seq<string>
    var nowPaddingSize: seq<nat>
    var nowCounter: seq<nat>
    /** The positions of each group of entries. */
    ghost var groups: seq<seq<nat>>
    ghost var order: seq<string>

    ghost function Unique(): seq<nat> { Firsts(tokens, |tokens|) }

    /** dictionary.size() < _tot * uniqueRate */
    predicate Repetitive()
      reads this
    {
      2 * |dictionary| < |tokens|
    }

    /** The first n values are hashed, and the different ones among them are in the dictionary. */
    ghost predicate Collected(n: nat, nowIdx: nat)
      reads this`dictionary, this`posDictionary, HashValue, UniquePos
    {
      && n <= |tokens| && HashValue.Length == UniquePos.Length == |tokens| && nowIdx <= n
      && (forall i :: 0 <= i < n ==> HashValue[i] == StringHash(tokens[i]))
      && UniquePos[..nowIdx] == Firsts(tokens, n) && |dictionary| == nowIdx && dictionary.Keys == posDictionary.Keys
      && Covers(tokens, n, dictionary)
    }

    /** The dictionary part of the constructor; it gives up as soon as half of the values are different. */
    constructor (values: seq<string>)
      ensures fresh(HashValue) && fresh(UniquePos) && HashValue != UniquePos && tokens == values
      ensures Repetitive() <==> 2 * |Unique()| < |tokens|
      ensures Repetitive() ==> Collected(|tokens|, dicMax) && Entered(tokens, Unique(), dictionary, posDictionary)
    {
      hide StringHash, Firsts, Covers, Entered, NoCollision;
      tokens := values;
      HashValue := new nat[|values|];
      UniquePos := new nat[|values|];
      dictionary, posDictionary, groups, order := map[], map[], [], [];
      patCount, nowFormat, nowPaddingSize, nowCounter, dicMax := 0, [], [], [], 0;
      new;
      var nowIdx := 0;
      StartEmpty(tokens);
      for i := 0 to |tokens|
        invariant HashValue.Length == UniquePos.Length == |tokens| && fresh(HashValue) && fresh(UniquePos)
        invariant Repetitive() ==> Collected(i, nowIdx) && Entered(tokens, Firsts(tokens, i), dictionary, posDictionary)
        invariant !Repetitive() ==> 2 * |Firsts(tokens, i)| >= |tokens|
      {
        FirstsIs(tokens, i);
        if Repetitive() {
          nowIdx := Enter(i, nowIdx);
        }
      }
      dicMax := nowIdx;
    }

    /** One value in the constructor. */
    method Enter(i: nat, idx: nat) returns (nowIdx: nat)
      requires i < |tokens| && HashValue != UniquePos
      requires Collected(i, idx) && Entered(tokens, Firsts(tokens, i), dictionary, posDictionary)
      modifies this`dictionary, this`posDictionary, HashValue, UniquePos
      ensures Collected(i + 1, nowIdx) && Entered(tokens, Firsts(tokens, i + 1), dictionary, posDictionary)
    {
      hide StringHash, Firsts, Covers, Entered, NoCollision;
      nowIdx := idx;
      var hashValue := StringHash(tokens[i]);
      HashValue[i] := hashValue;
      SeenBefore(tokens, i, dictionary);
      FirstsIs(tokens, i);
      if hashValue !in dictionary {
        EnteredMore(tokens, Firsts(tokens, i), dictionary, posDictionary, i);
        CoversMore(tokens, i, dictionary, -1);
        UniquePos[nowIdx] := i;
        nowIdx := nowIdx + 1;
        dictionary := dictionary[hashValue := -1];
        posDictionary := posDictionary[hashValue := i];
        assert UniquePos[..nowIdx] == Firsts(tokens, i) + [i];
      } else {
        CoversSame(tokens, i, dictionary);
      }
    }

    /** What buildMapping starts from. */
    ghost predicate Ready()
      reads this`dictionary, this`posDictionary, this`dicMax, HashValue, UniquePos
    {
      && HashValue != UniquePos && NoCollision(FormatsOf(tokens, Unique()))
      && Collected(|tokens|, dicMax)
    }

    /** The format of every different value, and how often each occurs. */
    method CountFormats() returns (Formats: seq<nat>, counter: map<string, nat>)
      requires Ready()
      ensures Counted(tokens, Unique(), Formats, counter, |Unique()|)
    {
      hide StringHash, Firsts, Covers, NoCollision, Format, Counted, FormatsOf;
      Formats, counter := [], map[];
      CountNone(tokens, Unique());
      for t := 0 to dicMax
        invariant Counted(tokens, Unique(), Formats, counter, t)
      {
        var nowDicPos := UniquePos[t];
        assert nowDicPos == UniquePos[..dicMax][t];
        var format := Format(tokens[nowDicPos]);
        CountOne(tokens, Unique(), Formats, counter, t);
        Formats := Formats + [StringHash(format)];
        counter := counter[format := if format in counter then counter[format] + 1 else 1];
      }
    }

    /** The entries of one format. */
    method NumberFormat(Formats: seq<nat>, f: string, firstEntry: nat, ghost before: seq<string>)
      returns (dicEntry: nat, padding: nat)
      requires Ready() && f !in before && f in FormatsOf(tokens, Unique())
      requires Hashed(FormatsOf(tokens, Unique()), Formats)
      requires var listing := Flat(Grouped(Unique(), FormatsOf(tokens, Unique()), before));
               Numbered(tokens, Unique(), dictionary, listing) && firstEntry == |listing|
      modifies this`dictionary
      ensures Numbered(tokens, Unique(), dictionary, Flat(Grouped(Unique(), FormatsOf(tokens, Unique()), before + [f])))
      ensures dicEntry == |Flat(Grouped(Unique(), FormatsOf(tokens, Unique()), before + [f]))|
      ensures padding == MaxLen(tokens, Having(Unique(), FormatsOf(tokens, Unique()), f))
      ensures Collected(|tokens|, dicMax)
    {
      hide StringHash, Firsts, Covers, NoCollision, FormatsOf, Grouped, Having, Flat, MaxLen, Numbered, Hashed,
           Different;
      FirstsDiffer(tokens, |tokens|);
      ghost var ps, fs := Unique(), FormatsOf(tokens, Unique());
      ghost var done := Flat(Grouped(ps, fs, before));
      var nowHash := StringHash(f);
      dicEntry, padding := firstEntry, 0;
      HavingNone(ps, fs, f, tokens);
      assert done + [] == done;
      for t := 0 to dicMax
        invariant Numbered(tokens, ps, dictionary, done + Having(ps[..t], fs, f))
        invariant dicEntry == |done + Having(ps[..t], fs, f)| && padding == MaxLen(tokens, Having(ps[..t], fs, f))
        invariant Collected(|tokens|, dicMax)
      {
        var nowUniquePos := UniquePos[t];
        assert nowUniquePos == UniquePos[..dicMax][t] == ps[t];
        SameFormat(fs, Formats, f, t);
        HavingStep(tokens, ps, fs, before, f, t, dictionary);
        if Formats[t] == nowHash {
          CoversAgain(tokens, dictionary, ps[t], dicEntry);
          dictionary := dictionary[HashValue[nowUniquePos] := dicEntry];
          dicEntry := dicEntry + 1;
          padding := if padding >= |tokens[nowUniquePos]| then padding else |tokens[nowUniquePos]|;
        }
      }
      assert ps[..|ps|] == ps;
      GroupedMore(ps, fs, before, f);
    }

    /** The entries of all formats that were not selected. */
    method NumberRest(firstEntry: nat, ghost before: seq<string>)
      returns (dicEntry: nat, padding: nat, count: nat, types: nat)
      requires Ready()
      requires var listing := Flat(Grouped(Unique(), FormatsOf(tokens, Unique()), before));
               Numbered(tokens, Unique(), dictionary, listing) && firstEntry == |listing|
      modifies this`dictionary
      ensures var rest := Lacking(Unique(), FormatsOf(tokens, Unique()), before);
              Numbered(tokens, Unique(), dictionary, Flat(Grouped(Unique(), FormatsOf(tokens, Unique()), before))
                  + rest)
              && padding == MaxLen(tokens, rest) && count == |rest|
      ensures Collected(|tokens|, dicMax)
    {
      hide StringHash, Firsts, Covers, NoCollision, FormatsOf, Grouped, Lacking, Flat, MaxLen, Numbered, Different;
      FirstsDiffer(tokens, |tokens|);
      ghost var ps, fs := Unique(), FormatsOf(tokens, Unique());
      ghost var done := Flat(Grouped(ps, fs, before));
      dicEntry, padding, count, types := firstEntry, 0, 0, 0;
      LackingNone(ps, fs, before, tokens);
      assert done + [] == done;
      for t := 0 to dicMax
        invariant Numbered(tokens, ps, dictionary, done + Lacking(ps[..t], fs, before))
        invariant dicEntry == |done + Lacking(ps[..t], fs, before)| && count == |Lacking(ps[..t], fs, before)|
        invariant padding == MaxLen(tokens, Lacking(ps[..t], fs, before)) && Collected(|tokens|, dicMax)
      {
        var nowUniquePos := UniquePos[t];
        assert nowUniquePos == UniquePos[..dicMax][t] == ps[t];
        LackingStep(tokens, ps, fs, before, t, dictionary);
        if dictionary[HashValue[nowUniquePos]] == -1 {
          types := TypesWith(types, tokens[nowUniquePos]);
          count := count + 1;
          padding := if padding >= |tokens[nowUniquePos]| then padding else |tokens[nowUniquePos]|;
          CoversAgain(tokens, dictionary, ps[t], dicEntry);
          dictionary := dictionary[HashValue[nowUniquePos] := dicEntry];
          dicEntry := dicEntry + 1;
        }
      }
      assert ps[..|ps|] == ps;
    }

    /** After buildMapping: every different value has a number, group by group. */
    ghost predicate Mapped()
      reads this, HashValue, UniquePos
    {
      && Ready() && patCount == |nowFormat| == |groups| && Named(nowFormat, order)
      && InGroups(tokens, Unique(), dictionary, order, groups, nowCounter, nowPaddingSize)
    }

    /** The selected formats, one after the other. */
    method NumberFormats(Formats: seq<nat>, sorted: seq<string>, counter: map<string, nat>, selectPat: nat)
      returns (dicEntry: nat)
      requires Ready() && Entered(tokens, Unique(), dictionary, posDictionary) && selectPat <= |sorted|
      requires var fs := FormatsOf(tokens, Unique());
               ByFrequency(Unique(), fs, sorted) && Hashed(fs, Formats)
               && forall f :: f in sorted ==> f in counter && counter[f] == |Having(Unique(), fs, f)|
      modifies this`dictionary, this`nowFormat, this`nowPaddingSize, this`nowCounter
      ensures Ready() && nowFormat == sorted[..selectPat]
      ensures var g := Grouped(Unique(), FormatsOf(tokens, Unique()), sorted[..selectPat]);
              Numbered(tokens, Unique(), dictionary, Flat(g)) && dicEntry == |Flat(g)|
              && Sized(tokens, g, nowCounter, nowPaddingSize)
    {
      hide StringHash, Firsts, Covers, NoCollision, FormatsOf, Grouped, Having, Flat, MaxLen, Numbered, Entered,
           Hashed, ByFrequency, Sized, Format;
      ghost var ps, fs := Unique(), FormatsOf(tokens, Unique());
      StartNumbers(tokens, ps, fs, dictionary, posDictionary, sorted);
      nowFormat, nowPaddingSize, nowCounter := [], [], [];
      dicEntry := 0;
      for i := 0 to selectPat
        invariant Ready() && nowFormat == sorted[..i]
        invariant Numbered(tokens, ps, dictionary, Flat(Grouped(ps, fs, sorted[..i])))
                  && dicEntry == |Flat(Grouped(ps, fs, sorted[..i]))|
        invariant Sized(tokens, Grouped(ps, fs, sorted[..i]), nowCounter, nowPaddingSize)
      {
        Selected(ps, fs, sorted, counter, i);
        GroupedMore(ps, fs, sorted[..i], sorted[i]);
        SizedMore(tokens, Grouped(ps, fs, sorted[..i]), nowCounter, nowPaddingSize, Having(ps, fs, sorted[i]));
        nowFormat := nowFormat + [sorted[i]];
        nowCounter := nowCounter + [counter[sorted[i]]];
        var padding;
        dicEntry, padding := NumberFormat(Formats, sorted[i], dicEntry, sorted[..i]);
        nowPaddingSize := nowPaddingSize + [padding];
        assert sorted[..i + 1] == sorted[..i] + [sorted[i]];
      }
    }

    /** buildMapping. */
    method BuildMapping()
      requires Ready() && Entered(tokens, Unique(), dictionary, posDictionary)
      modifies this`dictionary, this`patCount, this`nowFormat,
               this`nowPaddingSize, this`nowCounter, this`groups, this`order
      ensures Mapped()
    {
      hide StringHash, Firsts, Covers, NoCollision, FormatsOf, Grouped, Groups, Having, Lacking, Flat, MaxLen,
           Numbered, Entered, Hashed, Counted, Sorted, ByFrequency, Sized, Format, Listed, InGroups, Collected;
      ghost var ps, fs := Unique(), FormatsOf(tokens, Unique());
      var Formats, counter := CountFormats();
      var sorted := SortFormats(counter);
      CountedAll(tokens, ps, Formats, counter, sorted);
      patCount := if |sorted| < MAX_DIC_PAT then |sorted| else MAX_DIC_PAT;
      var selectPat := if patCount == MAX_DIC_PAT then patCount - 1 else patCount;
      var dicEntry := NumberFormats(Formats, sorted, counter, selectPat);
      order, groups := sorted, Groups(ps, fs, sorted);
      if patCount != MAX_DIC_PAT {
        FewGroups(tokens, ps, dictionary, sorted, nowCounter, nowPaddingSize);
        return;
      }
      var padding, count, types;
      dicEntry, padding, count, types := NumberRest(dicEntry, sorted[..selectPat]);
      ManyGroups(tokens, ps, dictionary, sorted, nowCounter, nowPaddingSize);
      nowPaddingSize := nowPaddingSize + [padding];
      nowCounter := nowCounter + [count];
      nowFormat := nowFormat + [Slot(types)];
    }
  }

  /** The groups are described by their formats; a fourth group only by the types of its characters. */
  ghost predicate Named(nowFormat: seq<string>, order: seq<string>) {
    if |order| < MAX_DIC_PAT then nowFormat == order
    else exists types: nat :: nowFormat == order[..MAX_DIC_PAT - 1] + [Slot(types)]
  }

  /** Giving a known value a number changes no key. */
  lemma CoversAgain(tokens: seq<string>, dictionary: map<nat, int>, p: nat, v: int)
    requires Covers(tokens, |tokens|, dictionary) && p < |tokens|
    ensures var d := dictionary[StringHash(tokens[p]) := v];
            Covers(tokens, |tokens|, d) && d.Keys == dictionary.Keys && |d| == |dictionary|
  {
    hide StringHash;
    var d := dictionary[StringHash(tokens[p]) := v];
    assert d.Keys == dictionary.Keys;
    assert |d| == |d.Keys| && |dictionary| == |dictionary.Keys|;
  }

  /** The formats that occur, each once, the most frequent first. */
  ghost predicate ByFrequency(ps: seq<nat>, fs: seq<string>, order: seq<string>) {
    && |ps| == |fs| && (forall f :: f in order <==> f in fs)
    && (forall i, j :: 0 <= i < j < |order| ==> order[i] != order[j])
    && (forall i, j :: 0 <= i < j < |order| ==> |Having(ps, fs, order[i])| >= |Having(ps, fs, order[j])|)
  }

  lemma CountedAll(tokens: seq<string>, ps: seq<nat>, Formats: seq<nat>, counter: map<string, nat>, order: seq<string>)
    requires Counted(tokens, ps, Formats, counter, |ps|) && Sorted(order, counter) && NoCollision(FormatsOf(tokens, ps))
    ensures var fs := FormatsOf(tokens, ps);
            ByFrequency(ps, fs, order) && Hashed(fs, Formats) && forall f :: f in order ==>
                f in counter && counter[f] == |Having(ps, fs, f)|
  {
    hide StringHash, Having, FormatsOf;
    var fs := FormatsOf(tokens, ps);
    assert fs[..|ps|] == fs && ps[..|ps|] == ps;
  }

  lemma InOrder(ps: seq<nat>, fs: seq<string>, order: seq<string>)
    requires ByFrequency(ps, fs, order)
    ensures |ps| == |fs| && forall k :: 0 <= k < |ps| ==> fs[k] in order
  {
    hide Having;
  }

  lemma Selected(ps: seq<nat>, fs: seq<string>, order: seq<string>, counter: map<string, nat>, i: nat)
    requires ByFrequency(ps, fs, order) && i < |order|
    ensures order[i] in fs && order[i] in order && order[i] !in order[..i]
  {
    hide Having;
  }

  /** The groups are those of buildMapping, their sizes are known, and the numbers go through them in order. */
  ghost predicate InGroups(tokens: seq<string>, ps: seq<nat>,
                           dictionary: map<nat, int>, order: seq<string>, groups: seq<seq<nat>>,
                           counters: seq<nat>, paddings: seq<nat>) {
    var fs := FormatsOf(tokens, ps);
    && ByFrequency(ps, fs, order) && groups == Groups(ps, fs, order) && Sized(tokens, groups, counters, paddings)
    && Numbered(tokens, ps, dictionary, Flat(groups)) && Listed(ps, Flat(groups))
  }

  lemma FewGroups(tokens: seq<string>, ps: seq<nat>, dictionary: map<nat, int>,
                  order: seq<string>, counters: seq<nat>, paddings: seq<nat>)
    requires ByFrequency(ps, FormatsOf(tokens, ps), order) && |order| < MAX_DIC_PAT
    requires var g := Grouped(ps, FormatsOf(tokens, ps), order[..|order|]);
             Sized(tokens, g, counters, paddings) && Numbered(tokens, ps, dictionary, Flat(g))
    ensures InGroups(tokens, ps, dictionary, order, Groups(ps, FormatsOf(tokens, ps), order), counters, paddings)
  {
    hide ByFrequency, Grouped, Groups, Sized, Numbered, Flat, Listed, FormatsOf;
    var fs := FormatsOf(tokens, ps);
    assert order[..|order|] == order;
    InOrder(ps, fs, order);
    AllListed(ps, fs, order);
    GroupsAre(ps, fs, order);
  }

  lemma ManyGroups(tokens: seq<string>, ps: seq<nat>, dictionary: map<nat, int>, order: seq<string>,
                   counters: seq<nat>, paddings: seq<nat>)
    requires ByFrequency(ps, FormatsOf(tokens, ps), order) && |order| >= MAX_DIC_PAT
    requires var fs, first := FormatsOf(tokens, ps), order[..MAX_DIC_PAT - 1];
             var g, rest := Grouped(ps, fs, first), Lacking(ps, fs, first);
             Sized(tokens, g, counters, paddings) && Numbered(tokens, ps, dictionary, Flat(g) + rest)
    ensures var rest := Lacking(ps, FormatsOf(tokens, ps), order[..MAX_DIC_PAT - 1]);
            InGroups(tokens, ps, dictionary, order, Groups(ps, FormatsOf(tokens, ps), order), counters + [|rest|],
                paddings + [MaxLen(tokens, rest)])
  {
    hide ByFrequency, Grouped, Groups, Lacking, Sized, Numbered, Flat, Listed, FormatsOf, MaxLen;
    var fs, first := FormatsOf(tokens, ps), order[..MAX_DIC_PAT - 1];
    var g, rest := Grouped(ps, fs, first), Lacking(ps, fs, first);
    InOrder(ps, fs, order);
    AllListed(ps, fs, order);
    GroupsAre(ps, fs, order);
    FlatAppend(g, rest);
    SizedMore(tokens, g, counters, paddings, rest);
  }

  /** How many entries each group has and how wide they are. */
  ghost predicate Sized(tokens: seq<string>, groups: seq<seq<nat>>, counters: seq<nat>, paddings: seq<nat>) {
    && |counters| == |paddings| == |groups|
    && forall i :: 0 <= i < |groups| ==> counters[i] == |groups[i]| && paddings[i] == MaxLen(tokens, groups[i])
  }

  lemma SizedMore(tokens: seq<string>, groups: seq<seq<nat>>, counters: seq<nat>, paddings: seq<nat>, g: seq<nat>)
    requires Sized(tokens, groups, counters, paddings)
    ensures Sized(tokens, groups + [g], counters + [|g|], paddings + [MaxLen(tokens, g)])
  {
    hide MaxLen;
  }

  lemma StartNumbers(tokens: seq<string>, ps: seq<nat>, fs: seq<string>, dictionary: map<nat, int>,
                     posDictionary: map<nat, nat>, order: seq<string>)
    requires Entered(tokens, ps, dictionary, posDictionary) && |ps| == |fs|
    ensures Grouped(ps, fs, order[..0]) == [] && Flat([]) == [] && Numbered(tokens, ps, dictionary, [])
    ensures Sized(tokens, [], [], [])
  {
    hide StringHash;
  }

  lemma GroupsAre(ps: seq<nat>, fs: seq<string>, order: seq<string>)
    requires |ps| == |fs|
    ensures |order| < MAX_DIC_PAT ==> Groups(ps, fs, order) == Grouped(ps, fs, order)
    ensures |order| >= MAX_DIC_PAT ==>
            Groups(ps, fs, order) == Grouped(ps, fs, order[..MAX_DIC_PAT - 1])
            + [Lacking(ps, fs, order[..MAX_DIC_PAT - 1])]
  {}

  ghost predicate Hashed(fs: seq<string>, Formats: seq<nat>) {
    |Formats| == |fs| && NoCollision(fs) && forall k :: 0 <= k < |fs| ==> Formats[k] == StringHash(fs[k])
  }

  lemma SameFormat(fs: seq<string>, Formats: seq<nat>, f: string, t: nat)
    requires Hashed(fs, Formats) && t < |fs| && f in fs
    ensures t < |Formats| && (Formats[t] == StringHash(f) <==> fs[t] == f)
  {
    hide StringHash;
    var k :| 0 <= k < |fs| && fs[k] == f;
  }

  lemma HavingNone(ps: seq<nat>, fs: seq<string>, f: string, tokens: seq<string>)
    requires |ps| <= |fs|
    ensures Having(ps[..0], fs, f) == [] && MaxLen(tokens, []) == 0
  {}

  lemma HavingMore(ps: seq<nat>, fs: seq<string>, f: string, t: nat)
    requires t < |ps| <= |fs|
    ensures Having(ps[..t + 1], fs, f) == if fs[t] == f then Having(ps[..t], fs, f) + [ps[t]]
            else Having(ps[..t], fs, f)
  {
    assert ps[..t + 1][..t] == ps[..t];
  }

  /** The next value of the format f gets the next number. */
  lemma HavingStep(tokens: seq<string>, ps: seq<nat>, fs: seq<string>, before: seq<string>, f: string, t: nat,
                   dictionary: map<nat, int>)
    requires Different(tokens, ps) && t < |ps| <= |fs| && f !in before
    requires Numbered(tokens, ps, dictionary, Flat(Grouped(ps, fs, before)) + Having(ps[..t], fs, f))
    ensures ps[t] < |tokens|
    ensures var done, now := Flat(Grouped(ps, fs, before)), Having(ps[..t], fs, f);
            var more := Having(ps[..t + 1], fs, f);
            if fs[t] != f then more == now else
            more == now + [ps[t]] && Numbered(tokens, ps,
                dictionary[StringHash(tokens[ps[t]]) := |done + now|], done + more)
            && MaxLen(tokens, more) == if MaxLen(tokens, now) >= |tokens[ps[t]]| then MaxLen(tokens, now)
                else |tokens[ps[t]]|
  {
    hide StringHash, NoCollision, Grouped, Having, Flat, MaxLen, Numbered;
    var done, now := Flat(Grouped(ps, fs, before)), Having(ps[..t], fs, f);
    HavingMore(ps, fs, f, t);
    if fs[t] == f {
      NotYet(tokens, ps, fs, before, f, t);
      NumberOne(tokens, ps, dictionary, done + now, ps[t]);
      MaxLenAppend(tokens, now, ps[t]);
      assert (done + now) + [ps[t]] == done + (now + [ps[t]]);
    }
  }

  /** The next value that is not listed gets the next number. */
  lemma LackingStep(tokens: seq<string>, ps: seq<nat>, fs: seq<string>, before: seq<string>, t: nat,
                    dictionary: map<nat, int>)
    requires Different(tokens, ps) && t < |ps| <= |fs|
    requires Numbered(tokens, ps, dictionary, Flat(Grouped(ps, fs, before)) + Lacking(ps[..t], fs, before))
    ensures ps[t] < |tokens| && StringHash(tokens[ps[t]]) in dictionary
    ensures var done, now := Flat(Grouped(ps, fs, before)), Lacking(ps[..t], fs, before);
            var more := Lacking(ps[..t + 1], fs, before);
            if dictionary[StringHash(tokens[ps[t]])] != -1 then more == now else
            more == now + [ps[t]] && Numbered(tokens, ps,
                dictionary[StringHash(tokens[ps[t]]) := |done + now|], done + more)
            && MaxLen(tokens, more) == if MaxLen(tokens, now) >= |tokens[ps[t]]| then MaxLen(tokens, now)
                else |tokens[ps[t]]|
  {
    hide StringHash, NoCollision, Grouped, Lacking, Flat, MaxLen, Numbered;
    var done, now := Flat(Grouped(ps, fs, before)), Lacking(ps[..t], fs, before);
    LackingMore(ps, fs, before, t);
    RestYet(tokens, ps, fs, before, t);
    Unlisted(tokens, ps, dictionary, done + now, t);
    if fs[t] !in before {
      NumberOne(tokens, ps, dictionary, done + now, ps[t]);
      MaxLenAppend(tokens, now, ps[t]);
      assert (done + now) + [ps[t]] == done + (now + [ps[t]]);
    }
  }

  lemma GroupedMore(ps: seq<nat>, fs: seq<string>, before: seq<string>, f: string)
    requires |ps| <= |fs|
    ensures Grouped(ps, fs, before + [f]) == Grouped(ps, fs, before) + [Having(ps, fs, f)]
    ensures Flat(Grouped(ps, fs, before + [f])) == Flat(Grouped(ps, fs, before)) + Having(ps, fs, f)
  {
    assert (before + [f])[..|before|] == before;
    FlatAppend(Grouped(ps, fs, before), Having(ps, fs, f));
  }

  lemma LackingNone(ps: seq<nat>, fs: seq<string>, before: seq<string>, tokens: seq<string>)
    requires |ps| <= |fs|
    ensures Lacking(ps[..0], fs, before) == [] && MaxLen(tokens, []) == 0
  {}

  lemma LackingMore(ps: seq<nat>, fs: seq<string>, before: seq<string>, t: nat)
    requires t < |ps| <= |fs|
    ensures Lacking(ps[..t + 1], fs, before) == if fs[t] in before then Lacking(ps[..t], fs, before)
            else Lacking(ps[..t], fs, before) + [ps[t]]
  {
    assert ps[..t + 1][..t] == ps[..t];
  }

  /** -1 in the dictionary means not listed. */
  lemma Unlisted(tokens: seq<string>, ps: seq<nat>, dictionary: map<nat, int>, listing: seq<nat>, t: nat)
    requires Numbered(tokens, ps, dictionary, listing) && t < |ps|
    ensures ps[t] < |tokens| && StringHash(tokens[ps[t]]) in dictionary
    ensures dictionary[StringHash(tokens[ps[t]])] == -1 <==> ps[t] !in listing
  {
    hide StringHash;
  }

  /** getType, joined to the types so far. */
  function TypesWith(types: nat, t: string): nat {
    if t == "" then types else AddType(TypesWith(types, t[..|t| - 1]), CharType(t[|t| - 1]))
  }

  /** The first t formats are counted. */
  ghost predicate Counted(tokens: seq<string>, ps: seq<nat>, Formats: seq<nat>, counter: map<string, nat>, t: nat) {
    var fs := FormatsOf(tokens, ps);
    && t <= |ps| && |Formats| == t && (forall k :: 0 <= k < t ==> Formats[k] == StringHash(fs[k]))
    && (forall f :: f in counter <==> f in fs[..t])
    && (forall f :: f in counter ==> counter[f] == |Having(ps[..t], fs, f)|)
  }

  lemma CountNone(tokens: seq<string>, ps: seq<nat>)
    ensures Counted(tokens, ps, [], map[], 0)
  {}

  lemma CountOne(tokens: seq<string>, ps: seq<nat>, Formats: seq<nat>, counter: map<string, nat>, t: nat)
    requires t < |ps| && Counted(tokens, ps, Formats, counter, t)
    ensures var f := Format(At(tokens, ps[t]));
            Counted(tokens, ps, Formats + [StringHash(f)],
                counter[f := if f in counter then counter[f] + 1 else 1], t + 1)
  {
    hide StringHash, Format, Having, FormatsOf, At;
    var fs, f := FormatsOf(tokens, ps), Format(At(tokens, ps[t]));
    var c := counter[f := if f in counter then counter[f] + 1 else 1];
    assert fs[..t + 1] == fs[..t] + [f];
    forall g | g in c ensures c[g] == |Having(ps[..t + 1], fs, g)| {
      CountKept(ps, fs, counter, t, g);
    }
  }

  lemma CountKept(ps: seq<nat>, fs: seq<string>, counter: map<string, nat>, t: nat, g: string)
    requires t < |ps| <= |fs| && (g == fs[t] || g in counter)
    requires (g in counter <==> g in fs[..t]) && (g in counter ==> counter[g] == |Having(ps[..t], fs, g)|)
    ensures |Having(ps[..t + 1], fs, g)| == (if g in counter then counter[g] else 0) + if g == fs[t] then 1 else 0
  {
    hide Having;
    HavingMore(ps, fs, g, t);
    if g !in counter { HavingAbsent(ps[..t], fs, g); }
  }

  lemma {:induction false} HavingAbsent(ps: seq<nat>, fs: seq<string>, f: string)
    requires |ps| <= |fs| && f !in fs[..|ps|]
    ensures Having(ps, fs, f) == []
  {
    if ps != [] {
      var n := |ps| - 1;
      assert fs[..|ps|][n] == fs[n];
      assert fs[..n] == fs[..|ps|][..n];
      HavingAbsent(ps[..n], fs, f);
    }
  }

  lemma StartEmpty(tokens: seq<string>)
    ensures Firsts(tokens, 0) == [] && Covers(tokens, 0, map[]) && Entered(tokens, [], map[], map[])
  {}

  lemma FirstsIs(tokens: seq<string>, n: nat)
    requires n < |tokens|
    ensures Firsts(tokens, n + 1) == Firsts(tokens, n) + if Known(tokens, n) then [] else [n]
  {}
}
