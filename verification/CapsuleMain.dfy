/** The dictionary capsule of a variable: what is written for its values, and how they are read back. */
module CapsuleMain {
  import opened Capsule
  import opened CapsuleNumber
  import opened CapsuleText
  import opened CapsuleStore
  import opened CapsuleRoot
  import opened CapsuleLine

  function Values(tokens: seq<string>, ps: seq<nat>): (r: seq<string>)
    ensures |r| == |ps| && forall k :: 0 <= k < |ps| ==> r[k] == At(tokens, ps[k])
  {
    if ps == [] then [] else Values(tokens, ps[..|ps| - 1]) + [At(tokens, ps[|ps| - 1])]
  }

  /** The groups as blocks of the dictionary file. */
  function Blocks(tokens: seq<string>, groups: seq<seq<nat>>): (r: seq<Block>)
    ensures |r| == |groups|
    ensures forall i :: 0 <= i < |groups| ==> r[i] == Block(Values(tokens, groups[i]), MaxLen(tokens, groups[i]))
  {
    if groups == [] then [] else
    var g := groups[|groups| - 1];
    Blocks(tokens, groups[..|groups| - 1]) + [Block(Values(tokens, g), MaxLen(tokens, g))]
  }

  lemma ValuesAppend(tokens: seq<string>, a: seq<nat>, b: seq<nat>)
    ensures Values(tokens, a + b) == Values(tokens, a) + Values(tokens, b)
  {}

  lemma {:induction false} ItemsOf(tokens: seq<string>, groups: seq<seq<nat>>)
    ensures Items(Blocks(tokens, groups)) == Values(tokens, Flat(groups))
  {
    hide Values, MaxLen;
    if groups != [] {
      var n := |groups| - 1;
      ItemsOf(tokens, groups[..n]);
      ValuesAppend(tokens, Flat(groups[..n]), groups[n]);
      TextAppend(Blocks(tokens, groups[..n]), Block(Values(tokens, groups[n]), MaxLen(tokens, groups[n])));
    } else {
      assert Values(tokens, []) == [];
    }
  }

  lemma BlocksFit(tokens: seq<string>, groups: seq<seq<nat>>)
    ensures forall b :: b in Blocks(tokens, groups) ==> Fits(b)
  {
    hide Values, MaxLen, Blocks;
    var bs := Blocks(tokens, groups);
    forall b | b in bs ensures Fits(b) {
      var i :| 0 <= i < |bs| && bs[i] == b;
    }
  }

  /** No group is empty. */
  lemma GroupsFull(ps: seq<nat>, fs: seq<string>, order: seq<string>)
    requires ByFrequency(ps, fs, order)
    ensures forall g :: g in Groups(ps, fs, order) ==> g != []
  {
    hide Having, Lacking;
    var first := if |order| < MAX_DIC_PAT then order else order[..MAX_DIC_PAT - 1];
    GroupedFull(ps, fs, first);
    if |order| >= MAX_DIC_PAT {
      var f := order[MAX_DIC_PAT - 1];
      assert f in order;
      var k :| 0 <= k < |fs| && fs[k] == f;
      LackingThere(ps, fs, first, k);
    }
  }

  lemma {:induction false} GroupedFull(ps: seq<nat>, fs: seq<string>, first: seq<string>)
    requires |ps| == |fs| && forall f :: f in first ==> f in fs
    ensures forall g :: g in Grouped(ps, fs, first) ==> g != []
  {
    hide Having;
    if first != [] {
      var n := |first| - 1;
      GroupedFull(ps, fs, first[..n]);
      assert first[n] in fs;
      var k :| 0 <= k < |fs| && fs[k] == first[n];
      HavingThere(ps, fs, k);
    }
  }

  /** Different numbers that are all in b are not more than b has. */
  lemma {:induction false} NotMore(a: seq<nat>, b: seq<nat>)
    requires forall i, j :: 0 <= i < j < |a| ==> a[i] != a[j]
    requires forall i :: 0 <= i < |a| ==> a[i] in b
    ensures |a| <= |b|
  {
    if a != [] {
      var n := |a| - 1;
      var k :| 0 <= k < |b| && b[k] == a[n];
      var rest := b[..k] + b[k + 1..];
      forall i | 0 <= i < n ensures a[..n][i] in rest {
        var m :| 0 <= m < |b| && b[m] == a[i];
        assert rest[if m < k then m else m - 1] == a[i];
      }
      NotMore(a[..n], rest);
    }
  }

  /** There are as many entries as different values. */
  lemma ListingSize(tokens: seq<string>, ps: seq<nat>, dictionary: map<nat, int>, listing: seq<nat>)
    requires Different(tokens, ps) && Numbered(tokens, ps, dictionary, listing) && Listed(ps, listing)
    ensures |listing| == |ps|
  {
    hide StringHash;
    forall i, j | 0 <= i < j < |listing| ensures listing[i] != listing[j] {
      assert dictionary[StringHash(tokens[listing[i]])] == i && dictionary[StringHash(tokens[listing[j]])] == j;
    }
    NotMore(listing, ps);
    NotMore(ps, listing);
  }

  /** Where the different values are. */
  ghost predicate Placed(tokens: seq<string>, ps: seq<nat>, posDictionary: map<nat, nat>) {
    forall k :: 0 <= k < |ps| ==> ps[k] < |tokens| && PlacedAt(StringHash(tokens[ps[k]]), ps[k], posDictionary)
  }

  ghost predicate PlacedAt(h: nat, p: nat, posDictionary: map<nat, nat>) {
    h in posDictionary && posDictionary[h] == p
  }

  lemma EnteredIsPlaced(tokens: seq<string>, ps: seq<nat>, dictionary: map<nat, int>, posDictionary: map<nat, nat>)
    requires Entered(tokens, ps, dictionary, posDictionary)
    ensures Placed(tokens, ps, posDictionary)
  {
    hide StringHash;
  }

  /** The hash with number k is that of listing[k], and leads to that position. */
  lemma HashOfNumber(tokens: seq<string>, dictionary: map<nat, int>,
                     posDictionary: map<nat, nat>, listing: seq<nat>, k: nat, h: nat)
    requires var ps := Firsts(tokens, |tokens|);
             Covers(tokens, |tokens|, dictionary) && Numbered(tokens, ps, dictionary, listing) && Listed(ps, listing)
             && Placed(tokens, ps, posDictionary)
    requires k < |listing| && h in dictionary && dictionary[h] == k
    ensures h in posDictionary && posDictionary[h] == listing[k] && listing[k] < |tokens|
  {
    hide StringHash, Firsts;
    var ps := Firsts(tokens, |tokens|);
    var i :| 0 <= i < |tokens| && h == StringHash(tokens[i]);
    var m := FirstOf(tokens, |tokens|, i);
    assert ps[m] in listing;
    var j :| 0 <= j < |listing| && listing[j] == ps[m];
    assert PlacedAt(StringHash(tokens[ps[m]]), ps[m], posDictionary);
  }

  lemma NumberTaken(tokens: seq<string>, ps: seq<nat>, dictionary: map<nat, int>, listing: seq<nat>, k: nat)
    requires Numbered(tokens, ps, dictionary, listing) && k < |listing|
    ensures exists h :: h in dictionary && dictionary[h] == k
  {
    hide StringHash;
    var p := listing[k];
    assert p in ps;
    assert StringHash(tokens[p]) in dictionary;
  }

  lemma NumberAt(tokens: seq<string>, ps: seq<nat>, dictionary: map<nat, int>, listing: seq<nat>, m: nat)
    requires Numbered(tokens, ps, dictionary, listing) && Listed(ps, listing) && m < |ps|
    ensures ps[m] < |tokens| && StringHash(tokens[ps[m]]) in dictionary
    ensures var n := dictionary[StringHash(tokens[ps[m]])]; 0 <= n < |listing| && listing[n] == ps[m]
  {
    hide StringHash;
    assert ps[m] in listing;
    var j :| 0 <= j < |listing| && listing[j] == ps[m];
  }

  /** The number of a value. */
  lemma NumberOf(tokens: seq<string>, dictionary: map<nat, int>, listing: seq<nat>, i: nat)
    requires var ps := Firsts(tokens, |tokens|); Numbered(tokens, ps, dictionary, listing) && Listed(ps, listing)
    requires i < |tokens|
    ensures StringHash(tokens[i]) in dictionary
    ensures var n := dictionary[StringHash(tokens[i])]; 0 <= n < |listing| && listing[n] == Original(tokens, i)
  {
    hide StringHash, Firsts, Numbered, Listed;
    var m := FirstOf(tokens, |tokens|, i);
    NumberAt(tokens, Firsts(tokens, |tokens|), dictionary, listing, m);
  }

  /** After k records: patIdx blocks and count records of the next. */
  ghost predicate Cursor(blocks: seq<Block>, k: nat, patIdx: nat, count: nat, temp: string) {
    && patIdx < |blocks| && count <= |blocks[patIdx].items| && k == |Items(blocks[..patIdx])| + count
    && temp == Text(blocks[..patIdx]) + BlockText(blocks[patIdx].items[..count], blocks[patIdx].width)
  }

  lemma CursorStart(blocks: seq<Block>)
    requires blocks != []
    ensures Cursor(blocks, 0, 0, 0, "")
  {}

  lemma CursorMoves(blocks: seq<Block>, k: nat, patIdx: nat, temp: string)
    requires patIdx < |blocks| && Cursor(blocks, k, patIdx, |blocks[patIdx].items|, temp) && k < |Items(blocks)|
    ensures patIdx + 1 < |blocks| && Cursor(blocks, k, patIdx + 1, 0, temp)
  {
    hide BlockText, Items, Text;
    var b := blocks[patIdx];
    assert b.items[..|b.items|] == b.items;
    assert blocks[..patIdx + 1] == blocks[..patIdx] + [b];
    TextAppend(blocks[..patIdx], b);
    assert blocks[..|blocks|] == blocks;
    if patIdx + 1 < |blocks| { NoRecords(blocks[patIdx + 1]); }
  }

  lemma NoRecords(b: Block)
    ensures BlockText(b.items[..0], b.width) == ""
  {}

  lemma CursorWrites(blocks: seq<Block>, k: nat, patIdx: nat, count: nat, temp: string)
    requires Cursor(blocks, k, patIdx, count, temp) && count < |blocks[patIdx].items|
    ensures k < |Items(blocks)| && Items(blocks)[k] == blocks[patIdx].items[count]
    ensures Cursor(blocks, k + 1, patIdx, count + 1, temp + Pad(Items(blocks)[k], blocks[patIdx].width))
  {
    hide BlockText, Items, Text, Pad;
    var b := blocks[patIdx];
    TextPrefix(blocks, patIdx + 1);
    assert blocks[..patIdx + 1] == blocks[..patIdx] + [b];
    TextAppend(blocks[..patIdx], b);
    assert b.items[..count + 1] == b.items[..count] + [b.items[count]];
    BlockAppend(b.items[..count], b.items[count], b.width);
    Regroup(Text(blocks[..patIdx]), BlockText(b.items[..count], b.width), Pad(b.items[count], b.width));
  }

  lemma LaterItems(blocks: seq<Block>, p: nat)
    requires p + 1 < |blocks| && blocks[p + 1].items != []
    ensures |Items(blocks)| > |Items(blocks[..p + 1])|
  {
    hide Items, Text, BlockText;
    TextPrefix(blocks, p + 2);
    assert blocks[..p + 2] == blocks[..p + 1] + [blocks[p + 1]];
    TextAppend(blocks[..p + 1], blocks[p + 1]);
  }

  lemma CursorEnds(blocks: seq<Block>, patIdx: nat, count: nat, temp: string)
    requires Cursor(blocks, |Items(blocks)|, patIdx, count, temp) && forall b :: b in blocks ==> b.items != []
    ensures temp == Text(blocks)
  {
    hide BlockText, Text, Items;
    var b := blocks[patIdx];
    assert blocks[..patIdx + 1] == blocks[..patIdx] + [b];
    TextAppend(blocks[..patIdx], b);
    if patIdx + 1 < |blocks| { LaterItems(blocks, patIdx); }
    assert blocks[..|blocks|] == blocks;
    assert b.items[..|b.items|] == b.items;
  }

  /** serializeEntry with padding: the entry numbers, as wide as the number of entries. */
  method SerializeEntry(entry: seq<nat>, maxEntry: nat) returns (longStr: string, paddingSize: nat)
    ensures paddingSize == |Decimal(maxEntry)| && longStr == BlockText(Decimals(entry), paddingSize)
  {
    hide Decimal, Pad, BlockText;
    longStr, paddingSize := "", |Decimal(maxEntry)|;
    NoRecords(Block(Decimals(entry), paddingSize));
    for i := 0 to |entry|
      invariant longStr == BlockText(Decimals(entry)[..i], paddingSize)
    {
      assert Decimals(entry)[..i + 1] == Decimals(entry)[..i] + [Decimals(entry)[i]];
      BlockAppend(Decimals(entry)[..i], Decimals(entry)[i], paddingSize);
      longStr := longStr + Pad(Decimal(entry[i]), paddingSize);
    }
    assert Decimals(entry)[..|entry|] == Decimals(entry);
  }

  function Decimals(entry: seq<nat>): (r: seq<string>)
    ensures |r| == |entry| && forall k :: 0 <= k < |entry| ==> r[k] == Decimal(entry[k])
  {
    if entry == [] then [] else Decimals(entry[..|entry| - 1]) + [Decimal(entry[|entry| - 1])]
  }

  /** serializeDic: the values in the order of their numbers, each group with its own width. */
  method SerializeDic(root: RootUnion) returns (temp: string)
    requires root.Mapped() && Placed(root.tokens, root.Unique(), root.posDictionary) && root.patCount > 0
    ensures temp == Text(Blocks(root.tokens, root.groups))
  {
    hide StringHash, Firsts, Covers, NoCollision, FormatsOf, Flat, MaxLen, Numbered, Listed, Placed, Format, Items,
         Text, BlockText, Pad, Values, Blocks, Cursor, ByFrequency, Groups, Different;
    ghost var tokens, ps, listing := root.tokens, root.Unique(), Flat(root.groups);
    ghost var blocks := Blocks(tokens, root.groups);
    ItemsOf(tokens, root.groups);
    FirstsDiffer(tokens, |tokens|);
    ListingSize(tokens, ps, root.dictionary, listing);
    GroupsFull(ps, FormatsOf(tokens, ps), root.order);
    var count, patIdx := 0, 0;
    var paddingSize := root.nowPaddingSize[0];
    temp := "";
    CursorStart(blocks);
    for k := 0 to |root.dictionary|
      invariant patIdx < |blocks| && count <= |blocks[patIdx].items| && paddingSize == blocks[patIdx].width
      invariant Cursor(blocks, k, patIdx, count, temp)
    {
      NumberTaken(tokens, ps, root.dictionary, listing, k);
      var h :| h in root.dictionary && root.dictionary[h] == k;
      HashOfNumber(tokens, root.dictionary, root.posDictionary, listing, k, h);
      if count == root.nowCounter[patIdx] {
        CursorMoves(blocks, k, patIdx, temp);
        count := 0;
        patIdx := patIdx + 1;
        paddingSize := root.nowPaddingSize[patIdx];
        assert root.groups[patIdx] in root.groups;
      }
      assert root.groups[patIdx] in root.groups;
      CursorWrites(blocks, k, patIdx, count, temp);
      var nowPos := root.posDictionary[h];
      temp := temp + Pad(root.tokens[nowPos], paddingSize);
      count := count + 1;
    }
    FullBlocks(tokens, root.groups);
    CursorEnds(blocks, patIdx, count, temp);
  }

  lemma FullBlocks(tokens: seq<string>, groups: seq<seq<nat>>)
    requires forall g :: g in groups ==> g != []
    ensures forall b :: b in Blocks(tokens, groups) ==> b.items != []
  {
    hide Values, MaxLen, Blocks;
    var bs := Blocks(tokens, groups);
    forall b | b in bs ensures b.items != [] {
      var i :| 0 <= i < |bs| && bs[i] == b;
      assert groups[i] in groups;
    }
  }

  /** The groups as they are described; without pruning every format is the most general one. */
  function Described(formats: seq<string>, paddings: seq<nat>, counters: seq<nat>, pruning: bool): (gs: seq<Group>)
    requires |formats| == |paddings| == |counters|
    ensures |gs| == |formats|
  {
    seq(|formats|, i requires 0 <= i < |formats| => Group(if pruning then formats[i] else "<63>",
        paddings[i], counters[i]))
  }

  /** The loop of proc that describes a dictionary. */
  method Describe(formats: seq<string>, paddings: seq<nat>, counters: seq<nat>, pruning: bool) returns (line: string)
    requires |formats| == |paddings| == |counters|
    ensures line == Line(Described(formats, paddings, counters, pruning))
  {
    hide Decimal, GroupLines;
    ghost var gs := Described(formats, paddings, counters, pruning);
    line := Decimal(|formats|) + " ";
    NoLines(gs);
    assert line + "" == line;
    for i := 0 to |formats|
      invariant line == Decimal(|gs|) + " " + GroupLines(gs[..i])
    {
      var pat := if pruning then formats[i] else "<63>";
      MoreLines(gs, i);
      assert line + GroupLine(gs[i]) == Decimal(|gs|) + " " + (GroupLines(gs[..i]) + GroupLine(gs[i]));
      line := line + (pat + " " + Decimal(paddings[i]) + " " + Decimal(counters[i]) + " ");
    }
    assert gs[..|gs|] == gs;
  }

  lemma NoLines(gs: seq<Group>)
    ensures GroupLines(gs[..0]) == ""
  {}

  lemma MoreLines(gs: seq<Group>, i: nat)
    requires i < |gs|
    ensures GroupLines(gs[..i + 1]) == GroupLines(gs[..i]) + GroupLine(gs[i])
  {
    assert gs[..i + 1][..i] == gs[..i];
  }

  /** What is read of the description of some blocks is what their sizes say. */
  lemma {:induction false} GroupInfosAre(gs: seq<Group>, blocks: seq<Block>)
    requires |gs| == |blocks|
    requires forall i :: 0 <= i < |gs| ==> gs[i].len == blocks[i].width && gs[i].lineCnt == |blocks[i].items|
    ensures GroupInfos(gs) == Infos(blocks) && LastLine(GroupInfos(gs)) == |Items(blocks)| - 1
    decreases |gs|
  {
    if gs != [] { GroupInfosAre(gs[..|gs| - 1], blocks[..|gs| - 1]); }
  }

  /** Which formats hold separators: those of values that do. */
  lemma DescribedPlain(tokens: seq<string>, ps: seq<nat>, order: seq<string>, nowFormat: seq<string>,
                       paddings: seq<nat>, counters: seq<nat>,
                       pruning: bool)
    requires |nowFormat| == |paddings| == |counters| && Named(nowFormat, order)
    requires forall f :: f in order ==> f in FormatsOf(tokens, ps)
    requires pruning ==> forall i :: 0 <= i < |tokens| ==> Plain(tokens[i])
    ensures AllPlain(Described(nowFormat, paddings, counters, pruning)) && |nowFormat| <= MAX_DIC_PAT
  {
    hide Format, Slot, Plain, FormatsOf;
    assert Plain("<63>") by { ConstantPlain(); }
    if |order| >= MAX_DIC_PAT {
      var types: nat :| nowFormat == order[..MAX_DIC_PAT - 1] + [Slot(types)];
      SlotPlain(types);
    }
    if pruning {
      forall f | f in order ensures Plain(f) {
        var fs := FormatsOf(tokens, ps);
        var k :| 0 <= k < |fs| && fs[k] == f;
        FormatPlain(At(tokens, ps[k]));
        NothingPlain();
      }
    }
  }

  lemma ConstantPlain()
    ensures Plain("<63>")
  {}

  /** Materializ_Dic for the given lines: the entry, its record, and the record without padding; nothing for a line
      that does not exist. */
  method Materialize(wanted: seq<nat>, entryBuf: string, entryLen: nat, entryLines: nat, dicBuf: string, dicLines: nat,
                     DicVars: seq<DicVarInfo>, ghost blocks: seq<Block>, ghost entry: seq<nat>)
    returns (vars: seq<string>)
    requires entryBuf == BlockText(Decimals(entry), entryLen) && entryLines == |entry|
    requires forall k :: 0 <= k < |entry| ==> |Decimal(entry[k])| <= entryLen
    requires dicBuf == Text(blocks) && dicLines == |Items(blocks)| && DicVars == Infos(blocks)
    requires forall b :: b in blocks ==> Fits(b)
    requires forall k :: 0 <= k < |entry| ==> entry[k] < dicLines
    ensures |vars| == |wanted|
    ensures forall i :: 0 <= i < |wanted| ==>
            vars[i] == if wanted[i] < entryLines then Strip(Items(blocks)[entry[wanted[i]]]) else ""
  {
    hide Strip, Pad, Number, Decimal, BlockText, Text, Items, Infos, Fits;
    vars := [];
    for i := 0 to |wanted|
      invariant |vars| == i
      invariant forall j :: 0 <= j < i ==>
                vars[j] == if wanted[j] < entryLines then Strip(Items(blocks)[entry[wanted[j]]]) else ""
    {
      var line, oriData := wanted[i], "";
      if line < entryLines {
        BlockTextAt(Decimals(entry), entryLen, line);
        PaddedNumber(entry[line], entryLen);
        var dicOffset := Atoi(entryBuf[line * entryLen..line * entryLen + entryLen]);
        if dicOffset < dicLines {
          var offset, dicLen := GetDicOffsetByEntry(DicVars, dicOffset, blocks);
          PadRoundTrip(Items(blocks)[dicOffset], dicLen);
          oriData := RemovePadding(dicBuf[offset..offset + dicLen]);
        }
      }
      vars := vars + [oriData];
    }
  }

  lemma PaddedNumber(n: nat, width: nat)
    requires |Decimal(n)| <= width
    ensures Number(Pad(Decimal(n), width)) == n
  {
    NumberRoundTrip(n, width - |Decimal(n)|);
  }

  /** The entries of the values of a variable. */
  method Entries(root: RootUnion) returns (entry: seq<nat>)
    requires root.Mapped()
    ensures |entry| == |root.tokens| && EntriesOf(root.tokens, Flat(root.groups), entry)
  {
    hide StringHash, Firsts, NoCollision, FormatsOf, Flat, Numbered, Listed, ByFrequency, Groups, EntriesOf, Covers,
         Sized;
    entry := [];
    EntriesStart(root.tokens, Flat(root.groups));
    for i := 0 to |root.tokens|
      invariant |entry| == i && EntriesOf(root.tokens, Flat(root.groups), entry)
    {
      NumberOf(root.tokens, root.dictionary, Flat(root.groups), i);
      EntriesMore(root.tokens, Flat(root.groups), entry, root.dictionary[StringHash(root.tokens[i])]);
      entry := entry + [root.dictionary[root.HashValue[i]]];
    }
  }

  ghost predicate EntriesOf(tokens: seq<string>, listing: seq<nat>, entry: seq<nat>) {
    |entry| <= |tokens| && forall k :: 0 <= k < |entry| ==>
        entry[k] < |listing| && listing[entry[k]] == Original(tokens, k)
  }

  lemma EntriesStart(tokens: seq<string>, listing: seq<nat>)
    ensures EntriesOf(tokens, listing, [])
  {}

  lemma EntriesMore(tokens: seq<string>, listing: seq<nat>, entry: seq<nat>, n: nat)
    requires EntriesOf(tokens, listing, entry) && |entry| < |tokens| && n < |listing|
             && listing[n] == Original(tokens, |entry|)
    ensures EntriesOf(tokens, listing, entry + [n])
  {
    hide At;
  }

  /** What is kept of a variable: the entries, the dictionary, and the description of its groups. */
  datatype Stored = Stored(entryBuf: string, entryLen: nat, dicBuf: string, line: string, dicMax: nat)

  ghost predicate StoredAs(tokens: seq<string>, c: Stored, blocks: seq<Block>, gs: seq<Group>, entry: seq<nat>) {
    && |entry| == |tokens| && c.entryBuf == BlockText(Decimals(entry), c.entryLen)
    && (forall k :: 0 <= k < |entry| ==> |Decimal(entry[k])| <= c.entryLen)
    && c.dicBuf == Text(blocks) && c.dicMax == |Items(blocks)| && (forall b :: b in blocks ==> Fits(b))
    && c.line == Line(gs) && AllPlain(gs) && |gs| == |blocks| <= MAX_DIC_PAT
    && (forall i :: 0 <= i < |blocks| ==> gs[i].len == blocks[i].width && gs[i].lineCnt == |blocks[i].items|)
    && (forall k :: 0 <= k < |entry| ==> entry[k] < c.dicMax && Items(blocks)[entry[k]] == tokens[Original(tokens, k)])
  }

  lemma Consistent(tokens: seq<string>, groups: seq<seq<nat>>, entry: seq<nat>, width: nat, dicMax: nat)
    requires |entry| == |tokens| && EntriesOf(tokens, Flat(groups), entry) && dicMax == |Flat(groups)|
             && width == |Decimal(dicMax)|
    ensures var blocks := Blocks(tokens, groups);
            && (forall k :: 0 <= k < |entry| ==> |Decimal(entry[k])| <= width)
            && dicMax == |Items(blocks)| && (forall b :: b in blocks ==> Fits(b))
            && (forall k :: 0 <= k < |entry| ==>
                entry[k] < dicMax && Items(blocks)[entry[k]] == tokens[Original(tokens, k)])
  {
    hide Decimal, Items, Flat, Blocks, Fits, Values, Original;
    ItemsOf(tokens, groups);
    BlocksFit(tokens, groups);
    forall k | 0 <= k < |entry| ensures |Decimal(entry[k])| <= width {
      DecimalLonger(entry[k], dicMax);
    }
  }

  /** The description of a mapped variable's groups. */
  ghost function GroupsOf(root: RootUnion, pruning: bool): seq<Group>
    reads root
    requires |root.nowFormat| == |root.nowPaddingSize| == |root.nowCounter|
  {
    Described(root.nowFormat, root.nowPaddingSize, root.nowCounter, pruning)
  }

  lemma GroupsFit(root: RootUnion, pruning: bool)
    requires root.Mapped() && (pruning ==> forall i :: 0 <= i < |root.tokens| ==> Plain(root.tokens[i]))
    ensures |root.nowFormat| == |root.nowPaddingSize| == |root.nowCounter|
    ensures var gs, blocks := GroupsOf(root, pruning), Blocks(root.tokens, root.groups);
            && AllPlain(gs) && |gs| == |blocks| <= MAX_DIC_PAT
            && forall i :: 0 <= i < |blocks| ==> gs[i].len == blocks[i].width && gs[i].lineCnt == |blocks[i].items|
  {
    hide StringHash, Firsts, NoCollision, FormatsOf, Flat, MaxLen, Numbered, Listed, Groups, Plain, Covers, Values,
         AllPlain, Named;
    DescribedPlain(root.tokens, root.Unique(), root.order, root.nowFormat,
        root.nowPaddingSize, root.nowCounter, pruning);
  }

  /** The dictionary branch of proc in compression/main.cpp. */
  method Store(root: RootUnion, pruning: bool) returns (c: Stored, entry: seq<nat>)
    requires root.Mapped() && Placed(root.tokens, root.Unique(), root.posDictionary) && root.tokens != []
    requires pruning ==> forall i :: 0 <= i < |root.tokens| ==> Plain(root.tokens[i])
    ensures |root.nowFormat| == |root.nowPaddingSize| == |root.nowCounter|
    ensures StoredAs(root.tokens, c, Blocks(root.tokens, root.groups), GroupsOf(root, pruning), entry)
  {
    hide StringHash, Firsts, NoCollision, FormatsOf, Flat, MaxLen, Numbered, Listed, Placed, Items, Text, BlockText,
         Values, ByFrequency, Groups, Different, Decimal, Fits, Covers, EntriesOf, Plain, AllPlain, Named, Line,
         Original, Described;
    ghost var tokens, listing := root.tokens, Flat(root.groups);
    FirstsDiffer(tokens, |tokens|);
    ListingSize(tokens, root.Unique(), root.dictionary, listing);
    entry := Entries(root);
    SomeGroup(tokens, root.groups, entry);
    GroupsFit(root, pruning);
    var entryBuf, entryLen := SerializeEntry(entry, root.dicMax);
    var dicBuf := SerializeDic(root);
    Consistent(tokens, root.groups, entry, entryLen, root.dicMax);
    var line := Describe(root.nowFormat, root.nowPaddingSize, root.nowCounter, pruning);
    c := Stored(entryBuf, entryLen, dicBuf, line, root.dicMax);
  }

  /** What line i of a variable gives back: the first value with the hash of its value, without leading spaces. */
  function Kept(tokens: seq<string>, i: nat): string {
    if i < |tokens| then Strip(tokens[Original(tokens, i)]) else ""
  }

  /** The description is parsed, and the lines are looked up. */
  method Load(c: Stored, wanted: seq<nat>, lines: nat, behind: string, ghost tokens: seq<string>,
              ghost blocks: seq<Block>,
              ghost gs: seq<Group>, ghost entry: seq<nat>) returns (vars: seq<string>)
    requires StoredAs(tokens, c, blocks, gs, entry) && lines == |tokens| && |behind| > 1
    ensures |vars| == |wanted| && forall i :: 0 <= i < |wanted| ==> vars[i] == Kept(tokens, wanted[i])
  {
    hide Items, Text, BlockText, Decimal, Fits, Strip, Infos, GroupInfos, Line, Original, TakeAll, Shown, FirstSpace,
         AllPlain, IntValue, Pats;
    LineRead(gs, behind);
    GroupInfosAre(gs, blocks);
    var DicCnt, DicVars, pats := ParseDic(c.line, behind);
    vars := Materialize(wanted, c.entryBuf, c.entryLen, lines, c.dicBuf, c.dicMax, DicVars, blocks, entry);
  }

  const MIN_VALUES: nat := 100

  /** How proc stores a variable: as it is, with a dictionary, or cut into sub-patterns by the worklist. */
  datatype Form = Plainly | Dictionary | SubPatterns

  /** Few values are stored as they are; else fewer than half of them with different hashes make a dictionary. */
  function Choose(tokens: seq<string>): Form {
    if |tokens| < MIN_VALUES then Plainly
    else if 2 * |Firsts(tokens, |tokens|)| < |tokens| then Dictionary
    else SubPatterns
  }

  /** The choice of proc for a variable, and the dictionary built, written and read back. A value comes back as the
      first one with its hash, without leading spaces. Values are pieces of a line cut at spaces; with pruning they must
      be, because the description of their formats is cut at spaces again (CapsuleLine.FormatsComeBack). */
  method StoreAndLoad(tokens: seq<string>, wanted: seq<nat>, pruning: bool, behind: string)
    returns (form: Form, vars: seq<string>)
    requires NoCollision(FormatsOf(tokens, Firsts(tokens, |tokens|))) && |behind| > 1
    requires pruning ==> forall i :: 0 <= i < |tokens| ==> Plain(tokens[i])
    ensures form == Choose(tokens)
    ensures form == Dictionary ==>
              |vars| == |wanted| && forall i :: 0 <= i < |wanted| ==> vars[i] == Kept(tokens, wanted[i])
  {
    hide StringHash, Firsts, Covers, NoCollision, FormatsOf, Numbered, Listed, Placed, ByFrequency, Groups, Entered,
         Kept, StoredAs, Sized, Plain, Named, Described;
    vars := [];
    if |tokens| < MIN_VALUES { return Plainly, vars; }
    var root := new RootUnion(tokens);
    if !root.Repetitive() { return SubPatterns, vars; }
    form := Dictionary;
    EnteredIsPlaced(tokens, root.Unique(), root.dictionary, root.posDictionary);
    root.BuildMapping();
    var c, entry := Store(root, pruning);
    vars := Load(c, wanted, |tokens|, behind, tokens, Blocks(tokens, root.groups), GroupsOf(root, pruning), entry);
  }

  /** A value without spaces comes back if and only if no other value without spaces had its hash before. */
  lemma ComesBack(tokens: seq<string>, i: nat)
    requires i < |tokens| && forall j :: 0 <= j < |tokens| ==> Plain(tokens[j])
    ensures Kept(tokens, i) == tokens[i] <==>
            forall j: nat :: j < i && StringHash(tokens[j]) == StringHash(tokens[i]) && !Known(tokens, j) ==>
                tokens[j] == tokens[i]
  {
    hide StringHash;
    var o := Original(tokens, i);
    assert Strip(tokens[o]) == tokens[o] by { assert tokens[o] != "" ==> !IsSeparator(tokens[o][0]); }
  }

  /** A hundred values with the same hash, all the same but the second one. */
  function Collided(): seq<string> { seq(100, i requires 0 <= i < 100 => if i == 1 then "b\U{DF}" else "ab") }

  /** A dictionary is built for them, nothing that StoreAndLoad asks for is missing, and the second value comes back as
      the first one. */
  lemma CollisionLoses()
    ensures var tokens := Collided();
            && Choose(tokens) == Dictionary && NoCollision(FormatsOf(tokens, Firsts(tokens, |tokens|)))
            && (forall j :: 0 <= j < |tokens| ==> Plain(tokens[j]))
            && Kept(tokens, 1) == "ab" != tokens[1]
  {
    hide StringHash, FormatsOf, Firsts, NoCollision, Plain, Kept, Collided;
    SecondKept();
    OneFirst(100);
    CollidedPlain();
    OneAlone(FormatsOf(Collided(), Firsts(Collided(), 100)));
  }

  lemma OneAlone(ss: seq<string>)
    requires |ss| <= 1
    ensures NoCollision(ss)
  {
    hide StringHash;
  }

  lemma CollidedPlain()
    ensures forall j :: 0 <= j < 100 ==> Plain(Collided()[j])
  {}

  lemma CollidedHash(i: nat)
    requires i < 100
    ensures StringHash(Collided()[i]) == StringHash("ab")
  {
    hide StringHash;
    SameHash();
  }

  lemma {:induction false} OneFirst(n: nat)
    requires n <= 100 == |Collided()|
    ensures |Firsts(Collided(), n)| <= 1 && (n > 0 ==> |Firsts(Collided(), n)| == 1)
  {
    hide StringHash, Collided;
    if n > 0 {
      OneFirst(n - 1);
      if n > 1 {
        CollidedHash(0);
        CollidedHash(n - 1);
        assert Known(Collided(), n - 1);
      }
    }
  }

  lemma SecondKept()
    ensures |Collided()| == 100 && Kept(Collided(), 1) == "ab" != Collided()[1]
  {
    hide StringHash;
    CollidedHash(0);
    CollidedHash(1);
    assert Known(Collided(), 1);
    assert Original(Collided(), 1) == 0;
  }

  lemma SameHash()
    ensures StringHash("ab") == StringHash("b\U{DF}")
  {
    assert "ab"[..1] == "a" && "b\U{DF}"[..1] == "b" && "a"[..0] == "" && "b"[..0] == "";
    assert RawHash("a") == 97 && RawHash("b") == 98;
    assert RawHash("ab") == RawHash("b\U{DF}") == 12805;
  }

  /** A text that padding and RemovePadding do not give back; the pieces of a line, cut at spaces, are none such. */
  lemma LeadingSpaceLost(width: nat)
    requires width >= 2
    ensures Strip(Pad(" a", width)) == "a" != " a"
  {
    PadRoundTrip(" a", width);
    assert " a"[1..] == "a";
    assert Strip("a") == "a";
  }

  lemma SomeGroup(tokens: seq<string>, groups: seq<seq<nat>>, entry: seq<nat>)
    requires entry != [] && EntriesOf(tokens, Flat(groups), entry)
    ensures groups != []
  {
    assert entry[0] < |Flat(groups)|;
  }
}
