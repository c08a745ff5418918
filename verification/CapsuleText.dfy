/** A dictionary file: blocks of records of equal width, and how an entry number finds its record. */
module CapsuleText {
  import opened Capsule

  datatype Block = Block(items: seq<string>, width: nat)

  ghost predicate Fits(b: Block) {
    forall k :: 0 <= k < |b.items| ==> |b.items[k]| <= b.width
  }

  function BlockText(items: seq<string>, width: nat): string {
    if items == [] then "" else BlockText(items[..|items| - 1], width) + Pad(items[|items| - 1], width)
  }

  function Text(blocks: seq<Block>): string {
    if blocks == [] then "" else
    var last := blocks[|blocks| - 1];
    Text(blocks[..|blocks| - 1]) + BlockText(last.items, last.width)
  }

  function Items(blocks: seq<Block>): seq<string> {
    if blocks == [] then [] else Items(blocks[..|blocks| - 1]) + blocks[|blocks| - 1].items
  }

  lemma Grow(k: nat, width: nat)
    ensures (k + 1) * width == k * width + width
  {}

  lemma Below(k: nat, n: nat, width: nat)
    requires k < n
    ensures k * width + width <= n * width
  {
    Grow(k, width);
    if k + 1 < n { Below(k, n - 1, width); Grow(n - 1, width); }
  }

  lemma InFront(a: string, b: string, from: nat, to: nat)
    requires from <= to <= |a|
    ensures (a + b)[from..to] == a[from..to]
  {}

  lemma {:induction false} BlockTextAt(items: seq<string>, width: nat, k: nat)
    requires forall j :: 0 <= j < |items| ==> |items[j]| <= width
    requires k < |items|
    ensures |BlockText(items, width)| == |items| * width && k * width + width <= |items| * width
    ensures BlockText(items, width)[k * width..k * width + width] == Pad(items[k], width)
    decreases |items|
  {
    hide Pad, BlockText;
    var n := |items| - 1;
    var front, last := BlockText(items[..n], width), Pad(items[n], width);
    BlockTextIs(items, width);
    BlockTextSize(items[..n], width);
    BlockTextSize(items, width);
    Below(k, |items|, width);
    var from := k * width;
    if k < n {
      Below(k, n, width);
      BlockTextAt(items[..n], width, k);
      InFront(front, last, from, from + width);
    } else {
      assert (front + last)[from..from + width] == last;
    }
  }

  lemma BlockTextIs(items: seq<string>, width: nat)
    requires items != []
    ensures BlockText(items, width) == BlockText(items[..|items| - 1], width) + Pad(items[|items| - 1], width)
  {}

  lemma {:induction false} BlockTextSize(items: seq<string>, width: nat)
    requires forall j :: 0 <= j < |items| ==> |items[j]| <= width
    ensures |BlockText(items, width)| == |items| * width
    decreases |items|
  {
    hide Spaces;
    if items != [] {
      BlockTextSize(items[..|items| - 1], width);
      Grow(|items| - 1, width);
    }
  }

  lemma TextAppend(blocks: seq<Block>, b: Block)
    ensures Text(blocks + [b]) == Text(blocks) + BlockText(b.items, b.width)
    ensures Items(blocks + [b]) == Items(blocks) + b.items
  {
    assert (blocks + [b])[..|blocks|] == blocks;
  }

  lemma BlockAppend(items: seq<string>, item: string, width: nat)
    ensures BlockText(items + [item], width) == BlockText(items, width) + Pad(item, width)
  {
    assert (items + [item])[..|items|] == items;
  }

  /** The text of some first blocks begins the text. */
  lemma {:induction false} TextPrefix(blocks: seq<Block>, g: nat)
    requires g <= |blocks|
    ensures Text(blocks[..g]) <= Text(blocks) && Items(blocks[..g]) <= Items(blocks)
    decreases |blocks|
  {
    if g == |blocks| {
      assert blocks[..g] == blocks;
    } else {
      var n := |blocks| - 1;
      TextPrefix(blocks[..n], g);
      assert blocks[..n][..g] == blocks[..g];
    }
  }

  /** Record k of block g. */
  lemma TextAt(blocks: seq<Block>, g: nat, k: nat)
    requires g < |blocks| && Fits(blocks[g]) && k < |blocks[g].items|
    ensures var w, from := blocks[g].width, |Text(blocks[..g])| + k * blocks[g].width;
            from + w <= |Text(blocks)| && Text(blocks)[from..from + w] == Pad(blocks[g].items[k], w)
    ensures var n := |Items(blocks[..g])| + k; n < |Items(blocks)| && Items(blocks)[n] == blocks[g].items[k]
  {
    hide BlockText, Text, Items, Pad;
    var b := blocks[g];
    TextPrefix(blocks, g + 1);
    assert blocks[..g + 1] == blocks[..g] + [b];
    TextAppend(blocks[..g], b);
    BlockTextAt(b.items, b.width, k);
    InPrefix(Text(blocks[..g]), BlockText(b.items, b.width), Text(blocks), k * b.width, k * b.width + b.width);
  }

  lemma InPrefix(a: string, b: string, t: string, from: nat, to: nat)
    requires a + b <= t && from <= to <= |b|
    ensures |a| + to <= |t| && t[|a| + from..|a| + to] == b[from..to]
  {
    assert (a + b)[|a| + from..|a| + to] == b[from..to];
    assert t[|a| + from..|a| + to] == t[..|a + b|][|a| + from..|a| + to];
  }

  /** SubPattern::DicVarInfo. */
  datatype DicVarInfo = DicVarInfo(len: int, lineCnt: int, lineSno: int, lineEno: int)

  /** The descriptions that the loader makes of the blocks: each begins behind the one before. */
  function Infos(blocks: seq<Block>): (r: seq<DicVarInfo>)
    ensures |r| == |blocks|
  {
    if blocks == [] then [] else
    var n := |blocks| - 1;
    var preleno := |Items(blocks[..n])| as int - 1;
    var cnt := |blocks[n].items|;
    Infos(blocks[..n]) + [DicVarInfo(blocks[n].width, cnt, preleno + 1, preleno + 1 + cnt - 1)]
  }

  lemma {:induction false} InfoAt(blocks: seq<Block>, g: nat)
    requires g < |blocks|
    ensures var start, cnt := |Items(blocks[..g])|, |blocks[g].items|;
            Infos(blocks)[g] == DicVarInfo(blocks[g].width, cnt, start, start + cnt - 1)
    decreases |blocks|
  {
    var n := |blocks| - 1;
    if g < n {
      InfoAt(blocks[..n], g);
      assert blocks[..n][..g] == blocks[..g];
    }
  }

  /** GetDicOffsetByEntry: the record of the entry is found, and how long it is. */
  method GetDicOffsetByEntry(DicVars: seq<DicVarInfo>, dicNo: nat, ghost blocks: seq<Block>)
    returns (offset: nat, dicLen: nat)
    requires DicVars == Infos(blocks) && dicNo < |Items(blocks)| && forall b :: b in blocks ==> Fits(b)
    ensures |Items(blocks)[dicNo]| <= dicLen && offset + dicLen <= |Text(blocks)|
    ensures Text(blocks)[offset..offset + dicLen] == Pad(Items(blocks)[dicNo], dicLen)
  {
    hide Infos, Items, Text, BlockText, Pad;
    offset, dicLen := 0, 0;
    var i := 0;
    NoText(blocks);
    assert blocks[..|blocks|] == blocks;
    while i < |DicVars|
      invariant i <= |DicVars| && offset == |Text(blocks[..i])| && |Items(blocks[..i])| <= dicNo
    {
      InfoAt(blocks, i);
      assert blocks[i] in blocks;
      if dicNo > DicVars[i].lineEno {
        NextBlock(blocks, i);
        offset := offset + DicVars[i].lineCnt * DicVars[i].len;
      } else {
        TextAt(blocks, i, dicNo - |Items(blocks[..i])|);
        offset := offset + (dicNo - DicVars[i].lineSno) * DicVars[i].len;
        dicLen := DicVars[i].len;
        return;
      }
      i := i + 1;
    }
  }

  lemma NoText(blocks: seq<Block>)
    ensures Text(blocks[..0]) == "" && Items(blocks[..0]) == []
  {}

  lemma NextBlock(blocks: seq<Block>, i: nat)
    requires i < |blocks| && Fits(blocks[i])
    ensures |Text(blocks[..i + 1])| == |Text(blocks[..i])| + |blocks[i].items| * blocks[i].width
    ensures |Items(blocks[..i + 1])| == |Items(blocks[..i])| + |blocks[i].items|
  {
    hide Text, Items, BlockText;
    assert blocks[..i + 1] == blocks[..i] + [blocks[i]];
    TextAppend(blocks[..i], blocks[i]);
    BlockTextSize(blocks[i].items, blocks[i].width);
  }
}
