/** The description of a dictionary in the sub-pattern text: written by proc in compression/main.cpp, read by
    AddSubPatternToMap in cmdline_loggrep/LogStore_API.cpp. */
module CapsuleLine {
  import opened Capsule
  import opened CapsuleNumber
  import opened CapsuleText
  import opened CapsuleStore

  /** A group: its format, the width of its records, and how many there are. */
  datatype Group = Group(pat: string, len: nat, lineCnt: nat)

  function GroupLine(g: Group): string { g.pat + " " + Decimal(g.len) + " " + Decimal(g.lineCnt) + " " }

  function GroupLines(gs: seq<Group>): string {
    if gs == [] then "" else GroupLines(gs[..|gs| - 1]) + GroupLine(gs[|gs| - 1])
  }

  function Line(gs: seq<Group>): string { Decimal(|gs|) + " " + GroupLines(gs) }

  predicate IsSeparator(c: char) { c == ' ' || c == '\n' }

  predicate Plain(s: string) { forall k :: 0 <= k < |s| ==> !IsSeparator(s[k]) }

  /** Whether the formats hold no separators decides about the text. */
  predicate AllPlain(gs: seq<Group>) { forall i :: 0 <= i < |gs| ==> Plain(gs[i].pat) }

  // ----- reading -----

  /** The loop over the text: which field of a group it is in, the fields so far, and the groups so far. */
  datatype Scan = Scan(slim: nat, pat: string, len: int, lineCnt: int, DicVars: seq<DicVarInfo>, pats: seq<string>)

  function Digit(c: char): int { c as int - '0' as int }

  function LastLine(DicVars: seq<DicVarInfo>): int { if DicVars == [] then -1 else DicVars[|DicVars| - 1].lineEno }

  /** The constructor of DicVarInfo. */
  function NewInfo(len: int, lineCnt: int, preleno: int): DicVarInfo {
    DicVarInfo(len, lineCnt, preleno + 1, preleno + 1 + lineCnt - 1)
  }

  function Take(z: Scan, c: char): Scan {
    if IsSeparator(c) then
      if z.slim == 2 then Scan(0, "", 0, 0, z.DicVars + [NewInfo(z.len, z.lineCnt, LastLine(z.DicVars))],
          z.pats + [z.pat])
      else z.(slim := z.slim + 1)
    else if z.slim == 0 then z.(pat := z.pat + [c])
    else if z.slim == 1 then z.(len := z.len * 10 + Digit(c))
    else z.(lineCnt := z.lineCnt * 10 + Digit(c))
  }

  function TakeAll(z: Scan, s: string): Scan {
    if s == "" then z else Take(TakeAll(z, s[..|s| - 1]), s[|s| - 1])
  }

  const START: Scan := Scan(0, "", 0, 0, [], [])

  function FirstSpace(s: string): (i: nat)
    ensures i <= |s| && (i < |s| ==> s[i] == ' ') && forall k :: 0 <= k < i ==> s[k] != ' '
  {
    if s == "" || s[0] == ' ' then 0 else 1 + FirstSpace(s[1..])
  }

  function IntValue(s: string): int {
    if s == "" then 0 else IntValue(s[..|s| - 1]) * 10 + Digit(s[|s| - 1])
  }

  /** What the second loop reads: as many characters as the whole content has, from behind the first space, so it
      also reads what lies behind the end of the text. */
  function Shown(content: string, behind: string): string
    requires FirstSpace(content) < |behind|
  {
    var h := FirstSpace(content);
    if h == |content| then content else content[h + 1..] + behind[..h + 1]
  }

  lemma TakeMore(z: Scan, s: string, n: nat)
    requires n < |s|
    ensures TakeAll(z, s[..n + 1]) == Take(TakeAll(z, s[..n]), s[n])
  {
    assert s[..n + 1][..n] == s[..n];
  }

  lemma SpaceAt(s: string, i: nat)
    requires i < |s| && s[i] == ' ' && forall k :: 0 <= k < i ==> s[k] != ' '
    ensures FirstSpace(s) == i
  {}

  lemma ValueMore(s: string, n: nat)
    requires n < |s|
    ensures IntValue(s[..n + 1]) == IntValue(s[..n]) * 10 + Digit(s[n])
  {
    assert s[..n + 1][..n] == s[..n];
  }

  /** The number of groups, and the rest of the text. */
  method ReadCount(content: string, behind: string) returns (DicCnt: int, text: string)
    requires FirstSpace(content) < |behind|
    ensures FirstSpace(content) < |content| ==> DicCnt == IntValue(content[..FirstSpace(content)])
    ensures text == Shown(content, behind) && |text| == |content|
  {
    hide FirstSpace, IntValue;
    var dicCnt, i := 0, 0;
    DicCnt := 0;
    text := content;
    assert content[..0] == "";
    NoValue();
    while i < |content|
      invariant i <= |content| && dicCnt == IntValue(content[..i]) && text == content
      invariant forall k :: 0 <= k < i ==> content[k] != ' '
    {
      if content[i] == ' ' {
        SpaceAt(content, i);
        DicCnt := dicCnt;
        text := content[i + 1..] + behind[..i + 1];
        break;
      } else {
        ValueMore(content, i);
        dicCnt := dicCnt * 10 + (content[i] as int - '0' as int);
      }
      i := i + 1;
    }
    SpaceOrNone(content);
  }

  /** The groups. */
  method ReadGroups(text: string) returns (DicVars: seq<DicVarInfo>, pats: seq<string>)
    ensures DicVars == TakeAll(START, text).DicVars && pats == TakeAll(START, text).pats
  {
    hide TakeAll;
    var slim, patStartPos, patEndPos, len, lineCnt, index := 0, 0, 0, 0, 0, 0;
    DicVars, pats := [], [];
    NoneTaken(text);
    for i := 0 to |text|
      invariant 0 <= slim <= 2 && 0 <= patStartPos <= i && index == |DicVars|
      invariant slim > 0 ==> patStartPos <= patEndPos + 1 <= i
      invariant TakeAll(START, text[..i]) == Scan(slim,
                if slim == 0 then text[patStartPos..i] else text[patStartPos..patEndPos + 1],
                                                  len, lineCnt, DicVars, pats)
    {
      TakeMore(START, text, i);
      if text[i] == ' ' || text[i] == '\n' {
        slim := slim + 1;
        if slim == 1 {
          patEndPos := i - 1;
        } else if slim == 3 {
          if index == 0 {
            DicVars := DicVars + [NewInfo(len, lineCnt, -1)];
          } else {
            DicVars := DicVars + [NewInfo(len, lineCnt, DicVars[index - 1].lineEno)];
          }
          pats := pats + [text[patStartPos..patEndPos + 1]];
          slim, len, lineCnt, patStartPos, index := 0, 0, 0, i + 1, index + 1;
        }
      } else {
        if slim == 1 {
          len := len * 10 + (text[i] as int - '0' as int);
        } else if slim == 2 {
          lineCnt := lineCnt * 10 + (text[i] as int - '0' as int);
        }
      }
    }
    assert text[..|text|] == text;
  }

  /** The branch for dictionaries of AddSubPatternToMap; behind is what the buffer holds behind the content. */
  method ParseDic(content: string, behind: string) returns (DicCnt: int, DicVars: seq<DicVarInfo>, pats: seq<string>)
    requires FirstSpace(content) < |behind|
    ensures FirstSpace(content) < |content| ==> DicCnt == IntValue(content[..FirstSpace(content)])
    ensures DicVars == TakeAll(START, Shown(content, behind)).DicVars
            && pats == TakeAll(START, Shown(content, behind)).pats
  {
    var text;
    DicCnt, text := ReadCount(content, behind);
    DicVars, pats := ReadGroups(text);
  }

  lemma NoValue()
    ensures IntValue("") == 0
  {}

  lemma SpaceOrNone(s: string)
    ensures FirstSpace(s) == |s| <==> ' ' !in s
  {}

  lemma NoneTaken(text: string)
    ensures TakeAll(START, text[..0]) == START && text[0..0] == ""
  {}

  // ----- what is written is read back -----

  lemma {:induction false} TakeAppend(z: Scan, a: string, b: string)
    ensures TakeAll(z, a + b) == TakeAll(TakeAll(z, a), b)
    decreases |b|
  {
    hide Take;
    if b == "" {
      assert a + b == a;
    } else {
      var n := |b| - 1;
      assert (a + b)[..|a + b| - 1] == a + b[..n] && (a + b)[|a + b| - 1] == b[n];
      TakeAppend(z, a, b[..n]);
    }
  }

  lemma TakeOne(z: Scan, c: char)
    ensures TakeAll(z, [c]) == Take(z, c)
  {
    hide Take;
    assert [c][..0] == "";
    assert TakeAll(z, "") == z;
  }

  lemma {:induction false} TakeFormat(z: Scan, f: string)
    requires z.slim == 0 && Plain(f)
    ensures TakeAll(z, f) == z.(pat := z.pat + f)
    decreases |f|
  {
    if f != "" {
      var n := |f| - 1;
      TakeFormat(z, f[..n]);
      assert z.pat + f[..n] + [f[n]] == z.pat + f;
    } else {
      assert z.pat + f == z.pat;
    }
  }

  lemma DigitIs(d: nat)
    requires d < 10
    ensures !IsSeparator(DigitChar(d)) && Digit(DigitChar(d)) == d
  {}

  lemma {:induction false} TakeLen(z: Scan, n: nat)
    requires z.slim == 1 && z.len == 0
    ensures TakeAll(z, Decimal(n)) == z.(len := n)
    decreases n
  {
    hide DigitChar, Digit, IsSeparator;
    DigitIs(n % 10);
    if n < 10 {
      TakeOne(z, DigitChar(n));
    } else {
      TakeLen(z, n / 10);
      TakeAppend(z, Decimal(n / 10), [DigitChar(n % 10)]);
      TakeOne(z.(len := n / 10), DigitChar(n % 10));
    }
  }

  lemma {:induction false} TakeCnt(z: Scan, n: nat)
    requires z.slim == 2 && z.lineCnt == 0
    ensures TakeAll(z, Decimal(n)) == z.(lineCnt := n)
    decreases n
  {
    hide DigitChar, Digit, IsSeparator;
    DigitIs(n % 10);
    if n < 10 {
      TakeOne(z, DigitChar(n));
    } else {
      TakeCnt(z, n / 10);
      TakeAppend(z, Decimal(n / 10), [DigitChar(n % 10)]);
      TakeOne(z.(lineCnt := n / 10), DigitChar(n % 10));
    }
  }

  /** One group. */
  lemma TakeGroup(v: seq<DicVarInfo>, p: seq<string>, g: Group)
    requires Plain(g.pat)
    ensures TakeAll(Scan(0, "", 0, 0, v, p), GroupLine(g))
            == Scan(0, "", 0, 0, v + [NewInfo(g.len, g.lineCnt, LastLine(v))], p + [g.pat])
  {
    hide TakeAll, Decimal, Plain;
    var z0 := Scan(0, "", 0, 0, v, p);
    TakeFormat(z0, g.pat);
    var z1 := Scan(0, g.pat, 0, 0, v, p);
    assert "" + g.pat == g.pat;
    TakeOne(z1, ' ');
    TakeAppend(z0, g.pat, " ");
    var z2 := Scan(1, g.pat, 0, 0, v, p);
    TakeLen(z2, g.len);
    TakeAppend(z0, g.pat + " ", Decimal(g.len));
    var z3 := Scan(1, g.pat, g.len, 0, v, p);
    TakeOne(z3, ' ');
    TakeAppend(z0, g.pat + " " + Decimal(g.len), " ");
    var z4 := Scan(2, g.pat, g.len, 0, v, p);
    TakeCnt(z4, g.lineCnt);
    TakeAppend(z0, g.pat + " " + Decimal(g.len) + " ", Decimal(g.lineCnt));
    var z5 := Scan(2, g.pat, g.len, g.lineCnt, v, p);
    TakeOne(z5, ' ');
    TakeAppend(z0, g.pat + " " + Decimal(g.len) + " " + Decimal(g.lineCnt), " ");
  }

  function Pats(gs: seq<Group>): seq<string> { seq(|gs|, i requires 0 <= i < |gs| => gs[i].pat) }

  /** The descriptions of some groups, each behind the one before. */
  function GroupInfos(gs: seq<Group>): (r: seq<DicVarInfo>)
    ensures |r| == |gs|
  {
    if gs == [] then [] else
    var before, g := GroupInfos(gs[..|gs| - 1]), gs[|gs| - 1];
    before + [NewInfo(g.len, g.lineCnt, LastLine(before))]
  }

  lemma {:induction false} TakeGroups(gs: seq<Group>)
    requires AllPlain(gs)
    ensures TakeAll(START, GroupLines(gs)) == Scan(0, "", 0, 0, GroupInfos(gs), Pats(gs))
  {
    hide TakeAll, GroupLine, Plain, NewInfo;
    if gs == [] {
      NoneTaken("");
      assert ""[..0] == "";
    } else {
      var n := |gs| - 1;
      TakeGroups(gs[..n]);
      TakeAppend(START, GroupLines(gs[..n]), GroupLine(gs[n]));
      TakeGroup(GroupInfos(gs[..n]), Pats(gs[..n]), gs[n]);
      assert Pats(gs) == Pats(gs[..n]) + [gs[n].pat];
    }
  }

  lemma {:induction false} DecimalDigits(n: nat)
    ensures forall k :: 0 <= k < |Decimal(n)| ==> '0' <= Decimal(n)[k] <= '9'
  {
    if n >= 10 { DecimalDigits(n / 10); }
  }

  lemma {:induction false} DecimalValue(n: nat)
    ensures IntValue(Decimal(n)) == n
  {
    if n < 10 {
      assert IntValue([DigitChar(n)][..0]) == 0;
    } else {
      DecimalValue(n / 10);
      assert Decimal(n)[..|Decimal(n)| - 1] == Decimal(n / 10);
    }
  }

  lemma LineShown(gs: seq<Group>, behind: string)
    requires |behind| > |Decimal(|gs|)|
    ensures FirstSpace(Line(gs)) == |Decimal(|gs|)| < |Line(gs)|
    ensures Shown(Line(gs), behind) == GroupLines(gs) + behind[..|Decimal(|gs|)| + 1]
    ensures Line(gs)[..|Decimal(|gs|)|] == Decimal(|gs|)
  {
    hide GroupLines, Decimal, FirstSpace;
    DecimalDigits(|gs|);
    SpaceAt(Line(gs), |Decimal(|gs|)|);
  }

  /** Fewer than three separators complete no group. */
  lemma {:induction false} FewTaken(z: Scan, s: string)
    requires z.slim + |s| <= 2
    ensures var y := TakeAll(z, s); y.slim <= z.slim + |s| && y.DicVars == z.DicVars && y.pats == z.pats
    decreases |s|
  {
    if s != "" { FewTaken(z, s[..|s| - 1]); }
  }

  /** A description of fewer than ten groups whose formats hold no separators is read back, whatever lies behind it. */
  lemma LineRead(gs: seq<Group>, behind: string)
    requires AllPlain(gs) && |gs| < 10 && |behind| > 1
    ensures FirstSpace(Line(gs)) == 1 < |Line(gs)| && IntValue(Line(gs)[..1]) == |gs|
    ensures TakeAll(START, Shown(Line(gs), behind)).DicVars == GroupInfos(gs)
    ensures TakeAll(START, Shown(Line(gs), behind)).pats == Pats(gs)
  {
    hide TakeAll, GroupLines, GroupInfos, Pats, Line, Shown, IntValue, FirstSpace, AllPlain;
    assert |Decimal(|gs|)| == 1;
    LineShown(gs, behind);
    DecimalValue(|gs|);
    TakeGroups(gs);
    TakeAppend(START, GroupLines(gs), behind[..2]);
    FewTaken(Scan(0, "", 0, 0, GroupInfos(gs), Pats(gs)), behind[..2]);
  }

  /** No format that is read holds a separator. */
  lemma {:induction false} PatsPlain(s: string)
    ensures var z := TakeAll(START, s); Plain(z.pat) && forall i :: 0 <= i < |z.pats| ==> Plain(z.pats[i])
    decreases |s|
  {
    hide Digit, NewInfo, LastLine;
    if s != "" {
      PatsPlain(s[..|s| - 1]);
    }
  }

  /** The formats come back if and only if none of them holds a separator. */
  lemma FormatsComeBack(gs: seq<Group>, behind: string)
    requires |gs| < 10 && |behind| > 1
    ensures FirstSpace(Line(gs)) < |behind|
    ensures TakeAll(START, Shown(Line(gs), behind)).pats == Pats(gs) <==> AllPlain(gs)
  {
    hide TakeAll, GroupLines, Shown, FirstSpace, Line, Plain;
    assert |Decimal(|gs|)| == 1;
    LineShown(gs, behind);
    if AllPlain(gs) { LineRead(gs, behind); }
    PatsPlain(Shown(Line(gs), behind));
    if TakeAll(START, Shown(Line(gs), behind)).pats == Pats(gs) {
      forall i | 0 <= i < |gs| ensures Plain(gs[i].pat) { assert Plain(Pats(gs)[i]); }
    }
  }

  // ----- which formats hold separators -----

  lemma SlotPlain(types: nat)
    ensures Plain(Slot(types))
  {
    hide Decimal;
    DecimalDigits(types);
  }

  lemma PlainJoin(a: string, b: string)
    ensures Plain(a + b) <==> Plain(a) && Plain(b)
  {
    var s := a + b;
    if Plain(s) {
      forall k | 0 <= k < |a| ensures !IsSeparator(a[k]) { assert a[k] == s[k]; }
      forall k | 0 <= k < |b| ensures !IsSeparator(b[k]) { assert b[k] == s[|a| + k]; }
    }
  }

  lemma PlainOne(c: char)
    ensures Plain([c]) <==> !IsSeparator(c)
    ensures IsSeparator(c) ==> CharType(c) == 32
  {
    assert [c][0] == c;
  }

  lemma {:induction false} FormatFromPlain(t: string, n: nat)
    requires n <= |t|
    ensures Plain(FormatFrom(t, n).0) <==> Plain(t[..n])
    decreases n
  {
    hide Plain, Slot, CharType, IsSeparator, AddType;
    if n == 0 {
      assert t[..0] == "";
      assert Plain("") by { NothingPlain(); }
    } else {
      FormatFromPlain(t, n - 1);
      assert t[..n] == t[..n - 1] + [t[n - 1]];
      PlainJoin(t[..n - 1], [t[n - 1]]);
      PlainOne(t[n - 1]);
      var r := FormatFrom(t, n - 1);
      if CharType(t[n - 1]) == 32 {
        SlotPlain(r.1);
        var head := r.0 + (if r.1 != 0 then Slot(r.1) else "");
        NothingPlain();
        PlainJoin(r.0, if r.1 != 0 then Slot(r.1) else "");
        PlainJoin(head, [t[n - 1]]);
      }
    }
  }

  lemma NothingPlain()
    ensures Plain("")
  {}

  /** A format holds a separator if and only if its value does. */
  lemma FormatPlain(t: string)
    ensures Plain(Format(t)) <==> Plain(t)
  {
    hide Slot, FormatFrom;
    if t == " " {
      assert !Plain(t) by { assert IsSeparator(t[0]); }
      assert "<-1> "[4] == ' ';
    } else {
      FormatFromPlain(t, |t|);
      assert t[..|t|] == t;
      var r := FormatFrom(t, |t|);
      SlotPlain(r.1);
      PlainJoin(r.0, if r.1 != 0 then Slot(r.1) else "");
    }
  }
}
