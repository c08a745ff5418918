/** The chunk grammar of LZMA2, compression/LZMA/Lzma2Dec.c: the header automaton and Lzma2Dec_Parse. */
module Lzma2Dec {
  import opened Bytes

  datatype State = Control | Unpack0 | Unpack1 | Pack0 | Pack1 | Prop | Data | DataCont | Finished | Error

  const COPY_RESET_DIC: byte := 1
  const LCLP_MAX: nat := 4

  /** Bitwise or of two non-negative integers. */
  function Or(a: nat, b: nat): nat
    decreases a + b
  {
    if a == 0 && b == 0 then 0 else 2 * Or(a / 2, b / 2) + if a % 2 == 1 || b % 2 == 1 then 1 else 0
  }

  datatype Props = Props(lc: nat, lp: nat, pb: nat)

  /** The fields of CLzma2Dec. */
  datatype Dec = Dec(state: State, control: byte, needInitLevel: byte,
      unpackSize: nat, packSize: nat, dicPos: nat, props: Props)

  /** Lzma2Dec_Init. */
  const INIT := Dec(Control, 0, 0xE0, 0, 0, 0, Props(0, 0, 0))

  predicate Uncompressed(d: Dec) { d.control < 0x80 }

  /** Lzma2Dec_UpdateState. */
  function Update(d: Dec, b: byte): Dec {
    match d.state
    case Control =>
      var e := d.(control := b);
      if b == 0 then e.(state := Finished)
      else if b < 0x80 then
        if b == COPY_RESET_DIC then e.(needInitLevel := 0xC0, state := Unpack0)
        else if b > 2 || d.needInitLevel == 0xE0 then e.(state := Error)
        else e.(state := Unpack0)
      else if b < d.needInitLevel then e.(state := Error)
      else e.(needInitLevel := 0, unpackSize := 0x1_0000 * (b % 0x20), state := Unpack0)
    case Unpack0 => d.(unpackSize := Or(d.unpackSize, 0x100 * b), state := Unpack1)
    case Unpack1 =>
      d.(unpackSize := Or(d.unpackSize, b) + 1, state := if Uncompressed(d) then Data else Pack0)
    case Pack0 => d.(packSize := 0x100 * b, state := Pack1)
    case Pack1 => d.(packSize := Or(d.packSize, b) + 1, state := if d.control / 0x40 % 2 == 1 then Prop else Data)
    case Prop =>
      var lc, lp, pb := b % 9, b / 9 % 5, b / 9 / 5;
      if b >= 9 * 5 * 5 then d.(state := Error)
      else if lc + lp > LCLP_MAX then d.(state := Error, props := d.props.(pb := pb))
      else d.(state := Data, props := Props(lc, lp, pb))
    case _ => d.(state := Error)
  }

  predicate InData(s: State) { s == Data || s == DataCont }

  // ----- the grammar, one byte at a time -----

  /** One byte of the stream; the data of a chunk is passed over. */
  function Feed(d: Dec, b: byte): Dec {
    if !InData(d.state) then Update(d, b)
    else if Uncompressed(d) then
      var u := if d.unpackSize > 0 then d.unpackSize - 1 else 0;
      d.(unpackSize := u, dicPos := d.dicPos + 1, state := if u == 0 then Control else DataCont)
    else
      var k := if d.packSize > 0 then d.packSize - 1 else 0;
      if d.state == Data && b != 0 then d.(packSize := k, state := Error)
      else if k == 0 then d.(packSize := 0, dicPos := d.dicPos + d.unpackSize, unpackSize := 0, state := Control)
      else d.(packSize := k, state := DataCont)
  }

  predicate Over(d: Dec) { d.state == Finished || d.state == Error }

  /** A stretch of the stream; nothing is read behind the end mark or an error. */
  function Walk(d: Dec, s: seq<byte>): (r: Dec)
    decreases |s|
  {
    if s == [] || Over(d) then d else Walk(Feed(d, s[0]), s[1..])
  }

  function Used(d: Dec, s: seq<byte>): (n: nat)
    ensures n <= |s|
    decreases |s|
  {
    if s == [] || Over(d) then 0 else 1 + Used(Feed(d, s[0]), s[1..])
  }

  lemma {:induction false} WalkAppend(d: Dec, s: seq<byte>, t: seq<byte>)
    ensures Walk(d, s + t) == Walk(Walk(d, s), t)
    ensures Used(d, s + t) == Used(d, s) + Used(Walk(d, s), t)
    decreases |s|
  {
    hide Feed;
    if s == [] {
      assert s + t == t;
    } else if !Over(d) {
      assert (s + t)[1..] == s[1..] + t;
      WalkAppend(Feed(d, s[0]), s[1..], t);
    } else {
      OverStays(d, s + t);
      OverStays(d, t);
      OverStays(d, s);
    }
  }

  lemma OverStays(d: Dec, s: seq<byte>)
    requires Over(d)
    ensures Walk(d, s) == d && Used(d, s) == 0
  {}

  /** What the sizes are when data comes, and that nothing is left over between chunks. */
  predicate Sized(d: Dec) {
    && (d.state == Control ==> d.unpackSize == 0)
    && (InData(d.state) ==> d.unpackSize > 0 && (!Uncompressed(d) ==> d.packSize > 0))
    && (d.state == Unpack0 || d.state == Unpack1 || d.state == Pack0 || d.state == Pack1 ==> 0 < d.control)
    && (d.state == Prop || InData(d.state) ==> 0 < d.control)
    && (d.state == Pack0 || d.state == Pack1 || d.state == Prop ==> !Uncompressed(d) && d.unpackSize > 0)
    && (d.state == Prop ==> d.packSize > 0)
  }

  lemma FeedSized(d: Dec, b: byte)
    requires Sized(d) && !Over(d)
    ensures Sized(Feed(d, b))
  {
    hide Or;
  }

  lemma {:induction false} WalkSized(d: Dec, s: seq<byte>)
    requires Sized(d)
    ensures Sized(Walk(d, s))
    decreases |s|
  {
    hide Feed, Sized;
    if s != [] && !Over(d) {
      FeedSized(d, s[0]);
      WalkSized(Feed(d, s[0]), s[1..]);
    }
  }

  lemma FeedDic(d: Dec, b: byte)
    ensures d.dicPos <= Feed(d, b).dicPos
  {
    hide Or;
  }

  lemma {:induction false} WalkDic(d: Dec, s: seq<byte>)
    ensures d.dicPos <= Walk(d, s).dicPos
    decreases |s|
  {
    hide Feed;
    if s != [] && !Over(d) {
      FeedDic(d, s[0]);
      WalkDic(Feed(d, s[0]), s[1..]);
    }
  }

  // ----- passing over several data bytes at once -----

  lemma {:induction false} WalkCopy(d: Dec, s: seq<byte>)
    requires InData(d.state) && Uncompressed(d) && 0 < |s| <= d.unpackSize
    ensures var u := d.unpackSize - |s|;
            Walk(d, s) == d.(unpackSize := u, dicPos := d.dicPos + |s|, state := if u == 0 then Control else DataCont)
    ensures Used(d, s) == |s|
    decreases |s|
  {
    hide Or;
    if |s| > 1 {
      WalkCopy(Feed(d, s[0]), s[1..]);
    } else {
      assert s[1..] == [];
    }
  }

  lemma {:induction false} WalkPacked(d: Dec, s: seq<byte>)
    requires InData(d.state) && !Uncompressed(d) && 0 < |s| <= d.packSize && (d.state == Data ==> s[0] == 0)
    ensures Used(d, s) == |s|
    ensures Walk(d, s) == if |s| == d.packSize then d.(packSize := 0, dicPos := d.dicPos + d.unpackSize,
            unpackSize := 0, state := Control)
                          else d.(packSize := d.packSize - |s|, state := DataCont)
    decreases |s|
  {
    hide Or;
    if |s| > 1 {
      WalkPacked(Feed(d, s[0]), s[1..]);
    } else {
      assert s[1..] == [];
    }
  }

  lemma WalkOne(d: Dec, b: byte)
    requires !Over(d)
    ensures Walk(d, [b]) == Feed(d, b) && Used(d, [b]) == 1
  {
    hide Feed;
    assert [b][1..] == [];
  }

  // ----- Lzma2Dec_Parse -----

  datatype Status = FinishedWithMark | NotFinished | NeedsMoreInput | NewBlock | NewChunk | NotSpecified

  /** What a call of Lzma2Dec_Parse leaves: the state, the bytes of output left, the input used. */
  datatype Parsed = Parsed(d: Dec, out: nat, used: nat, status: Status)

  function Min(a: nat, b: nat): nat { if a < b then a else b }

  /** What a call of Lzma2Dec_Parse may start from: also from a chunk whose output did not fit. */
  predicate Ready(d: Dec) {
    Sized(d) || (d.state == DataCont && !Uncompressed(d) && d.packSize == 0 && d.unpackSize > 0)
  }

  function More(r: Parsed, n: nat): Parsed { r.(used := r.used + n) }

  /** The loop, from a state with `out` bytes of output left; used counts from there. */
  function Parse(d: Dec, out: nat, s: seq<byte>, check: bool): (r: Parsed)
    requires Ready(d)
    ensures r.used <= |s|
    decreases |s|, out, 1
  {
    if d.state == Error then Parsed(d, out, 0, NotSpecified)
    else if d.state == Finished then Parsed(d, out, 0, FinishedWithMark)
    else if out == 0 && !check then Parsed(d, out, 0, NotFinished)
    else if !InData(d.state) then ParseHead(d, out, s, check)
    else if out == 0 then Parsed(d, out, 0, NotFinished)
    else if Uncompressed(d) then ParseCopy(d, out, s, check)
    else ParsePacked(d, out, s, check)
  }

  function ParseHead(d: Dec, out: nat, s: seq<byte>, check: bool): (r: Parsed)
    requires Ready(d) && !InData(d.state) && !Over(d)
    ensures r.used <= |s|
    decreases |s|, out, 0
  {
    if s == [] then Parsed(d, out, 0, NeedsMoreInput)
    else
      FeedSized(d, s[0]);
      var e := Update(d, s[0]);
      var (ends, status) := HeaderEnds(e, out);
      if ends then Parsed(e, out, 1, status) else More(Parse(e, out, s[1..], check), 1)
  }

  function ParseCopy(d: Dec, out: nat, s: seq<byte>, check: bool): (r: Parsed)
    requires Ready(d) && InData(d.state) && Uncompressed(d) && out > 0
    ensures r.used <= |s|
    decreases |s|, out, 0
  {
    if s == [] then Parsed(d, out, 0, NeedsMoreInput)
    else
      var n := Min(Min(|s|, d.unpackSize), out);
      More(Parse(Copied(d, n), out - n, s[n..], check), n)
  }

  function Copied(d: Dec, n: nat): Dec
    requires n <= d.unpackSize
  {
    var u := d.unpackSize - n;
    d.(dicPos := d.dicPos + n, unpackSize := u, state := if u == 0 then Control else DataCont)
  }

  function ParsePacked(d: Dec, out: nat, s: seq<byte>, check: bool): (r: Parsed)
    requires Ready(d) && InData(d.state) && !Uncompressed(d) && out > 0
    ensures r.used <= |s|
    decreases |s|, out, 0
  {
    if s == [] && d.packSize != 0 then Parsed(d, out, 0, NeedsMoreInput)
    else if s != [] && d.state == Data && s[0] != 0 then
      Parsed(d.(state := Error, packSize := if d.packSize > 0 then d.packSize - 1 else 0), out, 1, NotSpecified)
    else
      var n := Min(|s|, d.packSize);
      var e := d.(packSize := d.packSize - n, state := if s != [] then DataCont else d.state);
      if e.packSize > 0 then More(Parse(e, out, s[n..], check), n)
      else
        var rem := Min(out, e.unpackSize);
        More(Parse(Unpacked(e, rem), out - rem, s[n..], check), n)
  }

  /** The output of a chunk whose input is used up. */
  function Unpacked(e: Dec, rem: nat): Dec
    requires rem <= e.unpackSize
  {
    var u := e.unpackSize - rem;
    e.(dicPos := e.dicPos + rem, unpackSize := u, state := if u == 0 then Control else e.state)
  }

  /** The class of CLzma2Dec, as far as the chunk grammar is concerned. */
  class Decoder {
    var state: State
    var control: byte
    var needInitLevel: byte
    var unpackSize: nat
    var packSize: nat
    var dicPos: nat
    var props: Props

    function Abs(): Dec
      reads this
    {
      Dec(state, control, needInitLevel, unpackSize, packSize, dicPos, props)
    }

    constructor ()
      ensures Abs() == INIT && Sized(Abs())
    {
      state, control, needInitLevel, unpackSize, packSize, dicPos, props := Control, 0, 0xE0, 0, 0, 0, Props(0, 0, 0);
    }

    /** Lzma2Dec_UpdateState, with the assignment of its result. */
    method UpdateState(b: byte)
      modifies this
      ensures Abs() == Update(old(Abs()), b)
    {
      match state {
        case Control =>
          control := b;
          if b == 0 { state := Finished; return; }
          if b < 0x80 {
            if b == COPY_RESET_DIC { needInitLevel := 0xC0; }
            else if b > 2 || needInitLevel == 0xE0 { state := Error; return; }
          } else {
            if b < needInitLevel { state := Error; return; }
            needInitLevel := 0;
            unpackSize := 0x1_0000 * (b % 0x20);
          }
          state := Unpack0;
        case Unpack0 =>
          unpackSize := Or(unpackSize, 0x100 * b);
          state := Unpack1;
        case Unpack1 =>
          unpackSize := Or(unpackSize, b) + 1;
          state := if control < 0x80 then Data else Pack0;
        case Pack0 =>
          packSize := 0x100 * b;
          state := Pack1;
        case Pack1 =>
          packSize := Or(packSize, b) + 1;
          state := if control / 0x40 % 2 == 1 then Prop else Data;
        case Prop =>
          if b >= 9 * 5 * 5 { state := Error; return; }
          var lc, c := b % 9, b / 9;
          props := props.(pb := c / 5);
          var lp := c % 5;
          if lc + lp > LCLP_MAX { state := Error; return; }
          props := props.(lc := lc, lp := lp);
          state := Data;
        case _ =>
          state := Error;
      }
    }

    /** The data of an uncompressed chunk, in Lzma2Dec_Parse. */
    method PassCopied(avail: nat, out: nat) returns (n: nat)
      requires InData(state) && 0 < unpackSize && 0 < avail && 0 < out
      modifies this`dicPos, this`unpackSize, this`state
      ensures n == Min(Min(avail, old(unpackSize)), out) && Abs() == Copied(old(Abs()), n)
    {
      n := avail;
      if n > unpackSize { n := unpackSize; }
      if n > out { n := out; }
      dicPos := dicPos + n;
      unpackSize := unpackSize - n;
      state := if unpackSize == 0 then Control else DataCont;
    }

    /** The data of an LZMA chunk, in Lzma2Dec_Parse: the input used and the output passed over. */
    method PassPacked(avail: nat, out: nat) returns (n: nat, rem: nat)
      requires InData(state)
      modifies this`dicPos, this`packSize, this`unpackSize, this`state
      ensures n == Min(avail, old(packSize))
      ensures var e := old(Abs()).(packSize := old(packSize) - n, state := if avail > 0 then DataCont else old(state));
              rem == (if e.packSize > 0 then 0 else Min(out, e.unpackSize)) && Abs() == if e.packSize > 0 then e
                  else Unpacked(e, rem)
    {
      if avail > 0 { state := DataCont; }
      n, rem := avail, 0;
      if n > packSize { n := packSize; }
      packSize := packSize - n;
      if packSize == 0 {
        rem := out;
        if rem > unpackSize { rem := unpackSize; }
        dicPos := dicPos + rem;
        unpackSize := unpackSize - rem;
        if unpackSize == 0 { state := Control; }
      }
    }

    /** A header byte, in Lzma2Dec_Parse: whether and how the call ends with it. */
    method PassHeader(b: byte, out: nat) returns (ends: bool, status: Status)
      modifies this
      ensures Abs() == Update(old(Abs()), b) && (ends, status) == HeaderEnds(Abs(), out)
    {
      UpdateState(b);
      if state == Unpack0 {
        if control == COPY_RESET_DIC || control >= 0xE0 { return true, NewBlock; }
      }
      if out == 0 && state != Finished { return true, NotFinished; }
      if state == Data { return true, NewChunk; }
      return false, NotSpecified;
    }

    /** A round of Lzma2Dec_Parse in the data of a chunk. */
    method PassData(src: seq<byte>, used: nat, out: nat, check: bool)
      returns (ends: bool, status: Status, n: nat, rem: nat)
      requires Ready(Abs()) && InData(state) && used <= |src| && out > 0
      modifies this
      ensures used + n <= |src| && rem <= out && Ready(Abs())
      ensures var r := Parse(old(Abs()), out, src[used..], check);
              if ends then r.d == Abs() && r.used == n && r.status == status
              else n + rem > 0 && r == More(Parse(Abs(), out - rem, src[used + n..], check), n)
    {
      hide Sized, Update, Parse, Ready, Copied, Unpacked, ParseHead, ParseCopy, ParsePacked, HeaderEnds;
      ghost var d, s := Abs(), src[used..];
      ParseIs(d, out, s, check);
      if s == [] { NoInput(d, out, check); }
      DataSizes(d);
      var inCur := |src| - used;
      if control < 0x80 {
        if inCur == 0 { return true, NeedsMoreInput, 0, 0; }
        CopyIs(d, out, s, check);
        n := PassCopied(inCur, out);
        rem := n;
      } else {
        if inCur == 0 && packSize != 0 { return true, NeedsMoreInput, 0, 0; }
        PackedIs(d, out, s, check);
        if inCur != 0 && state == Data {
          Tail(src, used, 1);
          if src[used] != 0 {
            packSize := packSize - 1;
            state := Error;
            return true, NotSpecified, 1, 0;
          }
        }
        n, rem := PassPacked(inCur, out);
      }
      Tail(src, used, n);
      return false, NotSpecified, n, rem;
    }

    /** Lzma2Dec_Parse. */
    method ParseStream(outSize: nat, src: seq<byte>, checkFinishBlock: bool) returns (status: Status, used: nat)
      requires Ready(Abs())
      modifies this
      ensures used <= |src| && Ready(Abs())
      ensures var r := Parse(old(Abs()), outSize, src, checkFinishBlock);
              Abs() == r.d && used == r.used && status == r.status
    {
      hide Sized, Update, Parse, Ready, Copied, Unpacked, ParseHead, ParseCopy, ParsePacked, HeaderEnds;
      var out: nat := outSize;
      used := 0;
      ghost var all := Parse(Abs(), out, src, checkFinishBlock);
      assert src[0..] == src;
      while state != Error
        invariant used <= |src| && Ready(Abs())
        invariant More(Parse(Abs(), out, src[used..], checkFinishBlock), used) == all
        decreases |src| - used, out, state != Error
      {
        ghost var d, s := Abs(), src[used..];
        ParseIs(d, out, s, checkFinishBlock);
        if s == [] { NoInput(d, out, checkFinishBlock); }
        if state == Finished { return FinishedWithMark, used; }
        if out == 0 && !checkFinishBlock { return NotFinished, used; }
        if state != Data && state != DataCont {
          if used == |src| { return NeedsMoreInput, used; }
          HeadIs(d, out, s, checkFinishBlock);
          Tail(src, used, 1);
          var ends;
          ends, status := PassHeader(src[used], out);
          used := used + 1;
          if ends { return; }
          continue;
        }
        if out == 0 { return NotFinished, used; }
        var ends, n, rem;
        ends, status, n, rem := PassData(src, used, out, checkFinishBlock);
        used, out := used + n, out - rem;
        if ends { return; }
      }
      ParseIs(Abs(), out, src[used..], checkFinishBlock);
      return NotSpecified, used;
    }
  }

  lemma Tail(src: seq<byte>, used: nat, n: nat)
    requires used + n <= |src|
    ensures src[used..][n..] == src[used + n..] && (n > 0 ==> src[used..] != [] && src[used..][0] == src[used])
  {}

  /** After a header byte: a new block, a new chunk, or no room for the data that must follow. */
  function HeaderEnds(e: Dec, out: nat): (bool, Status) {
    if e.state == Unpack0 && (e.control == COPY_RESET_DIC || e.control >= 0xE0) then (true, NewBlock)
    else if out == 0 && e.state != Finished then (true, NotFinished)
    else if e.state == Data then (true, NewChunk)
    else (false, NotSpecified)
  }

  lemma DataSizes(d: Dec)
    requires InData(d.state) && Ready(d)
    ensures d.unpackSize > 0 && (d.state == Data && !Uncompressed(d) ==> d.packSize > 0)
  {}

  lemma ParseIs(d: Dec, out: nat, s: seq<byte>, check: bool)
    requires Ready(d)
    ensures d.state == Error ==> Parse(d, out, s, check) == Parsed(d, out, 0, NotSpecified)
    ensures d.state == Finished ==> Parse(d, out, s, check) == Parsed(d, out, 0, FinishedWithMark)
    ensures !Over(d) && out == 0 && !check ==> Parse(d, out, s, check) == Parsed(d, out, 0, NotFinished)
    ensures !Over(d) && (out > 0 || check) && !InData(d.state) ==>
            Parse(d, out, s, check) == ParseHead(d, out, s, check)
    ensures InData(d.state) && out == 0 ==> Parse(d, out, s, check) == Parsed(d, out, 0, NotFinished)
    ensures InData(d.state) && out > 0 && Uncompressed(d) ==> Parse(d, out, s, check) == ParseCopy(d, out, s, check)
    ensures InData(d.state) && out > 0 && !Uncompressed(d) ==> Parse(d, out, s, check) == ParsePacked(d, out, s, check)
  {
    hide Update, Sized, Ready;
  }

  lemma NoInput(d: Dec, out: nat, check: bool)
    requires Ready(d)
    ensures !Over(d) && !InData(d.state) ==> ParseHead(d, out, [], check) == Parsed(d, out, 0, NeedsMoreInput)
    ensures InData(d.state) && out > 0 && Uncompressed(d) ==>
            ParseCopy(d, out, [], check) == Parsed(d, out, 0, NeedsMoreInput)
    ensures InData(d.state) && out > 0 && !Uncompressed(d) && d.packSize != 0 ==>
              ParsePacked(d, out, [], check) == Parsed(d, out, 0, NeedsMoreInput)
  {
    hide Parse, Update;
  }

  lemma HeadIs(d: Dec, out: nat, s: seq<byte>, check: bool)
    requires Ready(d) && !InData(d.state) && !Over(d) && s != []
    ensures var e := Update(d, s[0]);
            && Ready(e)
            && ParseHead(d, out, s, check) ==
               if HeaderEnds(e, out).0 then Parsed(e, out, 1, HeaderEnds(e, out).1)
                   else More(Parse(e, out, s[1..], check), 1)
  {
    FeedSized(d, s[0]);
    hide Update, Sized, Parse;
  }

  lemma CopyIs(d: Dec, out: nat, s: seq<byte>, check: bool)
    requires Ready(d) && InData(d.state) && Uncompressed(d) && out > 0 && s != []
    ensures var n := Min(Min(|s|, d.unpackSize), out);
            0 < n && Ready(Copied(d, n)) && ParseCopy(d, out, s, check)
                == More(Parse(Copied(d, n), out - n, s[n..], check), n)
  {
    hide Parse;
  }

  lemma PackedIs(d: Dec, out: nat, s: seq<byte>, check: bool)
    requires Ready(d) && InData(d.state) && !Uncompressed(d) && out > 0 && (s == [] ==> d.packSize == 0)
    ensures if s != [] && d.state == Data && s[0] != 0 then
              d.packSize > 0 && ParsePacked(d, out, s, check)
                  == Parsed(d.(state := Error, packSize := d.packSize - 1), out, 1, NotSpecified)
              && Ready(d.(state := Error, packSize := d.packSize - 1))
            else
              var n := Min(|s|, d.packSize);
              var e := d.(packSize := d.packSize - n, state := if s != [] then DataCont else d.state);
              var rem := Min(out, e.unpackSize);
              if e.packSize > 0 then n > 0 && Ready(e) && ParsePacked(d, out, s, check)
                  == More(Parse(e, out, s[n..], check), n)
              else
                && rem > 0 && Ready(Unpacked(e, rem))
                && ParsePacked(d, out, s, check) == More(Parse(Unpacked(e, rem), out - rem, s[n..], check), n)
  {
    hide Parse;
  }
}
