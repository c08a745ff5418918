/** Lzma2Dec_DecodeToDic: whatever the LZMA decoder does inside a chunk, a stream that is decoded to the
    end is one that Lzma2Dec_Parse passes over in the same way. */
module Lzma2Decode {
  import opened Bytes
  import opened Lzma2Dec
  import opened Lzma2Parse

  datatype LzmaStatus = MaybeFinished | MoreInput | Other

  /** What one call of LzmaDec_DecodeToDic did. */
  datatype LzmaCall = LzmaCall(ok: bool, used: nat, made: nat, status: LzmaStatus)

  /** The chunk decoder, and whether LzmaDec still waits for the first byte of the chunk. */
  datatype Run = Run(d: Dec, waits: bool)

  datatype Outcome = Ok | Fails | Stuck

  datatype Decoded = Decoded(run: Run, used: nat, outcome: Outcome, status: Status)

  /** What LzmaDec_DecodeToDic promises: it stays inside the buffers it was given, and it refuses a chunk
      whose first byte is not zero. */
  predicate Fits(c: LzmaCall, s: seq<byte>, inCur: nat, outCur: nat, waits: bool) {
    && c.used <= inCur <= |s| && c.made <= outCur
    && (c.ok && waits && c.used > 0 ==> s[0] == 0)
  }

  function Again(r: Decoded, n: nat): Decoded { r.(used := r.used + n) }

  function Broken(run: Run, n: nat): Decoded { Decoded(run.(d := run.d.(state := Error)), n, Fails, NotSpecified) }

  /** The loop of Lzma2Dec_DecodeToDic; `any` is LZMA_FINISH_ANY. */
  function Decode(run: Run, limit: nat, s: seq<byte>, any: bool, calls: seq<LzmaCall>): (r: Decoded)
    requires run.d.dicPos <= limit
    ensures r.used <= |s|
    decreases |s| + |calls|, 1
  {
    var d := run.d;
    if d.state == Error then Broken(run, 0)
    else if d.state == Finished then Decoded(run, 0, Ok, FinishedWithMark)
    else if d.dicPos == limit && any then Decoded(run, 0, Ok, NotFinished)
    else if !InData(d.state) then
      if s == [] then Decoded(run, 0, Ok, NeedsMoreInput)
      else
        HeadDic(d, s[0]);
        var e := Update(d, s[0]);
        if d.dicPos == limit && e.state != Finished then Broken(run.(d := e), 1)
        else Again(Decode(Run(e, e.state == Data), limit, s[1..], any, calls), 1)
    else if Uncompressed(d) then
      var n := Min(|s|, Min(d.unpackSize, limit - d.dicPos));
      if s == [] then Decoded(run, 0, Ok, NeedsMoreInput)
      else if n == 0 then Broken(run, 0)
      else Again(Decode(Run(Copied(d, n), false), limit, s[n..], any, calls), n)
    else DecodeLzma(run, limit, s, any, calls)
  }

  /** The state after a call of the LZMA decoder. */
  function Called(run: Run, c: LzmaCall): Run
    requires c.used <= run.d.packSize && c.made <= run.d.unpackSize
  {
    var d := run.d;
    Run(d.(packSize := d.packSize - c.used, unpackSize := d.unpackSize - c.made,
        dicPos := d.dicPos + c.made, state := DataCont),
        run.waits && c.used == 0)
  }

  function DecodeLzma(run: Run, limit: nat, s: seq<byte>, any: bool, calls: seq<LzmaCall>): (r: Decoded)
    requires run.d.dicPos <= limit && InData(run.d.state) && !Uncompressed(run.d)
    ensures r.used <= |s|
    decreases |s| + |calls|, 0
  {
    var d := run.d;
    var inCur, outCur := Min(|s|, d.packSize), Min(d.unpackSize, limit - d.dicPos);
    if calls == [] || !Fits(calls[0], s, inCur, outCur, run.waits) then Decoded(run, 0, Stuck, NotSpecified)
    else
      var c := calls[0];
      var e := Called(run, c);
      if !c.ok then Broken(e, c.used)
      else if c.status == MoreInput then
        if e.d.packSize == 0 then Broken(e, c.used) else Decoded(e, c.used, Ok, NeedsMoreInput)
      else if c.used == 0 && c.made == 0 then
        if c.status != MaybeFinished || e.d.unpackSize != 0 || e.d.packSize != 0 then Broken(e, c.used)
        else Again(Decode(Run(e.d.(state := Control), false), limit, s[c.used..], any, calls[1..]), c.used)
      else Again(Decode(e, limit, s[c.used..], any, calls[1..]), c.used)
  }

  // ----- decoding and the grammar side by side -----

  /** In the data of an LZMA chunk the grammar counts the output only when the input of the chunk is used up. */
  ghost predicate Beside(run: Run, w: Dec) {
    var d := run.d;
    if InData(d.state) && !Uncompressed(d) then
      if d.packSize > 0 then
        w == d.(unpackSize := w.unpackSize, dicPos := w.dicPos, state := if run.waits then Data else DataCont)
        && w.dicPos + w.unpackSize == d.dicPos + d.unpackSize
      else w == d.(unpackSize := 0, dicPos := d.dicPos + d.unpackSize, state := Control)
    else w == d
  }

  lemma BesideHead(run: Run, w: Dec, s: seq<byte>)
    requires Beside(run, w) && Sized(w) && !InData(run.d.state) && !Over(run.d) && s != []
    ensures var e := Update(run.d, s[0]);
            Beside(Run(e, e.state == Data), e) && Walk(w, s[..1]) == e && Used(w, s[..1]) == 1 && Sized(e)
  {
    WalkStep(w, s);
    FeedSized(w, s[0]);
    hide Update;
  }

  lemma BesideCopy(run: Run, w: Dec, s: seq<byte>, n: nat)
    requires Beside(run, w) && Sized(w) && InData(run.d.state) && Uncompressed(run.d)
             && 0 < n <= Min(|s|, run.d.unpackSize)
    ensures var e := Copied(run.d, n);
            Beside(Run(e, false), e) && Walk(w, s[..n]) == e && Used(w, s[..n]) == n && Sized(e)
  {
    WalkCopy(w, s[..n]);
  }

  lemma BesideLzma(run: Run, w: Dec, s: seq<byte>, c: LzmaCall)
    requires Beside(run, w) && Sized(w) && InData(run.d.state) && !Uncompressed(run.d)
    requires c.ok && c.made <= run.d.unpackSize && Fits(c, s, Min(|s|, run.d.packSize), c.made, run.waits)
    ensures Beside(Called(run, c), Walk(w, s[..c.used])) && Used(w, s[..c.used]) == c.used
            && Sized(Walk(w, s[..c.used]))
  {
    WalkSized(w, s[..c.used]);
    if c.used > 0 {
      WalkPacked(w, s[..c.used]);
    } else {
      assert s[..c.used] == [];
    }
  }

  /** The chunk is done. */
  lemma BesideEnd(run: Run, w: Dec)
    requires Beside(run, w) && InData(run.d.state) && !Uncompressed(run.d) && run.d.packSize == 0
             && run.d.unpackSize == 0
    ensures Beside(Run(run.d.(state := Control), false), w)
  {}

  /** What a successful call keeps. */
  ghost predicate Kept(w: Dec, limit: nat, s: seq<byte>, r: Decoded)
    requires r.used <= |s|
  {
    r.outcome == Ok ==>
      && Beside(r.run, Walk(w, s[..r.used])) && Used(w, s[..r.used]) == r.used && Sized(Walk(w, s[..r.used]))
      && (r.status == FinishedWithMark <==> r.run.d.state == Finished) && r.run.d.dicPos <= limit
  }

  lemma KeptMore(w: Dec, limit: nat, s: seq<byte>, n: nat, e: Dec, r: Decoded)
    requires n <= |s| && Walk(w, s[..n]) == e && Used(w, s[..n]) == n && r.used <= |s[n..]| && Kept(e, limit, s[n..], r)
    ensures Kept(w, limit, s, Again(r, n))
  {
    hide Walk, Used, Beside, Sized;
    var t := s[n..][..r.used];
    assert s[..n + r.used] == s[..n] + t;
    WalkAppend(w, s[..n], t);
  }

  lemma KeptHere(run: Run, w: Dec, limit: nat, s: seq<byte>, status: Status)
    requires Beside(run, w) && Sized(w) && run.d.dicPos <= limit
             && (status == FinishedWithMark <==> run.d.state == Finished)
    ensures Kept(w, limit, s, Decoded(run, 0, Ok, status))
  {
    hide Beside, Sized;
  }

  lemma KeptNot(w: Dec, limit: nat, s: seq<byte>, r: Decoded)
    requires r.used <= |s| && r.outcome != Ok
    ensures Kept(w, limit, s, r)
  {}

  lemma {:induction false} DecodeFollows(run: Run, w: Dec, limit: nat, s: seq<byte>, any: bool, calls: seq<LzmaCall>)
    requires run.d.dicPos <= limit && Beside(run, w) && Sized(w)
    ensures Kept(w, limit, s, Decode(run, limit, s, any, calls))
    decreases |s| + |calls|, 1
  {
    hide Walk, Used, Beside, Sized, Update, Copied, Kept, DecodeLzma;
    var d, r := run.d, Decode(run, limit, s, any, calls);
    if r.outcome != Ok {
      KeptNot(w, limit, s, r);
    } else if Over(d) || (d.dicPos == limit && any) || (s == [] && (!InData(d.state) || Uncompressed(d))) {
      KeptHere(run, w, limit, s, r.status);
    } else if !InData(d.state) {
      HeadDic(d, s[0]);
      var e := Update(d, s[0]);
      BesideHead(run, w, s);
      DecodeFollows(Run(e, e.state == Data), e, limit, s[1..], any, calls);
      KeptMore(w, limit, s, 1, e, Decode(Run(e, e.state == Data), limit, s[1..], any, calls));
    } else if Uncompressed(d) {
      var n := Min(|s|, Min(d.unpackSize, limit - d.dicPos));
      CopiedDic(d, n);
      BesideCopy(run, w, s, n);
      var e := Copied(d, n);
      DecodeFollows(Run(e, false), e, limit, s[n..], any, calls);
      KeptMore(w, limit, s, n, e, Decode(Run(e, false), limit, s[n..], any, calls));
    } else {
      LzmaFollows(run, w, limit, s, any, calls);
    }
  }

  lemma CopiedDic(d: Dec, n: nat)
    requires n <= d.unpackSize
    ensures Copied(d, n).dicPos == d.dicPos + n
  {}

  lemma {:induction false} LzmaFollows(run: Run, w: Dec, limit: nat, s: seq<byte>, any: bool, calls: seq<LzmaCall>)
    requires run.d.dicPos <= limit && Beside(run, w) && Sized(w) && InData(run.d.state) && !Uncompressed(run.d)
    ensures Kept(w, limit, s, DecodeLzma(run, limit, s, any, calls))
    decreases |s| + |calls|, 0
  {
    hide Walk, Used, Beside, Sized, Decode, Kept;
    var r := DecodeLzma(run, limit, s, any, calls);
    if r.outcome != Ok {
      KeptNot(w, limit, s, r);
    } else {
      var c := calls[0];
      var e := Called(run, c);
      BesideLzma(run, w, s, c);
      var v := Walk(w, s[..c.used]);
      if c.status == MoreInput {
        KeptHere(e, v, limit, s[c.used..], NeedsMoreInput);
        KeptMore(w, limit, s, c.used, v, Decoded(e, 0, Ok, NeedsMoreInput));
      } else {
        var e' := if c.used == 0 && c.made == 0 then Run(e.d.(state := Control), false) else e;
        if c.used == 0 && c.made == 0 { BesideEnd(e, v); }
        DecodeFollows(e', v, limit, s[c.used..], any, calls[1..]);
        KeptMore(w, limit, s, c.used, v, Decode(e', limit, s[c.used..], any, calls[1..]));
      }
    }
  }

  // ----- whole streams -----

  /** One call of Lzma2Dec_DecodeToDic: the limit, the mode, what is added to the input, what LZMA does. */
  datatype Ask = Ask(limit: nat, any: bool, piece: seq<byte>, calls: seq<LzmaCall>)

  /** Calls until the end mark; input that a call leaves is offered again. */
  function DecodeAll(run: Run, have: seq<byte>, asks: seq<Ask>): Decoded
    decreases |asks|
  {
    if asks == [] || asks[0].limit < run.d.dicPos then Decoded(run, 0, Stuck, NotSpecified)
    else
      var a := asks[0];
      var s := have + a.piece;
      var r := Decode(run, a.limit, s, a.any, a.calls);
      if r.outcome != Ok || r.status == FinishedWithMark then r
          else Again(DecodeAll(r.run, s[r.used..], asks[1..]), r.used)
  }

  function Input(asks: seq<Ask>): seq<byte> {
    if asks == [] then [] else asks[0].piece + Input(asks[1..])
  }

  lemma {:induction false} DecodeAllFollows(run: Run, w: Dec, have: seq<byte>, asks: seq<Ask>)
    requires Beside(run, w) && Sized(w)
    ensures var r := DecodeAll(run, have, asks);
            r.outcome == Ok ==>
              && r.run.d.state == Finished && Walk(w, have + Input(asks)) == r.run.d
              && Used(w, have + Input(asks)) == r.used
    decreases |asks|
  {
    hide Walk, Used, Sized, Decode;
    if asks != [] && asks[0].limit >= run.d.dicPos {
      var a := asks[0];
      var s, rest := have + a.piece, Input(asks[1..]);
      var r := Decode(run, a.limit, s, a.any, a.calls);
      assert have + Input(asks) == s + rest;
      DecodeFollows(run, w, a.limit, s, a.any, a.calls);
      if r.outcome == Ok {
        var v, left := Walk(w, s[..r.used]), s[r.used..] + rest;
        assert s + rest == s[..r.used] + left;
        WalkAppend(w, s[..r.used], left);
        if r.status == FinishedWithMark {
          OverStays(v, left);
        } else {
          assert s[r.used..] + rest == left;
          DecodeAllFollows(r.run, v, s[r.used..], asks[1..]);
        }
      }
    }
  }

  /** If any calls of Lzma2Dec_DecodeToDic decode a stream to its end mark, then Lzma2Dec_Parse, fed the
      same stream in any pieces with room for all of the output, also ends at the end mark, at the same
      position, with the same properties and the same number of bytes used. */
  lemma DecodedIsParsed(asks: seq<Ask>, pieces: seq<seq<byte>>, out: nat)
    requires var r := DecodeAll(Run(INIT, false), [], asks); r.outcome == Ok && r.run.d.dicPos <= out
    requires Join(pieces) == Input(asks)
    ensures var r, p := DecodeAll(Run(INIT, false), [], asks), ParseAll(INIT, out, [], pieces);
            p.status == FinishedWithMark && p.d == r.run.d && p.used == r.used
  {
    hide DecodeAll, ParseAll, Walk, Used;
    DecodeAllFollows(Run(INIT, false), INIT, [], asks);
    assert [] + Input(asks) == [] + Join(pieces);
    ParseAnyPieces(INIT, out, [], pieces);
  }
}
