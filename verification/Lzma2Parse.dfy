/** Lzma2Dec_Parse against the byte-wise grammar, and Lzma2Dec_DecodeToDic against both. */
module Lzma2Parse {
  import opened Bytes
  import opened Lzma2Dec

  /** The bytes of output that are certain to come before the end mark. */
  function Owed(d: Dec): nat {
    if Over(d) || d.state == Control then 0 else if InData(d.state) then d.unpackSize else 1
  }

  lemma FeedOwed(d: Dec, b: byte)
    requires Sized(d) && !Over(d) && Feed(d, b).state != Error
    ensures d.dicPos + Owed(d) <= Feed(d, b).dicPos + Owed(Feed(d, b))
  {
    hide Or;
  }

  /** A stream that ends well brings all the output that is owed. */
  lemma {:induction false} OwedComes(d: Dec, s: seq<byte>)
    requires Sized(d) && Walk(d, s).state == Finished
    ensures d.dicPos + Owed(d) <= Walk(d, s).dicPos
    decreases |s|
  {
    hide Feed, Sized;
    if s != [] && !Over(d) {
      FeedSized(d, s[0]);
      NoError(d, s);
      OwedComes(Feed(d, s[0]), s[1..]);
      FeedOwed(d, s[0]);
    }
  }

  lemma NoError(d: Dec, s: seq<byte>)
    requires s != [] && !Over(d) && Walk(d, s).state == Finished
    ensures Feed(d, s[0]).state != Error
  {
    hide Feed;
    if Feed(d, s[0]).state == Error { OverStays(Feed(d, s[0]), s[1..]); }
  }

  /** Room for everything up to the end mark of s + rest. */
  ghost predicate Enough(d: Dec, out: nat, s: seq<byte>, rest: seq<byte>) {
    Sized(d) && Walk(d, s + rest).state == Finished && Walk(d, s + rest).dicPos <= d.dicPos + out
  }

  lemma EnoughNext(d: Dec, out: nat, s: seq<byte>, rest: seq<byte>, e: Dec, n: nat)
    requires Enough(d, out, s, rest) && n <= |s| && Walk(d, s[..n]) == e
    ensures d.dicPos <= e.dicPos <= d.dicPos + out && Enough(e, out - (e.dicPos - d.dicPos), s[n..], rest)
    ensures Used(d, s[..n]) == n ==> Used(d, s + rest) == n + Used(e, s[n..] + rest)
  {
    hide Sized, Walk, Used;
    assert s + rest == s[..n] + (s[n..] + rest);
    WalkAppend(d, s[..n], s[n..] + rest);
    WalkSized(d, s[..n]);
    WalkDic(d, s[..n]);
    WalkDic(e, s[n..] + rest);
  }

  lemma WalkStep(d: Dec, s: seq<byte>)
    requires s != [] && !Over(d)
    ensures Walk(d, s[..1]) == Feed(d, s[0]) && Used(d, s[..1]) == 1
  {
    assert s[..1] == [s[0]];
    WalkOne(d, s[0]);
  }

  /** With enough room a call of Lzma2Dec_Parse follows the grammar exactly, and stops only where it should. */
  ghost predicate Follows(d: Dec, out: nat, s: seq<byte>, r: Parsed)
    requires r.used <= |s|
  {
    && r.d == Walk(d, s[..r.used]) && Used(d, s[..r.used]) == r.used && Sized(r.d)
    && match r.status
       case FinishedWithMark => r.d.state == Finished
       case NeedsMoreInput => r.used == |s| && !Over(r.d)
       case NewBlock => r.used > 0 && !Over(r.d)
       case NewChunk => r.used > 0 && !Over(r.d)
       case _ => false
  }

  lemma FollowsMore(d: Dec, out: nat, s: seq<byte>, n: nat, e: Dec, out': nat, r: Parsed)
    requires n <= |s| && Walk(d, s[..n]) == e && Used(d, s[..n]) == n && r.used <= |s[n..]|
             && Follows(e, out', s[n..], r)
    ensures Follows(d, out, s, More(r, n))
  {
    hide Sized;
    var t := s[n..][..r.used];
    assert s[..n + r.used] == s[..n] + t;
    WalkAppend(d, s[..n], t);
  }

  lemma {:induction false} ParseFollows(d: Dec, out: nat, s: seq<byte>, rest: seq<byte>)
    requires Enough(d, out, s, rest)
    ensures Follows(d, out, s, Parse(d, out, s, true))
    decreases |s|, out
  {
    hide Sized, Feed, Update, Parse, ParseHead, ParseCopy, ParsePacked, Ready, Copied, Unpacked, Walk, Used, Enough,
         Follows, HeaderEnds;
    EnoughIs(d, out, s, rest);
    ParseIs(d, out, s, true);
    if s == [] { NoInput(d, out, true); }
    if Over(d) {
      FollowsHere(d, out, s, FinishedWithMark);
    } else if s == [] {
      if InData(d.state) && !Uncompressed(d) { PackedLeft(d); }
      FollowsHere(d, out, s, NeedsMoreInput);
    } else if !InData(d.state) {
      HeadFollows(d, out, s, rest);
      var e := Update(d, s[0]);
      HeadIs(d, out, s, true);
      if !HeaderEnds(e, out).0 {
        WalkStep(d, s);
        FeedIsUpdate(d, s[0]);
        HeadDic(d, s[0]);
        EnoughNext(d, out, s, rest, e, 1);
        EnoughIs(e, out - (e.dicPos - d.dicPos), s[1..], rest);
        ParseFollows(e, out, s[1..], rest);
        FollowsMore(d, out, s, 1, e, out, Parse(e, out, s[1..], true));
      }
    } else if Uncompressed(d) {
      CopyIs(d, out, s, true);
      var n := Min(|s|, d.unpackSize);
      CopyWalks(d, s, n);
      EnoughNext(d, out, s, rest, Copied(d, n), n);
      EnoughIs(Copied(d, n), out - n, s[n..], rest);
      ParseFollows(Copied(d, n), out - n, s[n..], rest);
      FollowsMore(d, out, s, n, Copied(d, n), out - n, Parse(Copied(d, n), out - n, s[n..], true));
    } else {
      DataSizes(d);
      PackedLeft(d);
      PackedFollows(d, out, s, rest);
      PackedIs(d, out, s, true);
      var n := Min(|s|, d.packSize);
      var e := Walk(d, s[..n]);
      var out' := out - (e.dicPos - d.dicPos);
      EnoughNext(d, out, s, rest, e, n);
      EnoughIs(e, out', s[n..], rest);
      ParseFollows(e, out', s[n..], rest);
      FollowsMore(d, out, s, n, e, out', Parse(e, out', s[n..], true));
    }
  }

  lemma EnoughIs(d: Dec, out: nat, s: seq<byte>, rest: seq<byte>)
    requires Enough(d, out, s, rest)
    ensures Sized(d) && Ready(d) && d.state != Error && Owed(d) <= out
  {
    OwedComes(d, s + rest);
    if d.state == Error { OverStays(d, s + rest); }
  }

  lemma FollowsHere(d: Dec, out: nat, s: seq<byte>, status: Status)
    requires Sized(d)
    requires if d.state == Finished then status == FinishedWithMark
             else status == NeedsMoreInput && s == [] && d.state != Error
    ensures Follows(d, out, s, Parsed(d, out, 0, status))
  {}

  lemma PackedLeft(d: Dec)
    requires Sized(d) && InData(d.state) && !Uncompressed(d)
    ensures d.packSize > 0
  {}

  lemma FeedIsUpdate(d: Dec, b: byte)
    requires !InData(d.state)
    ensures Feed(d, b) == Update(d, b)
  {}

  /** A header byte never ends the call for want of room. */
  lemma HeadFollows(d: Dec, out: nat, s: seq<byte>, rest: seq<byte>)
    requires Enough(d, out, s, rest) && !InData(d.state) && !Over(d) && s != []
    ensures var e := Update(d, s[0]);
            HeaderEnds(e, out).0 ==> Follows(d, out, s, Parsed(e, out, 1, HeaderEnds(e, out).1))
  {
    hide Feed, Sized;
    var e := Update(d, s[0]);
    FeedIsUpdate(d, s[0]);
    WalkStep(d, s);
    FeedSized(d, s[0]);
    assert (s + rest)[0] == s[0];
    NoError(d, s + rest);
    EnoughNext(d, out, s, rest, e, 1);
    HeadDic(d, s[0]);
    EnoughIs(e, out, s[1..], rest);
    HeadOwes(d, s[0]);
  }

  lemma HeadDic(d: Dec, b: byte)
    ensures Update(d, b).dicPos == d.dicPos
  {
    hide Or;
  }

  /** Behind a header byte that does not end the stream, output is owed, and the state is not between chunks. */
  lemma HeadOwes(d: Dec, b: byte)
    requires Sized(d) && !InData(d.state) && !Over(d) && Update(d, b).state != Error
    ensures Update(d, b).state != Finished ==> Owed(Update(d, b)) > 0
  {
    hide Or;
  }

  lemma CopyWalks(d: Dec, s: seq<byte>, n: nat)
    requires InData(d.state) && Uncompressed(d) && Sized(d) && s != [] && n == Min(|s|, d.unpackSize)
    ensures n > 0 && Walk(d, s[..n]) == Copied(d, n) && Used(d, s[..n]) == n && Copied(d, n).dicPos == d.dicPos + n
  {
    WalkCopy(d, s[..n]);
  }

  /** In the data of an LZMA chunk. */
  lemma PackedFollows(d: Dec, out: nat, s: seq<byte>, rest: seq<byte>)
    requires Enough(d, out, s, rest) && InData(d.state) && !Uncompressed(d) && s != [] && d.packSize > 0
    ensures var n := Min(|s|, d.packSize);
            var e := d.(packSize := d.packSize - n, state := DataCont);
            && !(d.state == Data && s[0] != 0) && Min(out, d.unpackSize) == d.unpackSize
            && Used(d, s[..n]) == n && Walk(d, s[..n]) == (if e.packSize > 0 then e else Unpacked(e, d.unpackSize))
            && Walk(d, s[..n]).dicPos == d.dicPos + (if e.packSize > 0 then 0 else d.unpackSize)
  {
    hide Sized;
    EnoughIs(d, out, s, rest);
    assert (s + rest)[0] == s[0];
    NoError(d, s + rest);
    var n := Min(|s|, d.packSize);
    WalkPacked(d, s[..n]);
  }

  // ----- the whole stream, in any pieces -----

  /** The calls of Lzma2Dec_Parse on a stream that arrives piece by piece: what a call leaves is offered
      again, together with the next piece if the call asked for more. */
  function ParseAll(d: Dec, out: nat, have: seq<byte>, pieces: seq<seq<byte>>): Parsed
    requires Sized(d)
    decreases |pieces|, |have|
  {
    var r := Parse(d, out, have, true);
    var gained := if r.d.dicPos < d.dicPos then 0 else r.d.dicPos - d.dicPos;
    var left := if out < gained then 0 else out - gained;
    if !Sized(r.d) then r
    else if r.status == NeedsMoreInput && pieces != [] then More(ParseAll(r.d,
        left, have[r.used..] + pieces[0], pieces[1..]), r.used)
    else if (r.status == NewBlock || r.status == NewChunk) && r.used > 0
        then More(ParseAll(r.d, left, have[r.used..], pieces), r.used)
    else r
  }

  function Join(pieces: seq<seq<byte>>): seq<byte> {
    if pieces == [] then [] else pieces[0] + Join(pieces[1..])
  }

  /** However the stream is cut, the calls end at the end mark, with the position and the number of
      bytes of the grammar. */
  lemma {:induction false} ParseAnyPieces(d: Dec, out: nat, have: seq<byte>, pieces: seq<seq<byte>>)
    requires Sized(d) && Walk(d, have + Join(pieces)).state == Finished
             && Walk(d, have + Join(pieces)).dicPos <= d.dicPos + out
    ensures var r := ParseAll(d, out, have, pieces);
            r.status == FinishedWithMark && r.d == Walk(d, have + Join(pieces))
            && r.used == Used(d, have + Join(pieces))
    decreases |pieces|, |have|
  {
    hide Sized, Parse, Walk, Used;
    var rest := Join(pieces);
    ParseFollows(d, out, have, rest);
    var r := Parse(d, out, have, true);
    FollowsOn(d, out, have, rest, r);
    var out' := out - (r.d.dicPos - d.dicPos);
    var left := have[r.used..];
    if r.status == NeedsMoreInput {
      NotStarved(d, out, have, rest, r);
      assert left + rest == (left + pieces[0]) + Join(pieces[1..]);
      ParseAnyPieces(r.d, out', left + pieces[0], pieces[1..]);
    } else if r.status == FinishedWithMark {
      OverStays(r.d, left + rest);
    } else {
      ParseAnyPieces(r.d, out', left, pieces);
    }
  }

  /** A call that asks for more leaves nothing, so something must still come. */
  lemma NotStarved(d: Dec, out: nat, s: seq<byte>, rest: seq<byte>, r: Parsed)
    requires Enough(d, out, s, rest) && r.used <= |s| && Follows(d, out, s, r) && r.status == NeedsMoreInput
    ensures rest != []
  {
    hide Sized;
    FollowsOn(d, out, s, rest, r);
    assert s[r.used..] + rest == rest;
  }

  lemma FollowsOn(d: Dec, out: nat, s: seq<byte>, rest: seq<byte>, r: Parsed)
    requires Enough(d, out, s, rest) && r.used <= |s| && Follows(d, out, s, r)
    ensures Sized(r.d) && d.dicPos <= r.d.dicPos <= d.dicPos + out
    ensures Walk(d, s + rest) == Walk(r.d, s[r.used..] + rest)
            && Used(d, s + rest) == r.used + Used(r.d, s[r.used..] + rest)
  {
    hide Sized;
    EnoughNext(d, out, s, rest, r.d, r.used);
    assert s + rest == s[..r.used] + (s[r.used..] + rest);
    WalkAppend(d, s[..r.used], s[r.used..] + rest);
  }
}
