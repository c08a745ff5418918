/** The BCJ2 decoder may be stopped and resumed: how the input and the output
    space are cut into calls does not matter. */
module Bcj2Resume {
  import opened Bytes
  import opened RangeCoder
  import opened Bcj2
  import opened Bcj2Dec

  /** What the caller adds before a call. */
  datatype More = More(main: seq<byte>, call: seq<byte>, jump: seq<byte>, rc: seq<byte>, room: nat)

  predicate WholeWords(x: More) { |x.call| % 4 == 0 && |x.jump| % 4 == 0 }

  function Give(d: Dec, x: More): (r: Dec)
    ensures Words(d) && WholeWords(x) ==> Words(r)
  {
    d.(main := d.main + x.main, call := d.call + x.call, jump := d.jump + x.jump, rc := d.rc + x.rc,
       room := d.room + x.room)
  }

  function Feed(r: Run, x: More): (o: Run)
    requires WellFormed(r) && WholeWords(x)
    ensures WellFormed(o)
  {
    Run(Give(r.d, x), r.state)
  }

  /** A byte the range coder is about to take anyway may be taken early. */
  function Settle(r: Run): (o: Run)
    requires WellFormed(r)
    ensures WellFormed(o)
  {
    if r.d.range <= 5 then r else Run(Trailing(r.d), r.state)
  }

  lemma TrailingGive(d: Dec, x: More)
    requires Running(d) && WholeWords(x)
    ensures d.range < TOP && d.rc != [] ==> Give(Trailing(d), x) == Trailing(Give(d, x))
    ensures !(d.range < TOP && d.rc != []) ==> Trailing(d) == d
    ensures Trailing(Give(Trailing(d), x)) == Trailing(Give(d, x))
    ensures Trailing(Trailing(d)) == Trailing(d)
  {
    if d.range < TOP && d.rc != [] {
      assert (d.rc + x.rc)[1..] == d.rc[1..] + x.rc;
    }
  }

  lemma CopyByteGive(d: Dec, x: More)
    requires d.main != [] && d.room > 0
    ensures CopyByte(Give(d, x)) == Give(CopyByte(d), x)
  {
    assert (d.main + x.main)[1..] == d.main[1..] + x.main;
  }

  lemma DecodeBitGive(d: Dec, x: More, i: nat)
    requires TOP <= d.range < TWO32 && Words(d) && WholeWords(x) && i < NUM_PROBS
    ensures var (b, bit) := DecodeBit(d, i); DecodeBit(Give(d, x), i) == (Give(b, x), bit)
  {
    hide UpdateAt, Bound;
  }

  lemma LoopSettled(d: Dec)
    requires Running(d)
    ensures Loop(Trailing(d)) == Loop(d)
  {
    hide Round, Trailing;
    LoopIs(d);
    TrailingGive(d, More([], [], [], [], 0));
    LoopIs(Trailing(d));
  }

  lemma StreamGive(s: seq<byte>, t: seq<byte>, ip: u32)
    requires |s| % 4 == 0 && |t| % 4 == 0 && s != []
    ensures DropWord(s + t) == DropWord(s) + t && Operand(s + t, ip) == Operand(s, ip)
  {}

  /** Reading an operand that is there, with more input behind it and enough room. */
  lemma TargetGive(d: Dec, x: More)
    requires Running(d) && WholeWords(x) && ReadTarget(d).state == Ok
    ensures ReadTarget(Give(d, x)) == Run(Give(ReadTarget(d).d, x), Ok)
  {
    hide Operand, DropWord, ReadTarget;
    TargetIs(d);
    TargetIs(Give(d, x));
    if d.prev == 0xE8 { StreamGive(d.call, x.call, (d.ip + 4) % TWO32); }
    else { StreamGive(d.jump, x.jump, (d.ip + 4) % TWO32); }
  }

  lemma TargetSettled(d: Dec)
    requires Running(d)
    ensures var t := ReadTarget(d); ReadTarget(Trailing(d)) == Run(Trailing(t.d), t.state)
  {
    hide Operand, DropWord, ReadTarget;
    TargetIs(d);
    TargetIs(Trailing(d));
  }

  /** Room for none or some of an operand first, and for more of it later. */
  lemma TargetPending(d: Dec, x: More)
    requires Running(d) && WholeWords(x) && ReadTarget(d).state.Pending?
    ensures var t, e := ReadTarget(d), ReadTarget(Give(d, x));
            var o := Emit(Feed(t, x));
            e.d == o.d && (if o.state == Orig then e.state == Ok else e.state == o.state)
  {
    hide Operand, DropWord, ReadTarget;
    TargetIs(d);
    TargetIs(Give(d, x));
    if d.prev == 0xE8 { StreamGive(d.call, x.call, (d.ip + 4) % TWO32); }
    else { StreamGive(d.jump, x.jump, (d.ip + 4) % TWO32); }
    var cur := if d.prev == 0xE8 then d.call else d.jump;
    var w := Operand(cur, (d.ip + 4) % TWO32);
    var n := d.room;
    var m := if x.room < 4 - n then x.room else 4 - n;
    InPieces(d.out, w, n, m);
  }

  /** Bytes that go out in two pieces. */
  lemma InPieces(out: seq<byte>, w: seq<byte>, n: nat, m: nat)
    requires n + m <= |w|
    ensures out + w[..n] + w[n..][..m] == out + w[..n + m] && w[n..][m..] == w[n + m..]
  {
    assert w[n..][..m] == w[n..n + m];
    assert w[..n] + w[n..n + m] == w[..n + m];
  }

  lemma SliceTwice(w: seq<byte>, n: nat, m: nat)
    requires n + m <= |w|
    ensures w[n..][..m] == w[n..n + m]
  {}

  /** DecodeCall once the five start bytes are read. */
  lemma CallIs(r: Run)
    requires WellFormed(r) && r.d.range > 5
    ensures var e := Emit(r);
            DecodeCall(r) == (if e.state.Pending? then e
                              else if Waiting32(e.state) then AfterTarget(ReadTarget(e.d)) else Loop(e.d), true)
  {
    hide Emit, Loop, ReadTarget, AfterTarget;
  }

  lemma AfterTargetSettled(t: Run)
    requires Running(t.d) && WellFormed(t)
    ensures AfterTarget(Run(Trailing(t.d), t.state)) == AfterTarget(t)
  {
    hide Loop, Trailing, AfterTarget;
    AfterTargetIs(t);
    AfterTargetIs(Run(Trailing(t.d), t.state));
    LoopSettled(t.d);
    TrailingGive(t.d, More([], [], [], [], 0));
  }

  /** Writing out pending bytes does not touch the range coder. */
  lemma EmitSettled(d: Dec, s: State)
    requires Running(d) && WellFormed(Run(d, s))
    ensures var e := Emit(Run(d, s));
            Running(e.d) && Emit(Run(Trailing(d), s)) == Run(Trailing(e.d), e.state)
  {}

  lemma EmitState(r: Run)
    requires WellFormed(r)
    ensures WellFormed(Emit(r)) && (r.state.Pending? ==> Emit(r).state.Pending? || Emit(r).state == Orig)
    ensures r.state.Pending? && Emit(r).state.Pending? ==> Emit(r).d.room == 0
  {}

  /** A call in a settled state ends like one in the state itself, up to settling. */
  lemma CallSettled(d: Dec, s: State)
    requires Running(d) && WellFormed(Run(d, s))
    ensures Settle(DecodeCall(Run(Trailing(d), s)).0) == Settle(DecodeCall(Run(d, s)).0)
  {
    hide Loop, ReadTarget, AfterTarget, Emit, Trailing;
    var e := Emit(Run(d, s));
    CallIs(Run(d, s));
    CallIs(Run(Trailing(d), s));
    EmitSettled(d, s);
    EmitState(Run(d, s));
    if e.state.Pending? {
      TrailingGive(e.d, More([], [], [], [], 0));
    } else if Waiting32(e.state) {
      TargetSettled(e.d);
      AfterTargetSettled(ReadTarget(e.d));
    } else {
      LoopSettled(e.d);
    }
  }

  /** The same with more input arriving in between. */
  lemma CallSettledGive(d: Dec, s: State, x: More)
    requires Running(d) && WellFormed(Run(d, s)) && WholeWords(x)
    ensures Settle(DecodeCall(Feed(Run(Trailing(d), s), x)).0) == Settle(DecodeCall(Feed(Run(d, s), x)).0)
  {
    hide Loop, ReadTarget, AfterTarget, Emit, Trailing, DecodeCall;
    TrailingGive(d, x);
    CallSettled(Give(d, x), s);
  }

  /** d stopped where it had to; with x it goes on as if x had been there. */
  ghost predicate GoesOn(stopped: Run, whole: Run, x: More)
    requires WellFormed(stopped) && WellFormed(whole) && WholeWords(x)
  {
    Settle(DecodeCall(Feed(stopped, x)).0) == Settle(whole)
  }

  lemma {:induction false} LoopGoesOn(d: Dec, x: More)
    requires Running(d) && WholeWords(x)
    ensures GoesOn(Loop(d), Loop(Give(d, x)), x)
    decreases |d.main|, 1
  {
    hide Loop, Round, ReadTarget, AfterTarget, Trailing;
    LoopIs(d);
    LoopIs(Give(d, x));
    if d.range < TOP && d.rc == [] {
      CallIs(Feed(Run(d, StreamRc), x));
    } else {
      TrailingGive(d, x);
      TrailingAhead(d, x);
      RoundGoesOn(Trailing(d), x);
    }
  }

  lemma TrailingAhead(d: Dec, x: More)
    requires Running(d) && WholeWords(x) && (TOP <= d.range || d.rc != [])
    ensures Trailing(Give(d, x)) == Give(Trailing(d), x) && TOP <= Trailing(d).range
  {
    TrailingGive(d, x);
  }

  lemma StoppedAtTop(d: Dec, s: State, x: More)
    requires Running(d) && TOP <= d.range && WholeWords(x) && s in {StreamMain, Orig}
    ensures GoesOn(Run(d, s), Round(Give(d, x)), x)
  {
    hide Loop, Round, ReadTarget, AfterTarget;
    var g := Give(d, x);
    CallIs(Feed(Run(d, s), x));
    LoopIs(g);
    assert Trailing(g) == g;
  }

  lemma {:induction false} RoundGoesOn(d: Dec, x: More)
    requires Running(d) && TOP <= d.range && WholeWords(x)
    ensures GoesOn(Round(d), Round(Give(d, x)), x)
    decreases |d.main|, 0
  {
    hide Loop, Round, ReadTarget, AfterTarget, Trailing, GoesOn, IsBranch, ProbIndex, DecodeBit, CopyByte;
    var g := Give(d, x);
    if d.main == [] || d.room == 0 {
      RoundStops(d);
      StoppedAtTop(d, Round(d).state, x);
    } else {
      CopyByteGive(d, x);
      var c := CopyByte(d);
      if !IsBranch(d.prev, d.main[0]) {
        RoundIsLoop(d);
        RoundIsLoop(g);
        LoopGoesOn(c, x);
      } else {
        var i := ProbIndex(d.main[0], d.prev);
        var (b, bit) := DecodeBit(c, i);
        RoundBranch(d);
        RoundBranch(g);
        DecodeBitGive(c, x, i);
        if bit { TargetGoesOn(b, x); } else { LoopGoesOn(b, x); }
      }
    }
  }

  lemma {:induction false} TargetGoesOn(d: Dec, x: More)
    requires Running(d) && WholeWords(x)
    ensures GoesOn(AfterTarget(ReadTarget(d)), AfterTarget(ReadTarget(Give(d, x))), x)
    decreases |d.main|, 2
  {
    hide Loop, ReadTarget, AfterTarget, Trailing;
    var t := ReadTarget(d);
    AfterTargetIs(t);
    if t.state == Ok {
      TargetGive(d, x);
      AfterTargetIs(ReadTarget(Give(d, x)));
      LoopGoesOn(t.d, x);
    } else {
      StoppedAtTarget(t, AfterTarget(ReadTarget(Give(d, x))), x) by { TargetStopped(d, x); }
    }
  }

  /** What the call that finds t goes on with, when t was not settled yet. */
  lemma TargetStopped(d: Dec, x: More)
    requires Running(d) && WholeWords(x) && ReadTarget(d).state != Ok
    ensures GoesOn(ReadTarget(d), AfterTarget(ReadTarget(Give(d, x))), x)
  {
    hide Loop, ReadTarget, AfterTarget, Trailing, Emit;
    var t, e := ReadTarget(d), ReadTarget(Give(d, x));
    CallIs(Feed(t, x));
    AfterTargetIs(e);
    TrailingGive(e.d, More([], [], [], [], 0));
    if t.state.Pending? {
      TargetPending(d, x);
      var o := Emit(Feed(t, x));
      EmitState(Feed(t, x));
    } else {
      WaitingKeeps(d);
      EmitNothing(Feed(t, x));
    }
  }

  lemma WaitingKeeps(d: Dec)
    requires Running(d) && ReadTarget(d).state != Ok && !ReadTarget(d).state.Pending?
    ensures ReadTarget(d).d == d && Waiting32(ReadTarget(d).state)
  {
    hide Operand, DropWord;
  }

  lemma StoppedAtTarget(t: Run, whole: Run, x: More)
    requires Running(t.d) && WellFormed(t) && WellFormed(whole) && WholeWords(x) && GoesOn(t, whole, x)
    ensures GoesOn(Run(Trailing(t.d), t.state), whole, x)
  {
    hide DecodeCall, Trailing;
    CallSettledGive(t.d, t.state, x);
  }

  lemma {:induction false} ReadInitGive(d: Dec, x: More)
    requires d.range <= 5 && WholeWords(x)
    ensures var (i, ok) := ReadInit(d);
            ReadInit(Give(d, x)) == if ok then ReadInit(Give(i, x)) else (Give(i, x), false)
    ensures ReadInit(d).1 && ReadInit(d).0.range == 5 ==>
            ReadInit(Give(ReadInit(d).0, x)) == (Give(ReadInit(d).0, x), true)
    decreases 5 - d.range
  {
    hide ReadInit;
    ReadInitStops(d);
    ReadInitStops(Give(d, x));
    if d.range < 5 && !(d.range == 1 && d.code != 0) && d.rc != [] {
      ReadInitIs(d);
      ReadInitIs(Give(d, x));
      assert (d.rc + x.rc)[1..] == d.rc[1..] + x.rc;
      ReadInitGive(d.(range := d.range + 1, code := (d.code * 256 + d.rc[0]) % TWO32, rc := d.rc[1..]), x);
    }
  }

  /** Two calls do what one call does, up to settling, and fail on the same streams. */
  lemma TwoCalls(r: Run, x: More)
    requires WellFormed(r) && WholeWords(x) && DecodeCall(Feed(r, x)).1
    ensures DecodeCall(r).1 && DecodeCall(Feed(DecodeCall(r).0, x)).1
    ensures GoesOn(DecodeCall(r).0, DecodeCall(Feed(r, x)).0, x)
  {
    if r.d.range <= 5 {
      TwoCallsStarting(r, x);
    } else {
      TwoCallsRunning(r, x);
    }
  }

  lemma TwoCallsStarting(r: Run, x: More)
    requires WellFormed(r) && r.d.range <= 5 && WholeWords(x) && DecodeCall(Feed(r, x)).1
    ensures DecodeCall(r).1 && DecodeCall(Feed(DecodeCall(r).0, x)).1
    ensures GoesOn(DecodeCall(r).0, DecodeCall(Feed(r, x)).0, x)
  {
    hide ReadInit, Loop, DecodeCall, Emit;
    StartIs(r);
    StartIs(Feed(r, x));
    ReadInitGive(r.d, x);
    var i := ReadInit(r.d).0;
    if i.range < 5 {
      StartIs(Feed(Run(i, StreamRc), x));
    } else {
      var d := i.(range := 0xFFFF_FFFF);
      LoopGoesOn(d, x);
      assert Give(i, x).(range := 0xFFFF_FFFF) == Give(d, x);
      CallOk(Feed(Loop(d), x));
    }
  }

  lemma CallOk(r: Run)
    requires WellFormed(r) && r.d.range > 5
    ensures DecodeCall(r).1
  {
    hide Emit, Loop, ReadTarget, AfterTarget;
  }

  lemma TwoCallsRunning(r: Run, x: More)
    requires WellFormed(r) && r.d.range > 5 && WholeWords(x)
    ensures DecodeCall(r).1 && DecodeCall(Feed(DecodeCall(r).0, x)).1
    ensures GoesOn(DecodeCall(r).0, DecodeCall(Feed(r, x)).0, x)
  {
    hide Loop, ReadTarget, AfterTarget, Emit;
    CallIs(r);
    CallIs(Feed(r, x));
    EmitState(r);
    EmitKeeps(r);
    var e := Emit(r);
    if !r.state.Pending? {
      EmitNothing(r);
      EmitNothing(Feed(r, x));
      if Waiting32(r.state) { TargetGoesOn(r.d, x); } else { LoopGoesOn(r.d, x); }
    } else {
      EmitGive(r, x);
      if e.state.Pending? {
        CallIs(Feed(e, x));
      } else {
        LoopGoesOn(e.d, x);
      }
    }
    CallOk(Feed(DecodeCall(r).0, x));
  }

  lemma EmitKeeps(r: Run)
    requires WellFormed(r) && r.d.range > 5
    ensures Running(Emit(r).d)
  {}

  lemma EmitGive(r: Run, x: More)
    requires WellFormed(r) && r.state.Pending? && WholeWords(x)
    ensures var e := Emit(r);
            if e.state.Pending? then WellFormed(e) && Emit(Feed(r, x)) == Emit(Feed(e, x))
            else Emit(Feed(r, x)) == Run(Give(e.d, x), Orig)
  {
    var s, n := r.state.bytes, r.d.room;
    if n < |s| {
      var m := if x.room < |s| - n then x.room else |s| - n;
      SliceTwice(s, n, m);
      assert r.d.out + s[..n] + s[n..n + m] == r.d.out + s[..n + m];
      if n + m < |s| { assert s[n..][m..] == s[n + m..]; }
    }
  }

  /** A sequence of calls, each with its own additions; stops at the first error. */
  function Calls(r: Run, xs: seq<More>): (o: (Run, bool))
    requires WellFormed(r) && forall x | x in xs :: WholeWords(x)
    ensures WellFormed(o.0)
    decreases |xs|
  {
    if xs == [] then (r, true)
    else
      var (o, ok) := DecodeCall(Feed(r, xs[0]));
      if ok then Calls(o, xs[1..]) else (o, false)
  }

  function Plus(x: More, s: More): (r: More)
    ensures WholeWords(x) && WholeWords(s) ==> WholeWords(r)
  {
    More(x.main + s.main, x.call + s.call, x.jump + s.jump, x.rc + s.rc, x.room + s.room)
  }

  /** Everything the calls are given, at once. */
  function Sum(xs: seq<More>): (s: More)
    requires forall x | x in xs :: WholeWords(x)
    ensures WholeWords(s)
    decreases |xs|
  {
    if xs == [] then More([], [], [], [], 0)
    else
      assert xs[0] in xs;
      Plus(xs[0], Sum(xs[1..]))
  }

  lemma FeedFeed(r: Run, x: More, s: More)
    requires WellFormed(r) && WholeWords(x) && WholeWords(s)
    ensures Feed(Feed(r, x), s) == Feed(r, Plus(x, s))
  {
    assert r.d.main + x.main + s.main == r.d.main + (x.main + s.main);
    assert r.d.call + x.call + s.call == r.d.call + (x.call + s.call);
    assert r.d.jump + x.jump + s.jump == r.d.jump + (x.jump + s.jump);
    assert r.d.rc + x.rc + s.rc == r.d.rc + (x.rc + s.rc);
  }

  /** Any number of calls do what one call with everything does. */
  lemma {:induction false} AnySchedule(r: Run, xs: seq<More>)
    requires WellFormed(r) && xs != [] && forall x | x in xs :: WholeWords(x)
    requires DecodeCall(Feed(r, Sum(xs))).1
    ensures Calls(r, xs).1
    ensures Settle(Calls(r, xs).0) == Settle(DecodeCall(Feed(r, Sum(xs))).0)
    decreases |xs|
  {
    hide DecodeCall, Settle;
    var x, rest := xs[0], xs[1..];
    var s := Sum(rest);
    FeedFeed(r, x, s);
    TwoCalls(Feed(r, x), s);
    var o := DecodeCall(Feed(r, x)).0;
    if rest == [] {
      FeedNothing(Feed(r, x));
    } else {
      AnySchedule(o, rest);
    }
  }

  lemma FeedNothing(r: Run)
    requires WellFormed(r)
    ensures Feed(r, More([], [], [], [], 0)) == r
  {
    assert r.d.main + [] == r.d.main && r.d.call + [] == r.d.call && r.d.jump + [] == r.d.jump && r.d.rc + [] == r.d.rc;
  }

  /** A call that ends with the main stream used up is settled. */
  lemma {:induction false} LoopMain(d: Dec)
    requires Running(d)
    ensures Loop(d).state == StreamMain ==> TOP <= Loop(d).d.range
    decreases |d.main|, 1
  {
    hide Loop, Round;
    LoopIs(d);
    if TOP <= d.range || d.rc != [] { RoundMain(Trailing(d)); }
  }

  lemma {:induction false} RoundMain(d: Dec)
    requires Running(d) && TOP <= d.range
    ensures Round(d).state == StreamMain ==> TOP <= Round(d).d.range
    decreases |d.main|, 0
  {
    hide Loop, Round, ReadTarget, AfterTarget, IsBranch, ProbIndex, DecodeBit;
    RoundStops(d);
    if d.main != [] && d.room > 0 {
      if !IsBranch(d.prev, d.main[0]) {
        RoundIsLoop(d);
        LoopMain(CopyByte(d));
      } else {
        RoundBranch(d);
        var (b, bit) := DecodeBit(CopyByte(d), ProbIndex(d.main[0], d.prev));
        if bit { TargetMain(b); } else { LoopMain(b); }
      }
    }
  }

  lemma {:induction false} TargetMain(d: Dec)
    requires Running(d)
    ensures var t := AfterTarget(ReadTarget(d)); t.state == StreamMain ==> TOP <= t.d.range
    decreases |d.main|, 2
  {
    hide Loop, AfterTarget, ReadTarget;
    var t := ReadTarget(d);
    AfterTargetIs(t);
    if t.state == Ok {
      LoopMain(t.d);
    } else if !t.state.Pending? {
      WaitingKeeps(d);
    }
  }

  lemma CallMain(r: Run)
    requires WellFormed(r)
    ensures var o := DecodeCall(r).0; o.state == StreamMain ==> TOP <= o.d.range
  {
    hide Loop, AfterTarget, ReadTarget, Emit, ReadInit;
    if r.d.range <= 5 {
      StartIs(r);
      var (d, ok) := ReadInit(r.d);
      if ok && d.range == 5 { LoopMain(d.(range := 0xFFFF_FFFF)); }
    } else {
      CallIs(r);
      EmitKeeps(r);
      var e := Emit(r);
      if Waiting32(e.state) { TargetMain(e.d); } else { LoopMain(e.d); }
    }
  }

  lemma {:induction false} CallsMain(r: Run, xs: seq<More>)
    requires WellFormed(r) && xs != [] && forall x | x in xs :: WholeWords(x)
    ensures var o := Calls(r, xs).0; o.state == StreamMain ==> TOP <= o.d.range
    decreases |xs|
  {
    hide DecodeCall;
    assert xs[0] in xs;
    CallMain(Feed(r, xs[0]));
    var (o, ok) := DecodeCall(Feed(r, xs[0]));
    if ok && |xs| > 1 { CallsMain(o, xs[1..]); }
  }
}
