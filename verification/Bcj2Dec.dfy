/** The BCJ2 decoder, compression/LZMA/Bcj2.c. */
module Bcj2Dec {
  import opened Bytes
  import opened RangeCoder
  import opened Bcj2

  /** The decoder between two steps. Each input is what is left of it;
      out is what was written, room what dest still holds. */
  datatype Dec = Dec(range: nat, code: u32, probs: Probs, ip: u32, prev: byte,
                     main: seq<byte>, call: seq<byte>, jump: seq<byte>, rc: seq<byte>,
                     out: seq<byte>, room: nat)

  /** Why a call returned: a stream is used up, or dest is full, perhaps with
      bytes of a converted operand still pending. */
  datatype State = StreamMain | StreamCall | StreamJump | StreamRc | Pending(bytes: seq<byte>) | Orig | Ok

  datatype Run = Run(d: Dec, state: State)

  function Init(main: seq<byte>, call: seq<byte>, jump: seq<byte>, rc: seq<byte>, room: nat): Run {
    Run(Dec(0, 0, InitProbs(), 0, 0, main, call, jump, rc, [], room), Ok)
  }

  /** Stream sizes that Bcj2.h asks of the caller. */
  predicate Words(d: Dec) { |d.call| % 4 == 0 && |d.jump| % 4 == 0 }

  /** The states a call can leave behind. */
  predicate WellFormed(r: Run) {
    && Words(r.d)
    && (r.d.range <= 5 || 0x1_0000 <= r.d.range < TWO32)
    && (r.d.range <= 5 ==> r.state in {StreamRc, Ok})
    && (r.state.Pending? ==> 1 <= |r.state.bytes| <= 4)
  }

  predicate Running(d: Dec) { Words(d) && 0x1_0000 <= d.range < TWO32 }

  /** Take one byte of the range coder stream. */
  function Normalize(d: Dec): Dec
    requires d.range < TOP && d.rc != []
  {
    d.(range := d.range * 256, code := (d.code * 256 + d.rc[0]) % TWO32, rc := d.rc[1..])
  }

  /** The read-ahead: at the head of the loop, and once more after it. */
  function Trailing(d: Dec): (r: Dec)
    requires Running(d)
    ensures Running(r) && r.main == d.main && r.room == d.room && r.out == d.out
    ensures d.rc != [] ==> TOP <= r.range
  {
    if d.range < TOP && d.rc != [] then Normalize(d) else d
  }

  function CopyByte(d: Dec): (r: Dec)
    requires d.main != [] && d.room > 0
    ensures r.range == d.range && |r.main| == |d.main| - 1 && r.room == d.room - 1 && r.call == d.call
            && r.jump == d.jump
  {
    var b := d.main[0];
    d.(main := d.main[1..], ip := (d.ip + 1) % TWO32, prev := b, out := d.out + [b], room := d.room - 1)
  }

  function DecodeBit(d: Dec, i: nat): (r: (Dec, bool))
    requires TOP <= d.range < TWO32 && Words(d) && i < NUM_PROBS
    ensures Running(r.0) && r.0.main == d.main && r.0.room == d.room && r.0.out == d.out
  {
    var bound := Bound(d.range, d.probs[i]);
    BoundInside(d.range, d.probs[i]);
    var bit := d.code >= bound;
    var probs := UpdateAt(d.probs, i, bit);
    if bit then (d.(range := d.range - bound, code := d.code - bound, probs := probs), true)
    else (d.(range := bound, probs := probs), false)
  }

  /** The words of a stream after the first. */
  function DropWord(s: seq<byte>): (r: seq<byte>)
    requires |s| % 4 == 0 && s != []
    ensures |r| % 4 == 0
  {
    s[4..]
  }

  /** The first word of a stream, made relative to the address after the operand. */
  function Operand(s: seq<byte>, ip: u32): (w: seq<byte>)
    requires |s| % 4 == 0 && s != []
    ensures |w| == 4
  {
    SetUi32((GetBe32(s) - ip) % TWO32)
  }

  /** The operand of the opcode d.prev: Ok to go on, or why the call ends. */
  function ReadTarget(d: Dec): (r: Run)
    requires Running(d)
    ensures Running(r.d) && r.d.main == d.main && WellFormed(r)
  {
    var isCall := d.prev == 0xE8;
    var cur := if isCall then d.call else d.jump;
    if cur == [] then
      Run(d, if isCall then StreamCall else StreamJump)
    else
      var ip := (d.ip + 4) % TWO32;
      var w := Operand(cur, ip);
      var n := if d.room < 4 then d.room else 4;
      Run(d.(call := if isCall then DropWord(cur) else d.call, jump := if isCall then d.jump else DropWord(cur),
             ip := ip, prev := w[3], out := d.out + w[..n], room := d.room - n),
          if n < 4 then Pending(w[n..]) else Ok)
  }

  predicate Waiting32(s: State) { s == StreamCall || s == StreamJump }

  /** The main loop, one byte of the main stream at a time. */
  function Loop(d: Dec): (r: Run)
    requires Running(d)
    ensures Running(r.d) && WellFormed(r)
    decreases |d.main|, 1
  {
    if d.range < TOP && d.rc == [] then Run(d, StreamRc) else Round(Trailing(d))
  }

  /** The loop after its read-ahead. */
  function Round(d: Dec): (r: Run)
    requires Running(d) && TOP <= d.range
    ensures Running(r.d) && WellFormed(r)
    decreases |d.main|, 0
  {
    if d.main == [] then Run(d, StreamMain)
    else if d.room == 0 then Run(d, Orig)
    else
      var c := CopyByte(d);
      if !IsBranch(d.prev, d.main[0]) then Loop(c)
      else
        var (b, bit) := DecodeBit(c, ProbIndex(d.main[0], d.prev));
        if bit then AfterTarget(ReadTarget(b)) else Loop(b)
  }

  function AfterTarget(t: Run): (r: Run)
    requires Running(t.d) && WellFormed(t)
    ensures Running(r.d) && WellFormed(r)
    decreases |t.d.main|, 2
  {
    if t.state == Ok then Loop(t.d) else Run(Trailing(t.d), t.state)
  }

  /** The first five bytes of the range coder stream; range counts them. */
  function ReadInit(d: Dec): (r: (Dec, bool))
    requires d.range <= 5
    ensures r.0 == d.(range := r.0.range, code := r.0.code, rc := r.0.rc) && r.0.range <= 5
    decreases 5 - d.range
  {
    if d.range == 5 then (d, d.code != 0xFFFF_FFFF)
    else if d.range == 1 && d.code != 0 then (d, false)
    else if d.rc == [] then (d, true)
    else ReadInit(d.(range := d.range + 1, code := (d.code * 256 + d.rc[0]) % TWO32, rc := d.rc[1..]))
  }

  /** Pending bytes go out first. */
  function Emit(r: Run): Run {
    if !r.state.Pending? then r
    else
      var s, d := r.state.bytes, r.d;
      var n := if d.room < |s| then d.room else |s|;
      Run(d.(out := d.out + s[..n], room := d.room - n), if n < |s| then Pending(s[n..]) else Orig)
  }

  /** One call of Bcj2Dec_Decode; false for SZ_ERROR_DATA. */
  function DecodeCall(r: Run): (o: (Run, bool))
    requires WellFormed(r)
    ensures WellFormed(o.0)
  {
    if r.d.range <= 5 then
      var (d, ok) := ReadInit(r.d);
      if !ok then (Run(d, Ok), false)
      else if d.range < 5 then (Run(d, StreamRc), true)
      else (Loop(d.(range := 0xFFFF_FFFF)), true)
    else
      var e := Emit(r);
      if e.state.Pending? then (e, true)
      else if Waiting32(e.state) then (AfterTarget(ReadTarget(e.d)), true)
      else (Loop(e.d), true)
  }

  /** k bytes that are not opcodes, taken together. */
  function Copy(d: Dec, k: nat): (r: Dec)
    requires k <= |d.main| && k <= d.room
    ensures r.range == d.range && r.call == d.call && r.jump == d.jump
  {
    if k == 0 then d
    else d.(main := d.main[k..], ip := (d.ip + k) % TWO32, prev := d.main[k - 1],
            out := d.out + d.main[..k], room := d.room - k)
  }

  lemma CopyStep(d: Dec, k: nat)
    requires 0 < k <= |d.main| && k <= d.room
    ensures Copy(CopyByte(d), k - 1) == Copy(d, k)
  {
    var s := d.main;
    assert s[1..][k - 1..] == s[k..];
    assert d.out + [s[0]] + s[1..][..k - 1] == d.out + s[..k] by {
      assert [s[0]] + s[1..][..k - 1] == s[..k];
    }
    var x, y := d.ip + 1, k - 1;
    assert (x % TWO32 + y) % TWO32 == (x + y) % TWO32 by {
      ModAddMultiple(x % TWO32 + y, TWO32, x / TWO32);
    }
    if k == 1 { assert s[1..] == s[k..]; }
  }

  /** Bytes that are not opcodes, one by one, are the same as taken together. */
  lemma {:induction false} RoundCopy(d: Dec, k: nat)
    requires Running(d) && TOP <= d.range && k <= |d.main| && k <= d.room && NoBranch(d.main, d.prev, k)
    ensures Running(Copy(d, k)) && Round(d) == Round(Copy(d, k))
    decreases k
  {
    hide IsBranch, DecodeBit, ReadTarget, Copy, CopyByte, Round;
    if k > 0 {
      assert NoBranch(CopyByte(d).main, CopyByte(d).prev, k - 1) && !IsBranch(d.prev, d.main[0]) by {
        NoBranchTail(d, k);
      }
      RoundByte(d);
      RoundCopy(CopyByte(d), k - 1);
      CopyStep(d, k);
    } else {
      assert Copy(d, 0) == d by { CopyNone(d); }
    }
  }

  lemma CopyNone(d: Dec)
    ensures Copy(d, 0) == d
  {}

  lemma NoBranchTail(d: Dec, k: nat)
    requires 0 < k <= |d.main| && d.room > 0 && NoBranch(d.main, d.prev, k)
    ensures NoBranch(CopyByte(d).main, CopyByte(d).prev, k - 1) && !IsBranch(d.prev, d.main[0])
  {
    hide IsBranch;
    var c := CopyByte(d);
    assert !IsBranch(PrevAt(d.main, d.prev, 0), d.main[0]);
    forall i: nat | i < k - 1
      ensures !IsBranch(PrevAt(c.main, c.prev, i), c.main[i])
    {
      assert !IsBranch(PrevAt(d.main, d.prev, i + 1), d.main[i + 1]);
    }
  }

  lemma RoundIsLoop(d: Dec)
    requires Running(d) && TOP <= d.range && d.main != [] && d.room > 0 && !IsBranch(d.prev, d.main[0])
    ensures Running(CopyByte(d)) && Round(d) == Loop(CopyByte(d))
  {
    hide Loop, IsBranch, DecodeBit, ReadTarget;
  }

  lemma RoundByte(d: Dec)
    requires Running(d) && TOP <= d.range && d.main != [] && d.room > 0 && !IsBranch(d.prev, d.main[0])
    ensures Running(CopyByte(d)) && Round(d) == Round(CopyByte(d))
  {
    hide Round, Loop, IsBranch;
    RoundIsLoop(d);
    LoopIs(CopyByte(d));
    assert Trailing(CopyByte(d)) == CopyByte(d);
  }

  /** The state that the number n of the enum stands for. */
  function StateOf(n: nat, temp: seq<byte>): State
    requires n <= DEC_STATE_OK && |temp| == 4
  {
    if n == 0 then StreamMain else if n == 1 then StreamCall else if n == 2 then StreamJump
    else if n == 3 then StreamRc else if n <= DEC_STATE_ORIG_3 then Pending(temp[n - DEC_STATE_ORIG_0..])
    else if n == DEC_STATE_ORIG then Orig else Ok
  }

  lemma StateOfKinds(n: nat, temp: seq<byte>)
    requires n <= DEC_STATE_OK && |temp| == 4
    ensures StateOf(n, temp).Pending? <==> DEC_STATE_ORIG_0 <= n <= DEC_STATE_ORIG_3
    ensures Waiting32(StateOf(n, temp)) <==> n == 1 || n == 2
  {}

  /** One pending byte fewer. */
  lemma StateOfNext(n: nat, temp: seq<byte>)
    requires DEC_STATE_ORIG_0 <= n <= DEC_STATE_ORIG_3 && |temp| == 4
    ensures StateOf(n, temp).Pending?
    ensures var s := StateOf(n, temp).bytes;
            && s != [] && s[0] == temp[n - DEC_STATE_ORIG_0]
            && StateOf(n + 1, temp) == if |s| == 1 then Orig else Pending(s[1..])
  {
    if n < DEC_STATE_ORIG_3 {
      assert temp[n - DEC_STATE_ORIG_0..][1..] == temp[n + 1 - DEC_STATE_ORIG_0..];
    }
  }

  lemma AfterTargetIs(t: Run)
    requires Running(t.d) && WellFormed(t)
    ensures AfterTarget(t) == if t.state == Ok then Loop(t.d) else Run(Trailing(t.d), t.state)
  {
    hide Loop;
  }

  lemma ReadInitIs(d: Dec)
    requires d.range < 5 && !(d.range == 1 && d.code != 0) && d.rc != []
    ensures ReadInit(d)
         == ReadInit(d.(range := d.range + 1, code := (d.code * 256 + d.rc[0]) % TWO32, rc := d.rc[1..]))
  {}

  /** CBcj2Dec: state counts as in the enum there; temp[3] is the byte before. */
  class Decoder {
    var range: nat
    var code: u32
    var probs: array<prob>
    var ip: u32
    var temp: array<byte>
    var main: seq<byte>
    var call: seq<byte>
    var jump: seq<byte>
    var rc: seq<byte>
    var dest: seq<byte>
    var room: nat
    var state: nat

    constructor (main: seq<byte>, call: seq<byte>, jump: seq<byte>, rc: seq<byte>, room: nat)
      requires |call| % 4 == 0 && |jump| % 4 == 0
      ensures Valid() && Abs() == Init(main, call, jump, rc, room) && fresh(probs) && fresh(temp)
    {
      range, code, ip := 0, 0, 0;
      probs := new prob[NUM_PROBS](_ => 1024);
      temp := new byte[4](_ => 0);
      this.main, this.call, this.jump, this.rc := main, call, jump, rc;
      dest, this.room, state := [], room, DEC_STATE_OK;
      new;
      assert probs[..] == InitProbs();
    }

    ghost predicate Shape()
      reads this
    {
      probs.Length == NUM_PROBS && temp.Length == 4 && state <= DEC_STATE_OK
    }

    ghost function Core(): Dec
      reads this, probs, temp
      requires Shape()
    {
      Dec(range, code, probs[..], ip, temp[3], main, call, jump, rc, dest, room)
    }

    ghost function Abs(): Run
      reads this, probs, temp
      requires Shape()
    {
      Run(Core(), StateOf(state, temp[..]))
    }

    ghost predicate Valid()
      reads this, probs, temp
    {
      Shape() && WellFormed(Abs())
    }

    /** Where the call will end, from the head of the loop. */
    ghost function Ahead(): Run
      reads this, probs, temp
      requires Shape() && Running(Core())
    {
      if Waiting32(Abs().state) then AfterTarget(ReadTarget(Core())) else Loop(Core())
    }

    /** Bcj2Dec_Decode. */
    method Decode() returns (ok: bool)
      requires Valid()
      modifies this, probs, temp
      ensures Shape() && probs == old(probs) && temp == old(temp)
      ensures (Abs(), ok) == DecodeCall(old(Abs()))
    {
      hide Loop, Round, ReadTarget, AfterTarget, StateOf, Emit, ReadInit;
      StateOfKinds(state, temp[..]);
      if range <= 5 {
        ok := Start();
        if !ok || range <= 5 { return; }
      } else {
        ok := true;
        if state >= DEC_STATE_ORIG_0 {
          EmitPending();
          StateOfKinds(state, temp[..]);
          if state <= DEC_STATE_ORIG_3 { return; }
        } else {
          EmitNothing(Abs());
        }
      }
      Continue();
    }

    /** The five start bytes; range counts those already read. */
    method Start() returns (ok: bool)
      requires Valid() && range <= 5
      modifies this`range, this`code, this`rc, this`state
      ensures Shape()
      ensures !ok || range <= 5 ==> (Abs(), ok) == DecodeCall(old(Abs()))
      ensures ok && range > 5 ==>
        Running(Core()) && Abs().state == Ok && DecodeCall(old(Abs())) == (Loop(Core()), true)
    {
      hide Loop, AfterTarget, ReadTarget, ReadInit, Emit;
      ghost var d := Core();
      StartIs(Abs());
      var more;
      more, ok := ReadStart();
      if !more { return; }
      state := DEC_STATE_OK;
      ReadInitStops(Core());
      if code == 0xFFFF_FFFF { return false; }
      range := 0xFFFF_FFFF;
      return true;
    }

    /** The loop over the start bytes. */
    method ReadStart() returns (more: bool, ok: bool)
      requires Shape() && range <= 5
      modifies this`range, this`code, this`rc, this`state
      ensures Shape() && range <= 5 && Core() == old(Core()).(range := range, code := code, rc := rc)
      ensures more ==> range == 5 && ReadInit(Core()) == ReadInit(old(Core())) && state == old(state)
      ensures !more ==> ReadInit(old(Core())) == (Core(), ok) && (ok ==> range < 5)
      ensures !more ==> state == if ok then 3 else DEC_STATE_OK
    {
      hide ReadInit;
      ghost var d := Core();
      while range != 5
        invariant range <= 5 && Shape() && state == old(state)
        invariant Core() == d.(range := range, code := code, rc := rc)
        invariant ReadInit(Core()) == ReadInit(d)
        decreases 5 - range
      {
        ReadInitStops(Core());
        if range == 1 && code != 0 { state := DEC_STATE_OK; return false, false; }
        if rc == [] { state := 3; return false, true; }
        ReadInitIs(Core());
        code, rc := (code * 256 + rc[0]) % TWO32, rc[1..];
        range := range + 1;
      }
      return true, true;
    }

    /** Bytes of a converted operand that did not fit the last time. */
    method EmitPending()
      requires Shape() && state >= DEC_STATE_ORIG_0
      modifies this`dest, this`room, this`state
      ensures Shape() && DEC_STATE_ORIG_0 <= state
      ensures Core() == old(Core()).(out := dest, room := room)
      ensures Abs() == Emit(old(Abs()))
    {
      hide Emit, StateOf;
      ghost var r := Abs();
      StateOfKinds(state, temp[..]);
      EmitNothing(r);
      while state <= DEC_STATE_ORIG_3
        invariant Shape() && DEC_STATE_ORIG_0 <= state
        invariant Core() == r.d.(out := dest, room := room)
        invariant Emit(Abs()) == Emit(r)
        decreases DEC_STATE_OK - state
      {
        StateOfNext(state, temp[..]);
        EmitNothing(Abs());
        if room == 0 { return; }
        EmitOne(Abs());
        dest := dest + [temp[state - DEC_STATE_ORIG_0]];
        state := state + 1;
        room := room - 1;
      }
      StateOfKinds(state, temp[..]);
      EmitNothing(Abs());
    }

    /** The loop, and the read-ahead after it. */
    method Continue()
      requires Shape() && Running(Core())
      modifies this, probs, temp
      ensures Shape() && probs == old(probs) && temp == old(temp)
      ensures Abs() == old(Ahead())
    {
      hide Loop, Round, ReadTarget, AfterTarget, StateOf, Trailing;
      ghost var r := Ahead();
      while true
        invariant Shape() && probs == old(probs) && temp == old(temp)
        invariant Running(Core()) && r == Ahead()
        decreases |main|, if state == 1 || state == 2 then 1 else 0
      {
        StateOfKinds(state, temp[..]);
        if state == 1 || state == 2 {
          state := DEC_STATE_OK;
        } else {
          var next := Head(r);
          StateOfKinds(state, temp[..]);
          if next == Returned { return; }
          if next == BitZero { continue; }
        }
        AfterTargetIs(ReadTarget(Core()));
        var stop := Target();
        StateOfKinds(state, temp[..]);
        if stop { break; }
      }
      ReadAhead();
    }

    method ReadAhead()
      requires Shape() && Running(Core())
      modifies this`range, this`code, this`rc
      ensures Shape() && Abs() == Run(Trailing(old(Core())), old(Abs()).state)
    {
      if range < TOP && rc != [] {
        code, rc := (code * 256 + rc[0]) % TWO32, rc[1..];
        range := range * 256;
      }
    }

    /** The head of the loop: normalise, copy, decide. */
    method Head(ghost r: Run) returns (next: Next)
      requires Shape() && Running(Core()) && r == Loop(Core())
      modifies this`range, this`code, this`rc, this`main, this`ip, this`dest, this`room, this`state, probs, temp
      ensures Shape() && Running(Core())
      ensures next == Returned ==> Abs() == r
      ensures next == BitZero ==> r == Loop(Core()) && |main| < old(|main|) && state == old(state)
      ensures next == BitOne ==> r == AfterTarget(ReadTarget(Core())) && |main| < old(|main|) && state == old(state)
    {
      hide Loop, Round, ReadTarget, AfterTarget, Trailing, IsBranch;
      LoopIs(Core());
      if range < TOP && rc == [] { state := 3; return Returned; }
      ReadAhead();
      RoundStops(Core());
      if main == [] { state := 0; return Returned; }
      if room == 0 { state := DEC_STATE_ORIG; return Returned; }
      var more := CopyRun(r);
      if !more {
        RoundStops(Core());
        state := if main == [] then 0 else DEC_STATE_ORIG;
        return Returned;
      }
      next := Branch();
    }

    /** The bytes before the next opcode are copied, as far as there is input and room. */
    method CopyRun(ghost r: Run) returns (more: bool)
      requires Shape() && Running(Core()) && TOP <= range && main != [] && room > 0 && r == Round(Core())
      modifies this`main, this`ip, this`dest, this`room, temp
      ensures Shape() && Running(Core()) && r == Round(Core()) && |main| <= old(|main|)
      ensures more ==> main != [] && room > 0 && IsBranch(temp[3], main[0])
      ensures !more ==> main == [] || room == 0
    {
      hide Round, NoBranch, IsBranch;
      var lim := if |main| > room then room else |main|;
      var num := Scan(main, temp[3], lim);
      RoundCopy(Core(), num);
      ghost var d := Copy(Core(), num);
      if num > 0 {
        ip := (ip + num) % TWO32;
        dest := dest + main[..num];
        temp[3] := main[num - 1];
        main, room := main[num..], room - num;
      }
      assert Core() == d;
      more := num != lim;
    }

    /** The opcode that Scan stopped at, and its decision. */
    method Branch() returns (next: Next)
      requires Shape() && Running(Core()) && TOP <= range && main != [] && room > 0 && IsBranch(temp[3], main[0])
      modifies this`range, this`code, this`main, this`ip, this`dest, this`room, probs, temp
      ensures Shape() && Running(Core()) && |main| < old(|main|)
      ensures next == BitZero ==> old(Round(Core())) == Loop(Core())
      ensures next == BitOne ==> old(Round(Core())) == AfterTarget(ReadTarget(Core()))
      ensures next != Returned
    {
      hide Loop, Round, ReadTarget, AfterTarget, IsBranch, ProbIndex, DecodeBit;
      RoundBranch(Core());
      ghost var d := CopyByte(Core());
      var b, prev := main[0], temp[3];
      temp[3] := b;
      main, ip := main[1..], (ip + 1) % TWO32;
      dest, room := dest + [b], room - 1;
      assert Core() == d;
      next := GetBit(ProbIndex(b, prev));
    }

    /** One decision with its context. */
    method GetBit(i: nat) returns (next: Next)
      requires Shape() && Running(Core()) && TOP <= range && i < NUM_PROBS
      modifies this`range, this`code, probs
      ensures Shape() && Running(Core()) && (Core(), next == BitOne) == DecodeBit(old(Core()), i) && next != Returned
    {
      ghost var d := Core();
      var ttt := probs[i];
      var bound := range / BIT_MODEL_TOTAL * ttt;
      BoundInside(range, ttt);
      if code < bound {
        range := bound;
        probs[i] := ttt + (BIT_MODEL_TOTAL - ttt) / 32;
        next := BitZero;
      } else {
        range, code := range - bound, code - bound;
        probs[i] := ttt - ttt / 32;
        next := BitOne;
      }
      assert Core() == DecodeBit(d, i).0;
    }

    /** The operand of the opcode in temp[3]. */
    method Target() returns (stop: bool)
      requires Shape() && Running(Core())
      modifies this`call, this`jump, this`ip, this`dest, this`room, this`state, temp
      ensures Shape() && Running(Core()) && main == old(main)
      ensures var t := ReadTarget(old(Core()));
              Core() == t.d && (stop <==> t.state != Ok) && (stop ==> Abs() == t)
      ensures !stop ==> state == old(state)
    {
      hide ReadTarget, Operand, DropWord;
      TargetIs(Core());
      var isCall := temp[3] == 0xE8;
      var cur := if isCall then call else jump;
      if cur == [] {
        state := if isCall then 1 else 2;
        return true;
      }
      if isCall { call := DropWord(cur); } else { jump := DropWord(cur); }
      ip := (ip + 4) % TWO32;
      stop := PutWord(Operand(cur, ip));
    }

    /** The bytes of the operand go to dest; those that do not fit are kept in temp. */
    method PutWord(w: seq<byte>) returns (stop: bool)
      requires Shape() && |w| == 4
      modifies this`dest, this`room, this`state, temp
      ensures Shape() && stop == (old(room) < 4)
      ensures var n := if old(room) < 4 then old(room) else 4;
              && Core() == old(Core()).(prev := w[3], out := old(dest) + w[..n], room := old(room) - n)
              && (if stop then StateOf(state, temp[..]) == Pending(w[n..]) else state == old(state))
    {
      stop := room < 4;
      if stop {
        temp[0], temp[1], temp[2], temp[3] := w[0], w[1], w[2], w[3];
        assert temp[..] == w;
        dest := dest + w[..room];
        state := DEC_STATE_ORIG_0 + room;
        room := 0;
      } else {
        assert w[..4] == w;
        dest := dest + w;
        temp[3] := w[3];
        room := room - 4;
      }
    }
  }

  lemma TargetIs(d: Dec)
    requires Running(d)
    ensures var cur := if d.prev == 0xE8 then d.call else d.jump;
            if cur == [] then ReadTarget(d) == Run(d, if d.prev == 0xE8 then StreamCall else StreamJump)
            else
              var e := d.(call := if d.prev == 0xE8 then DropWord(cur) else d.call,
                          jump := if d.prev == 0xE8 then d.jump else DropWord(cur), ip := (d.ip + 4) % TWO32);
              var w, n := Operand(cur, e.ip), if d.room < 4 then d.room else 4;
              ReadTarget(d) == Run(e.(prev := w[3], out := d.out + w[..n], room := d.room - n),
                                   if n < 4 then Pending(w[n..]) else Ok)
  {
    hide Operand, DropWord;
  }

  lemma LoopIs(d: Dec)
    requires Running(d)
    ensures d.range < TOP && d.rc == [] ==> Loop(d) == Run(d, StreamRc)
    ensures TOP <= d.range || d.rc != [] ==>
      TOP <= Trailing(d).range && Loop(d) == Round(Trailing(d))
  {
    hide Round;
  }

  lemma RoundStops(d: Dec)
    requires Running(d) && TOP <= d.range
    ensures d.main == [] ==> Round(d) == Run(d, StreamMain)
    ensures d.main != [] && d.room == 0 ==> Round(d) == Run(d, Orig)
  {
    hide Loop, CopyByte, DecodeBit, ReadTarget, AfterTarget;
  }

  lemma RoundBranch(d: Dec)
    requires Running(d) && TOP <= d.range && d.main != [] && d.room > 0 && IsBranch(d.prev, d.main[0])
    ensures var (b, bit) := DecodeBit(CopyByte(d), ProbIndex(d.main[0], d.prev));
            Round(d) == if bit then AfterTarget(ReadTarget(b)) else Loop(b)
  {
    hide Loop, ReadTarget, AfterTarget, IsBranch, ProbIndex, UpdateAt, Bound;
  }

  datatype Next = Returned | BitZero | BitOne

  lemma StartIs(r: Run)
    requires WellFormed(r) && r.d.range <= 5
    ensures var (d, ok) := ReadInit(r.d);
            DecodeCall(r) == if !ok then (Run(d, Ok), false)
                             else if d.range < 5 then (Run(d, StreamRc), true)
                             else (Loop(d.(range := 0xFFFF_FFFF)), true)
  {
    hide ReadInit, Loop, Emit;
  }

  lemma ReadInitStops(d: Dec)
    requires d.range <= 5
    ensures d.range == 5 ==> ReadInit(d) == (d, d.code != 0xFFFF_FFFF)
    ensures d.range == 1 && d.code != 0 ==> ReadInit(d) == (d, false)
    ensures d.range < 5 && !(d.range == 1 && d.code != 0) && d.rc == [] ==> ReadInit(d) == (d, true)
  {}

  lemma EmitNothing(r: Run)
    ensures !r.state.Pending? ==> Emit(r) == r
    ensures r.d.room == 0 && r.state.Pending? && 0 < |r.state.bytes| ==> Emit(r) == r
  {
    if r.state.Pending? {
      assert r.state.bytes[0..] == r.state.bytes && r.d.out + r.state.bytes[..0] == r.d.out;
    }
  }

  lemma EmitOne(r: Run)
    requires r.state.Pending? && |r.state.bytes| > 0 && r.d.room > 0
    ensures var s := r.state.bytes;
            Emit(Run(r.d.(out := r.d.out + [s[0]], room := r.d.room - 1),
                     if |s| == 1 then Orig else Pending(s[1..]))) == Emit(r)
  {
    var s, d := r.state.bytes, r.d;
    var n := if d.room < |s| then d.room else |s|;
    assert [s[0]] + s[1..][..n - 1] == s[..n];
    assert d.out + [s[0]] + s[1..][..n - 1] == d.out + s[..n];
    if n < |s| { assert s[1..][n - 1..] == s[n..]; }
    if |s| == 1 { assert s[..1] == [s[0]]; }
  }

  const DEC_STATE_ORIG_0 := 4
  const DEC_STATE_ORIG_3 := 7
  const DEC_STATE_ORIG := 8
  const DEC_STATE_OK := 9
}
