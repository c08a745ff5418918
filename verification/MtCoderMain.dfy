/** What every run of the block coder keeps, for any number of threads and any interleaving. */
module MtCoderMain {
  import opened MtCoder
  import opened MtCoderRing
  import opened MtCoderBlocks
  import opened MtCoderSteps
  import opened MtCoderPool
  import opened MtCoderPlaces
  import opened MtCoderTurn
  import opened MtCoderData
  import opened MtCoderInv
  import opened MtCoderProof

  // ----- runs -----

  datatype Event = MainMoves | ThreadMoves(t: nat, c: Choice)

  /** Blocked: the event was not possible. Fault: an array was left or an empty list was popped. */
  datatype Outcome = At(s: State) | Blocked | Fault

  function Apply(s: State, e: Event): Outcome {
    match e
    case MainMoves => if MainCanStep(s) then At(MainStep(s)) else Blocked
    case ThreadMoves(t, c) =>
      if !CanStep(s, t) then Blocked else if Safe(s, t) then At(Step(s, t, c)) else Fault
  }

  function Run(s: State, events: seq<Event>): Outcome
    decreases |events|
  {
    if events == [] then At(s)
    else
      var o := Apply(s, events[0]);
      if o.At? then Run(o.s, events[1..]) else o
  }

  /** s is the state after some run of MtCoder_Code. */
  ghost predicate Reached(cfg: Config, events: seq<Event>, s: State) {
    Run(Init(cfg), events) == At(s)
  }

  // ----- no step goes wrong -----

  lemma WriterSlot(s: State, t: nat)
    requires Inv(s) && t < |s.th| && HasBlock(s.th[t])
    ensures (if IsWriter(s.th[t]) then s.th[t].wi else s.th[t].bi) < s.cfg.NumBlocks() <= BLOCKS_MAX
    ensures |s.ring.ready| == |s.ring.blocks| == BLOCKS_MAX
  {
    hide TurnInv, InputInv, OutInv, DoneInv, HeldInv, Linked, BlocksInv, SemInv, ErrInv, Slot, HasBlock, IsWriter,
         ReadySlots, WriteTurn;
    SlotNext(s.th[t].k, s.cfg.NumBlocks());
    assert SlotKnown(s.th[t], s.cfg.NumBlocks());
  }

  lemma HeldRange(s: State, t: nat)
    requires Inv(s) && t < |s.th| && BufOk(s, s.th[t].buf, s.th[t].k)
    ensures -1 <= s.th[t].buf < BLOCKS_MAX == |s.pool.next| == |s.pool.bufs|
  {
    hide TurnInv, InputInv, OutInv, DoneInv, RingInv, BlocksInv, SemInv, ErrInv;
  }

  lemma PosInside(s: State)
    requires Inv(s)
    ensures s.rd.pos <= |s.cfg.input|
  {
    hide TurnInv, Base, OutInv, DoneInv, Reader, Flat;
  }

  lemma PopInside(s: State, t: nat)
    requires Inv(s) && t < |s.th| && s.th[t].pc == PopFree
    ensures 0 <= s.pool.head < |s.pool.next| && s.h.free != []
  {
    hide TurnInv, InputInv, OutInv, DoneInv, Base;
    PopHasFree(s, t);
  }

  lemma StepSafe(s: State, t: nat)
    requires Inv(s) && CanStep(s, t)
    ensures Safe(s, t)
  {
    IsThread(s, t);
    if HasBlock(s.th[t]) { WriterSlot(s, t); }
    match s.th[t].pc
    case Read => PosInside(s);
    case StartThread => StartsAnIdleOne(s, t);
    case PopFree => PopInside(s, t);
    case Coding => { hide Inv; HeldRange(s, t); }
    case Writing => { hide Inv; HeldRange(s, t); }
    case Release => { hide Inv; HeldRange(s, t); }
    case _ => { hide Inv; }
  }

  lemma StepKeeps(s: State, t: nat, c: Choice)
    requires Inv(s) && CanStep(s, t)
    ensures Safe(s, t) && Inv(Step(s, t, c))
  {
    StepSafe(s, t);
    hide Inv;
    match s.th[t].pc
    case ReadWait => ReadWaitKeeps(s, t);
    case Read => ReadKeeps(s, t, c);
    case ReadFailed => ReadFailedKeeps(s, t);
    case SemWait => SemWaitKeeps(s, t);
    case CheckError => CheckErrorKeeps(s, t);
    case StartThread => if c.err == SZ_OK { StartsKeeps(s, t, c); } else { StartFailsKeeps(s, t, c); }
    case StartFailed => StartFailedKeeps(s, t);
    case CountThread => CountThreadKeeps(s, t);
    case EndRead => EndReadKeeps(s, t);
    case PopFree => PopFreeKeeps(s, t);
    case Coding => CodingKeeps(s, t, c);
    case CodeFailed => CodeFailedKeeps(s, t);
    case Store => StoreKeeps(s, t);
    case Offer => if s.ring.writeIndex == s.th[t].bi { OfferNowKeeps(s, t); } else { OfferLaterKeeps(s, t); }
    case Inherit => InheritKeeps(s, t);
    case Write => WriteKeeps(s, t);
    case Writing => WritingKeeps(s, t, c);
    case WriteFailed => WriteFailedKeeps(s, t);
    case Release => ReleaseKeeps(s, t);
    case SemRelease => SemReleaseKeeps(s, t);
    case Load => LoadKeeps(s, t);
    case Finish => FinishKeeps(s, t);
    case Compare => CompareKeeps(s, t);
  }

  lemma MainTurn(s: State)
    requires Inv(s) && MainCanStep(s)
    ensures TurnInv(MainStep(s))
  {
    hide Base, InputInv, OutInv, DoneInv;
    var s' := MainStep(s);
    assert s'.th == s.th && s'.h == s.h && Counting(s') == Counting(s);
    assert ReadTurn(s') by { hide StartedThreads, Ranks, EventOnce; }
    assert StartedThreads(s') by { hide ReadTurn, Ranks, EventOnce; }
    assert Ranks(s') by { hide ReadTurn, StartedThreads, EventOnce, RanksOk; }
    assert EventOnce(s') by { MainEvent(s); }
  }

  lemma MainEvent(s: State)
    requires EventOnce(s) && MainCanStep(s)
    ensures EventOnce(MainStep(s))
  {
    var s' := MainStep(s);
    if s.end.sets == 1 {
      var t: nat :| Signals(s, t);
      assert Signals(s', t);
    } else {
      forall u: nat
        ensures !Signals(s', u)
      {
        assert !Signals(s, u);
      }
    }
  }

  lemma MainKeeps(s: State)
    requires Inv(s) && MainCanStep(s)
    ensures Inv(MainStep(s))
  {
    hide TurnInv, InputInv, OutInv, RingInv, HeldInv, Linked, SemInv, BlocksInv, ErrInv, Base, Reader, Limit;
    var s' := MainStep(s);
    MainTurn(s);
    assert Reader(s') == Reader(s) && Limit(s') == Limit(s) by { MainSame(s, s'); }
    InputKeeps(s, s');
    OutKeeps(s, s');
    RingSameInv(s, s');
    SemSame(s, s');
    HeldSame(s, s');
    MainBlocks(s, s');
    BaseIs(s');
  }

  lemma MainSame(s: State, s': State)
    requires s'.th == s.th && s'.h == s.h
    ensures Reader(s') == Reader(s) && Limit(s') == Limit(s)
  {}

  lemma MainBlocks(s: State, s': State)
    requires Inv(s) && s'.th == s.th && s'.h == s.h && s'.ring == s.ring && s'.pool == s.pool && s'.cfg == s.cfg
    requires s'.progress == s.progress && s'.rd.stop == s.rd.stop
    ensures BlocksInv(s') && ErrInv(s')
  {
    hide TurnInv, InputInv, OutInv, DoneInv, RingInv, Linked, SemInv, HeldInv, Slot;
    assert Away(s, s', -1);
    forall t: nat | t < |s'.th|
      ensures ThreadOk(s', s'.th[t])
    {
      ThreadKeeps(s, s', -1, s.th[t]);
    }
    forall k: nat | k in s'.h.owner && s'.h.owner[k] == Parked
      ensures StoredOk(s', Slot(k, s'.cfg.NumBlocks()), k)
    {
      StoredKeeps(s, s', -1, Slot(k, s.cfg.NumBlocks()), k);
    }
  }

  // ----- the start -----

  lemma InitTurn(cfg: Config)
    ensures TurnInv(Init(cfg))
  {}

  lemma InitRing(cfg: Config)
    ensures RingInv(Init(cfg))
  {
    var s, n := Init(cfg), cfg.NumBlocks();
    forall k: nat | k < n
      ensures Marked(s, k)
    {
      SlotIsMod(k, n);
    }
  }

  lemma InitHeld(cfg: Config)
    ensures HeldInv(Init(cfg)) && Linked(Init(cfg).pool, Init(cfg).h.free)
  {}

  lemma InitRest(cfg: Config)
    ensures BlocksInv(Init(cfg)) && SemInv(Init(cfg)) && ErrInv(Init(cfg)) && InputInv(Init(cfg)) && OutInv(Init(cfg))
  {}

  lemma InitInv(cfg: Config)
    ensures Inv(Init(cfg))
  {
    hide TurnInv, InputInv, OutInv, RingInv, HeldInv, Linked, SemInv, BlocksInv, ErrInv;
    InitTurn(cfg);
    InitRing(cfg);
    InitHeld(cfg);
    InitRest(cfg);
  }

  // ----- the results -----

  lemma ApplyKeeps(s: State, e: Event)
    requires Inv(s)
    ensures Apply(s, e) != Fault && (Apply(s, e).At? ==> Inv(Apply(s, e).s))
  {
    hide Inv, CanStep, Safe, Step, MainStep;
    match e
    case MainMoves => if MainCanStep(s) { MainKeeps(s); }
    case ThreadMoves(t, c) => if CanStep(s, t) { StepKeeps(s, t, c); }
  }

  lemma {:induction false} RunKeeps(s: State, events: seq<Event>)
    requires Inv(s)
    ensures Run(s, events) != Fault && (Run(s, events).At? ==> Inv(Run(s, events).s))
    decreases |events|
  {
    hide Inv, Apply;
    if events != [] {
      ApplyKeeps(s, events[0]);
      var o := Apply(s, events[0]);
      if o.At? { RunKeeps(o.s, events[1..]); }
    }
  }

  /** No run leaves an array or pops an empty free list. */
  lemma NoFault(cfg: Config, events: seq<Event>)
    ensures Run(Init(cfg), events) != Fault
  {
    hide Inv, Run, Init;
    InitInv(cfg);
    RunKeeps(Init(cfg), events);
  }

  lemma ReachedInv(cfg: Config, events: seq<Event>, s: State)
    requires Reached(cfg, events, s)
    ensures Inv(s)
  {
    hide Inv, Run, Init;
    InitInv(cfg);
    RunKeeps(Init(cfg), events);
  }

  lemma {:induction false} RunCfg(s: State, events: seq<Event>)
    ensures Run(s, events).At? ==> Run(s, events).s.cfg == s.cfg
    decreases |events|
  {
    if events != [] {
      var o := Apply(s, events[0]);
      if o.At? {
        ApplyCfg(s, events[0]);
        hide Apply;
        RunCfg(o.s, events[1..]);
      }
    }
  }

  lemma ApplyCfg(s: State, e: Event)
    requires Apply(s, e).At?
    ensures Apply(s, e).s.cfg == s.cfg
  {
    hide Config.NumBlocks, Config.NumThreads;
  }

  /** Calls of Write never overlap, and they come in strictly increasing read order, so each
      block is written at most once, with what was coded from that very block. */
  lemma WritesInOrder(cfg: Config, events: seq<Event>, s: State)
    requires Reached(cfg, events, s)
    ensures forall t: nat, u: nat | t < |s.th| && u < |s.th| && s.th[t].pc == Writing && s.th[u].pc == Writing :: t == u
    ensures forall i: nat, j: nat | i < j < |s.h.out| :: s.h.out[i].k < s.h.out[j].k
    ensures forall i: nat | i < |s.h.out| :: Good(s.h.out[i], s.h.log)
  {
    hide Run, Init, Inv;
    ReachedInv(cfg, events, s);
    WriteTurnIs(s);
    OutIs(s);
    hide Reached, Slot, Sizes;
  }

  lemma OutIs(s: State)
    requires Inv(s)
    ensures OutOk(s.h.out, s.h.log, Limit(s), s.progress)
  {
    hide TurnInv, Base, InputInv, DoneInv, OutOk, Limit;
  }

  /** Outstanding blocks have different slots of the ring, and never more than there are. */
  lemma SlotsDistinct(cfg: Config, events: seq<Event>, s: State, j: nat, k: nat)
    requires Reached(cfg, events, s) && s.h.wseq <= j < k < |s.h.log|
    ensures Slot(j, s.cfg.NumBlocks()) != Slot(k, s.cfg.NumBlocks())
    ensures |s.h.log| <= s.h.wseq + s.cfg.NumBlocks()
  {
    hide Run, Init, Inv;
    ReachedInv(cfg, events, s);
    RingIs(s);
    hide Reached, Slot, Owners, ReadySlots, WriteTurn;
    SlotDistinct(j, k, s.cfg.NumBlocks());
  }

  // ----- the buffers -----

  lemma {:induction false} Elements(free: seq<int>) returns (r: set<int>)
    requires forall i: nat, j: nat | i < j < |free| :: free[i] != free[j]
    ensures |r| == |free| && forall b :: b in r <==> b in free
  {
    if free == [] {
      r := {};
    } else {
      var front, last := free[..|free| - 1], free[|free| - 1];
      var q := Elements(front);
      assert free == front + [last];
      assert last !in front;
      r := q + {last};
      assert |r| == |q| + 1;
    }
  }

  /** A map without collisions has as many values as keys. */
  lemma {:induction false} ManyValues(held: map<nat, int>)
    requires forall j: nat, k: nat | j in held && k in held && j != k :: held[j] != held[k]
    ensures |held.Values| == |held|
    decreases |held|
  {
    if held != map[] {
      var k: nat :| k in held;
      var less := held - {k};
      assert held.Keys == less.Keys + {k};
      ManyValues(less);
      assert held.Values == less.Values + {held[k]} && held[k] !in less.Values;
    } else {
      assert held.Values == {};
    }
  }

  function Below(n: nat): (r: set<int>)
    ensures |r| == n && forall b :: b in r <==> 0 <= b < n
  {
    if n == 0 then {} else Below(n - 1) + {n - 1}
  }

  lemma SubsetFull(a: set<int>, b: set<int>)
    requires a <= b && |a| == |b|
    ensures a == b
  {
    assert b == a + (b - a);
    assert |b| == |a| + |b - a|;
  }

  /** Every buffer is on the free list, which ends and never repeats, or belongs to exactly one outstanding block. In
      the program's variables: its index is on the list that begins with freeBlockHead, or it is bufIndex of exactly one
      thread or of exactly one slot of the ring, which is where its block keeps it. */
  lemma EveryBuffer(cfg: Config, events: seq<Event>, s: State, b: int)
    requires Reached(cfg, events, s) && 0 <= b < BLOCKS_MAX
    ensures Linked(s.pool, s.h.free)
    ensures b in s.h.free <==> b !in s.h.held.Values
    ensures forall j: nat, k: nat | j in s.h.held && k in s.h.held && s.h.held[j] == b && s.h.held[k] == b :: j == k
    ensures forall k: nat | k in s.h.held :: s.h.wseq <= k < |s.h.log|
    ensures FreeList(s.pool) == s.h.free
    ensures b in FreeList(s.pool) <==> !Somewhere(s, b)
    ensures forall p: Place, q: Place | Carries(s, p, b) && Carries(s, q, b) :: p == q
    ensures forall k: nat | k in s.h.held :: k in s.h.owner && Carries(s, PlaceOf(s, k), s.h.held[k])
  {
    hide Run, Init, Inv, Carries, PlaceOf, Somewhere;
    ReachedInv(cfg, events, s);
    BuffersOf(s);
    hide Reached, Placed;
    BufferSomewhere(s.h.held, s.h.free, s.h.wseq, |s.h.log|, s.pool, b);
    FreeListIs(s.pool, s.h.free);
    SomewhereIsHeld(s, b);
    forall p: Place, q: Place | Carries(s, p, b) && Carries(s, q, b)
      ensures p == q
    {
      OnePlace(s, p, q, b);
    }
    forall k: nat | k in s.h.held
      ensures k in s.h.owner && Carries(s, PlaceOf(s, k), s.h.held[k])
    {
      HeldIsCarried(s, k);
    }
  }

  lemma BuffersOf(s: State)
    requires Inv(s)
    ensures HeldOk(s.h.held, s.h.free, s.h.wseq, |s.h.log|) && Linked(s.pool, s.h.free) && Placed(s)
  {
    hide TurnInv, InputInv, OutInv, DoneInv, RingInv, BlocksInv, SemInv, ErrInv, HeldOk, Linked;
  }

  lemma BufferSomewhere(held: map<nat, int>, free: seq<int>, lo: nat, hi: nat, p: Pool, b: int)
    requires HeldOk(held, free, lo, hi) && Linked(p, free) && 0 <= b < BLOCKS_MAX
    ensures b in free <==> b !in held.Values
  {
    var f := Elements(free);
    ManyValues(held);
    Covers(f, held.Values, BLOCKS_MAX);
  }

  lemma Covers(f: set<int>, v: set<int>, n: nat)
    requires f !! v && |f| + |v| == n && forall b | b in f || b in v :: 0 <= b < n
    ensures forall b | 0 <= b < n :: b in f <==> b !in v
  {
    assert |f + v| == |f| + |v|;
    SubsetFull(f + v, Below(n));
  }

  // ----- no deadlock -----

  /** If the ring has no free slot, the writer or an owner of the oldest block or a thread about to release one can go
      on. */
  lemma SomeoneGoesOn(s: State) returns (u: nat)
    requires Inv(s) && s.ring.sem == 0
    ensures CanStep(s, u) && s.th[u].pc != SemWait
  {
    RingIs(s);
    SemIs(s);
    hide Inv;
    if s.h.releasing != {} {
      u :| u in s.h.releasing;
    } else {
      assert s.h.wseq < |s.h.log|;
      if s.h.writer.Of? {
        u := s.h.writer.t;
        WriterSteps(s);
      } else {
        OldestSteps(s);
        u := s.h.owner[s.h.wseq].t;
      }
    }
  }

  lemma WriterSteps(s: State)
    requires RingInv(s) && s.h.writer.Of?
    ensures CanStep(s, s.h.writer.t) && s.th[s.h.writer.t].pc != SemWait
  {
    hide Slot, Owners, ReadySlots;
  }

  lemma OldestSteps(s: State)
    requires RingInv(s) && s.h.writer == Nobody && s.h.wseq < |s.h.log|
    ensures s.h.wseq in s.h.owner && s.h.owner[s.h.wseq].By? && CanStep(s, s.h.owner[s.h.wseq].t)
    ensures s.th[s.h.owner[s.h.wseq].t].pc != SemWait
  {
    hide Slot, ReadySlots;
    assert s.h.wseq in s.h.owner;
    assert Holds(s, s.h.owner[s.h.wseq].t, s.h.wseq);
  }

  /** A reader that waits for a free slot leaves some other thread able to step. */
  lemma BlockedReader(cfg: Config, events: seq<Event>, s: State, t: nat)
    requires Reached(cfg, events, s) && t < |s.th| && s.th[t].pc == SemWait && !CanStep(s, t)
    ensures exists u: nat :: u != t && CanStep(s, u)
  {
    hide Run, Init, Inv;
    ReachedInv(cfg, events, s);
    hide Reached;
    var u := SomeoneGoesOn(s);
  }

  /** Until MtCoder_Code has returned, some thread can step. */
  lemma NoDeadlock(cfg: Config, events: seq<Event>, s: State)
    requires Reached(cfg, events, s) && !s.end.main.Done?
    ensures MainCanStep(s) || exists t: nat :: CanStep(s, t)
  {
    hide Run, Init, Inv;
    ReachedInv(cfg, events, s);
    hide Reached;
    if !MainCanStep(s) {
      var t := Unfinished(s);
      if s.th[t].pc == ReadWait {
        if !CanStep(s, t) {
          var r := TurnHolder(s);
          if !CanStep(s, r) { var u := SomeoneGoesOn(s); }
        }
      } else if !CanStep(s, t) {
        var u := SomeoneGoesOn(s);
      }
    }
  }

  lemma Unfinished(s: State) returns (t: nat)
    requires Inv(s) && s.end.main == Waiting && s.end.sets == 0
    ensures t < |s.th| && s.th[t].pc != Idle && s.th[t].pc != Ended
  {
    hide Base, InputInv, OutInv, DoneInv, TurnInv;
    if forall t: nat | t < |s.th| :: s.th[t].pc == Idle || s.th[t].pc == Ended {
      AllEndedSignals(s);
    }
    t :| t < |s.th| && s.th[t].pc != Idle && s.th[t].pc != Ended;
  }

  lemma TurnHolder(s: State) returns (r: nat)
    requires Inv(s) && s.end.main == Waiting && !s.rd.event
    ensures r < |s.th| && InRead(s.th[r].pc)
  {
    hide Base, InputInv, OutInv, DoneInv, StartedThreads, Ranks, EventOnce;
    r := s.h.reader.t;
  }

  // ----- the end -----

  /** finishedEvent is set at most once, only after all started threads have finished, and before MtCoder_Code
      returns. */
  lemma FinishedOnce(cfg: Config, events: seq<Event>, s: State)
    requires Reached(cfg, events, s)
    ensures s.end.sets <= 1 && (s.end.main.Done? ==> s.end.sets == 1)
    ensures s.end.sets == 1 ==> s.end.numFinished == s.end.numStarted
                                && forall t: nat | t < |s.th| && s.th[t].pc != Idle :: IsFinished(s.th[t].pc)
    ensures (forall t: nat | t < |s.th| :: s.th[t].pc == Idle || s.th[t].pc == Ended) ==> s.end.sets == 1
  {
    hide Run, Init, Inv;
    ReachedInv(cfg, events, s);
    hide Reached;
    EndOf(s);
  }

  lemma EndOf(s: State)
    requires Inv(s)
    ensures s.end.sets <= 1 && (s.end.main.Done? ==> s.end.sets == 1)
    ensures s.end.sets == 1 ==> s.end.numFinished == s.end.numStarted
                                && forall t: nat | t < |s.th| && s.th[t].pc != Idle :: IsFinished(s.th[t].pc)
    ensures (forall t: nat | t < |s.th| :: s.th[t].pc == Idle || s.th[t].pc == Ended) ==> s.end.sets == 1
  {
    hide Base, InputInv, OutInv, DoneInv, ReadTurn, StartedThreads, Ranks;
    if s.end.sets == 1 {
      forall t: nat | t < |s.th| && s.th[t].pc != Idle
        ensures IsFinished(s.th[t].pc)
      {
        EventMeansAll(s, t);
      }
    }
    if forall t: nat | t < |s.th| :: s.th[t].pc == Idle || s.th[t].pc == Ended { AllEndedSignals(s); }
  }

  /** If MtCoder_Code returns SZ_OK, every block was written exactly once and in order, the blocks
      make up the whole input, and just the last one was marked as the end and may be short. */
  lemma Success(cfg: Config, events: seq<Event>, s: State)
    requires Reached(cfg, events, s) && s.end.main == Done(SZ_OK)
    ensures |s.h.out| == |s.h.log| > 0 && Flat(s.h.log) == cfg.input
    ensures forall i: nat | i < |s.h.log| ::
              s.h.out[i].k == i && s.h.out[i].data.src == s.h.log[i].src
              && s.h.out[i].data.finished == s.h.log[i].finished
    ensures forall i: nat | i < |s.h.log| :: s.h.log[i].finished <==> i == |s.h.log| - 1
    ensures forall i: nat | i + 1 < |s.h.log| :: |s.h.log[i].src| == cfg.blockSize
  {
    hide Init, Inv, Run;
    ReachedInv(cfg, events, s);
    RunCfg(Init(cfg), events);
    assert s.cfg == cfg by { InitCfg(cfg); }
    hide Reached, Flat, InputOk, Limit;
    EndOf(s);
    NothingLeft(s);
    OutIs(s);
    AllRead(s);
  }

  lemma InitCfg(cfg: Config)
    ensures Init(cfg).cfg == cfg
  {}

  lemma NothingLeft(s: State)
    requires Inv(s) && forall t: nat | t < |s.th| && s.th[t].pc != Idle :: IsFinished(s.th[t].pc)
    ensures s.h.wseq == |s.h.log| && Limit(s) == s.h.wseq && Reader(s) == IDLE
  {
    RingIs(s);
    ReaderGone(s);
    hide Inv, RingInv;
    NobodyOwns(s);
  }

  lemma NobodyOwns(s: State)
    requires RingInv(s) && forall t: nat | t < |s.th| && s.th[t].pc != Idle :: IsFinished(s.th[t].pc)
    ensures s.h.wseq == |s.h.log| && Limit(s) == s.h.wseq
  {
    RingSizes(s);
    hide RingInv;
    if s.h.writer.Of? { WriterSteps(s); }
    if s.h.wseq < |s.h.log| { OldestSteps(s); }
  }

  lemma RingSizes(s: State)
    requires RingInv(s)
    ensures s.h.wseq <= |s.h.log| <= s.h.wseq + s.cfg.NumBlocks()
  {
    hide Owners, ReadySlots, WriteTurn, Slot;
  }

  lemma ReaderGone(s: State)
    requires Inv(s) && forall t: nat | t < |s.th| && s.th[t].pc != Idle :: IsFinished(s.th[t].pc)
    ensures Reader(s) == IDLE
  {
    hide Base, InputInv, OutInv, DoneInv, StartedThreads, Ranks, EventOnce;
  }

  lemma AllRead(s: State)
    requires Inv(s) && s.end.main == Done(SZ_OK) && Reader(s) == IDLE
    ensures s.progress == SZ_OK && Closed(s.h.log) && Flat(s.h.log) == s.cfg.input
    ensures forall i: nat | i < |s.h.log| :: s.h.log[i].finished <==> i == |s.h.log| - 1
    ensures forall i: nat | i + 1 < |s.h.log| :: |s.h.log[i].src| == s.cfg.blockSize
  {
    SomeoneEnded(s);
    hide Base, OutInv, TurnInv, Reader, Flat;
    assert s.cfg.input[..|s.cfg.input|] == s.cfg.input;
  }

  lemma SomeoneEnded(s: State)
    requires Inv(s) && s.end.main == Done(SZ_OK)
    ensures s.rd.stop || s.progress != SZ_OK
  {
    hide Base, InputInv, OutInv, DoneInv, ReadTurn, StartedThreads, Ranks;
    var t: nat :| Signals(s, t);
    IsThread(s, t);
  }
}
