/** The joint invariant of the block coder: every step of every thread keeps it. */
module MtCoderInv {
  import opened MtCoder
  import opened MtCoderRing
  import opened MtCoderBlocks
  import opened MtCoderSteps
  import opened MtCoderPool
  import opened MtCoderTurn
  import opened MtCoderData

  /** Success is reported only if no error was recorded. */
  ghost predicate DoneInv(s: State) {
    s.end.main == Done(SZ_OK) ==> s.progress == SZ_OK
  }

  ghost predicate Inv(s: State) {
    TurnInv(s) && Base(s) && InputInv(s) && OutInv(s) && DoneInv(s)
  }

  /** MtCoder_Code returns only after the last thread has finished. */
  lemma NotDone(s: State, t: nat)
    requires Inv(s) && t < |s.th| && s.th[t].pc != Idle && !IsFinished(s.th[t].pc)
    ensures !s.end.main.Done?
  {
    hide Base, InputInv, OutInv, DoneInv, ReadTurn, StartedThreads, Ranks;
    if s.end.main.Done? { EventMeansAll(s, t); }
  }

  // ----- steps that change neither a turn nor the ring nor a count -----

  predicate Inner(pc: Pc) {
    match pc
    case Idle => false
    case ReadWait => false
    case CountThread => false
    case SemRelease => false
    case Finish => false
    case Compare => false
    case Ended => false
    case _ => true
  }

  ghost predicate Quiet(s: State, s': State, t: nat) {
    && t < |s.th| && Others(s, s', t) && s'.cfg == s.cfg && s'.end == s.end && s'.rd == s.rd
    && s'.ring.sem == s.ring.sem && s'.ring.writeIndex == s.ring.writeIndex && s'.ring.ready == s.ring.ready
    && |s'.ring.blocks| == |s.ring.blocks|
    && s'.pool.head == s.pool.head && s'.pool.next == s.pool.next && |s'.pool.bufs| == |s.pool.bufs|
    && s'.h == s.h.(out := s'.h.out)
    && Inner(s.th[t].pc) && Inner(s'.th[t].pc) && SameRole(s.th[t], s'.th[t])
    && (InRead(s.th[t].pc) <==> InRead(s'.th[t].pc))
    && (s'.th[t].pc == StartThread ==> s.h.reader == Of(t) && s.end.numStarted < s.cfg.NumThreads())
  }

  /** The parts of the invariant that such a step keeps. */
  lemma QuietKeeps(s: State, s': State, t: nat)
    requires Inv(s) && Quiet(s, s', t)
    ensures TurnInv(s') && RingInv(s') && HeldInv(s') && Linked(s'.pool, s'.h.free) && SemInv(s') && DoneInv(s')
  {
    hide RingInv, TurnInv, BlocksInv, ErrInv, InputInv, OutInv, DoneInv, SemInv, HeldOk, Config.NumBlocks,
         Config.NumThreads, HasBlock, IsWriter;
    NotStarting(s, t);
    TurnKeeps(s, s', t);
    RingKeeps(s, s');
    SemKeeps(s, s');
    NotDone(s, t);
    NotDoneKeeps(s');
  }

  lemma NotDoneKeeps(s: State)
    requires !s.end.main.Done?
    ensures DoneInv(s)
  {}

  lemma BaseIs(s: State)
    requires RingInv(s) && HeldInv(s) && Linked(s.pool, s.h.free) && BlocksInv(s) && SemInv(s) && ErrInv(s)
    ensures Base(s)
  {}

  /** A step of a thread outside the read turn that writes nothing. */
  lemma AsideKeeps(s: State, s': State, t: nat)
    requires Inv(s) && t < |s.th| && Others(s, s', t) && !InRead(s.th[t].pc) && s'.cfg == s.cfg
             && s'.h.reader == s.h.reader
    requires s'.rd.pos == s.rd.pos && s'.rd.stop == s.rd.stop && s'.h.log == s.h.log && s'.h.wseq == s.h.wseq
    requires s'.h.out == s.h.out && (s'.progress == SZ_OK ==> s.progress == SZ_OK)
    requires s.th[t].pc != Release && s'.th[t].pc != Release
    requires s'.h.writer == s.h.writer || (s.h.writer == Nobody && s'.h.writer == Of(t))
    ensures InputInv(s') && OutInv(s')
  {
    hide BlocksInv, ErrInv, SemInv, HeldInv, Linked, StartedThreads, Ranks, EventOnce, InputInv, OutInv, Owners,
         ReadySlots, Sizes, WriteTurn, ReadTurn;
    SameReader(s, s', t);
    InputKeeps(s, s');
    SameLimit(s, s', t);
    OutKeeps(s, s');
  }

  /** A step of the reader leaves the output as it is. */
  lemma ReaderKeepsOut(s: State, s': State, t: nat)
    requires Inv(s) && t < |s.th| && Others(s, s', t) && s'.h.wseq == s.h.wseq && s.h.log <= s'.h.log
    requires s.th[t].pc != Release && s'.th[t].pc != Release
    requires s'.h.out == s.h.out && s'.h.writer == s.h.writer && (s'.progress == SZ_OK ==> s.progress == SZ_OK)
    ensures OutInv(s')
  {
    hide BlocksInv, ErrInv, SemInv, HeldInv, Linked, TurnInv, InputInv, OutInv, Owners, ReadySlots, Sizes, WriteTurn;
    SameLimit(s, s', t);
    OutKeeps(s, s');
  }

  lemma IsReader(s: State, t: nat)
    requires Inv(s) && t < |s.th| && InRead(s.th[t].pc)
    ensures Reader(s) == s.th[t] && s.h.reader == Of(t) && s.end.main != Starting
    ensures s.th[t].pc != CountThread ==> !Counting(s)
  {
    hide Base, StartedThreads, Ranks, EventOnce, InputInv, OutInv, DoneInv;
    ReaderIs(s, t);
  }

  lemma IsThread(s: State, t: nat)
    requires Inv(s) && t < |s.th|
    ensures ThreadOk(s, s.th[t])
  {
    hide Base, TurnInv, InputInv, OutInv, DoneInv, ThreadOk;
    ThreadIs(s, t);
  }

  lemma HeldSame(s: State, s': State)
    requires Inv(s) && s'.h.free == s.h.free && s'.h.held == s.h.held && s'.pool == s.pool
    requires s'.h.wseq == s.h.wseq && |s'.h.log| == |s.h.log|
    ensures HeldInv(s') && Linked(s'.pool, s'.h.free)
  {
    hide TurnInv, InputInv, OutInv, DoneInv, RingInv, SemInv, BlocksInv, ErrInv, Linked, HeldOk;
  }

  lemma ErrSame(s: State, s': State, t: nat)
    requires Inv(s) && t < |s.th| && Others(s, s', t) && s.th[t].pc != WriteFailed
    requires s'.ring.writeRes == s.ring.writeRes && (s'.progress == SZ_OK ==> s.progress == SZ_OK)
    requires s'.h.writer == s.h.writer || s.h.writer == Nobody || s.h.writer == Of(t)
    ensures ErrInv(s')
  {
    hide TurnInv, InputInv, OutInv, DoneInv, Base, ErrInv;
    ErrKeeps(s, s', t);
  }

  lemma RingSameInv(s: State, s': State)
    requires Inv(s) && RingLocal(s, s')
    ensures RingInv(s')
  {
    hide TurnInv, InputInv, OutInv, DoneInv, RingInv, BlocksInv, SemInv, HeldInv, ErrInv, RingLocal;
    RingKeeps(s, s');
  }

  lemma SemSame(s: State, s': State)
    requires Inv(s) && |s'.th| == |s.th| && s'.cfg == s.cfg
    requires s'.ring.sem == s.ring.sem && |s'.h.log| == |s.h.log| && s'.h.wseq == s.h.wseq
             && s'.h.releasing == s.h.releasing
    requires forall u: nat | u < |s.th| :: s.th[u].pc == SemRelease <==> s'.th[u].pc == SemRelease
    ensures SemInv(s')
  {
    hide TurnInv, InputInv, OutInv, DoneInv, RingInv, BlocksInv, SemInv, HeldInv, ErrInv;
    SemKeeps(s, s');
  }
}
