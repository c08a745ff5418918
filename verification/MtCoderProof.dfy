/** Each step of a thread keeps the joint invariant. */
module MtCoderProof {
  import opened MtCoder
  import opened MtCoderRing
  import opened MtCoderBlocks
  import opened MtCoderSteps
  import opened MtCoderPool
  import opened MtCoderTurn
  import opened MtCoderData
  import opened MtCoderInv

  // ----- coding and writing -----

  lemma CodingKeeps(s: State, t: nat, c: Choice)
    requires Inv(s) && t < |s.th| && s.th[t].pc == Coding && 0 <= s.th[t].buf < |s.pool.bufs|
    ensures Inv(DoCoding(s, t, c))
  {
    hide TurnInv, Base, InputInv, OutInv, DoneInv, RingInv, HeldInv, Linked, BlocksInv, SemInv, ErrInv, ThreadOk, Slot,
         Reader, Config.NumBlocks, Config.NumThreads;
    var s' := DoCoding(s, t, c);
    QuietKeeps(s, s', t);
    AsideKeeps(s, s', t);
    ErrSame(s, s', t);
    if c.tick { CodingTicks(s, t, c); } else { CodingBlocks(s, t, c); }
    BaseIs(s');
  }

  lemma CodeFailedKeeps(s: State, t: nat)
    requires Inv(s) && t < |s.th| && s.th[t].pc == CodeFailed
    ensures Inv(DoSetError(s, t, Store))
  {
    hide TurnInv, Base, InputInv, OutInv, DoneInv, RingInv, HeldInv, Linked, BlocksInv, SemInv, ErrInv, ThreadOk, Slot,
         Reader, Config.NumBlocks, Config.NumThreads;
    var s' := DoSetError(s, t, Store);
    QuietKeeps(s, s', t);
    AsideKeeps(s, s', t);
    ErrSame(s, s', t);
    ErrorBlocks(s, t, Store);
    BaseIs(s');
  }

  lemma StoreKeeps(s: State, t: nat)
    requires Inv(s) && t < |s.th| && s.th[t].pc == Store && s.th[t].bi < |s.ring.blocks|
    ensures Inv(DoStore(s, t))
  {
    hide TurnInv, Base, InputInv, OutInv, DoneInv, RingInv, HeldInv, Linked, BlocksInv, SemInv, ErrInv, ThreadOk, Slot,
         Reader, Config.NumBlocks, Config.NumThreads;
    var s' := DoStore(s, t);
    QuietKeeps(s, s', t);
    AsideKeeps(s, s', t);
    ErrSame(s, s', t);
    StoreBlocks(s, t);
    BaseIs(s');
  }

  lemma InheritKeeps(s: State, t: nat)
    requires Inv(s) && t < |s.th| && s.th[t].pc == Inherit
    ensures Inv(DoInherit(s, t))
  {
    hide TurnInv, Base, InputInv, OutInv, DoneInv, RingInv, HeldInv, Linked, BlocksInv, SemInv, ErrInv, ThreadOk, Slot,
         Reader, Config.NumBlocks, Config.NumThreads;
    var s' := DoInherit(s, t);
    QuietKeeps(s, s', t);
    AsideKeeps(s, s', t);
    ErrSame(s, s', t);
    InheritBlocks(s, t);
    BaseIs(s');
  }

  lemma LoadKeeps(s: State, t: nat)
    requires Inv(s) && t < |s.th| && s.th[t].pc == Load && s.th[t].wi < |s.ring.blocks|
    ensures Inv(DoLoad(s, t))
  {
    hide TurnInv, Base, InputInv, OutInv, DoneInv, RingInv, HeldInv, Linked, BlocksInv, SemInv, ErrInv, ThreadOk, Slot,
         Reader, Config.NumBlocks, Config.NumThreads;
    var s' := DoLoad(s, t);
    QuietKeeps(s, s', t);
    AsideKeeps(s, s', t);
    ErrSame(s, s', t);
    LoadBlocks(s, t);
    BaseIs(s');
  }

  lemma WriteKeeps(s: State, t: nat)
    requires Inv(s) && t < |s.th| && s.th[t].pc == Write
    ensures Inv(DoWrite(s, t))
  {
    hide TurnInv, Base, InputInv, OutInv, DoneInv, RingInv, HeldInv, Linked, BlocksInv, SemInv, ErrInv, ThreadOk, Slot,
         Reader, Config.NumBlocks, Config.NumThreads;
    var s' := DoWrite(s, t);
    QuietKeeps(s, s', t);
    IsThread(s, t);
    InputAside(s, s', t);
    WriteTurnIs(s);
    WriteSkips(s, t);
    ErrSame(s, s', t);
    WriteBlocks(s, t);
    BaseIs(s');
  }

  lemma WritingKeeps(s: State, t: nat, c: Choice)
    requires Inv(s) && t < |s.th| && s.th[t].pc == Writing && 0 <= s.th[t].buf < |s.pool.bufs|
    ensures Inv(DoWriting(s, t, c))
  {
    hide TurnInv, Base, InputInv, OutInv, DoneInv, RingInv, HeldInv, Linked, BlocksInv, SemInv, ErrInv, ThreadOk, Slot,
         Reader, Config.NumBlocks, Config.NumThreads;
    var s' := DoWriting(s, t, c);
    QuietKeeps(s, s', t);
    IsThread(s, t);
    InputAside(s, s', t);
    WriteTurnIs(s);
    WritingOut(s, t, c);
    WritingErr(s, t, c);
    WritingBlocks(s, t, c);
    BaseIs(s');
  }

  lemma WriteFailedKeeps(s: State, t: nat)
    requires Inv(s) && t < |s.th| && s.th[t].pc == WriteFailed
    ensures Inv(DoSetError(s, t, Release))
  {
    hide TurnInv, Base, InputInv, OutInv, DoneInv, RingInv, HeldInv, Linked, BlocksInv, SemInv, ErrInv, ThreadOk, Slot,
         Reader, Config.NumBlocks, Config.NumThreads;
    var s' := DoSetError(s, t, Release);
    QuietKeeps(s, s', t);
    IsThread(s, t);
    InputAside(s, s', t);
    WriteTurnIs(s);
    WriteFailedOut(s, t);
    WriteFails(s, t);
    ErrorBlocks(s, t, Release);
    BaseIs(s');
  }

  lemma InputAside(s: State, s': State, t: nat)
    requires Inv(s) && t < |s.th| && Others(s, s', t) && !InRead(s.th[t].pc) && s'.cfg == s.cfg
             && s'.h.reader == s.h.reader
    requires s'.rd.pos == s.rd.pos && s'.rd.stop == s.rd.stop && s'.h.log == s.h.log
    requires s'.progress == SZ_OK ==> s.progress == SZ_OK
    ensures InputInv(s')
  {
    hide Base, OutInv, DoneInv, StartedThreads, Ranks, EventOnce, ReadTurn, InputInv, Reader;
    SameReader(s, s', t);
    InputKeeps(s, s');
  }

  lemma WriteTurnIs(s: State)
    requires Inv(s)
    ensures WriteTurn(s)
  {
    hide TurnInv, InputInv, OutInv, DoneInv, HeldInv, Linked, BlocksInv, SemInv, ErrInv, Sizes, Owners, ReadySlots,
         WriteTurn;
  }

  lemma PopFreeKeeps(s: State, t: nat)
    requires Inv(s) && t < |s.th| && s.th[t].pc == PopFree && 0 <= s.pool.head < |s.pool.next| && s.h.free != []
    ensures Inv(DoPopFree(s, t))
  {
    hide TurnInv, Base, InputInv, OutInv, DoneInv, RingInv, HeldInv, Linked, BlocksInv, SemInv, ErrInv, ThreadOk, Slot,
         Reader, Config.NumBlocks, Config.NumThreads;
    var s' := DoPopFree(s, t);
    NotStarting(s, t);
    TurnKeeps(s, s', t);
    RingSameInv(s, s');
    SemSame(s, s');
    NotDone(s, t);
    NotDoneKeeps(s');
    AsideKeeps(s, s', t);
    ErrSame(s, s', t);
    PopFreeHeld(s, t);
    PopFreeBlocks(s, t);
    BaseIs(s');
  }

  lemma OfferNowKeeps(s: State, t: nat)
    requires Inv(s) && t < |s.th| && s.th[t].pc == Offer && s.th[t].bi < |s.ring.ready|
             && s.ring.writeIndex == s.th[t].bi
    ensures Inv(DoOffer(s, t))
  {
    hide TurnInv, Base, InputInv, OutInv, DoneInv, RingInv, HeldInv, Linked, BlocksInv, SemInv, ErrInv, ThreadOk, Slot,
         Reader, Config.NumBlocks, Config.NumThreads;
    var s' := DoOffer(s, t);
    NotStarting(s, t);
    TurnKeeps(s, s', t);
    RingIs(s);
    RingOffers(s, t);
    OldestIsNext(s, t);
    SemSame(s, s');
    NotDone(s, t);
    NotDoneKeeps(s');
    AsideKeeps(s, s', t);
    ErrSame(s, s', t);
    HeldSame(s, s');
    OfferNowBlocks(s, t);
    BaseIs(s');
  }

  lemma OfferLaterKeeps(s: State, t: nat)
    requires Inv(s) && t < |s.th| && s.th[t].pc == Offer && s.th[t].bi < |s.ring.ready|
             && s.ring.writeIndex != s.th[t].bi
    ensures Inv(DoOffer(s, t))
  {
    hide TurnInv, Base, InputInv, OutInv, DoneInv, RingInv, HeldInv, Linked, BlocksInv, SemInv, ErrInv, ThreadOk, Slot,
         Reader, Config.NumBlocks, Config.NumThreads;
    var s' := DoOffer(s, t);
    NotStarting(s, t);
    TurnKeeps(s, s', t);
    RingIs(s);
    RingOffers(s, t);
    SemSame(s, s');
    NotDone(s, t);
    NotDoneKeeps(s');
    AsideKeeps(s, s', t);
    ErrSame(s, s', t);
    HeldSame(s, s');
    OfferLaterBlocks(s, t);
    BaseIs(s');
  }

  lemma ReleaseKeeps(s: State, t: nat)
    requires Inv(s) && t < |s.th| && s.th[t].pc == Release && -1 <= s.th[t].buf < |s.pool.next|
    requires NextIndex(s.th[t].wi, s.cfg.NumBlocks()) < |s.ring.ready|
    ensures Inv(DoRelease(s, t))
  {
    hide TurnInv, Base, InputInv, OutInv, DoneInv, RingInv, HeldInv, Linked, BlocksInv, SemInv, ErrInv, ThreadOk, Slot,
         Reader, Config.NumBlocks, Config.NumThreads;
    var s' := DoRelease(s, t);
    NotStarting(s, t);
    TurnKeeps(s, s', t);
    RingIs(s);
    WriterIs(s, t);
    RingReleases(s, t);
    SemReleases(s, t);
    NotDone(s, t);
    NotDoneKeeps(s');
    InputAside(s, s', t);
    WriteTurnIs(s);
    ReleaseOut(s, t);
    ErrSame(s, s', t);
    ReleaseHeld(s, t);
    ReleaseBlocks(s, t);
    BaseIs(s');
  }

  lemma SemReleaseKeeps(s: State, t: nat)
    requires Inv(s) && t < |s.th| && s.th[t].pc == SemRelease
    ensures Inv(DoSemRelease(s, t))
  {
    hide TurnInv, Base, InputInv, OutInv, DoneInv, RingInv, HeldInv, Linked, BlocksInv, SemInv, ErrInv, ThreadOk, Slot,
         Reader, Config.NumBlocks, Config.NumThreads;
    var s' := DoSemRelease(s, t);
    NotStarting(s, t);
    TurnKeeps(s, s', t);
    RingSameInv(s, s');
    SemIs(s);
    SemGives(s, t);
    NotDone(s, t);
    NotDoneKeeps(s');
    AsideKeeps(s, s', t);
    ErrSame(s, s', t);
    HeldSame(s, s');
    SemReleaseBlocks(s, t);
    BaseIs(s');
  }

  lemma RingIs(s: State)
    requires Inv(s)
    ensures RingInv(s)
  {
    hide TurnInv, InputInv, OutInv, DoneInv, HeldInv, Linked, BlocksInv, SemInv, ErrInv, RingInv;
  }

  lemma SemIs(s: State)
    requires Inv(s)
    ensures SemInv(s)
  {
    hide TurnInv, InputInv, OutInv, DoneInv, HeldInv, Linked, BlocksInv, RingInv, ErrInv, SemInv;
  }

  // ----- reading -----

  lemma ReadWaitKeeps(s: State, t: nat)
    requires Inv(s) && t < |s.th| && s.th[t].pc == ReadWait && s.rd.event
    ensures Inv(DoReadWait(s, t))
  {
    hide TurnInv, Base, InputInv, OutInv, DoneInv, RingInv, HeldInv, Linked, BlocksInv, SemInv, ErrInv, ThreadOk, Slot,
         Reader, Config.NumBlocks, Config.NumThreads;
    var s' := DoReadWait(s, t);
    TakesTurn(s, t);
    EventMeansNobody(s);
    RingSameInv(s, s');
    SemSame(s, s');
    DoneSame(s, s');
    ReadWaitInput(s, t);
    ReaderKeepsOut(s, s', t);
    ErrSame(s, s', t);
    HeldSame(s, s');
    ReadWaitBlocks(s, t);
    BaseIs(s');
  }

  lemma EventMeansNobody(s: State)
    requires Inv(s) && s.rd.event
    ensures s.h.reader == Nobody
  {
    hide Base, InputInv, OutInv, DoneInv, ReadTurn, StartedThreads, Ranks, EventOnce;
    EventNobody(s);
  }

  lemma DoneSame(s: State, s': State)
    requires Inv(s) && s'.end.main == s.end.main && s'.progress == s.progress
    ensures DoneInv(s')
  {
    hide Base, InputInv, OutInv, TurnInv;
  }

  lemma ReadKeeps(s: State, t: nat, c: Choice)
    requires Inv(s) && t < |s.th| && s.th[t].pc == Read && s.rd.pos <= |s.cfg.input|
    ensures Inv(DoRead(s, t, c))
  {
    hide TurnInv, Base, InputInv, OutInv, DoneInv, RingInv, HeldInv, Linked, BlocksInv, SemInv, ErrInv, ThreadOk, Slot,
         Reader, Config.NumBlocks, Config.NumThreads;
    var s' := DoRead(s, t, c);
    IsReader(s, t);
    ReadTurnKeeps(s, t, c);
    RingSameInv(s, s');
    SemSame(s, s');
    DoneSame(s, s');
    ReadInput(s, t, c);
    ReaderKeepsOut(s, s', t);
    ErrSame(s, s', t);
    HeldSame(s, s');
    ReadBlocks(s, t, c);
    BaseIs(s');
  }

  lemma ReadTurnKeeps(s: State, t: nat, c: Choice)
    requires Inv(s) && t < |s.th| && s.th[t].pc == Read && s.rd.pos <= |s.cfg.input| && s.end.main != Starting
    ensures TurnInv(DoRead(s, t, c))
  {
    hide Base, InputInv, OutInv, DoneInv, TurnInv;
    if s.rd.stop { PassesTurn(s, DoRead(s, t, c), t); } else { TurnKeeps(s, DoRead(s, t, c), t); }
  }

  lemma ReadFailedKeeps(s: State, t: nat)
    requires Inv(s) && t < |s.th| && s.th[t].pc == ReadFailed
    ensures Inv(DoSetError(s, t, SemWait))
  {
    hide TurnInv, Base, InputInv, OutInv, DoneInv, RingInv, HeldInv, Linked, BlocksInv, SemInv, ErrInv, ThreadOk, Slot,
         Reader, Config.NumBlocks, Config.NumThreads;
    var s' := DoSetError(s, t, SemWait);
    IsReader(s, t);
    QuietKeeps(s, s', t);
    ErrorInput(s, t, SemWait);
    ReaderKeepsOut(s, s', t);
    ErrSame(s, s', t);
    ErrorBlocks(s, t, SemWait);
    BaseIs(s');
  }

  lemma StartFailedKeeps(s: State, t: nat)
    requires Inv(s) && t < |s.th| && s.th[t].pc == StartFailed
    ensures Inv(DoSetError(s, t, EndRead))
  {
    hide TurnInv, Base, InputInv, OutInv, DoneInv, RingInv, HeldInv, Linked, BlocksInv, SemInv, ErrInv, ThreadOk, Slot,
         Reader, Config.NumBlocks, Config.NumThreads;
    var s' := DoSetError(s, t, EndRead);
    IsReader(s, t);
    QuietKeeps(s, s', t);
    ErrorInput(s, t, EndRead);
    ReaderKeepsOut(s, s', t);
    ErrSame(s, s', t);
    ErrorBlocks(s, t, EndRead);
    BaseIs(s');
  }

  lemma CheckErrorKeeps(s: State, t: nat)
    requires Inv(s) && t < |s.th| && s.th[t].pc == CheckError
    ensures Inv(DoCheckError(s, t))
  {
    hide TurnInv, Base, InputInv, OutInv, DoneInv, RingInv, HeldInv, Linked, BlocksInv, SemInv, ErrInv, ThreadOk, Slot,
         Reader, Config.NumBlocks, Config.NumThreads;
    var s' := DoCheckError(s, t);
    IsReader(s, t);
    QuietKeeps(s, s', t);
    CheckErrorInput(s, t);
    ReaderKeepsOut(s, s', t);
    ErrSame(s, s', t);
    CheckErrorBlocks(s, t);
    BaseIs(s');
  }

  lemma SemWaitKeeps(s: State, t: nat)
    requires Inv(s) && t < |s.th| && s.th[t].pc == SemWait && s.ring.sem > 0
    ensures Inv(DoSemWait(s, t))
  {
    hide TurnInv, Base, InputInv, OutInv, DoneInv, RingInv, HeldInv, Linked, BlocksInv, SemInv, ErrInv, ThreadOk, Slot,
         Reader, Config.NumBlocks, Config.NumThreads;
    var s' := DoSemWait(s, t);
    IsReader(s, t);
    TurnKeeps(s, s', t);
    SemIs(s);
    SemTakes(s, t);
    RingIs(s);
    RingTakes(s, t);
    DoneSame(s, s');
    SemWaitInput(s, t);
    ReaderKeepsOut(s, s', t);
    ErrSame(s, s', t);
    HeldLonger(s, s');
    SemWaitBlocks(s, t);
    BaseIs(s');
  }

  lemma HeldLonger(s: State, s': State)
    requires Inv(s) && s'.h.free == s.h.free && s'.h.held == s.h.held && s'.pool == s.pool
    requires s'.h.wseq == s.h.wseq && |s'.h.log| == |s.h.log| + 1
    ensures HeldInv(s') && Linked(s'.pool, s'.h.free)
  {
    hide TurnInv, InputInv, OutInv, DoneInv, RingInv, SemInv, BlocksInv, ErrInv, Linked;
  }

  /** Just before a thread is started its place is idle. */
  lemma StartsAnIdleOne(s: State, t: nat)
    requires Inv(s) && t < |s.th| && s.th[t].pc == StartThread
    ensures s.end.numStarted < |s.th| && s.th[s.end.numStarted].pc == Idle && s.end.numStarted != t
  {
    hide Base, InputInv, OutInv, DoneInv, Ranks, EventOnce;
    NotCounting(s, t);
  }

  lemma StartFailsKeeps(s: State, t: nat, c: Choice)
    requires Inv(s) && t < |s.th| && s.th[t].pc == StartThread && s.end.numStarted < |s.th| && c.err != SZ_OK
    ensures Inv(DoStartThread(s, t, c))
  {
    hide TurnInv, Base, InputInv, OutInv, DoneInv, RingInv, HeldInv, Linked, BlocksInv, SemInv, ErrInv, ThreadOk, Slot,
         Reader, Config.NumBlocks, Config.NumThreads;
    var s' := DoStartThread(s, t, c);
    IsReader(s, t);
    StartsAnIdleOne(s, t);
    QuietKeeps(s, s', t);
    StartThreadInput(s, t, c);
    ReaderKeepsOut(s, s', t);
    ErrSame(s, s', t);
    StartFails(s, t, c);
    BaseIs(s');
  }

  /** As if the new thread first appeared and then the reader moved on. */
  lemma StartsBase(s: State, t: nat, c: Choice)
    requires Inv(s) && t < |s.th| && s.th[t].pc == StartThread && s.end.numStarted < |s.th| && c.err == SZ_OK
    requires s.end.numStarted < |s.th| && s.th[s.end.numStarted].pc == Idle && s.end.numStarted != t
    ensures Base(DoStartThread(s, t, c)) && OutInv(DoStartThread(s, t, c))
  {
    hide TurnInv, Base, InputInv, OutInv, DoneInv, RingInv, HeldInv, Linked, BlocksInv, SemInv, ErrInv, ThreadOk, Slot,
         Reader;
    var s', n := DoStartThread(s, t, c), s.end.numStarted;
    var s1 := Goto(s, n, ReadWait);
    NewThread(s, n);
    BaseParts(s1);
    RingKeeps(s1, s');
    SameHeld(s1, s');
    SemKeeps(s1, s');
    ErrKeeps(s1, s', t);
    StartsBlocks(s, t, c);
    NewLimit(s, s1, n);
    SameLimit(s1, s', t);
    OutKeeps(s, s');
    BaseIs(s');
  }

  lemma BaseParts(s: State)
    requires Base(s)
    ensures RingInv(s) && WriteTurn(s) && HeldInv(s) && Linked(s.pool, s.h.free) && SemInv(s)
  {
    hide HeldInv, Linked, BlocksInv, SemInv, ErrInv, Sizes, Owners, ReadySlots, WriteTurn;
  }

  lemma NewLimit(s: State, s': State, n: nat)
    requires Inv(s) && n < |s.th| && s.th[n].pc == Idle && s' == Goto(s, n, ReadWait)
    ensures Limit(s') == Limit(s)
  {
    hide TurnInv, Base, InputInv, OutInv, DoneInv, RingInv;
    WriteTurnIs(s);
    SameLimit(s, s', n);
  }

  lemma StartsKeeps(s: State, t: nat, c: Choice)
    requires Inv(s) && t < |s.th| && s.th[t].pc == StartThread && s.end.numStarted < |s.th| && c.err == SZ_OK
    ensures Inv(DoStartThread(s, t, c))
  {
    hide TurnInv, Base, InputInv, OutInv, DoneInv, RingInv, HeldInv, Linked, BlocksInv, SemInv, ErrInv, ThreadOk, Slot,
         Reader, Config.NumBlocks, Config.NumThreads;
    var s' := DoStartThread(s, t, c);
    IsReader(s, t);
    StartsAnIdleOne(s, t);
    StartsThread(s, t, c);
    DoneSame(s, s');
    StartThreadInput(s, t, c);
    StartsBase(s, t, c);
  }

  lemma CountThreadKeeps(s: State, t: nat)
    requires Inv(s) && t < |s.th| && s.th[t].pc == CountThread
    ensures Inv(DoCountThread(s, t))
  {
    hide TurnInv, Base, InputInv, OutInv, DoneInv, RingInv, HeldInv, Linked, BlocksInv, SemInv, ErrInv, ThreadOk, Slot,
         Reader, Config.NumBlocks, Config.NumThreads;
    var s' := DoCountThread(s, t);
    IsReader(s, t);
    CountsThread(s, t);
    RingSameInv(s, s');
    SemSame(s, s');
    DoneSame(s, s');
    CountThreadInput(s, t);
    ReaderKeepsOut(s, s', t);
    ErrSame(s, s', t);
    HeldSame(s, s');
    CountBlocks(s, t);
    BaseIs(s');
  }

  lemma EndReadKeeps(s: State, t: nat)
    requires Inv(s) && t < |s.th| && s.th[t].pc == EndRead
    ensures Inv(DoEndRead(s, t))
  {
    hide TurnInv, Base, InputInv, OutInv, DoneInv, RingInv, HeldInv, Linked, BlocksInv, SemInv, ErrInv, ThreadOk, Slot,
         Reader, Config.NumBlocks, Config.NumThreads;
    var s' := DoEndRead(s, t);
    IsReader(s, t);
    IsThread(s, t);
    PassesTurn(s, s', t);
    RingSameInv(s, s');
    SemSame(s, s');
    DoneSame(s, s');
    EndReadInput(s, t);
    ReaderKeepsOut(s, s', t);
    ErrSame(s, s', t);
    HeldSame(s, s');
    EndReadBlocks(s, t);
    BaseIs(s');
  }

  // ----- ending -----

  lemma FinishKeeps(s: State, t: nat)
    requires Inv(s) && t < |s.th| && s.th[t].pc == Finish
    ensures Inv(DoFinish(s, t))
  {
    hide TurnInv, Base, InputInv, OutInv, DoneInv, RingInv, HeldInv, Linked, BlocksInv, SemInv, ErrInv, ThreadOk, Slot,
         Reader, Config.NumBlocks, Config.NumThreads;
    var s' := DoFinish(s, t);
    Finishes(s, t);
    RingSameInv(s, s');
    SemSame(s, s');
    DoneSame(s, s');
    AsideKeeps(s, s', t);
    ErrSame(s, s', t);
    HeldSame(s, s');
    FinishBlocks(s, t);
    BaseIs(s');
  }

  lemma CompareKeeps(s: State, t: nat)
    requires Inv(s) && t < |s.th| && s.th[t].pc == Compare
    ensures Inv(DoCompare(s, t))
  {
    hide TurnInv, Base, InputInv, OutInv, DoneInv, RingInv, HeldInv, Linked, BlocksInv, SemInv, ErrInv, ThreadOk, Slot,
         Reader, Config.NumBlocks, Config.NumThreads;
    var s' := DoCompare(s, t);
    Compares(s, t);
    RingSameInv(s, s');
    SemSame(s, s');
    DoneSame(s, s');
    AsideKeeps(s, s', t);
    ErrSame(s, s', t);
    HeldSame(s, s');
    CompareBlocks(s, t);
    BaseIs(s');
  }
}
