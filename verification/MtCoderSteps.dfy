/** Every step keeps what is known of the blocks, the buffers and the semaphore. */
module MtCoderSteps {
  import opened MtCoder
  import opened MtCoderRing
  import opened MtCoderBlocks

  /** Write errors are recorded, or are just about to be. */
  ghost predicate ErrInv(s: State) {
    s.ring.writeRes == SZ_OK || s.progress != SZ_OK
    || (s.h.writer.Of? && s.h.writer.t < |s.th| && s.th[s.h.writer.t].pc == WriteFailed)
  }

  ghost predicate Base(s: State) {
    RingInv(s) && HeldInv(s) && Linked(s.pool, s.h.free) && BlocksInv(s) && SemInv(s) && ErrInv(s)
  }

  /** Steps that touch no outstanding block. */
  ghost predicate Plain(s: State, s': State, t: nat) {
    && Others(s, s', t) && t < |s.th| && s'.cfg == s.cfg && s.h.log <= s'.h.log
    && (s'.progress == SZ_OK ==> s.progress == SZ_OK) && (s.rd.stop ==> s'.rd.stop)
    && s'.h.held == s.h.held && s'.pool.bufs == s.pool.bufs && s'.ring.blocks == s.ring.blocks
    && (forall k: nat | k in s'.h.owner && s'.h.owner[k] == Parked :: k in s.h.owner && s.h.owner[k] == Parked)
  }

  lemma PlainKeeps(s: State, s': State, t: nat)
    requires Base(s) && Plain(s, s', t) && ThreadOk(s', s'.th[t])
    ensures BlocksInv(s')
  {
    hide RingInv, HeldInv, Linked, SemInv, ErrInv, BlocksInv, ThreadOk, Slot;
    BlocksKeep(s, s', -1, t);
  }

  lemma ThreadIs(s: State, t: nat)
    requires Base(s) && t < |s.th|
    ensures ThreadOk(s, s.th[t])
  {
    hide RingInv, HeldInv, Linked, SemInv, ErrInv, ThreadOk, Slot;
  }

  // ----- reading -----

  lemma ReadWaitBlocks(s: State, t: nat)
    requires Base(s) && t < |s.th| && s.th[t].pc == ReadWait
    ensures BlocksInv(DoReadWait(s, t))
  {
    hide Base, BlocksInv;
    PlainKeeps(s, DoReadWait(s, t), t);
  }

  lemma ReadBlocks(s: State, t: nat, c: Choice)
    requires Base(s) && t < |s.th| && s.th[t].pc == Read && s.rd.pos <= |s.cfg.input|
    ensures BlocksInv(DoRead(s, t, c))
  {
    hide Base, BlocksInv;
    PlainKeeps(s, DoRead(s, t, c), t);
  }

  lemma ErrorBlocks(s: State, t: nat, pc: Pc)
    requires Base(s) && t < |s.th|
    requires (s.th[t].pc == ReadFailed && pc == SemWait) || (s.th[t].pc == StartFailed && pc == EndRead)
          || (s.th[t].pc == CodeFailed && pc == Store) || (s.th[t].pc == WriteFailed && pc == Release)
    ensures BlocksInv(DoSetError(s, t, pc))
  {
    hide Base, BlocksInv;
    ThreadIs(s, t);
    PlainKeeps(s, DoSetError(s, t, pc), t);
  }

  lemma SemWaitBlocks(s: State, t: nat)
    requires Base(s) && t < |s.th| && s.th[t].pc == SemWait && s.ring.sem > 0
    ensures BlocksInv(DoSemWait(s, t))
  {
    hide Base, BlocksInv;
    ThreadIs(s, t);
    NotHeld(s);
    PlainKeeps(s, DoSemWait(s, t), t);
  }

  lemma NotHeld(s: State)
    requires Base(s)
    ensures |s.h.log| !in s.h.held
  {
    hide RingInv, Linked, BlocksInv, SemInv, ErrInv;
  }

  lemma CheckErrorBlocks(s: State, t: nat)
    requires Base(s) && t < |s.th| && s.th[t].pc == CheckError
    ensures BlocksInv(DoCheckError(s, t))
  {
    hide Base, BlocksInv, Config.NumThreads;
    ThreadIs(s, t);
    PlainKeeps(s, DoCheckError(s, t), t);
  }

  lemma StartFails(s: State, t: nat, c: Choice)
    requires Base(s) && t < |s.th| && s.th[t].pc == StartThread && s.end.numStarted < |s.th| && c.err != SZ_OK
    ensures BlocksInv(DoStartThread(s, t, c))
  {
    hide Base, BlocksInv;
    ThreadIs(s, t);
    PlainKeeps(s, DoStartThread(s, t, c), t);
  }

  /** The new thread waits for the read turn. */
  lemma NewThread(s: State, n: nat)
    requires Base(s) && n < |s.th| && s.th[n].pc == Idle
    ensures Base(Goto(s, n, ReadWait))
  {
    hide Linked, ErrInv, HeldInv, BlocksInv, Slot;
    var s' := Goto(s, n, ReadWait);
    assert BlocksInv(s') by { PlainKeeps(s, s', n); }
    assert RingInv(s') by { hide SemInv, RingInv; RingKeeps(s, s'); }
    assert HeldInv(s') by { SameHeld(s, s'); }
    assert ErrInv(s') by { NewErr(s, n); }
    assert SemInv(s') by { hide RingInv; }
  }

  lemma SameHeld(s: State, s': State)
    requires HeldInv(s) && s'.h.held == s.h.held && s'.h.free == s.h.free && s'.h.wseq == s.h.wseq
             && |s.h.log| <= |s'.h.log|
    ensures HeldInv(s')
  {}

  lemma NewErr(s: State, n: nat)
    requires ErrInv(s) && n < |s.th| && s.th[n].pc == Idle
    ensures ErrInv(Goto(s, n, ReadWait))
  {}

  lemma StartsBlocks(s: State, t: nat, c: Choice)
    requires Base(s) && t < |s.th| && s.th[t].pc == StartThread && s.end.numStarted < |s.th| && c.err == SZ_OK
    requires s.th[s.end.numStarted].pc == Idle
    ensures BlocksInv(DoStartThread(s, t, c))
  {
    hide Base, BlocksInv;
    var s1 := Goto(s, s.end.numStarted, ReadWait);
    NewThread(s, s.end.numStarted);
    ThreadIs(s1, t);
    PlainKeeps(s1, Goto(s1, t, CountThread), t);
  }

  lemma CountBlocks(s: State, t: nat)
    requires Base(s) && t < |s.th| && s.th[t].pc == CountThread
    ensures BlocksInv(DoCountThread(s, t))
  {
    hide Base, BlocksInv;
    ThreadIs(s, t);
    PlainKeeps(s, DoCountThread(s, t), t);
  }

  lemma EndReadBlocks(s: State, t: nat)
    requires Base(s) && t < |s.th| && s.th[t].pc == EndRead
    ensures BlocksInv(DoEndRead(s, t))
  {
    hide Base, BlocksInv;
    ThreadIs(s, t);
    PlainKeeps(s, DoEndRead(s, t), t);
  }

  // ----- coding -----

  lemma OwnBlock(s: State, t: nat)
    requires Base(s) && t < |s.th| && HasBlock(s.th[t])
    ensures var k := s.th[t].k;
            k in s.h.owner && s.h.owner[k] == By(t) && SlotKnown(s.th[t], s.cfg.NumBlocks())
            && s.h.wseq <= k < |s.h.log| <= s.h.wseq + s.cfg.NumBlocks()
  {
    hide HeldInv, Linked, BlocksInv, SemInv, ErrInv, Slot, ReadySlots, WriteTurn, HasBlock, IsWriter;
  }

  lemma CodingTicks(s: State, t: nat, c: Choice)
    requires Base(s) && t < |s.th| && s.th[t].pc == Coding && 0 <= s.th[t].buf < |s.pool.bufs| && c.tick
    ensures BlocksInv(DoCoding(s, t, c))
  {
    hide Base, BlocksInv;
    ThreadIs(s, t);
    PlainKeeps(s, DoCoding(s, t, c), t);
  }

  lemma CodingBlocks(s: State, t: nat, c: Choice)
    requires Base(s) && t < |s.th| && s.th[t].pc == Coding && 0 <= s.th[t].buf < |s.pool.bufs| && !c.tick
    ensures BlocksInv(DoCoding(s, t, c))
  {
    hide Base, BlocksInv, Slot;
    ThreadIs(s, t);
    OwnBlock(s, t);
    var s' := DoCoding(s, t, c);
    assert Away(s, s', s.th[t].k);
    Touches(s, s', t);
  }

  /** A step of the owner of a block. */
  lemma Touches(s: State, s': State, t: nat)
    requires Base(s) && t < |s.th| && HasBlock(s.th[t]) && Others(s, s', t) && Away(s, s', s.th[t].k)
    requires forall k: nat | k in s'.h.owner && s'.h.owner[k] == Parked :: k in s.h.owner && s.h.owner[k] == Parked
    requires ThreadOk(s', s'.th[t])
    ensures BlocksInv(s')
  {
    OwnBlock(s, t);
    hide HeldInv, Linked, BlocksInv, SemInv, ErrInv, Slot, Away, ThreadOk, RingInv, HasBlock;
    BlocksKeep(s, s', s.th[t].k, t);
  }

  lemma StoreBlocks(s: State, t: nat)
    requires Base(s) && t < |s.th| && s.th[t].pc == Store && s.th[t].bi < |s.ring.blocks|
    ensures BlocksInv(DoStore(s, t))
  {
    hide Base, BlocksInv, Slot;
    ThreadIs(s, t);
    OwnBlock(s, t);
    var s' := DoStore(s, t);
    assert Away(s, s', s.th[t].k);
    Touches(s, s', t);
  }

  // ----- writing -----

  lemma OfferNowBlocks(s: State, t: nat)
    requires Base(s) && t < |s.th| && s.th[t].pc == Offer && s.th[t].bi < |s.ring.ready|
             && s.ring.writeIndex == s.th[t].bi
    ensures BlocksInv(DoOffer(s, t))
  {
    hide Base, BlocksInv;
    ThreadIs(s, t);
    PlainKeeps(s, DoOffer(s, t), t);
  }

  lemma OfferLaterBlocks(s: State, t: nat)
    requires Base(s) && t < |s.th| && s.th[t].pc == Offer && s.th[t].bi < |s.ring.ready|
             && s.ring.writeIndex != s.th[t].bi
    ensures BlocksInv(DoOffer(s, t))
  {
    hide Base, Slot;
    ThreadIs(s, t);
    OwnBlock(s, t);
    var s', k := DoOffer(s, t), s.th[t].k;
    OthersHere(s, s', k, t);
    assert StoredOk(s', Slot(k, s.cfg.NumBlocks()), k);
    assert ThreadOk(s', s'.th[t]);
    hide ThreadOk, StoredOk;
  }

  lemma OthersHere(s: State, s': State, k0: nat, t: nat)
    requires Base(s) && Away(s, s', k0) && Others(s, s', t)
    requires s.h.wseq <= k0 < s.h.wseq + s.cfg.NumBlocks()
    requires k0 in s.h.owner && s.h.owner[k0] == By(t)
    ensures forall u: nat | u < |s'.th| && u != t :: ThreadOk(s', s'.th[u])
    ensures forall k: nat | k != k0 && k in s.h.owner && s.h.owner[k] == Parked ::
              StoredOk(s', Slot(k, s.cfg.NumBlocks()), k)
  {
    hide HeldInv, Linked, BlocksInv, SemInv, ErrInv, Slot, Away, ThreadOk, RingInv, StoredOk;
    OthersKeep(s, s', k0, t);
  }

  lemma InheritBlocks(s: State, t: nat)
    requires Base(s) && t < |s.th| && s.th[t].pc == Inherit
    ensures BlocksInv(DoInherit(s, t))
  {
    hide Base, BlocksInv;
    ThreadIs(s, t);
    NoWriteError(s, t);
    PlainKeeps(s, DoInherit(s, t), t);
  }

  lemma NoWriteError(s: State, t: nat)
    requires Base(s) && t < |s.th| && s.th[t].pc == Inherit
    ensures s.ring.writeRes == SZ_OK || s.progress != SZ_OK
  {
    hide HeldInv, Linked, BlocksInv, SemInv, Slot, Owners, ReadySlots;
  }

  lemma WriteBlocks(s: State, t: nat)
    requires Base(s) && t < |s.th| && s.th[t].pc == Write
    ensures BlocksInv(DoWrite(s, t))
  {
    hide Base, BlocksInv;
    ThreadIs(s, t);
    PlainKeeps(s, DoWrite(s, t), t);
  }

  lemma WritingBlocks(s: State, t: nat, c: Choice)
    requires Base(s) && t < |s.th| && s.th[t].pc == Writing && 0 <= s.th[t].buf < |s.pool.bufs|
    ensures BlocksInv(DoWriting(s, t, c))
  {
    hide Base, BlocksInv;
    ThreadIs(s, t);
    PlainKeeps(s, DoWriting(s, t, c), t);
  }

  lemma SemReleaseBlocks(s: State, t: nat)
    requires Base(s) && t < |s.th| && s.th[t].pc == SemRelease
    ensures BlocksInv(DoSemRelease(s, t))
  {
    hide Base, BlocksInv;
    ThreadIs(s, t);
    PlainKeeps(s, DoSemRelease(s, t), t);
  }

  lemma LoadBlocks(s: State, t: nat)
    requires Base(s) && t < |s.th| && s.th[t].pc == Load && s.th[t].wi < |s.ring.blocks|
    ensures BlocksInv(DoLoad(s, t))
  {
    hide Base, BlocksInv;
    ThreadIs(s, t);
    PlainKeeps(s, DoLoad(s, t), t);
  }

  lemma FinishBlocks(s: State, t: nat)
    requires Base(s) && t < |s.th| && s.th[t].pc == Finish
    ensures BlocksInv(DoFinish(s, t))
  {
    hide Base, BlocksInv;
    ThreadIs(s, t);
    PlainKeeps(s, DoFinish(s, t), t);
  }

  lemma CompareBlocks(s: State, t: nat)
    requires Base(s) && t < |s.th| && s.th[t].pc == Compare
    ensures BlocksInv(DoCompare(s, t))
  {
    hide Base, BlocksInv;
    ThreadIs(s, t);
    PlainKeeps(s, DoCompare(s, t), t);
  }
}
