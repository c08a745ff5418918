/** Taking a buffer from the free list and giving it back; the semaphore's count. */
module MtCoderPool {
  import opened MtCoder
  import opened MtCoderRing
  import opened MtCoderBlocks
  import opened MtCoderSteps
  import opened MtCoderTurn

  // ----- the free list is never empty when a buffer is needed -----

  /** The numbers a, ..., b - 1. */
  function Numbers(a: nat, b: nat): set<nat>
    requires a <= b
  {
    UpTo(b) - UpTo(a)
  }

  lemma NumbersSize(a: nat, b: nat)
    requires a <= b
    ensures |Numbers(a, b)| == b - a
    ensures forall k: nat :: k in Numbers(a, b) <==> a <= k < b
  {
    assert UpTo(b) == UpTo(a) + Numbers(a, b);
  }

  lemma FreeNotEmpty(s: State, k: nat)
    requires HeldInv(s) && k !in s.h.held && s.h.wseq <= k < |s.h.log| <= s.h.wseq + s.cfg.NumBlocks()
    ensures s.h.free != []
  {
    var all := Numbers(s.h.wseq, |s.h.log|);
    NumbersSize(s.h.wseq, |s.h.log|);
    SubsetSize(s.h.held.Keys, all - {k});
  }

  lemma PopHasFree(s: State, t: nat)
    requires Base(s) && t < |s.th| && s.th[t].pc == PopFree
    ensures s.h.free != [] && 0 <= s.pool.head < |s.pool.next| && s.pool.head == s.h.free[0]
    ensures s.th[t].k !in s.h.held
  {
    hide RingInv, BlocksInv, SemInv, ErrInv, Slot, Linked;
    ThreadIs(s, t);
    OwnBlock(s, t);
    FreeNotEmpty(s, s.th[t].k);
    PopKeeps(s.pool, s.h.free);
  }

  lemma PopFreeHeld(s: State, t: nat)
    requires Base(s) && t < |s.th| && s.th[t].pc == PopFree && 0 <= s.pool.head < |s.pool.next| && s.h.free != []
    ensures Linked(DoPopFree(s, t).pool, DoPopFree(s, t).h.free) && HeldInv(DoPopFree(s, t))
  {
    hide RingInv, BlocksInv, SemInv, ErrInv, Slot, Linked;
    PopHasFree(s, t);
    PopKeeps(s.pool, s.h.free);
    OwnBlock(s, t);
    PopHeld(s.h.held, s.h.free, s.h.wseq, |s.h.log|, s.th[t].k, s.pool.head);
  }

  lemma PopHeld(held: map<nat, int>, free: seq<int>, lo: nat, hi: nat, k: nat, b: int)
    requires HeldOk(held, free, lo, hi) && free != [] && b == free[0] && b !in free[1..] && 0 <= b < BLOCKS_MAX
    requires k !in held && lo <= k < hi
    ensures HeldOk(held[k := b], free[1..], lo, hi)
  {
    assert held[k := b].Keys == held.Keys + {k};
    assert forall x :: x in free[1..] ==> x in free;
  }

  lemma PopFreeBlocks(s: State, t: nat)
    requires Base(s) && t < |s.th| && s.th[t].pc == PopFree && 0 <= s.pool.head < |s.pool.next| && s.h.free != []
    ensures BlocksInv(DoPopFree(s, t))
  {
    hide Base, BlocksInv, Slot;
    PopHasFree(s, t);
    ThreadIs(s, t);
    var s' := DoPopFree(s, t);
    assert Away(s, s', s.th[t].k);
    Touches(s, s', t);
  }

  // ----- a block is given back -----

  lemma ReleaseHeld(s: State, t: nat)
    requires Base(s) && t < |s.th| && s.th[t].pc == Release && -1 <= s.th[t].buf < |s.pool.next|
    requires NextIndex(s.th[t].wi, s.cfg.NumBlocks()) < |s.ring.ready|
    ensures Linked(DoRelease(s, t).pool, DoRelease(s, t).h.free) && HeldInv(DoRelease(s, t))
  {
    hide BlocksInv, SemInv, ErrInv, Slot, Linked, Owners, ReadySlots;
    var x, k, s' := s.th[t], s.th[t].k, DoRelease(s, t);
    OwnBlock(s, t);
    WriterAt(s, t);
    ThreadIs(s, t);
    if x.buf != -1 {
      PushKeeps(s.pool, s.h.free, x.buf);
      ReturnsHeld(s.h.held, s.h.free, s.h.wseq, |s.h.log|);
    } else {
      NothingHeld(s.h.held, s.h.free, s.h.wseq, |s.h.log|);
    }
  }

  lemma ReturnsHeld(held: map<nat, int>, free: seq<int>, lo: nat, hi: nat)
    requires HeldOk(held, free, lo, hi) && lo in held
    ensures HeldOk(held - {lo}, [held[lo]] + free, lo + 1, hi)
  {
    var less, more := held - {lo}, [held[lo]] + free;
    assert held.Keys == less.Keys + {lo};
    forall k: nat | k in less
      ensures less[k] !in more
    {
      assert less[k] == held[k] && held[k] != held[lo];
    }
  }

  lemma NothingHeld(held: map<nat, int>, free: seq<int>, lo: nat, hi: nat)
    requires HeldOk(held, free, lo, hi) && lo !in held
    ensures HeldOk(held - {lo}, free, lo + 1, hi)
  {
    assert held - {lo} == held;
  }

  lemma ReleaseBlocks(s: State, t: nat)
    requires Base(s) && t < |s.th| && s.th[t].pc == Release && -1 <= s.th[t].buf < |s.pool.next|
    requires NextIndex(s.th[t].wi, s.cfg.NumBlocks()) < |s.ring.ready|
    ensures BlocksInv(DoRelease(s, t))
  {
    hide Base, Slot, Owners, ReadySlots;
    var s', k := DoRelease(s, t), s.th[t].k;
    OwnBlock(s, t);
    ReleaseNext(s, t);
    assert Away(s, s', k);
    OthersHere(s, s', k, t);
    ReleaseSelf(s, t);
    hide ThreadOk, StoredOk, Away;
  }

  /** The next block is taken over exactly if it was left ready in the next slot. */
  lemma ReleaseNext(s: State, t: nat)
    requires Base(s) && t < |s.th| && s.th[t].pc == Release && -1 <= s.th[t].buf < |s.pool.next|
    requires NextIndex(s.th[t].wi, s.cfg.NumBlocks()) < |s.ring.ready|
    ensures var k, s' := s.th[t].k, DoRelease(s, t);
            && k == s.h.wseq && s'.th[t].wi == Slot(k + 1, s.cfg.NumBlocks())
            && (s'.th[t].more <==> k + 1 in s.h.owner && s.h.owner[k + 1] == Parked)
  {
    hide HeldInv, Linked, BlocksInv, SemInv, ErrInv, Slot, RingInv;
    WriterIs(s, t);
    NextMarked(s, t);
  }

  lemma WriterIs(s: State, t: nat)
    requires RingInv(s) && t < |s.th| && IsWriter(s.th[t])
    ensures s.h.writer == Of(t) && s.th[t].k == s.h.wseq
  {
    WriterAt(s, t);
  }

  lemma ParkedIs(s: State, k: nat)
    requires Base(s) && k in s.h.owner && s.h.owner[k] == Parked
    ensures StoredOk(s, Slot(k, s.cfg.NumBlocks()), k)
  {
    hide HeldInv, Linked, SemInv, ErrInv, Slot, RingInv, ThreadOk, StoredOk;
  }

  lemma ReleaseSelf(s: State, t: nat)
    requires Base(s) && t < |s.th| && s.th[t].pc == Release && -1 <= s.th[t].buf < |s.pool.next|
    requires NextIndex(s.th[t].wi, s.cfg.NumBlocks()) < |s.ring.ready|
    ensures ThreadOk(DoRelease(s, t), DoRelease(s, t).th[t])
  {
    hide Base, Slot;
    var s', k := DoRelease(s, t), s.th[t].k;
    ThreadIs(s, t);
    ReleaseNext(s, t);
    if s'.th[t].more { ParkedIs(s, k + 1); }
  }

  // ----- the semaphore -----

  lemma SemKeeps(s: State, s': State)
    requires SemInv(s) && |s'.th| == |s.th| && s'.cfg == s.cfg
    requires s'.ring.sem == s.ring.sem && |s'.h.log| == |s.h.log| && s'.h.wseq == s.h.wseq
             && s'.h.releasing == s.h.releasing
    requires forall u: nat | u < |s.th| :: s.th[u].pc == SemRelease <==> s'.th[u].pc == SemRelease
    ensures SemInv(s')
  {}

  lemma SemTakes(s: State, t: nat)
    requires SemInv(s) && t < |s.th| && s.th[t].pc == SemWait && s.ring.sem > 0
    ensures SemInv(DoSemWait(s, t)) && |s.h.log| < s.h.wseq + s.cfg.NumBlocks()
  {
    hide Config.NumBlocks;
  }

  lemma SemGives(s: State, t: nat)
    requires SemInv(s) && t < |s.th| && s.th[t].pc == SemRelease
    ensures SemInv(DoSemRelease(s, t))
  {
    hide Config.NumBlocks;
  }

  lemma SemReleases(s: State, t: nat)
    requires Base(s) && t < |s.th| && s.th[t].pc == Release && -1 <= s.th[t].buf < |s.pool.next|
    requires NextIndex(s.th[t].wi, s.cfg.NumBlocks()) < |s.ring.ready|
    ensures SemInv(DoRelease(s, t))
  {
    hide Config.NumBlocks, HeldInv, Linked, BlocksInv, ErrInv, Slot, RingInv;
    OwnBlock(s, t);
    WriterIs(s, t);
  }

  // ----- write errors -----

  lemma ErrKeeps(s: State, s': State, t: nat)
    requires Base(s) && t < |s.th| && Others(s, s', t) && s.th[t].pc != WriteFailed
    requires s'.ring.writeRes == s.ring.writeRes && (s'.progress == SZ_OK ==> s.progress == SZ_OK)
    requires s'.h.writer == s.h.writer || s.h.writer == Nobody || s.h.writer == Of(t)
    ensures ErrInv(s')
  {
    hide HeldInv, Linked, BlocksInv, SemInv, Slot, Owners, ReadySlots, Sizes;
  }

  lemma WriteFails(s: State, t: nat)
    requires Base(s) && t < |s.th| && s.th[t].pc == WriteFailed
    ensures ErrInv(DoSetError(s, t, Release))
  {
    hide Base;
    ThreadIs(s, t);
  }

  lemma WritingErr(s: State, t: nat, c: Choice)
    requires Base(s) && t < |s.th| && s.th[t].pc == Writing && 0 <= s.th[t].buf < |s.pool.bufs|
    ensures ErrInv(DoWriting(s, t, c))
  {
    hide HeldInv, Linked, BlocksInv, SemInv, Slot, Owners, ReadySlots, Sizes;
  }
}
