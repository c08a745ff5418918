/** The ring of blocks: who owns which outstanding block, and whose turn it is to write. */
module MtCoderRing {
  import opened Bytes
  import opened MtCoder

  /** The slot of the k-th block. */
  function Slot(k: nat, n: nat): nat {
    if k == 0 then 0 else NextIndex(Slot(k - 1, n), n)
  }

  lemma {:induction false} SlotIsMod(k: nat, n: nat)
    requires n > 0
    ensures Slot(k, n) == k % n < n
  {
    if k > 0 {
      SlotIsMod(k - 1, n);
      ModNext(k - 1, n);
    } else {
      DivModUnique(0, n, 0, 0);
    }
  }

  lemma ModNext(k: nat, n: nat)
    requires n > 0
    ensures (k + 1) % n == NextIndex(k % n, n)
  {
    var q, r := k / n, k % n;
    assert k == n * q + r;
    if r + 1 >= n {
      assert n * (q + 1) == n * q + n;
      DivModUnique(k + 1, n, q + 1, 0);
    } else {
      DivModUnique(k + 1, n, q, r + 1);
    }
  }

  lemma SlotNext(k: nat, n: nat)
    requires n > 0
    ensures Slot(k + 1, n) == NextIndex(Slot(k, n), n) && Slot(k, n) < n
  {
    SlotIsMod(k, n);
  }

  lemma SlotWrap(k: nat, n: nat)
    requires n > 0
    ensures Slot(k + n, n) == Slot(k, n)
  {
    SlotIsMod(k, n);
    SlotIsMod(k + n, n);
    ModAddMultiple(k, n, 1);
  }

  /** Blocks less than a ring apart are in different slots. */
  lemma SlotDistinct(a: nat, b: nat, n: nat)
    requires n > 0 && a < b < a + n
    ensures Slot(a, n) != Slot(b, n)
  {
    SlotIsMod(a, n);
    SlotIsMod(b, n);
    if a % n == b % n {
      var p, q := a / n, b / n;
      assert b - a == n * q - n * p == n * (q - p);
      if q > p { MulMonotone(n, 1, q - p); } else { MulMonotone(n, q - p, 0); }
    }
  }

  /** From taking a slot to giving up the write turn or leaving the block ready. */
  predicate HasBlock(x: Thread) {
    match x.pc
    case CheckError => true
    case StartThread => true
    case StartFailed => true
    case CountThread => true
    case EndRead => true
    case PopFree => true
    case Coding => true
    case CodeFailed => true
    case Store => true
    case Offer => true
    case _ => IsWriter(x)
  }

  predicate IsWriter(x: Thread) {
    match x.pc
    case Inherit => true
    case Write => true
    case Writing => true
    case WriteFailed => true
    case Release => true
    case SemRelease => x.more
    case Load => true
    case _ => false
  }

  /** Block k is held by thread t. */
  ghost predicate Holds(s: State, t: nat, k: nat) {
    t < |s.th| && HasBlock(s.th[t]) && s.th[t].k == k
  }

  ghost predicate SlotKnown(x: Thread, n: nat) {
    (if IsWriter(x) then x.wi else x.bi) == Slot(x.k, n)
  }

  ghost predicate Sizes(s: State) {
    && |s.th| == THREADS_MAX && |s.ring.ready| == BLOCKS_MAX && |s.ring.blocks| == BLOCKS_MAX
    && s.h.wseq <= |s.h.log| <= s.h.wseq + s.cfg.NumBlocks()
    && s.rd.blockIndex == Slot(|s.h.log|, s.cfg.NumBlocks())
  }

  ghost predicate Owners(s: State) {
    && (forall k: nat :: k in s.h.owner <==> s.h.wseq <= k < |s.h.log|)
    && (forall k: nat | k in s.h.owner && s.h.owner[k].By? :: Holds(s, s.h.owner[k].t, k))
    && (forall t: nat | t < |s.th| && HasBlock(s.th[t]) ::
          s.th[t].k in s.h.owner && s.h.owner[s.th[t].k] == By(t) && SlotKnown(s.th[t], s.cfg.NumBlocks()))
  }

  /** Exactly the slots of blocks left ready are marked. */
  ghost predicate Marked(s: State, k: nat)
    requires Sizes(s)
  {
    Slot(k, s.cfg.NumBlocks()) < s.cfg.NumBlocks() &&
    (s.ring.ready[Slot(k, s.cfg.NumBlocks())] <==> k in s.h.owner && s.h.owner[k] == Parked)
  }

  ghost predicate ReadySlots(s: State)
    requires Sizes(s)
  {
    forall k: nat | s.h.wseq <= k < s.h.wseq + s.cfg.NumBlocks() :: Marked(s, k)
  }

  /** At most one thread has the write turn, and it works on the oldest outstanding block. */
  ghost predicate WriteTurn(s: State) {
    && (s.h.writer == Nobody ==>
          && s.ring.writeIndex == Slot(s.h.wseq, s.cfg.NumBlocks())
          && (s.h.wseq in s.h.owner ==> s.h.owner[s.h.wseq].By?))
    && (s.h.writer.Of? ==>
          var t := s.h.writer.t;
          s.ring.writeIndex == -1 && t < |s.th| && IsWriter(s.th[t]) && s.th[t].k == s.h.wseq)
    && (forall t: nat | t < |s.th| && IsWriter(s.th[t]) :: s.h.writer == Of(t))
  }

  ghost predicate RingInv(s: State) {
    Sizes(s) && Owners(s) && ReadySlots(s) && WriteTurn(s)
  }

  ghost predicate SameRole(x: Thread, y: Thread) {
    && HasBlock(x) == HasBlock(y) && IsWriter(x) == IsWriter(y)
    && (HasBlock(x) ==> x.k == y.k && x.bi == y.bi && x.wi == y.wi)
  }

  ghost predicate RingSame(s: State, s': State) {
    && s'.cfg == s.cfg && s'.ring.ready == s.ring.ready && |s'.ring.blocks| == |s.ring.blocks|
    && s'.ring.writeIndex == s.ring.writeIndex && s'.rd.blockIndex == s.rd.blockIndex
    && |s'.h.log| == |s.h.log| && s'.h.wseq == s.h.wseq && s'.h.owner == s.h.owner && s'.h.writer == s.h.writer
  }

  /** Threads move on without touching the ring. */
  ghost predicate RingLocal(s: State, s': State) {
    && RingSame(s, s') && |s'.th| == |s.th|
    && forall u: nat | u < |s.th| :: SameRole(s.th[u], s'.th[u])
  }

  lemma RingKeeps(s: State, s': State)
    requires RingInv(s) && RingLocal(s, s')
    ensures RingInv(s')
  {
    hide Slot, HasBlock, IsWriter;
    forall k: nat | k in s'.h.owner && s'.h.owner[k].By?
      ensures Holds(s', s'.h.owner[k].t, k)
    {
      assert Holds(s, s.h.owner[k].t, k);
      assert SameRole(s.th[s.h.owner[k].t], s'.th[s.h.owner[k].t]);
    }
    forall t: nat | t < |s'.th| && HasBlock(s'.th[t])
      ensures s'.th[t].k in s'.h.owner && s'.h.owner[s'.th[t].k] == By(t) && SlotKnown(s'.th[t], s'.cfg.NumBlocks())
    {
      assert SameRole(s.th[t], s'.th[t]) && HasBlock(s.th[t]);
      assert SlotKnown(s.th[t], s.cfg.NumBlocks());
    }
    forall k: nat | s'.h.wseq <= k < s'.h.wseq + s'.cfg.NumBlocks()
      ensures Marked(s', k)
    {
      assert Marked(s, k);
    }
    WriteTurnKeeps(s, s');
  }

  lemma WriterHasBlock(x: Thread)
    ensures IsWriter(x) ==> HasBlock(x)
  {}

  lemma WriteTurnKeeps(s: State, s': State)
    requires RingInv(s) && RingLocal(s, s')
    ensures WriteTurn(s')
  {
    hide Slot, HasBlock, IsWriter, Owners, ReadySlots;
    if s.h.writer.Of? {
      assert SameRole(s.th[s.h.writer.t], s'.th[s.h.writer.t]);
      WriterHasBlock(s.th[s.h.writer.t]);
    }
    forall t: nat | t < |s'.th| && IsWriter(s'.th[t])
      ensures s'.h.writer == Of(t)
    {
      assert SameRole(s.th[t], s'.th[t]);
    }
  }

  /** Only thread t changes. */
  ghost predicate Others(s: State, s': State, t: nat) {
    |s'.th| == |s.th| && forall u: nat | u < |s.th| && u != t :: s'.th[u] == s.th[u]
  }

  /** A reader takes the next slot. */
  lemma RingTakes(s: State, t: nat)
    requires RingInv(s) && t < |s.th| && s.th[t].pc == SemWait && s.ring.sem > 0
    requires |s.h.log| < s.h.wseq + s.cfg.NumBlocks()
    ensures RingInv(DoSemWait(s, t))
  {
    hide Slot;
    var s', n := DoSemWait(s, t), s.cfg.NumBlocks();
    var k := |s.h.log|;
    SlotNext(k, n);
    assert forall u: nat | u < |s.th| && u != t :: s'.th[u] == s.th[u];
    assert Owners(s') by { TakesOwners(s, t); }
    forall j: nat | s'.h.wseq <= j < s'.h.wseq + n
      ensures Marked(s', j)
    {
      assert Marked(s, j);
    }
    assert WriteTurn(s') by { hide Owners, ReadySlots; }
  }

  lemma TakesOwners(s: State, t: nat)
    requires RingInv(s) && t < |s.th| && s.th[t].pc == SemWait && s.ring.sem > 0
    requires |s.h.log| < s.h.wseq + s.cfg.NumBlocks()
    ensures Owners(DoSemWait(s, t))
  {
    hide Slot, ReadySlots, WriteTurn;
    var s' := DoSemWait(s, t);
    forall j: nat | j in s'.h.owner && s'.h.owner[j].By?
      ensures Holds(s', s'.h.owner[j].t, j)
    {
      if j != |s.h.log| { assert Holds(s, s.h.owner[j].t, j); }
    }
    forall u: nat | u < |s'.th| && HasBlock(s'.th[u])
      ensures s'.th[u].k in s'.h.owner && s'.h.owner[s'.th[u].k] == By(u) && SlotKnown(s'.th[u], s'.cfg.NumBlocks())
    {
      if u != t { assert s'.th[u] == s.th[u] && SlotKnown(s.th[u], s.cfg.NumBlocks()); }
    }
  }

  /** The block is the oldest outstanding one exactly if the write index says so. */
  lemma OldestIsNext(s: State, t: nat)
    requires RingInv(s) && t < |s.th| && s.th[t].pc == Offer
    ensures s.h.wseq <= s.th[t].k < |s.h.log| && s.th[t].bi == Slot(s.th[t].k, s.cfg.NumBlocks()) < BLOCKS_MAX
    ensures s.ring.writeIndex == s.th[t].bi <==> s.h.writer == Nobody && s.th[t].k == s.h.wseq
  {
    hide Slot, ReadySlots;
    var x, n := s.th[t], s.cfg.NumBlocks();
    SlotNext(x.k, n);
    assert SlotKnown(x, n);
    if s.h.writer == Nobody && s.h.wseq < x.k { SlotDistinct(s.h.wseq, x.k, n); }
  }

  lemma RingOffers(s: State, t: nat)
    requires RingInv(s) && t < |s.th| && s.th[t].pc == Offer && s.th[t].bi < |s.ring.ready|
    ensures RingInv(DoOffer(s, t))
  {
    OldestIsNext(s, t);
    if s.ring.writeIndex == s.th[t].bi { OffersNow(s, t); } else { OffersLater(s, t); }
  }

  lemma OffersNow(s: State, t: nat)
    requires RingInv(s) && t < |s.th| && s.th[t].pc == Offer && s.th[t].bi < |s.ring.ready|
    requires s.ring.writeIndex == s.th[t].bi && s.h.writer == Nobody && s.th[t].k == s.h.wseq
    ensures RingInv(DoOffer(s, t))
  {
    hide Slot;
    var s', n := DoOffer(s, t), s.cfg.NumBlocks();
    assert SlotKnown(s.th[t], n);
    forall j: nat | j in s'.h.owner && s'.h.owner[j].By?
      ensures Holds(s', s'.h.owner[j].t, j)
    {
      assert Holds(s, s.h.owner[j].t, j);
    }
    forall u: nat | u < |s'.th| && HasBlock(s'.th[u])
      ensures s'.th[u].k in s'.h.owner && s'.h.owner[s'.th[u].k] == By(u) && SlotKnown(s'.th[u], n)
    {
      assert HasBlock(s.th[u]) && SlotKnown(s.th[u], n);
    }
    forall j: nat | s'.h.wseq <= j < s'.h.wseq + n
      ensures Marked(s', j)
    {
      assert Marked(s, j);
    }
  }

  lemma OffersLater(s: State, t: nat)
    requires RingInv(s) && t < |s.th| && s.th[t].pc == Offer && s.th[t].bi < |s.ring.ready|
    requires s.ring.writeIndex != s.th[t].bi && !(s.h.writer == Nobody && s.th[t].k == s.h.wseq)
    requires s.h.wseq <= s.th[t].k < |s.h.log| && s.th[t].bi == Slot(s.th[t].k, s.cfg.NumBlocks())
    ensures RingInv(DoOffer(s, t))
  {
    hide Slot;
    var s', n, k := DoOffer(s, t), s.cfg.NumBlocks(), s.th[t].k;
    assert Owners(s') by { LaterOwners(s, t); }
    forall j: nat | s'.h.wseq <= j < s'.h.wseq + n
      ensures Marked(s', j)
    {
      assert Marked(s, j);
      if j < k { SlotDistinct(j, k, n); } else if k < j { SlotDistinct(k, j, n); }
    }
    assert WriteTurn(s') by { hide ReadySlots; }
  }

  lemma LaterOwners(s: State, t: nat)
    requires RingInv(s) && t < |s.th| && s.th[t].pc == Offer && s.th[t].bi < |s.ring.ready|
    requires s.ring.writeIndex != s.th[t].bi
    ensures Owners(DoOffer(s, t))
  {
    hide Slot, ReadySlots, WriteTurn;
    var s', n, k := DoOffer(s, t), s.cfg.NumBlocks(), s.th[t].k;
    forall j: nat | j in s'.h.owner && s'.h.owner[j].By?
      ensures Holds(s', s'.h.owner[j].t, j)
    {
      assert Holds(s, s.h.owner[j].t, j);
    }
    forall u: nat | u < |s'.th| && HasBlock(s'.th[u])
      ensures s'.th[u].k in s'.h.owner && s'.h.owner[s'.th[u].k] == By(u) && SlotKnown(s'.th[u], n)
    {
      assert u != t && s'.th[u] == s.th[u] && SlotKnown(s.th[u], n);
    }
  }

  /** The writer gives the oldest block back and looks at the next one. */
  lemma RingReleases(s: State, t: nat)
    requires RingInv(s) && t < |s.th| && s.th[t].pc == Release && -1 <= s.th[t].buf < |s.pool.next|
    requires NextIndex(s.th[t].wi, s.cfg.NumBlocks()) < |s.ring.ready|
    ensures RingInv(DoRelease(s, t))
  {
    hide Slot;
    var s', n, k := DoRelease(s, t), s.cfg.NumBlocks(), s.h.wseq;
    WriterAt(s, t);
    SlotNext(k, n);
    SlotNext(k + 1, n);
    NextMarked(s, t);
    assert Sizes(s');
    assert Owners(s') by { ReleaseOwners(s, t); }
    assert ReadySlots(s') by { ReleaseReady(s, t); }
    assert WriteTurn(s') by { hide ReadySlots, Owners; }
  }

  lemma WriterAt(s: State, t: nat)
    requires RingInv(s) && t < |s.th| && IsWriter(s.th[t])
    ensures s.h.writer == Of(t) && s.th[t].k == s.h.wseq && s.ring.writeIndex == -1
    ensures s.h.wseq in s.h.owner && s.h.owner[s.h.wseq] == By(t)
    ensures s.th[t].wi == Slot(s.h.wseq, s.cfg.NumBlocks())
  {
    hide Slot, ReadySlots;
    WriterHasBlock(s.th[t]);
    assert SlotKnown(s.th[t], s.cfg.NumBlocks());
  }

  /** The next slot is marked exactly if the next block was left ready. */
  lemma NextMarked(s: State, t: nat)
    requires RingInv(s) && t < |s.th| && IsWriter(s.th[t])
    ensures var k, wi := s.h.wseq + 1, NextIndex(s.th[t].wi, s.cfg.NumBlocks());
            && wi == Slot(k, s.cfg.NumBlocks()) < s.cfg.NumBlocks()
            && (s.ring.ready[wi] <==> k in s.h.owner && s.h.owner[k] == Parked)
  {
    hide Slot, WriteTurn;
    var n, k := s.cfg.NumBlocks(), s.h.wseq + 1;
    WriterAt(s, t);
    SlotNext(s.h.wseq, n);
    SlotNext(k, n);
    if n == 1 {
      SlotWrap(s.h.wseq, 1);
      assert Marked(s, s.h.wseq);
    } else {
      assert Marked(s, k);
    }
  }

  lemma ReleaseOwners(s: State, t: nat)
    requires RingInv(s) && t < |s.th| && s.th[t].pc == Release && -1 <= s.th[t].buf < |s.pool.next|
    requires NextIndex(s.th[t].wi, s.cfg.NumBlocks()) < |s.ring.ready|
    ensures Owners(DoRelease(s, t))
  {
    hide Slot, ReadySlots;
    var s', n, k := DoRelease(s, t), s.cfg.NumBlocks(), s.h.wseq;
    WriterAt(s, t);
    NextMarked(s, t);
    forall j: nat
      ensures j in s'.h.owner <==> s'.h.wseq <= j < |s'.h.log|
    {
    }
    forall j: nat | j in s'.h.owner && s'.h.owner[j].By?
      ensures Holds(s', s'.h.owner[j].t, j)
    {
      if j != k + 1 || !s.ring.ready[NextIndex(s.th[t].wi, n)] { assert Holds(s, s.h.owner[j].t, j); }
    }
    forall u: nat | u < |s'.th| && HasBlock(s'.th[u])
      ensures s'.th[u].k in s'.h.owner && s'.h.owner[s'.th[u].k] == By(u) && SlotKnown(s'.th[u], n)
    {
      if u != t { assert s'.th[u] == s.th[u] && SlotKnown(s.th[u], n); }
    }
  }

  lemma ReleaseReady(s: State, t: nat)
    requires RingInv(s) && t < |s.th| && s.th[t].pc == Release && -1 <= s.th[t].buf < |s.pool.next|
             && Sizes(DoRelease(s, t))
    requires NextIndex(s.th[t].wi, s.cfg.NumBlocks()) < |s.ring.ready|
    ensures ReadySlots(DoRelease(s, t))
  {
    hide Slot, WriteTurn;
    var s', n, k := DoRelease(s, t), s.cfg.NumBlocks(), s.h.wseq;
    WriterAt(s, t);
    NextMarked(s, t);
    forall j: nat | s'.h.wseq <= j < s'.h.wseq + n
      ensures Marked(s', j)
    {
      if j == k + n {
        SlotWrap(k, n);
        assert Marked(s, k);
        if n > 1 { SlotDistinct(k, k + 1, n); }
      } else {
        assert Marked(s, j);
        if k + 1 < j { SlotDistinct(k + 1, j, n); }
      }
    }
  }
}
