/** The output buffers: the free list, and what is known of every outstanding block. */
module MtCoderBlocks {
  import opened MtCoder
  import opened MtCoderRing

  // ----- the counting semaphore -----

  /** What is not free in the ring is outstanding, or about to be released. */
  ghost predicate SemInv(s: State) {
    && (forall t: nat :: t in s.h.releasing <==> t < |s.th| && s.th[t].pc == SemRelease)
    && s.h.wseq <= |s.h.log|
    && s.ring.sem + (|s.h.log| - s.h.wseq) + |s.h.releasing| == s.cfg.NumBlocks()
  }

  // ----- the free list -----

  function At(free: seq<int>, i: nat): int { if i < |free| then free[i] else -1 }

  ghost predicate Linked(p: Pool, free: seq<int>) {
    && |p.next| == BLOCKS_MAX && |p.bufs| == BLOCKS_MAX
    && (forall i | 0 <= i < |free| :: 0 <= free[i] < BLOCKS_MAX)
    && (forall i, j | 0 <= i < j < |free| :: free[i] != free[j])
    && p.head == At(free, 0)
    && (forall i | 0 <= i < |free| :: p.next[free[i]] == At(free, i + 1))
  }

  /** Each of the blocks from lo up to hi - 1 holds at most one buffer; the other buffers are free. */
  ghost predicate HeldOk(held: map<nat, int>, free: seq<int>, lo: nat, hi: nat) {
    && (forall k: nat | k in held :: lo <= k < hi)
    && (forall k: nat | k in held :: 0 <= held[k] < BLOCKS_MAX && held[k] !in free)
    && (forall j: nat, k: nat | j in held && k in held && j != k :: held[j] != held[k])
    && |free| + |held| == BLOCKS_MAX
  }

  ghost predicate HeldInv(s: State) {
    HeldOk(s.h.held, s.h.free, s.h.wseq, |s.h.log|)
  }

  lemma PopKeeps(p: Pool, free: seq<int>)
    requires Linked(p, free) && free != []
    ensures 0 <= p.head < BLOCKS_MAX && p.head == free[0] && p.head !in free[1..]
    ensures Linked(p.(head := p.next[p.head]), free[1..])
  {
    var rest := free[1..];
    forall i | 0 <= i < |rest|
      ensures p.next[rest[i]] == At(rest, i + 1)
    {
      assert rest[i] == free[i + 1] && p.next[free[i + 1]] == At(free, i + 2);
    }
    assert p.next[free[0]] == At(free, 1);
  }

  lemma PushKeeps(p: Pool, free: seq<int>, b: int)
    requires Linked(p, free) && 0 <= b < BLOCKS_MAX && b !in free
    ensures Linked(Push(p, b), [b] + free)
  {
    var more, p' := [b] + free, Push(p, b);
    forall i | 0 <= i < |more|
      ensures p'.next[more[i]] == At(more, i + 1)
    {
      if i > 0 { assert more[i] == free[i - 1] && p.next[free[i - 1]] == At(free, i); }
    }
  }

  // ----- the outstanding blocks -----

  /** b is the buffer of block k, or block k has none. */
  ghost predicate BufOk(s: State, b: int, k: nat) {
    if b == -1 then k !in s.h.held else k in s.h.held && s.h.held[k] == b
  }

  ghost predicate DataOk(s: State, b: int, finished: bool, k: nat) {
    && BufOk(s, b, k) && (finished ==> s.rd.stop) && k < |s.h.log|
    && (b != -1 ==> 0 <= b < |s.pool.bufs|
                    && s.pool.bufs[b].src == s.h.log[k].src && s.pool.bufs[b].finished == s.h.log[k].finished)
  }

  ghost predicate RecordOk(s: State, b: Block, k: nat) {
    DataOk(s, b.buf, b.finished, k) && (s.progress == SZ_OK ==> b.res == SZ_OK && b.buf != -1)
  }

  ghost predicate StoredOk(s: State, i: nat, k: nat) {
    i < |s.ring.blocks| && RecordOk(s, s.ring.blocks[i], k)
  }

  ghost predicate Fresh(s: State, x: Thread) {
    && x.buf == -1 && x.k !in s.h.held && x.k < |s.h.log|
    && x.src == s.h.log[x.k].src && (x.res == SZ_OK ==> x.finished == s.h.log[x.k].finished)
  }

  ghost predicate Calm(s: State, x: Thread) { s.progress == SZ_OK ==> x.res == SZ_OK }

  function Rec(x: Thread): Block { Block(x.res, x.buf, x.finished) }

  ghost predicate ThreadOk(s: State, x: Thread) {
    match x.pc
    case Idle => true
    case ReadWait => true
    case Read => true
    case ReadFailed => x.res != SZ_OK && x.finished
    case SemWait => Calm(s, x) && (x.res != SZ_OK ==> x.finished)
    case CheckError => Fresh(s, x) && Calm(s, x) && (x.res != SZ_OK ==> x.finished)
    case StartThread => Fresh(s, x) && x.res == SZ_OK && !x.finished
    case CountThread => Fresh(s, x) && x.res == SZ_OK && !x.finished
    case EndRead => Fresh(s, x) && Calm(s, x) && (x.res != SZ_OK ==> x.finished)
    case StartFailed => Fresh(s, x) && x.res != SZ_OK && x.finished
    case PopFree => Fresh(s, x) && x.res == SZ_OK && (x.finished ==> s.rd.stop)
    case Coding =>
      && x.res == SZ_OK && x.buf != -1 && BufOk(s, x.buf, x.k) && (x.finished ==> s.rd.stop)
      && x.k < |s.h.log| && x.src == s.h.log[x.k].src && x.finished == s.h.log[x.k].finished
    case CodeFailed => DataOk(s, x.buf, x.finished, x.k) && x.buf != -1 && x.res != SZ_OK
    case Store => RecordOk(s, Rec(x), x.k)
    case Offer => RecordOk(s, Rec(x), x.k) && x.bi < |s.ring.blocks| && s.ring.blocks[x.bi] == Rec(x)
    case Inherit => RecordOk(s, Rec(x), x.k)
    case Write => RecordOk(s, Rec(x), x.k)
    case Writing => RecordOk(s, Rec(x), x.k) && x.buf != -1 && x.res == SZ_OK
    case WriteFailed => DataOk(s, x.buf, x.finished, x.k) && x.buf != -1 && x.res != SZ_OK
    case Release => RecordOk(s, Rec(x), x.k)
    case SemRelease => Calm(s, x) && (x.finished ==> s.rd.stop) && (x.more ==> StoredOk(s, x.wi, x.k))
    case Load => Calm(s, x) && StoredOk(s, x.wi, x.k)
    case Finish => s.rd.stop || s.progress != SZ_OK
    case Compare => s.rd.stop || s.progress != SZ_OK
    case Ended => s.rd.stop || s.progress != SZ_OK
  }

  ghost predicate BlocksInv(s: State) {
    && (forall t: nat | t < |s.th| :: ThreadOk(s, s.th[t]))
    && (forall k: nat | k in s.h.owner && s.h.owner[k] == Parked :: StoredOk(s, Slot(k, s.cfg.NumBlocks()), k))
  }

  // ----- what a step away from a block leaves as it is -----

  /** Nothing changes but for block k0, the end of the log, and errors and the end of reading. */
  ghost predicate Away(s: State, s': State, k0: int) {
    && s'.cfg == s.cfg && s.h.log <= s'.h.log
    && (s'.progress == SZ_OK ==> s.progress == SZ_OK) && (s.rd.stop ==> s'.rd.stop)
    && (forall k: nat | k != k0 :: k in s.h.held <==> k in s'.h.held)
    && (forall k: nat | k != k0 && k in s.h.held :: s'.h.held[k] == s.h.held[k])
    && |s'.pool.bufs| == |s.pool.bufs|
    && (forall b: nat | b < |s.pool.bufs| && !(k0 >= 0 && k0 in s.h.held && s.h.held[k0] == b) ::
          s'.pool.bufs[b] == s.pool.bufs[b])
    && |s'.ring.blocks| == |s.ring.blocks|
    && (forall i: nat | i < |s.ring.blocks| && !(k0 >= 0 && i == Slot(k0, s.cfg.NumBlocks())) ::
          s'.ring.blocks[i] == s.ring.blocks[i])
  }

  lemma DataKeeps(s: State, s': State, k0: int, b: int, finished: bool, k: nat)
    requires HeldInv(s) && Away(s, s', k0) && k != k0 && DataOk(s, b, finished, k)
    ensures DataOk(s', b, finished, k)
  {
    if b != -1 { assert s'.pool.bufs[b] == s.pool.bufs[b]; }
  }

  lemma StoredKeeps(s: State, s': State, k0: int, i: nat, k: nat)
    requires HeldInv(s) && Away(s, s', k0) && k != k0 && StoredOk(s, i, k)
    requires k0 >= 0 ==> i != Slot(k0, s.cfg.NumBlocks())
    ensures StoredOk(s', i, k)
  {
    hide HeldInv, DataOk;
    assert s'.ring.blocks[i] == s.ring.blocks[i];
    DataKeeps(s, s', k0, s.ring.blocks[i].buf, s.ring.blocks[i].finished, k);
  }

  lemma ThreadKeeps(s: State, s': State, k0: int, x: Thread)
    requires HeldInv(s) && Away(s, s', k0) && ThreadOk(s, x)
    requires HasBlock(x) ==> x.k != k0
    requires k0 >= 0 && (x.pc == SemRelease || x.pc == Load) && HasBlock(x) ==> x.wi != Slot(k0, s.cfg.NumBlocks())
    requires k0 >= 0 && x.pc == Offer ==> x.bi != Slot(k0, s.cfg.NumBlocks())
    ensures ThreadOk(s', x)
  {
    hide HeldInv;
    if HasBlock(x) {
      match x.pc
      case CodeFailed => DataKeeps(s, s', k0, x.buf, x.finished, x.k);
      case Store => DataKeeps(s, s', k0, x.buf, x.finished, x.k);
      case Offer => DataKeeps(s, s', k0, x.buf, x.finished, x.k);
      case Inherit => DataKeeps(s, s', k0, x.buf, x.finished, x.k);
      case Write => DataKeeps(s, s', k0, x.buf, x.finished, x.k);
      case Writing => DataKeeps(s, s', k0, x.buf, x.finished, x.k);
      case WriteFailed => DataKeeps(s, s', k0, x.buf, x.finished, x.k);
      case Release => DataKeeps(s, s', k0, x.buf, x.finished, x.k);
      case SemRelease => StoredKeeps(s, s', k0, x.wi, x.k);
      case Load => StoredKeeps(s, s', k0, x.wi, x.k);
      case _ =>
    }
  }

  /** Different outstanding blocks are in different slots; k0 may also be the block about to be read. */
  lemma SlotsDiffer(s: State, k0: nat, k: nat)
    requires RingInv(s) && k in s.h.owner && k != k0 && s.h.wseq <= k0 < s.h.wseq + s.cfg.NumBlocks()
    ensures Slot(k0, s.cfg.NumBlocks()) != Slot(k, s.cfg.NumBlocks())
  {
    hide Slot, ReadySlots, WriteTurn;
    if k0 < k { SlotDistinct(k0, k, s.cfg.NumBlocks()); } else { SlotDistinct(k, k0, s.cfg.NumBlocks()); }
  }

  /** A step of thread t that touches at most block k0 keeps what is known of the other blocks. */
  lemma OthersKeep(s: State, s': State, k0: int, t: nat)
    requires RingInv(s) && HeldInv(s) && BlocksInv(s) && Away(s, s', k0) && Others(s, s', t)
    requires k0 == -1 || s.h.wseq <= k0 < s.h.wseq + s.cfg.NumBlocks()
    requires k0 >= 0 && k0 in s.h.owner ==> s.h.owner[k0] == By(t)
    ensures forall u: nat | u < |s'.th| && u != t :: ThreadOk(s', s'.th[u])
    ensures forall k: nat | k != k0 && k in s.h.owner && s.h.owner[k] == Parked ::
              StoredOk(s', Slot(k, s.cfg.NumBlocks()), k)
  {
    hide Slot, HeldInv, Away, ThreadOk, StoredOk;
    forall u: nat | u < |s'.th| && u != t
      ensures ThreadOk(s', s'.th[u])
    {
      var x := s.th[u];
      if HasBlock(x) {
        assert s.h.owner[x.k] == By(u) && x.k != k0 && SlotKnown(x, s.cfg.NumBlocks());
        if k0 >= 0 { SlotsDiffer(s, k0, x.k); }
      }
      ThreadKeeps(s, s', k0, x);
    }
    forall k: nat | k != k0 && k in s.h.owner && s.h.owner[k] == Parked
      ensures StoredOk(s', Slot(k, s.cfg.NumBlocks()), k)
    {
      if k0 >= 0 { SlotsDiffer(s, k0, k); }
      StoredKeeps(s, s', k0, Slot(k, s.cfg.NumBlocks()), k);
    }
  }

  /** A step of thread t that touches at most block k0 and leaves no block ready. */
  lemma BlocksKeep(s: State, s': State, k0: int, t: nat)
    requires RingInv(s) && HeldInv(s) && BlocksInv(s) && Away(s, s', k0) && Others(s, s', t) && t < |s.th|
    requires k0 == -1 || s.h.wseq <= k0 < s.h.wseq + s.cfg.NumBlocks()
    requires k0 >= 0 && k0 in s.h.owner ==> s.h.owner[k0] == By(t)
    requires forall k: nat | k in s'.h.owner && s'.h.owner[k] == Parked :: k in s.h.owner && s.h.owner[k] == Parked
    requires ThreadOk(s', s'.th[t])
    ensures BlocksInv(s')
  {
    hide Slot, RingInv, HeldInv, Away, ThreadOk, StoredOk;
    OthersKeep(s, s', k0, t);
    AwayCfg(s, s', k0);
  }

  lemma AwayCfg(s: State, s': State, k0: int)
    requires Away(s, s', k0)
    ensures s'.cfg == s.cfg
  {}
}
