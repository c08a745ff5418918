/** Where the index of an output buffer is kept: on the free list, in a coder thread, or in a slot of the ring. */
module MtCoderPlaces {
  import opened Bytes
  import opened MtCoder
  import opened MtCoderRing
  import opened MtCoderBlocks

  // ----- the free list, read off the program's variables -----

  /** The indices from h on, by freeBlockList, at most n of them. */
  function Chained(next: seq<int>, h: int, n: nat): seq<int>
    decreases n
  {
    if n == 0 || h < 0 || h >= |next| then [] else [h] + Chained(next, next[h], n - 1)
  }

  /** The list that begins with freeBlockHead. */
  function FreeList(p: Pool): seq<int> { Chained(p.next, p.head, BLOCKS_MAX) }

  lemma ChainedStep(next: seq<int>, h: int, n: nat)
    ensures h == -1 || n == 0 ==> Chained(next, h, n) == []
    ensures n > 0 && 0 <= h < |next| ==> Chained(next, h, n) == [h] + Chained(next, next[h], n - 1)
  {}

  lemma LinkAt(p: Pool, free: seq<int>, i: nat)
    requires Linked(p, free) && i <= |free|
    ensures i == |free| ==> At(free, i) == -1
    ensures i < |free| ==> At(free, i) == free[i] && 0 <= free[i] < |p.next| && p.next[free[i]] == At(free, i + 1)
  {}

  lemma {:induction false} ChainedIs(p: Pool, free: seq<int>, i: nat, n: nat)
    requires Linked(p, free) && i <= |free| <= i + n
    ensures Chained(p.next, At(free, i), n) == free[i..]
    decreases n
  {
    hide Chained, Linked, At;
    LinkAt(p, free, i);
    ChainedStep(p.next, At(free, i), n);
    if i < |free| {
      ChainedIs(p, free, i + 1, n - 1);
      assert free[i..] == [free[i]] + free[i + 1..];
    }
  }

  lemma FreeListIs(p: Pool, free: seq<int>)
    requires Linked(p, free) && |free| <= BLOCKS_MAX
    ensures FreeList(p) == free
  {
    ChainedIs(p, free, 0, BLOCKS_MAX);
    assert free[0..] == free;
  }

  // ----- the other places -----

  /** bufIndex of a thread, or bufIndex of a slot of the ring. */
  datatype Place = InThread(t: nat) | InSlot(i: nat)

  /** From taking a buffer to giving it back or leaving it in the ring. */
  predicate WithBuffer(pc: Pc) {
    match pc
    case Coding => true
    case CodeFailed => true
    case Store => true
    case Offer => true
    case Inherit => true
    case Write => true
    case Writing => true
    case WriteFailed => true
    case Release => true
    case _ => false
  }

  /** The writer has claimed slot wi and not yet loaded it. */
  predicate TakesOver(x: Thread) { x.pc == Load || (x.pc == SemRelease && x.more) }

  ghost predicate Claimed(s: State, i: nat) {
    exists t: nat :: t < |s.th| && TakesOver(s.th[t]) && s.th[t].wi == i
  }

  /** Place p carries index b: a thread between taking and giving up a buffer, or a slot left ready or just claimed. */
  ghost predicate Carries(s: State, p: Place, b: int) {
    match p
    case InThread(t) => t < |s.th| && WithBuffer(s.th[t].pc) && s.th[t].buf == b
    case InSlot(i) =>
      && i < s.cfg.NumBlocks() && i < |s.ring.blocks| && i < |s.ring.ready| && s.ring.blocks[i].buf == b
      && (s.ring.ready[i] || Claimed(s, i))
  }

  /** Where block k keeps its buffer. */
  function PlaceOf(s: State, k: nat): Place
    requires k in s.h.owner
  {
    var o := s.h.owner[k];
    if o.By? && o.t < |s.th| && !TakesOver(s.th[o.t]) then InThread(o.t) else InSlot(Slot(k, s.cfg.NumBlocks()))
  }

  // ----- every held buffer is where its block is, and nowhere else -----

  ghost predicate Placed(s: State) {
    RingInv(s) && HeldInv(s) && BlocksInv(s)
  }

  lemma SlotInRing(s: State, k: nat)
    requires RingInv(s) && s.h.wseq <= k < |s.h.log|
    ensures k in s.h.owner && Slot(k, s.cfg.NumBlocks()) < s.cfg.NumBlocks() <= BLOCKS_MAX
    ensures |s.ring.ready| == |s.ring.blocks| == BLOCKS_MAX
    ensures s.ring.ready[Slot(k, s.cfg.NumBlocks())] <==> s.h.owner[k] == Parked
  {
    hide Slot, Config.NumBlocks, WriteTurn;
    assert Marked(s, k);
  }

  /** A thread that has a block's buffer has the index; one that takes the block over finds it in the slot. */
  lemma ThreadPlace(s: State, t: nat)
    requires Placed(s) && t < |s.th| && HasBlock(s.th[t])
    ensures s.th[t].k in s.h.owner && s.h.owner[s.th[t].k] == By(t) && s.h.wseq <= s.th[t].k < |s.h.log|
    ensures TakesOver(s.th[t]) ==>
            s.th[t].wi == Slot(s.th[t].k, s.cfg.NumBlocks()) && StoredOk(s, s.th[t].wi, s.th[t].k)
    ensures WithBuffer(s.th[t].pc) ==> BufOk(s, s.th[t].buf, s.th[t].k)
    ensures !TakesOver(s.th[t]) && !WithBuffer(s.th[t].pc) ==> s.th[t].k !in s.h.held
  {
    hide Slot, Config.NumBlocks, WriteTurn, ReadySlots, HeldOk;
    assert ThreadOk(s, s.th[t]);
  }

  /** What a place carries is the buffer of a block that keeps it there. */
  lemma CarriedIsHeld(s: State, p: Place, b: int) returns (k: nat)
    requires Placed(s) && Carries(s, p, b) && b >= 0
    ensures k in s.h.held && s.h.held[k] == b && k in s.h.owner && PlaceOf(s, k) == p
  {
    hide Slot, Config.NumBlocks, RingInv, HeldInv, BlocksInv, HasBlock, ThreadOk;
    match p
    case InThread(t) =>
      k := s.th[t].k;
      HasBlockWith(s.th[t]);
      ThreadPlace(s, t);
    case InSlot(i) =>
      if s.ring.ready[i] {
        k := ReadyBlock(s, i);
      } else {
        var t: nat :| t < |s.th| && TakesOver(s.th[t]) && s.th[t].wi == i;
        k := s.th[t].k;
        HasBlockWith(s.th[t]);
        ThreadPlace(s, t);
      }
  }

  lemma HasBlockWith(x: Thread)
    requires WithBuffer(x.pc) || TakesOver(x)
    ensures HasBlock(x)
  {}

  /** A slot marked ready is that of a block left there. */
  lemma ReadyBlock(s: State, i: nat) returns (k: nat)
    requires Placed(s) && i < s.cfg.NumBlocks() && i < |s.ring.ready| && s.ring.ready[i] && i < |s.ring.blocks|
    ensures k in s.h.owner && s.h.owner[k] == Parked && Slot(k, s.cfg.NumBlocks()) == i && StoredOk(s, i, k)
  {
    hide Slot, Config.NumBlocks, WriteTurn, Owners, HeldInv, ThreadOk;
    k := SlotReached(s.h.wseq, s.cfg.NumBlocks(), i);
    assert Marked(s, k);
  }

  /** n consecutive numbers go through all n slots. */
  lemma SlotReached(lo: nat, n: nat, i: nat) returns (k: nat)
    requires i < n
    ensures lo <= k < lo + n && Slot(k, n) == i
  {
    var q, r := lo / n, lo % n;
    assert lo == n * q + r;
    if r <= i {
      k := lo - r + i;
      DivModUnique(k, n, q, i);
    } else {
      k := lo - r + n + i;
      assert n * (q + 1) == n * q + n;
      DivModUnique(k, n, q + 1, i);
    }
    SlotIsMod(k, n);
  }

  /** The buffer of a block is where the block keeps it. */
  lemma HeldIsCarried(s: State, k: nat)
    requires Placed(s) && k in s.h.held
    ensures k in s.h.owner && 0 <= s.h.held[k] < BLOCKS_MAX && Carries(s, PlaceOf(s, k), s.h.held[k])
  {
    hide Slot, Config.NumBlocks, BlocksInv, WriteTurn, ReadySlots, HasBlock, ThreadOk;
    SlotInRing(s, k);
    var o := s.h.owner[k];
    if o.By? {
      assert Holds(s, o.t, k);
      ThreadPlace(s, o.t);
    } else {
      ParkedStored(s, k);
    }
  }

  lemma ParkedStored(s: State, k: nat)
    requires BlocksInv(s) && k in s.h.owner && s.h.owner[k] == Parked
    ensures StoredOk(s, Slot(k, s.cfg.NumBlocks()), k)
  {}

  /** No index is in two places. */
  lemma OnePlace(s: State, p: Place, q: Place, b: int)
    requires Placed(s) && Carries(s, p, b) && Carries(s, q, b) && b >= 0
    ensures p == q
  {
    hide Carries, PlaceOf, RingInv, BlocksInv;
    var j := CarriedIsHeld(s, p, b);
    var k := CarriedIsHeld(s, q, b);
  }

  ghost predicate Somewhere(s: State, b: int) { exists p: Place :: Carries(s, p, b) }

  /** What is in no place is held by no block, and the other way round. */
  lemma SomewhereIsHeld(s: State, b: int)
    requires Placed(s) && b >= 0
    ensures Somewhere(s, b) <==> b in s.h.held.Values
  {
    hide Carries, PlaceOf, RingInv, BlocksInv, HeldInv;
    if Somewhere(s, b) {
      var p: Place :| Carries(s, p, b);
      var k := CarriedIsHeld(s, p, b);
    }
    if b in s.h.held.Values {
      var k: nat :| k in s.h.held && s.h.held[k] == b;
      HeldIsCarried(s, k);
    }
  }
}
