/** The three threads of the multithreaded match finder in compression/LZMA/LzFindMt.c. The tree thread is the producer
    of the main thread's ring and the consumer of the hash thread's; the hash thread moves the data. */
module MtFinder {
  import opened MtSync

  /** Where the hash thread is in moving the data, which takes the critical sections of both rings. */
  datatype Move =
    | NotMoving
    | EnterBt    // CriticalSection_Enter(&mt->btSync.cs)
    | EnterHash  // CriticalSection_Enter(&mt->hashSync.cs)
    | Moving     // MatchFinder_MoveBlock, inside both; leaves btSync.cs
    | LeaveHash  // CriticalSection_Leave(&mt->hashSync.cs)

  const kMtHashNumBlocks: nat := 8
  const kMtBtNumBlocks: nat := 64

  datatype Finder = Finder(bt: State, hash: State, move: Move)

  /** MatchFinderMt_Create. */
  function Start(): Finder {
    Finder(Create(kMtBtNumBlocks), Create(kMtHashNumBlocks), NotMoving)
  }

  // ----- the main thread -----

  /** MatchFinderMt_Destruct takes the hash ring first, after MatchFinderMt_ReleaseStream. */
  predicate EndsHash(f: Finder, a: Ask) {
    f.hash.c == SetExit || f.hash.c == Join || (f.bt.c == Idle && f.hash.c == Idle && a == Destruct)
  }

  predicate MainCan(f: Finder, a: Ask) {
    if EndsHash(f, a) then ConsumerCan(f.hash, a)
    else a != Enter && a != Leave && (f.hash.c == Gone && f.bt.c == Idle ==> a == Destruct) && ConsumerCan(f.bt, a)
  }

  function MainStep(f: Finder, a: Ask): Finder
    requires MainCan(f, a)
  {
    if EndsHash(f, a) then f.(hash := Consume(f.hash, a)) else f.(bt := Consume(f.bt, a))
  }

  // ----- the tree thread, BtThreadFunc -----

  /** What BtFillBlock does next; more says that it needs another hash block. */
  function FillAsk(f: Finder, more: bool): Ask {
    if f.hash.c == Paused then Enter else if more then GetBlock else Leave
  }

  /** A filled block is given to the main thread when the section has been left. */
  predicate Filled(f: Finder, more: bool) { !more && (f.hash.c == Idle || f.hash.c == Using) }

  predicate TreeCan(f: Finder, more: bool) {
    match f.bt.p
    case Fill => ConsumerCan(f.hash, FillAsk(f, more))
    case SetStopped => f.hash.c == Idle || ConsumerCan(f.hash, StopWriting)
    case _ => ProducerCan(f.bt)
  }

  function TreeStep(f: Finder, more: bool): Finder
    requires TreeCan(f, more)
  {
    match f.bt.p
    case Fill =>
      var g := f.(hash := Consume(f.hash, FillAsk(f, more)));
      if Filled(f, more) then g.(bt := Produce(f.bt)) else g
    case SetStopped =>
      if f.hash.c == Idle then f.(bt := Produce(f.bt)) else f.(hash := Consume(f.hash, StopWriting))
    case _ => f.(bt := Produce(f.bt))
  }

  // ----- the hash thread, HashThreadFunc -----

  predicate HashCan(f: Finder) {
    match f.move
    case NotMoving => ProducerCan(f.hash)
    case EnterBt => f.bt.cs == Nobody
    case EnterHash => f.hash.cs == Nobody
    case _ => true
  }

  /** needMove is MatchFinder_NeedMove. */
  function HashStep(f: Finder, needMove: bool): Finder
    requires HashCan(f)
  {
    match f.move
    case NotMoving =>
      if f.hash.p == Check && !f.hash.exit && !f.hash.stopWriting && needMove then f.(move := EnterBt)
      else f.(hash := Produce(f.hash))
    case EnterBt => f.(move := EnterHash, bt := f.bt.(cs := Mover))
    case EnterHash => f.(move := Moving, hash := f.hash.(cs := Mover))
    case Moving => f.(move := LeaveHash, bt := f.bt.(cs := Nobody))
    case LeaveHash => f.(move := NotMoving, hash := f.hash.(cs := Nobody))
  }

  datatype Turn = MainMoves(a: Ask) | TreeMoves(more: bool) | HashMoves(needMove: bool)

  predicate CanTurn(f: Finder, e: Turn) {
    match e
    case MainMoves(a) => MainCan(f, a)
    case TreeMoves(more) => TreeCan(f, more)
    case HashMoves(_) => HashCan(f)
  }

  function Take(f: Finder, e: Turn): Finder
    requires CanTurn(f, e)
  {
    match e
    case MainMoves(a) => MainStep(f, a)
    case TreeMoves(more) => TreeStep(f, more)
    case HashMoves(m) => HashStep(f, m)
  }

  // ----- what holds in every state -----

  /** Where the hash ring's consumer may be while the tree thread is at p. */
  predicate Beside(p: PPc, c: CPc) {
    match p
    case Fill => c == Idle || c == SetStart || c == WaitStarted || Served(c)
    case SetStopped => c == Idle || c == Paused || c == ReleaseStop || c == WaitStopped || c == Drain || c == DrainWait
      || c == DrainRelease
    case WaitStart => c == Idle || c == SetExit || c == Join || c == Gone
    case Ended => c == Gone
    case _ => c == Idle || c == Paused || c == Gone
  }

  predicate Ending(c: CPc) { c == SetExit || c == Join || c == Gone }

  predicate Coupled(f: Finder) {
    && Beside(f.bt.p, f.hash.c) && f.bt.c != Paused
    && (f.hash.c == SetExit || f.hash.c == Join ==> f.bt.c == Idle)
    && (f.hash.c == Gone ==> f.bt.c == Idle || Ending(f.bt.c))
    && (Ending(f.bt.c) ==> f.hash.c == Gone)
    && (f.bt.cs == Mover <==> f.move == EnterHash || f.move == Moving)
    && (f.hash.cs == Mover <==> f.move == Moving || f.move == LeaveHash)
    && (f.move != NotMoving ==> f.hash.p == Check)
  }

  /** Both rings keep their invariants beside each other. */
  predicate FinderInv(f: Finder) {
    && Inv(f.bt) && Inv(f.hash) && Coupled(f)
    && f.bt.numBlocks == kMtBtNumBlocks && f.hash.numBlocks == kMtHashNumBlocks
  }

  /** Where a producer may be beside its consumer. */
  lemma Places(s: State)
    requires Inv(s)
    ensures s.c == Idle || s.c == SetExit ==> s.p == WaitStart && !s.canStart
    ensures s.c == Gone ==> s.p == Ended
    ensures s.c == Join ==> s.p == WaitStart || s.p == SetStarted || s.p == Check || s.p == Ended
    ensures s.c == Join <==> s.exit && s.c != SetExit && s.c != Gone && s.c != Idle
    ensures s.p == Ended ==> s.c == Join || s.c == Gone
  {
    hide Mod32, Counts;
  }

  lemma InvLocks(s: State)
    requires Inv(s)
    ensures Locks(s)
  {}

  /** Only Leave pauses. */
  lemma Pauses(c: CPc, a: Ask, left: bool)
    requires a != Leave && c != Paused
    ensures After(c, a, left) != Paused
  {}

  /** A consumer begins to end its ring only when that is asked for at rest. */
  lemma Ends(c: CPc, a: Ask, left: bool)
    ensures Ending(After(c, a, left)) <==> Ending(c) || (c == Idle && a == Destruct)
    ensures c == SetExit || c == Idle ==> After(c, a, left) != Gone
  {}

  /** The main thread ends the hash ring. */
  lemma EndsKeeps(f: Finder, a: Ask)
    requires FinderInv(f) && MainCan(f, a) && EndsHash(f, a)
    ensures FinderInv(MainStep(f, a))
  {
    ConsumeKeeps(f.hash, a);
    InvLocks(f.hash);
    Places(f.bt);
    Ends(f.hash.c, a, f.hash.mine != f.hash.numProcessed);
    hide Inv, ConsumerCan, Consume, Locks, Served;
  }

  lemma MainKeeps(f: Finder, a: Ask)
    requires FinderInv(f) && MainCan(f, a)
    ensures FinderInv(MainStep(f, a))
  {
    hide Inv, ConsumerCan, Consume, Served;
    if EndsHash(f, a) {
      EndsKeeps(f, a);
    } else {
      ConsumeKeeps(f.bt, a);
      InvLocks(f.bt);
      Places(f.bt);
      Ends(f.bt.c, a, f.bt.mine != f.bt.numProcessed);
      Pauses(f.bt.c, a, f.bt.mine != f.bt.numProcessed);
    }
  }

  /** The consumer of the hash ring while a block is filled. */
  lemma FillAsks(c: CPc, a: Ask, left: bool)
    requires Beside(Fill, c) && a != Destruct && a != StopWriting && (a == Enter <==> c == Paused)
    ensures Beside(Fill, After(c, a, left))
    ensures a == Leave && (c == Idle || c == Using) ==> After(c, a, left) == Idle || After(c, a, left) == Paused
  {}

  /** The consumer of the hash ring while that ring is stopped. */
  lemma StopAsks(c: CPc, left: bool)
    requires Beside(SetStopped, c)
    ensures Beside(SetStopped, After(c, StopWriting, left))
  {}

  lemma TreeConsumes(f: Finder, a: Ask)
    requires FinderInv(f) && ConsumerCan(f.hash, a)
    requires (f.bt.p == Fill && (a == Enter <==> f.hash.c == Paused) && a != Destruct && a != StopWriting)
             || (f.bt.p == SetStopped && a == StopWriting)
    ensures FinderInv(f.(hash := Consume(f.hash, a)))
  {
    hide Inv, ConsumerCan, Consume, Produce, ProducerCan;
    ConsumeKeeps(f.hash, a);
    InvLocks(f.hash);
    var left := f.hash.mine != f.hash.numProcessed;
    if f.bt.p == Fill { FillAsks(f.hash.c, a, left); } else { StopAsks(f.hash.c, left); }
  }

  lemma TreeProduces(f: Finder)
    requires FinderInv(f) && ProducerCan(f.bt)
    requires f.bt.p == Fill ==> f.hash.c == Idle || f.hash.c == Paused
    requires f.bt.p == SetStopped ==> f.hash.c == Idle
    ensures FinderInv(f.(bt := Produce(f.bt)))
  {
    hide Inv;
    ProduceKeeps(f.bt);
    Places(f.bt);
  }

  lemma TreeKeeps(f: Finder, more: bool)
    requires FinderInv(f) && TreeCan(f, more)
    ensures FinderInv(TreeStep(f, more))
  {
    hide FinderInv, Consume, Produce, ConsumerCan;
    match f.bt.p
    case Fill =>
      TreeConsumes(f, FillAsk(f, more));
      var g := f.(hash := Consume(f.hash, FillAsk(f, more)));
      if Filled(f, more) {
        FillAsks(f.hash.c, Leave, f.hash.mine != f.hash.numProcessed) by { Parts(f); }
        TreeProduces(g);
      }
    case SetStopped =>
      if f.hash.c == Idle { TreeProduces(f); } else { TreeConsumes(f, StopWriting); }
    case _ => TreeProduces(f);
  }

  lemma Parts(f: Finder)
    requires FinderInv(f)
    ensures Inv(f.bt) && Inv(f.hash) && Coupled(f)
  {}

  lemma HashKeeps(f: Finder, needMove: bool)
    requires FinderInv(f) && HashCan(f)
    ensures FinderInv(HashStep(f, needMove))
  {
    hide Inv, Produce, ProducerCan;
    match f.move
    case NotMoving => if ProducerCan(f.hash) { ProduceKeeps(f.hash); }
    case EnterBt => SectionKeeps(f.bt, Mover);
    case EnterHash => SectionKeeps(f.hash, Mover);
    case Moving => SectionKeeps(f.bt, Nobody);
    case LeaveHash => SectionKeeps(f.hash, Nobody);
  }

  /** Every step of one of the three threads keeps both rings' invariants and what couples them. */
  lemma TakeKeeps(f: Finder, e: Turn)
    requires FinderInv(f) && CanTurn(f, e)
    ensures FinderInv(Take(f, e))
  {
    hide FinderInv, MainCan, TreeCan, HashCan, MainStep, TreeStep, HashStep;
    match e
    case MainMoves(a) => MainKeeps(f, a);
    case TreeMoves(more) => TreeKeeps(f, more);
    case HashMoves(m) => HashKeeps(f, m);
  }

  // ----- what every run keeps -----

  /** Turns that are not possible are passed over. */
  function Play(f: Finder, turns: seq<Turn>): Finder
    decreases |turns|
  {
    if turns == [] then f else Play(if CanTurn(f, turns[0]) then Take(f, turns[0]) else f, turns[1..])
  }

  lemma {:induction false} PlayKeeps(f: Finder, turns: seq<Turn>)
    requires FinderInv(f)
    ensures FinderInv(Play(f, turns))
    decreases |turns|
  {
    hide FinderInv, CanTurn, Take;
    if turns != [] {
      if CanTurn(f, turns[0]) { TakeKeeps(f, turns[0]); }
      PlayKeeps(if CanTurn(f, turns[0]) then Take(f, turns[0]) else f, turns[1..]);
    }
  }

  lemma StartInv()
    ensures FinderInv(Start())
  {}

  lemma PlayInv(turns: seq<Turn>)
    ensures FinderInv(Play(Start(), turns))
  {
    hide FinderInv, Start, Play;
    StartInv();
    PlayKeeps(Start(), turns);
  }

  /** The main thread reads the data and the block of the tree thread that it was given. */
  predicate MainReads(f: Finder) { f.bt.c == Using }

  /** The tree thread reads the data: before the first hash block of a round, or inside the section. */
  predicate TreeReads(f: Finder) { f.bt.p == Fill && (f.hash.c == Idle || f.hash.c == Using) }

  /** While the hash thread moves the data neither of the other threads reads it. */
  lemma MovesAlone(turns: seq<Turn>)
    ensures var f := Play(Start(), turns); f.move == Moving ==> !MainReads(f) && !TreeReads(f)
  {
    hide Play, Start, Mod32, Flowing, Stopping, Waking, Draining, Exiting;
    PlayInv(turns);
    var f := Play(Start(), turns);
    Places(f.hash);
    InvLocks(f.bt);
    InvLocks(f.hash);
    hide Inv;
  }

  /** No thread fills a block that another thread keeps, neither in the ring between hash and tree thread nor in
      the one between tree and main thread. */
  lemma NeverOverwrites(turns: seq<Turn>)
    ensures var f := Play(Start(), turns);
            && f.bt.numBlocks == kMtBtNumBlocks && f.hash.numBlocks == kMtHashNumBlocks
            && (f.bt.c == Using && f.bt.p == Fill ==> FillBlock(f.bt) != ReadBlock(f.bt))
            && ((f.hash.c == Using || f.hash.c == Paused) && f.hash.p == Fill ==>
                FillBlock(f.hash) != ReadBlock(f.hash))
  {
    hide Play, Start, Inv, Coupled;
    PlayInv(turns);
    var f := Play(Start(), turns);
    if f.bt.c == Using && f.bt.p == Fill { MtSync.BlocksApart(f.bt); }
    if (f.hash.c == Using || f.hash.c == Paused) && f.hash.p == Fill { MtSync.BlocksApart(f.hash); }
  }

  /** At rest: what MtSync_Create2 made. */
  predicate AtRest(s: State, numBlocks: nat) {
    && s.free == numBlocks && s.filled == 0 && s.cs == Nobody && s.p == WaitStart
    && !s.canStart && !s.wasStarted && !s.wasStopped
  }

  /** After MatchFinderMt_ReleaseStream both rings are as they were created, and nothing is being moved. */
  lemma StoppedClean(turns: seq<Turn>)
    ensures var f := Play(Start(), turns);
            f.bt.c == Idle && f.hash.c == Idle ==>
              AtRest(f.bt, kMtBtNumBlocks) && AtRest(f.hash, kMtHashNumBlocks) && f.move == NotMoving
    ensures var f := Play(Start(), turns); f.bt.c == Idle ==> f.hash.c == Idle || Ending(f.hash.c)
  {
    hide Play, Start, Mod32;
    PlayInv(turns);
    var f := Play(Start(), turns);
    InvLocks(f.bt);
    InvLocks(f.hash);
    Places(f.bt);
  }

  /** What each thread would go on with; more and needMove are not known beforehand. */
  predicate MainAsks(f: Finder, a: Ask) {
    if EndsHash(f, a) then true
    else a != Enter && a != Leave && (f.hash.c == Gone && f.bt.c == Idle ==> a == Destruct) && Asks(f.bt.c, a)
  }

  /** The hash thread can go on, or it waits for a section that another thread is in. */
  lemma HashStuck(f: Finder)
    requires FinderInv(f) && f.move != NotMoving && !HashCan(f)
    ensures (f.move == EnterBt && Holding(f.bt.c)) || (f.move == EnterHash && Holding(f.hash.c))
  {
    hide Inv;
    InvLocks(f.bt);
    InvLocks(f.hash);
  }

  /** Inside its section a consumer can go on. */
  lemma InsideGoes(s: State, a: Ask)
    requires Holding(s.c) && Asks(s.c, a)
    ensures ConsumerCan(s, a)
  {}

  /** When the tree thread waits inside a fill or a stop, the hash thread goes on. */
  lemma TreeStuck(f: Finder, more: bool)
    requires FinderInv(f) && (f.bt.p == Fill || f.bt.p == SetStopped) && !TreeCan(f, more)
    ensures HashCan(f) || (f.move == EnterBt && Holding(f.bt.c))
  {
    var a := if f.bt.p == Fill then FillAsk(f, more) else StopWriting;
    assert Asks(f.hash.c, a) && !ConsumerCan(f.hash, a);
    hide Inv, ConsumerCan;
    Progress(f.hash, a);
    if f.move != NotMoving && !HashCan(f) { HashStuck(f); }
  }

  /** A hash thread that waits for the tree thread's section leaves the tree thread able to go on. */
  lemma TreeInside(f: Finder, more: bool)
    requires FinderInv(f) && Holding(f.hash.c)
    ensures TreeCan(f, more)
  {
    hide Inv, ConsumerCan, ProducerCan;
    assert f.hash.c == Using && f.bt.p == Fill;
    InsideGoes(f.hash, FillAsk(f, more));
  }

  lemma SomeoneGoes(f: Finder, a: Ask, more: bool)
    requires FinderInv(f) && MainAsks(f, a)
    ensures MainCan(f, a) || TreeCan(f, more) || HashCan(f)
  {
    if !MainCan(f, a) && !TreeCan(f, more) && !HashCan(f) {
      hide Inv, ConsumerCan, ProducerCan, TreeCan, HashCan, Beside;
      if f.move != NotMoving { HashStuck(f); }
      if Holding(f.hash.c) { TreeInside(f, more); }
      if EndsHash(f, a) {
        EndsGoes(f, a);
      } else {
        if Holding(f.bt.c) { InsideGoes(f.bt, a); }
        Progress(f.bt, a);
        if f.bt.cs != Mover { ProducerGoes(f, more); }
      }
    }
  }

  lemma EndsGoes(f: Finder, a: Ask)
    requires FinderInv(f) && EndsHash(f, a)
    ensures MainCan(f, a) || HashCan(f)
  {
    hide Inv;
    InvLocks(f.bt);
    if !ConsumerCan(f.hash, a) {
      Progress(f.hash, a);
      if f.move != NotMoving && !HashCan(f) { HashStuck(f); }
    }
  }

  lemma ProducerGoes(f: Finder, more: bool)
    requires FinderInv(f) && ProducerCan(f.bt)
    ensures TreeCan(f, more) || HashCan(f) || (f.move == EnterBt && Holding(f.bt.c))
  {
    hide FinderInv, ProducerCan, HashCan;
    if (f.bt.p == Fill || f.bt.p == SetStopped) && !TreeCan(f, more) { TreeStuck(f, more); }
  }

  /** Until both rings have been ended some thread can go on, whatever the main thread asks for and whether or not the
      tree thread needs more of the hash thread. */
  lemma NoDeadlock(turns: seq<Turn>, a: Ask, more: bool)
    ensures var f := Play(Start(), turns); MainAsks(f, a) ==> MainCan(f, a) || TreeCan(f, more) || HashCan(f)
  {
    hide Play, Start, FinderInv, MainAsks, MainCan, TreeCan, HashCan;
    PlayInv(turns);
    var f := Play(Start(), turns);
    if MainAsks(f, a) { SomeoneGoes(f, a, more); }
  }

  /** The main thread always asks for something until it has ended both rings. */
  lemma MainGoesOn(turns: seq<Turn>)
    ensures var f := Play(Start(), turns); f.bt.c == Gone || MainAsks(f, StopWriting) || MainAsks(f, Destruct)
  {
    hide Play, Start, Inv;
    PlayInv(turns);
  }

  // ----- each ring on its own -----

  /** What a turn is for the ring between tree and main thread, and for the ring between hash and tree thread. */
  function BtEvents(f: Finder, e: Turn): seq<Event>
    requires CanTurn(f, e)
  {
    match e
    case MainMoves(a) => if EndsHash(f, a) then [] else [ConsumerMoves(a)]
    case TreeMoves(more) =>
      if (f.bt.p == Fill && !Filled(f, more)) || (f.bt.p == SetStopped && f.hash.c != Idle) then [] else [ProducerMoves]
    case HashMoves(_) => if f.move == EnterBt then [MoverEnters] else if f.move == Moving then [MoverLeaves] else []
  }

  function HashEvents(f: Finder, e: Turn): seq<Event>
    requires CanTurn(f, e)
  {
    match e
    case MainMoves(a) => if EndsHash(f, a) then [ConsumerMoves(a)] else []
    case TreeMoves(more) =>
      if f.bt.p == Fill then [ConsumerMoves(FillAsk(f, more))]
      else if f.bt.p == SetStopped && f.hash.c != Idle then [ConsumerMoves(StopWriting)]
      else []
    case HashMoves(m) =>
      if f.move == NotMoving && HashStep(f, m).move == NotMoving then [ProducerMoves]
      else if f.move == EnterHash then [MoverEnters]
      else if f.move == LeaveHash then [MoverLeaves]
      else []
  }

  /** A turn is at most one event of each ring. */
  lemma TakeEvents(f: Finder, e: Turn)
    requires FinderInv(f) && CanTurn(f, e)
    ensures Run(f.bt, BtEvents(f, e)) == Take(f, e).bt && Run(f.hash, HashEvents(f, e)) == Take(f, e).hash
  {
    hide Inv, Consume, Produce, ConsumerCan, Run;
    RunOne(f.bt, BtEvents(f, e));
    RunOne(f.hash, HashEvents(f, e));
  }

  lemma RunOne(s: State, events: seq<Event>)
    requires |events| <= 1
    ensures Run(s, events) == if |events| == 1 && Can(s, events[0]) then Apply(s, events[0]) else s
  {
    hide Can, Apply;
    if |events| == 1 { assert events[1..] == []; }
  }

  lemma {:induction false} RunAppend(s: State, a: seq<Event>, b: seq<Event>)
    ensures Run(s, a + b) == Run(Run(s, a), b)
    decreases |a|
  {
    hide Can, Apply;
    if a == [] {
      assert a + b == b;
    } else {
      assert (a + b)[1..] == a[1..] + b;
      RunAppend(if Can(s, a[0]) then Apply(s, a[0]) else s, a[1..], b);
    }
  }

  /** What the three threads do is a run of each of the two rings. */
  lemma {:induction false} RingRuns(f: Finder, turns: seq<Turn>) returns (bt: seq<Event>, hash: seq<Event>)
    requires FinderInv(f)
    ensures Run(f.bt, bt) == Play(f, turns).bt && Run(f.hash, hash) == Play(f, turns).hash
    decreases |turns|
  {
    hide FinderInv, CanTurn, Take, Run, BtEvents, HashEvents;
    bt, hash := [], [];
    RunOne(f.bt, []);
    RunOne(f.hash, []);
    if turns != [] {
      if CanTurn(f, turns[0]) {
        TakeKeeps(f, turns[0]);
        TakeEvents(f, turns[0]);
        var g := Take(f, turns[0]);
        bt, hash := RingRuns(g, turns[1..]);
        RunAppend(f.bt, BtEvents(f, turns[0]), bt);
        RunAppend(f.hash, HashEvents(f, turns[0]), hash);
        bt, hash := BtEvents(f, turns[0]) + bt, HashEvents(f, turns[0]) + hash;
      } else {
        bt, hash := RingRuns(f, turns[1..]);
      }
    }
  }

  /** In every state of the three threads neither ring's semaphores exceed their maximum. */
  lemma SemaphoresBounded(turns: seq<Turn>)
    ensures var f := Play(Start(), turns);
            && f.bt.free + f.bt.filled <= kMtBtNumBlocks && f.hash.free + f.hash.filled <= kMtHashNumBlocks
  {
    hide Play, Run, FinderInv;
    StartInv();
    var bt, hash := RingRuns(Start(), turns);
    MtSync.SemaphoresBounded(kMtBtNumBlocks, bt, Play(Start(), turns).bt);
    MtSync.SemaphoresBounded(kMtHashNumBlocks, hash, Play(Start(), turns).hash);
  }
}
