/** The bounded buffer of the multithreaded match finder, CMtSync in compression/LZMA/LzFindMt.c:
    a producer thread that fills a ring of blocks, and a consumer that can stop and restart it. The critical section
    keeps the data in place while the consumer is inside; the thread that moves the data is somebody else's concern. */
module MtSync {
  import opened Bytes

  /** Where the consumer is. */
  datatype CPc =
    | Idle          // needStart is set
    | SetStart      // GetNextBlock: flags prepared, Event_Set(canStart)
    | WaitStarted   // Event_Wait(wasStarted)
    | Using         // has a block, inside the critical section
    | Paused        // has a block, outside the critical section (csWasEntered is false)
    | CountBlock    // left the section; numProcessedBlocks++
    | ReleaseFree   // Semaphore_Release1(freeSemaphore)
    | WaitFilled    // Semaphore_Wait(filledSemaphore)
    | EnterCs       // CriticalSection_Enter
    | LeaveStop     // StopWriting: stopWriting was set; leave the section
    | ReleaseStop   // Semaphore_Release1(freeSemaphore)
    | WaitStopped   // Event_Wait(wasStopped)
    | Drain         // the loop condition
    | DrainWait     // Semaphore_Wait(filledSemaphore)
    | DrainRelease  // Semaphore_Release1(freeSemaphore)
    | SetExit       // Destruct: exit was set; Event_Set(canStart)
    | Join          // Thread_Wait
    | Gone

  /** Where the producer is, in HashThreadFunc or BtThreadFunc. */
  datatype PPc =
    | WaitStart     // Event_Wait(canStart)
    | SetStarted    // Event_Set(wasStarted)
    | Check         // exit and stopWriting
    | WaitFree      // Semaphore_Wait(freeSemaphore)
    | Fill          // fills its block
    | ReleaseFilled // Semaphore_Release1(filledSemaphore)
    | Report        // numProcessedBlocks = its own count
    | SetStopped    // Event_Set(wasStopped)
    | Ended

  /** Who is inside the critical section; Mover is the thread that moves the data. */
  datatype Holder = Nobody | Consumer | Mover

  /** taken and made are history: blocks taken and blocks filled since the last start. */
  datatype State = State(numBlocks: nat, exit: bool, stopWriting: bool,
      canStart: bool, wasStarted: bool, wasStopped: bool,
                         free: nat, filled: nat, numProcessed: u32, cs: Holder, c: CPc, mine: u32, p: PPc, local: u32,
                         taken: nat, made: nat)

  /** MtSync_Create2. */
  function Create(numBlocks: nat): State {
    State(numBlocks, false, false, false, false, false, numBlocks, 0, 0, Nobody, Idle, 0, WaitStart, 0, 0, 0)
  }

  function Inc(x: u32): u32 { if x + 1 == TWO32 then 0 else x + 1 }

  predicate Holding(c: CPc) { c == Using || c == LeaveStop }

  /** What the consumer does next; Leave and Enter are those of BtFillBlock, which do nothing while needStart is set. */
  datatype Ask = GetBlock | Leave | Enter | StopWriting | Destruct

  predicate ConsumerCan(s: State, a: Ask) {
    match s.c
    case Using => a == GetBlock || a == Leave || a == StopWriting
    case Paused => (a == Enter && s.cs == Nobody) || a == StopWriting
    case WaitStarted => s.wasStarted
    case WaitFilled => s.filled > 0
    case EnterCs => s.cs == Nobody
    case WaitStopped => s.wasStopped
    case DrainWait => s.filled > 0
    case Join => s.p == Ended
    case Gone => false
    case _ => true
  }

  /** The order of the consumer's places; left says that blocks are left to drain. */
  function After(c: CPc, a: Ask, left: bool): CPc {
    match c
    case Idle => if a == GetBlock then SetStart else if a == Destruct then SetExit else Idle
    case SetStart => WaitStarted
    case WaitStarted => WaitFilled
    case Using => if a == GetBlock then CountBlock else if a == Leave then Paused else LeaveStop
    case Paused => if a == Enter then Using else ReleaseStop
    case CountBlock => ReleaseFree
    case ReleaseFree => WaitFilled
    case WaitFilled => EnterCs
    case EnterCs => Using
    case LeaveStop => ReleaseStop
    case ReleaseStop => WaitStopped
    case WaitStopped => Drain
    case Drain => if left then DrainWait else Idle
    case DrainWait => DrainRelease
    case DrainRelease => Drain
    case SetExit => Join
    case _ => Gone
  }

  function Consume(s: State, a: Ask): (r: State)
    requires ConsumerCan(s, a)
    ensures r.numBlocks == s.numBlocks && r.p == s.p && r.c == After(s.c, a, s.mine != s.numProcessed)
    ensures r.cs == s.cs || (r.cs == Nobody && Holding(s.c)) || (s.cs == Nobody && r.cs == Consumer)
  {
    match s.c
    case Idle =>
      if a == GetBlock then
        s.(c := SetStart, numProcessed := 1, stopWriting := false, exit := false, wasStarted := false,
           wasStopped := false, taken := 0, made := 0)
      else if a == Destruct then s.(c := SetExit, exit := true)
      else s
    case SetStart => s.(c := WaitStarted, canStart := true)
    case WaitStarted => s.(c := WaitFilled, wasStarted := false)
    case Using =>
      if a == GetBlock then s.(c := CountBlock, cs := Nobody)
      else if a == Leave then s.(c := Paused, cs := Nobody)
      else s.(c := LeaveStop, mine := s.numProcessed, stopWriting := true)
    case Paused =>
      if a == Enter then s.(c := Using, cs := Consumer)
      else s.(c := ReleaseStop, mine := s.numProcessed, stopWriting := true)
    case CountBlock => s.(c := ReleaseFree, numProcessed := Inc(s.numProcessed))
    case ReleaseFree => s.(c := WaitFilled, free := s.free + 1)
    case WaitFilled => s.(c := EnterCs, filled := s.filled - 1, taken := s.taken + 1)
    case EnterCs => s.(c := Using, cs := Consumer)
    case LeaveStop => s.(c := ReleaseStop, cs := Nobody)
    case ReleaseStop => s.(c := WaitStopped, free := s.free + 1)
    case WaitStopped => s.(c := Drain, wasStopped := false)
    case Drain => s.(c := if s.mine != s.numProcessed then DrainWait else Idle, mine := Inc(s.mine))
    case DrainWait => s.(c := DrainRelease, filled := s.filled - 1, taken := s.taken + 1)
    case DrainRelease => s.(c := Drain, free := s.free + 1)
    case SetExit => s.(c := Join, canStart := true)
    case Join => s.(c := Gone)
  }

  predicate ProducerCan(s: State) {
    match s.p
    case WaitStart => s.canStart
    case WaitFree => s.free > 0
    case Ended => false
    case _ => true
  }

  function Produce(s: State): (r: State)
    requires ProducerCan(s)
    ensures r.numBlocks == s.numBlocks && r.c == s.c && r.cs == s.cs
  {
    match s.p
    case WaitStart => s.(p := SetStarted, canStart := false, local := 0)
    case SetStarted => s.(p := Check, wasStarted := true)
    case Check =>
      if s.exit then s.(p := Ended)
      else if s.stopWriting then s.(p := Report)
      else s.(p := WaitFree)
    case WaitFree => s.(p := Fill, free := s.free - 1)
    case Fill => s.(p := ReleaseFilled, local := Inc(s.local), made := s.made + 1)
    case ReleaseFilled => s.(p := Check, filled := s.filled + 1)
    case Report => s.(p := SetStopped, numProcessed := s.local)
    case SetStopped => s.(p := WaitStart, wasStopped := true)
  }

  datatype Event = ConsumerMoves(a: Ask) | ProducerMoves | MoverEnters | MoverLeaves

  predicate Can(s: State, e: Event) {
    match e
    case ConsumerMoves(a) => ConsumerCan(s, a)
    case ProducerMoves => ProducerCan(s)
    case MoverEnters => s.cs == Nobody
    case MoverLeaves => s.cs == Mover
  }

  function Apply(s: State, e: Event): State
    requires Can(s, e)
  {
    match e
    case ConsumerMoves(a) => Consume(s, a)
    case ProducerMoves => Produce(s)
    case MoverEnters => s.(cs := Mover)
    case MoverLeaves => s.(cs := Nobody)
  }

  // ----- what holds in every state -----

  function Mod32(k: nat): u32 { k % TWO32 }

  lemma IncMod(k: nat)
    ensures Inc(Mod32(k)) == Mod32(k + 1)
  {}

  /** Free slots given back so far. */
  function GivenBack(s: State): int {
    match s.c
    case Using => s.taken - 1
    case Paused => s.taken - 1
    case CountBlock => s.taken - 1
    case ReleaseFree => s.taken - 1
    case EnterCs => s.taken - 1
    case LeaveStop => s.taken - 1
    case ReleaseStop => s.taken - 1
    case DrainRelease => s.taken - 1
    case _ => s.taken
  }

  /** Between two rounds, with the producer asleep. */
  predicate Resting(c: CPc) { c == Idle || c == SetStart || c == SetExit }

  /** Blocks are handed over. */
  predicate Served(c: CPc) {
    c == Using || c == Paused || c == CountBlock || c == ReleaseFree || c == WaitFilled || c == EnterCs
  }

  /** From canStart to wasStarted. */
  predicate Starting(s: State) {
    && (if s.p == WaitStart then s.canStart else !s.canStart)
    && (s.p == WaitStart || s.p == SetStarted ==> !s.wasStarted)
  }

  predicate Working(p: PPc) { p != WaitStart && p != SetStarted && p != Ended }

  predicate Counts(s: State) {
    && s.free == s.numBlocks - s.made - (if s.p == Fill then 1 else 0) + GivenBack(s)
    && s.filled == s.made - (if s.p == ReleaseFilled then 1 else 0) - s.taken
  }

  predicate Quiet(s: State) {
    s.free == s.numBlocks && s.filled == 0 && !s.wasStarted && !s.wasStopped
  }

  predicate Rested(s: State) {
    && Quiet(s) && s.p == WaitStart && !s.canStart && (s.c == SetExit ==> s.exit)
    && (s.c == SetStart ==> s.taken == s.made == 0 && s.numProcessed == 1 && !s.stopWriting && !s.exit)
  }

  /** Consumer waits for the producer to start. */
  predicate Waking(s: State) {
    && s.taken == 0 && s.numProcessed == 1 && !s.stopWriting && !s.exit && !s.wasStopped
    && (s.p == WaitStart || s.p == SetStarted ==> Quiet(s) && s.made == 0 && (s.canStart <==> s.p == WaitStart))
    && (s.p == SetStarted ==> s.local == 0)
    && (Working(s.p) ==> s.wasStarted && !s.canStart && s.local == Mod32(s.made) && Counts(s))
    && s.p != Report && s.p != SetStopped && s.p != Ended
  }

  predicate Locks(s: State) { s.cs == Consumer <==> Holding(s.c) }

  /** Blocks are handed over. */
  predicate Flowing(s: State) {
    && !s.stopWriting && !s.exit && !s.canStart && !s.wasStarted && !s.wasStopped
    && Working(s.p) && s.p != Report && s.p != SetStopped && Counts(s) && s.local == Mod32(s.made)
    && s.numProcessed == Mod32(if s.c == ReleaseFree || s.c == WaitFilled then s.taken + 1 else s.taken)
    && (s.c != WaitFilled ==> s.taken > 0)
  }

  /** StopWriting waits for the producer. */
  predicate Stopping(s: State) {
    && s.stopWriting && !s.exit && !s.canStart && !s.wasStarted
    && (s.wasStopped <==> s.p == WaitStart)
    && (Working(s.p) || s.p == WaitStart) && Counts(s) && s.local == Mod32(s.made)
    && (s.p == SetStopped || s.p == WaitStart ==> s.numProcessed == Mod32(s.made))
    && s.taken > 0 && s.mine == Mod32(s.taken)
    && (s.c == WaitStopped && s.p == WaitFree ==> s.free > 0)
  }

  /** StopWriting takes the blocks that are left. */
  predicate Draining(s: State) {
    && s.stopWriting && !s.exit && !s.canStart && !s.wasStarted && !s.wasStopped
    && s.p == WaitStart && Counts(s) && s.numProcessed == Mod32(s.made)
    && s.mine == Mod32(if s.c == DrainWait then s.taken + 1 else s.taken)
    && (s.c == DrainWait ==> s.filled > 0)
  }

  predicate Exiting(s: State) {
    && s.exit && s.filled == 0 && s.free == s.numBlocks && !s.wasStopped
    && (s.canStart <==> s.p == WaitStart)
    && (s.p == WaitStart || s.p == SetStarted || s.p == Check || s.p == Ended)
  }

  predicate Inv(s: State) {
    && 0 < s.numBlocks < TWO32 && Locks(s)
    && match s.c
       case Idle => Rested(s)
       case SetStart => Rested(s)
       case SetExit => Rested(s)
       case WaitStarted => Waking(s)
       case Using => Flowing(s)
       case Paused => Flowing(s)
       case CountBlock => Flowing(s)
       case ReleaseFree => Flowing(s)
       case WaitFilled => Flowing(s)
       case EnterCs => Flowing(s)
       case LeaveStop => Stopping(s)
       case ReleaseStop => Stopping(s)
       case WaitStopped => Stopping(s)
       case Drain => Draining(s)
       case DrainWait => Draining(s)
       case DrainRelease => Draining(s)
       case Join => Exiting(s)
       case Gone => s.p == Ended && s.filled == 0 && s.free == s.numBlocks
  }

  lemma ModZero()
    ensures Mod32(0) == 0 && Mod32(1) == 1
  {}

  /** Numbers less than a ring apart have different low 32 bits. */
  lemma ModDiffers(a: nat, b: nat)
    requires a < b < a + TWO32
    ensures Mod32(a) != Mod32(b)
  {
    var p, q := a / TWO32, b / TWO32;
    assert b - a == TWO32 * (q - p) + (Mod32(b) - Mod32(a));
  }

  lemma RestedConsume(s: State, a: Ask)
    requires Inv(s) && ConsumerCan(s, a) && (Resting(s.c) || s.c == WaitStarted)
    ensures Inv(Consume(s, a))
  {
    ModZero();
    hide Mod32, Inc, Stopping, Draining;
  }

  lemma FlowingConsume(s: State, a: Ask)
    requires Inv(s) && ConsumerCan(s, a) && Flowing(s) && Served(s.c)
    ensures Inv(Consume(s, a))
  {
    ModZero();
    IncMod(s.taken);
    hide Mod32, Inc, Rested, Waking, Draining, Exiting;
  }

  lemma StoppingConsume(s: State, a: Ask)
    requires Inv(s) && ConsumerCan(s, a) && (s.c == LeaveStop || s.c == ReleaseStop || s.c == WaitStopped)
    ensures Inv(Consume(s, a))
  {
    hide Mod32, Inc, Waking, Flowing, Exiting, Rested;
  }

  lemma DrainingConsume(s: State, a: Ask)
    requires Inv(s) && ConsumerCan(s, a) && (s.c == Drain || s.c == DrainWait || s.c == DrainRelease)
    ensures Inv(Consume(s, a))
  {
    hide Mod32, Inc, Waking, Flowing, Exiting, Stopping;
    IncMod(s.taken);
    if s.c == Drain && s.mine == s.numProcessed && s.taken < s.made { ModDiffers(s.taken, s.made); }
  }

  lemma ConsumeKeeps(s: State, a: Ask)
    requires Inv(s) && ConsumerCan(s, a)
    ensures Inv(Consume(s, a))
  {
    if s.c != Join {
      hide Rested, Waking, Flowing, Stopping, Draining, Exiting, Consume;
      if Resting(s.c) || s.c == WaitStarted { RestedConsume(s, a); }
      else if Served(s.c) { FlowingConsume(s, a); }
      else if s.c == LeaveStop || s.c == ReleaseStop || s.c == WaitStopped { StoppingConsume(s, a); }
      else if s.c != Gone { DrainingConsume(s, a); }
    }
  }

  lemma WakingProduce(s: State)
    requires Waking(s) && s.c == WaitStarted && ProducerCan(s)
    ensures Waking(Produce(s))
  {
    ModZero();
    IncMod(s.made);
    hide Mod32, Inc;
  }

  lemma FlowingProduce(s: State)
    requires Flowing(s) && ProducerCan(s)
    ensures Flowing(Produce(s))
  {
    IncMod(s.made);
    hide Mod32, Inc;
  }

  lemma StoppingProduce(s: State)
    requires Stopping(s) && ProducerCan(s)
    ensures Stopping(Produce(s))
  {
    IncMod(s.made);
    hide Mod32, Inc;
  }

  lemma ExitingProduce(s: State)
    requires Exiting(s) && ProducerCan(s)
    ensures Exiting(Produce(s))
  {}

  lemma Asleep(s: State)
    requires Inv(s) && s.c in {Idle, SetStart, SetExit, Drain, DrainWait, DrainRelease, Gone}
    ensures !ProducerCan(s)
  {}

  lemma ProduceKeeps(s: State)
    requires Inv(s) && ProducerCan(s)
    ensures Inv(Produce(s))
  {
    if s.c in {Idle, SetStart, SetExit, Drain, DrainWait, DrainRelease, Gone} { Asleep(s); }
    hide Waking, Flowing, Stopping, Exiting, Rested, Draining, Produce, ProducerCan;
   
    match s.c
    case WaitStarted => WakingProduce(s);
    case Using => FlowingProduce(s);
    case Paused => FlowingProduce(s);
    case CountBlock => FlowingProduce(s);
    case ReleaseFree => FlowingProduce(s);
    case WaitFilled => FlowingProduce(s);
    case EnterCs => FlowingProduce(s);
    case LeaveStop => StoppingProduce(s);
    case ReleaseStop => StoppingProduce(s);
    case WaitStopped => StoppingProduce(s);
    case Join => ExitingProduce(s);
    case _ =>
  }

  /** Only the consumer's own stay in the section matters to the ring. */
  lemma SectionKeeps(s: State, h: Holder)
    requires Inv(s) && s.cs != Consumer && h != Consumer
    ensures Inv(s.(cs := h))
  {
    hide Mod32;
  }

  // ----- what every run keeps -----

  /** Events that are not possible are passed over. */
  function Run(s: State, events: seq<Event>): State
    decreases |events|
  {
    if events == [] then s else Run(if Can(s, events[0]) then Apply(s, events[0]) else s, events[1..])
  }

  lemma {:induction false} RunKeeps(s: State, events: seq<Event>)
    requires Inv(s)
    ensures Inv(Run(s, events)) && Run(s, events).numBlocks == s.numBlocks
    decreases |events|
  {
    hide Inv, ConsumerCan, ProducerCan, Consume, Produce;
    if events != [] {
      var e := events[0];
      if Can(s, e) {
        match e {
          case ConsumerMoves(a) => ConsumeKeeps(s, a);
          case ProducerMoves => ProduceKeeps(s);
          case MoverEnters => SectionKeeps(s, Mover);
          case MoverLeaves => SectionKeeps(s, Nobody);
        }
        RunKeeps(Apply(s, e), events[1..]);
      } else {
        RunKeeps(s, events[1..]);
      }
    }
  }

  /** s is the state after some run. */
  ghost predicate Reached(numBlocks: nat, events: seq<Event>, s: State) {
    0 < numBlocks < TWO32 && Run(Create(numBlocks), events) == s
  }

  lemma ReachedInv(numBlocks: nat, events: seq<Event>, s: State)
    requires Reached(numBlocks, events, s)
    ensures Inv(s) && s.numBlocks == numBlocks
  {
    assert Inv(Create(numBlocks)) by { hide Run; }
    hide Inv, Run;
    RunKeeps(Create(numBlocks), events);
  }

  /** The ring block that the consumer reads, and the one that the producer fills. */
  function ReadBlock(s: State): nat
    requires s.numBlocks > 0
  {
    (if s.numProcessed == 0 then TWO32 - 1 else s.numProcessed - 1) % s.numBlocks
  }

  function FillBlock(s: State): nat
    requires s.numBlocks > 0
  {
    s.local % s.numBlocks
  }

  /** The low bits of a count do not depend on the wrap-around. */
  lemma MaskMod(k: nat, n: nat)
    requires n > 0 && TWO32 % n == 0
    ensures Mod32(k) % n == k % n
  {
    var q, m := k / TWO32, TWO32 / n;
    assert k == TWO32 * q + Mod32(k) && TWO32 == n * m;
    assert k == Mod32(k) + n * (m * q) by { assert TWO32 * q == n * (m * q); }
    ModAddMultiple(Mod32(k), n, m * q);
  }

  lemma RingDiffers(a: nat, b: nat, n: nat)
    requires n > 0 && a < b < a + n
    ensures a % n != b % n
  {
    var p, q := a / n, b / n;
    assert b - a == n * (q - p) + (b % n - a % n) by { assert n * q - n * p == n * (q - p); }
    if q > p { MulMonotone(n, 1, q - p); } else { MulMonotone(n, q - p, 0); }
  }

  lemma ReadIndex(s: State)
    requires Flowing(s) && (s.c == Using || s.c == Paused) && 0 < s.numBlocks && TWO32 % s.numBlocks == 0
    ensures ReadBlock(s) == (s.taken - 1) % s.numBlocks
  {
    var k := s.taken - 1;
    IncMod(k);
    MaskMod(k, s.numBlocks);
    assert Mod32(k) < TWO32;
    hide Mod32;
  }

  /** While the consumer keeps a block the producer fills another one. */
  lemma BlocksApart(s: State)
    requires Inv(s) && TWO32 % s.numBlocks == 0 && (s.c == Using || s.c == Paused) && s.p == Fill
    ensures FillBlock(s) != ReadBlock(s)
  {
    ReadIndex(s);
    MaskMod(s.made, s.numBlocks);
    RingDiffers(s.taken - 1, s.made, s.numBlocks);
  }

  /** While the consumer keeps a block, inside the critical section or outside, the producer fills another one;
      nobody else is in the section while the consumer uses the data. The ring size is a power of two, so that the
      masked counts pick the blocks. */
  lemma NeverOverwrites(numBlocks: nat, events: seq<Event>, s: State)
    requires Reached(numBlocks, events, s) && TWO32 % numBlocks == 0 && (s.c == Using || s.c == Paused)
    ensures s.numBlocks > 0
    ensures s.p == Fill ==> FillBlock(s) != ReadBlock(s)
    ensures s.c == Using ==> s.cs == Consumer
  {
    hide Run;
    ReachedInv(numBlocks, events, s);
    hide Reached;
    if s.p == Fill { BlocksApart(s); }
  }

  /** Whenever writing is stopped, from inside the section or from outside, both semaphores are back at their initial
      counts, the consumer is not in the section and no event is left set, so a round starts as the first one did. */
  lemma StoppedClean(numBlocks: nat, events: seq<Event>, s: State)
    requires Reached(numBlocks, events, s) && (s.c == Idle || s.c == Gone)
    ensures s.free == numBlocks && s.filled == 0 && s.cs != Consumer
    ensures s.c == Idle ==> s.p == WaitStart && !s.canStart && !s.wasStarted && !s.wasStopped
    ensures s.c == Gone ==> s.p == Ended
  {
    hide Run;
    ReachedInv(numBlocks, events, s);
  }

  /** Neither semaphore ever exceeds the ring. */
  lemma SemaphoresBounded(numBlocks: nat, events: seq<Event>, s: State)
    requires Reached(numBlocks, events, s)
    ensures s.free <= numBlocks && s.filled <= numBlocks && s.free + s.filled <= numBlocks
  {
    hide Run;
    ReachedInv(numBlocks, events, s);
  }

  /** The consumer's program goes on with a: it neither asks for more than its place offers nor has ended. */
  predicate Asks(c: CPc, a: Ask) {
    match c
    case Using => a == GetBlock || a == Leave || a == StopWriting
    case Paused => a == Enter || a == StopWriting
    case Gone => false
    case _ => true
  }

  /** A consumer that cannot go on waits for the producer, which can, or for the mover to leave the section. */
  lemma Progress(s: State, a: Ask)
    requires Inv(s) && Asks(s.c, a) && !ConsumerCan(s, a)
    ensures ProducerCan(s) || (s.cs == Mover && (s.c == EnterCs || s.c == Paused))
  {
    hide Mod32;
  }

  /** The same for every run. */
  lemma NoDeadlock(numBlocks: nat, events: seq<Event>, s: State, a: Ask)
    requires Reached(numBlocks, events, s) && Asks(s.c, a)
    ensures ProducerCan(s) || ConsumerCan(s, a) || (s.cs == Mover && (s.c == EnterCs || s.c == Paused))
  {
    hide Run;
    ReachedInv(numBlocks, events, s);
    hide Inv, Reached, ProducerCan, ConsumerCan;
    if !ConsumerCan(s, a) { Progress(s, a); }
  }
}
