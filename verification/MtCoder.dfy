/** The parallel block coder, compression/LZMA/MtCoder.c, as a step relation:
    one step is one access to what the threads share. */
module MtCoder {
  import opened Bytes

  const SZ_OK: int := 0
  const SZ_ERROR_PROGRESS: int := 10
  const THREADS_MAX: nat := 64
  const BLOCKS_MAX: nat := 76

  function BlocksFromThreads(n: nat): nat { n + n / 8 + 1 }

  /** What the caller of MtCoder_Code sets. */
  datatype Config = Config(numThreadsMax: nat, blockSize: nat, stream: bool, input: seq<byte>, expectedDataSize: nat) {
    function NumThreads(): nat { if numThreadsMax > THREADS_MAX then THREADS_MAX else numThreadsMax }

    /** numBlocksMax. */
    function NumBlocks(): (n: nat)
      ensures 1 <= n <= BLOCKS_MAX
    {
      var n := BlocksFromThreads(NumThreads())
               + (if blockSize < 0x400_0000 then 1 else 0)
               + (if blockSize < 0x100_0000 then 1 else 0)
               + (if blockSize < 0x40_0000 then 1 else 0);
      if n > BLOCKS_MAX then BLOCKS_MAX else n
    }
  }

  /** Where a thread is in ThreadFunc and ThreadFunc2. */
  datatype Pc =
    | Idle         // not started
    | ReadWait     // Event_Wait(readEvent)
    | Read         // holds the read turn
    | ReadFailed   // MtProgress_SetError after a reading error
    | SemWait      // Semaphore_Wait(blocksSemaphore)
    | CheckError   // MtProgress_GetError
    | StartThread  // MtCoderThread_CreateAndStart
    | StartFailed  // MtProgress_SetError after that failed
    | CountThread  // numStartedThreads++
    | EndRead      // stopReading, Event_Set(readEvent)
    | PopFree      // take a buffer from the free list
    | Coding       // inside Code
    | CodeFailed   // MtProgress_SetError after that failed
    | Store        // fill blocks[bi]
    | Offer        // first critical section: write now, or leave it ready
    | Inherit      // res = writeRes
    | Write        // head of the write loop
    | Writing      // inside Write
    | WriteFailed  // MtProgress_SetError after that failed
    | Release      // second critical section
    | SemRelease   // Semaphore_Release1(blocksSemaphore)
    | Load         // take over the ready block blocks[wi]
    | Finish       // InterlockedIncrement(numFinishedThreads)
    | Compare      // finishedEvent, if this was the last
    | Ended

  /** A thread's local variables. k is history: the number of the block it works on. */
  datatype Thread = Thread(pc: Pc, res: int, finished: bool, src: seq<byte>, bi: nat, wi: nat,
                           buf: int, more: bool, rank: nat, k: nat)

  const IDLE := Thread(Idle, SZ_OK, false, [], 0, 0, -1, false, 0, 0)

  /** CMtCoderBlock. */
  datatype Block = Block(res: int, buf: int, finished: bool)

  /** What Code leaves in an output buffer: some bytes, for a source block. */
  datatype Coded = Coded(src: seq<byte>, finished: bool, bytes: seq<byte>)

  datatype Reading = Reading(event: bool, stop: bool, res: int, pos: nat, blockIndex: nat)

  datatype Ring = Ring(sem: nat, writeIndex: int, writeRes: int, ready: seq<bool>, blocks: seq<Block>)

  datatype Pool = Pool(head: int, next: seq<int>, bufs: seq<Coded>)

  datatype Main = Starting | Waiting | Done(res: int)

  datatype Ending = Ending(numStarted: nat, numFinished: nat, sets: nat, main: Main)

  datatype Owner = By(t: nat) | Parked

  datatype Turn = Nobody | Of(t: nat)

  /** A block as it was read. */
  datatype Piece = Piece(src: seq<byte>, finished: bool)

  /** One call of Write that succeeded: the block's number and what was in the buffer. */
  datatype Written = Written(k: nat, data: Coded)

  /** What the program does not store: who has the turns, which blocks are
      outstanding and whose they are, what was read and written. */
  datatype History = History(reader: Turn, writer: Turn, log: seq<Piece>, wseq: nat, owner: map<nat, Owner>,
                             releasing: set<nat>, free: seq<int>, held: map<nat, int>, fin: set<nat>, out: seq<Written>)

  datatype State = State(cfg: Config, th: seq<Thread>, progress: int, rd: Reading, ring: Ring, pool: Pool,
                         end: Ending, h: History)

  /** What the outside decides: the outcome of a callback and the bytes involved. */
  datatype Choice = Choice(err: int, size: nat, bytes: seq<byte>, tick: bool)

  // ----- initial state: MtCoder_Code up to Event_Set(readEvent) -----

  function Chain(i: nat): int { if i + 1 == BLOCKS_MAX then -1 else i + 1 }

  function Init(cfg: Config): State {
    State(cfg,
          seq(THREADS_MAX, i => if i == 0 then IDLE.(pc := ReadWait) else IDLE),
          SZ_OK,
          Reading(false, false, SZ_OK, 0, 0),
          Ring(cfg.NumBlocks(), 0, SZ_OK, seq(BLOCKS_MAX, _ => false), seq(BLOCKS_MAX, _ => Block(SZ_OK, -1, false))),
          Pool(0, seq(BLOCKS_MAX, i requires 0 <= i => Chain(i)), seq(BLOCKS_MAX, _ => Coded([], false, []))),
          Ending(1, 0, 0, Starting),
          History(Nobody, Nobody, [], 0, map[], {}, seq(BLOCKS_MAX, i => i), map[], {}, []))
  }

  // ----- steps -----

  function SetError(progress: int, res: int): int { if progress == SZ_OK then res else progress }

  function NextIndex(i: nat, n: nat): nat { if i + 1 >= n then 0 else i + 1 }

  function Put(s: State, t: nat, x: Thread): State
    requires t < |s.th|
  {
    s.(th := s.th[t := x])
  }

  function Goto(s: State, t: nat, pc: Pc): State
    requires t < |s.th|
  {
    Put(s, t, s.th[t].(pc := pc))
  }

  function DoReadWait(s: State, t: nat): State
    requires t < |s.th|
  {
    Goto(s, t, Read).(rd := s.rd.(event := false), h := s.h.(reader := Of(t)))
  }

  /** The size of the next block. */
  function Size(s: State): nat
    requires s.rd.pos <= |s.cfg.input|
  {
    var rem := |s.cfg.input| - s.rd.pos;
    if s.cfg.blockSize < rem then s.cfg.blockSize else rem
  }

  function DoRead(s: State, t: nat, c: Choice): State
    requires t < |s.th| && s.rd.pos <= |s.cfg.input|
  {
    var x, pos := s.th[t], s.rd.pos;
    if s.rd.stop then
      Goto(s, t, Finish).(rd := s.rd.(event := true), h := s.h.(reader := Nobody))
    else if s.progress != SZ_OK then
      Put(s, t, x.(pc := SemWait, res := s.progress, finished := true, src := []))
    else if s.cfg.stream && c.err != SZ_OK then
      var n := if c.size < Size(s) then c.size else Size(s);
      Put(s, t, x.(pc := ReadFailed, res := c.err, finished := true, src := s.cfg.input[pos..pos + n]))
        .(rd := s.rd.(pos := pos + n, res := c.err))
    else
      var n := Size(s);
      var finished := if s.cfg.stream then n != s.cfg.blockSize else pos + n == |s.cfg.input|;
      Put(s, t, x.(pc := SemWait, res := SZ_OK, finished := finished, src := s.cfg.input[pos..pos + n]))
        .(rd := s.rd.(pos := pos + n))
  }

  function DoSetError(s: State, t: nat, pc: Pc): State
    requires t < |s.th|
  {
    Goto(s, t, pc).(progress := SetError(s.progress, s.th[t].res))
  }

  function DoSemWait(s: State, t: nat): State
    requires t < |s.th| && s.ring.sem > 0
  {
    var k := |s.h.log|;
    Put(s, t, s.th[t].(pc := CheckError, bi := s.rd.blockIndex, buf := -1, k := k))
      .(rd := s.rd.(blockIndex := NextIndex(s.rd.blockIndex, s.cfg.NumBlocks())),
        ring := s.ring.(sem := s.ring.sem - 1),
        h := s.h.(log := s.h.log + [Piece(s.th[t].src, s.th[t].finished)], owner := s.h.owner[k := By(t)]))
  }

  function DoCheckError(s: State, t: nat): State
    requires t < |s.th|
  {
    var x := s.th[t];
    var res := if x.res == SZ_OK then s.progress else x.res;
    var finished := x.finished || res != SZ_OK;
    var start := !finished && s.end.numStarted < s.cfg.NumThreads() && s.cfg.expectedDataSize != s.rd.pos;
    Put(s, t, x.(pc := if start then StartThread else EndRead, res := res, finished := finished))
  }

  function DoStartThread(s: State, t: nat, c: Choice): State
    requires t < |s.th| && s.end.numStarted < |s.th|
  {
    if c.err != SZ_OK then Put(s, t, s.th[t].(pc := StartFailed, res := c.err, finished := true))
    else Goto(Goto(s, s.end.numStarted, ReadWait), t, CountThread)
  }

  function DoCountThread(s: State, t: nat): State
    requires t < |s.th|
  {
    Goto(s, t, EndRead).(end := s.end.(numStarted := s.end.numStarted + 1))
  }

  function DoEndRead(s: State, t: nat): State
    requires t < |s.th|
  {
    var x := s.th[t];
    Goto(s, t, if x.res == SZ_OK then PopFree else Store)
      .(rd := s.rd.(event := true, stop := s.rd.stop || x.finished), h := s.h.(reader := Nobody))
  }

  function DoPopFree(s: State, t: nat): State
    requires t < |s.th| && 0 <= s.pool.head < |s.pool.next| && s.h.free != []
  {
    var b := s.pool.head;
    Put(s, t, s.th[t].(pc := Coding, buf := b))
      .(pool := s.pool.(head := s.pool.next[b]),
        h := s.h.(free := s.h.free[1..], held := s.h.held[s.th[t].k := b]))
  }

  function DoCoding(s: State, t: nat, c: Choice): State
    requires t < |s.th| && 0 <= s.th[t].buf < |s.pool.bufs|
  {
    var x := s.th[t];
    if c.tick then s.(progress := SetError(s.progress, SZ_ERROR_PROGRESS))
    else
      Put(s, t, x.(pc := if c.err == SZ_OK then Store else CodeFailed, res := c.err))
        .(pool := s.pool.(bufs := s.pool.bufs[x.buf := Coded(x.src, x.finished, c.bytes)]))
  }

  function DoStore(s: State, t: nat): State
    requires t < |s.th| && s.th[t].bi < |s.ring.blocks|
  {
    var x := s.th[t];
    Goto(s, t, Offer).(ring := s.ring.(blocks := s.ring.blocks[x.bi := Block(x.res, x.buf, x.finished)]))
  }

  function Leave(x: Thread): Pc { if x.res != SZ_OK || x.finished then Finish else ReadWait }

  function DoOffer(s: State, t: nat): State
    requires t < |s.th| && s.th[t].bi < |s.ring.ready|
  {
    var x := s.th[t];
    if s.ring.writeIndex == x.bi then
      Put(s, t, x.(pc := Inherit, wi := x.bi)).(ring := s.ring.(writeIndex := -1), h := s.h.(writer := Of(t)))
    else
      Goto(s, t, Leave(x)).(ring := s.ring.(ready := s.ring.ready[x.bi := true]),
                            h := s.h.(owner := s.h.owner[x.k := Parked]))
  }

  function DoInherit(s: State, t: nat): State
    requires t < |s.th|
  {
    var x := s.th[t];
    Put(s, t, x.(pc := Write, res := if s.ring.writeRes != SZ_OK then s.ring.writeRes else x.res))
  }

  function DoWrite(s: State, t: nat): State
    requires t < |s.th|
  {
    var x := s.th[t];
    Goto(s, t, if x.res == SZ_OK && x.buf != -1 then Writing else Release)
  }

  function DoWriting(s: State, t: nat, c: Choice): State
    requires t < |s.th| && 0 <= s.th[t].buf < |s.pool.bufs|
  {
    var x := s.th[t];
    if c.err == SZ_OK then
      Goto(s, t, Release).(h := s.h.(out := s.h.out + [Written(x.k, s.pool.bufs[x.buf])]))
    else
      Put(s, t, x.(pc := WriteFailed, res := c.err)).(ring := s.ring.(writeRes := c.err))
  }

  /** The buffer goes back on the free list. */
  function Push(p: Pool, b: int): Pool
    requires -1 <= b < |p.next|
  {
    if b == -1 then p else p.(next := p.next[b := p.head], head := b)
  }

  function DoRelease(s: State, t: nat): State
    requires t < |s.th| && -1 <= s.th[t].buf < |s.pool.next|
    requires NextIndex(s.th[t].wi, s.cfg.NumBlocks()) < |s.ring.ready|
  {
    var x, h := s.th[t], s.h;
    var wi := NextIndex(x.wi, s.cfg.NumBlocks());
    var more := s.ring.ready[wi];
    Put(s, t, x.(pc := SemRelease, wi := wi, more := more, k := x.k + 1))
      .(pool := Push(s.pool, x.buf),
        ring := if more then s.ring.(ready := s.ring.ready[wi := false]) else s.ring.(writeIndex := wi),
        h := h.(writer := if more then h.writer else Nobody, wseq := h.wseq + 1,
                owner := if more then (h.owner - {x.k})[x.k + 1 := By(t)] else h.owner - {x.k},
                releasing := h.releasing + {t},
                free := if x.buf == -1 then h.free else [x.buf] + h.free,
                held := h.held - {x.k}))
  }

  function DoSemRelease(s: State, t: nat): State
    requires t < |s.th|
  {
    var x := s.th[t];
    Goto(s, t, if x.more then Load else Leave(x))
      .(ring := s.ring.(sem := s.ring.sem + 1), h := s.h.(releasing := s.h.releasing - {t}))
  }

  function DoLoad(s: State, t: nat): State
    requires t < |s.th| && s.th[t].wi < |s.ring.blocks|
  {
    var x, b := s.th[t], s.ring.blocks[s.th[t].wi];
    Put(s, t, x.(pc := Write, res := if x.res == SZ_OK then b.res else x.res, buf := b.buf, finished := b.finished))
  }

  function DoFinish(s: State, t: nat): State
    requires t < |s.th|
  {
    var n := s.end.numFinished + 1;
    Put(s, t, s.th[t].(pc := Compare, rank := n)).(end := s.end.(numFinished := n), h := s.h.(fin := s.h.fin + {t}))
  }

  function DoCompare(s: State, t: nat): State
    requires t < |s.th|
  {
    Goto(s, t, Ended).(end := if s.th[t].rank == s.end.numStarted then s.end.(sets := s.end.sets + 1) else s.end)
  }

  /** A thread is not waiting for anything. */
  predicate CanStep(s: State, t: nat) {
    t < |s.th| &&
    match s.th[t].pc
    case Idle => false
    case Ended => false
    case ReadWait => s.rd.event
    case SemWait => s.ring.sem > 0
    case _ => true
  }

  /** No array of the program is left and the free list is not empty when popped. */
  predicate Safe(s: State, t: nat)
    requires t < |s.th|
  {
    var x := s.th[t];
    match x.pc
    case Read => s.rd.pos <= |s.cfg.input|
    case StartThread => s.end.numStarted < |s.th|
    case PopFree => 0 <= s.pool.head < |s.pool.next| && s.h.free != []
    case Coding => 0 <= x.buf < |s.pool.bufs|
    case Store => x.bi < |s.ring.blocks|
    case Offer => x.bi < |s.ring.ready|
    case Writing => 0 <= x.buf < |s.pool.bufs|
    case Release => -1 <= x.buf < |s.pool.next| && NextIndex(x.wi, s.cfg.NumBlocks()) < |s.ring.ready|
    case Load => x.wi < |s.ring.blocks|
    case _ => true
  }

  function Step(s: State, t: nat, c: Choice): State
    requires CanStep(s, t) && Safe(s, t)
  {
    match s.th[t].pc
    case ReadWait => DoReadWait(s, t)
    case Read => DoRead(s, t, c)
    case ReadFailed => DoSetError(s, t, SemWait)
    case SemWait => DoSemWait(s, t)
    case CheckError => DoCheckError(s, t)
    case StartThread => DoStartThread(s, t, c)
    case StartFailed => DoSetError(s, t, EndRead)
    case CountThread => DoCountThread(s, t)
    case EndRead => DoEndRead(s, t)
    case PopFree => DoPopFree(s, t)
    case Coding => DoCoding(s, t, c)
    case CodeFailed => DoSetError(s, t, Store)
    case Store => DoStore(s, t)
    case Offer => DoOffer(s, t)
    case Inherit => DoInherit(s, t)
    case Write => DoWrite(s, t)
    case Writing => DoWriting(s, t, c)
    case WriteFailed => DoSetError(s, t, Release)
    case Release => DoRelease(s, t)
    case SemRelease => DoSemRelease(s, t)
    case Load => DoLoad(s, t)
    case Finish => DoFinish(s, t)
    case Compare => DoCompare(s, t)
  }

  predicate MainCanStep(s: State) {
    s.end.main == Starting || (s.end.main == Waiting && s.end.sets > 0)
  }

  /** MtCoder_Code: set readEvent; later collect the result. */
  function MainStep(s: State): State
    requires MainCanStep(s)
  {
    if s.end.main == Starting then
      s.(rd := s.rd.(event := true), end := s.end.(main := Waiting))
    else
      var res := if s.rd.res != SZ_OK then s.rd.res
                 else if s.progress != SZ_OK then s.progress else s.ring.writeRes;
      s.(end := s.end.(main := Done(res)))
  }
}
