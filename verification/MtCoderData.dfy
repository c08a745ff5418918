/** What was read, cut into blocks, and what was written. */
module MtCoderData {
  import opened Bytes
  import opened MtCoder
  import opened MtCoderRing
  import opened MtCoderBlocks
  import opened MtCoderTurn

  // ----- the input, block by block -----

  function Flat(log: seq<Piece>): seq<byte> {
    if log == [] then [] else Flat(log[..|log| - 1]) + log[|log| - 1].src
  }

  lemma FlatAppend(log: seq<Piece>, p: Piece)
    ensures Flat(log + [p]) == Flat(log) + p.src
  {
    assert (log + [p])[..|log|] == log;
  }

  /** The thread with the read turn. */
  function Reader(s: State): Thread {
    if s.h.reader.Of? && s.h.reader.t < |s.th| then s.th[s.h.reader.t] else IDLE
  }

  predicate JustRead(pc: Pc) { pc == ReadFailed || pc == SemWait }

  predicate HasSlot(pc: Pc) { InRead(pc) && pc != Read && !JustRead(pc) }

  function PendingSrc(x: Thread): seq<byte> { if JustRead(x.pc) then x.src else [] }

  predicate Closed(log: seq<Piece>) { log != [] && log[|log| - 1].finished }

  /** The blocks make up the input read so far; only the last may be short, and reading stops after it. */
  ghost predicate InputOk(cfg: Config, pos: nat, stop: bool, progress: int, log: seq<Piece>, x: Thread) {
    && pos <= |cfg.input| && Flat(log) + PendingSrc(x) == cfg.input[..pos]
    && (forall i: nat | i < |log| :: log[i].finished || |log[i].src| == cfg.blockSize)
    && (forall i: nat | i + 1 < |log| :: !log[i].finished)
    && (JustRead(x.pc) || HasSlot(x.pc) ==> !stop && (x.finished ==> pos == |cfg.input| || x.res != SZ_OK))
    && (JustRead(x.pc) ==> !Closed(log) && (x.finished || |x.src| == cfg.blockSize))
    && (HasSlot(x.pc) ==> log != [] && x.k == |log| - 1 && (Closed(log) ==> x.finished))
    && (!JustRead(x.pc) && !HasSlot(x.pc) ==> (Closed(log) ==> stop))
    && (stop ==> log != [] && (progress != SZ_OK || (Closed(log) && pos == |cfg.input|)))
  }

  ghost predicate InputInv(s: State) {
    InputOk(s.cfg, s.rd.pos, s.rd.stop, s.progress, s.h.log, Reader(s))
  }

  /** Steps of other threads. */
  lemma InputKeeps(s: State, s': State)
    requires InputInv(s) && s'.cfg == s.cfg && s'.rd.pos == s.rd.pos && s'.rd.stop == s.rd.stop
    requires s'.h.log == s.h.log && (s'.progress == SZ_OK ==> s.progress == SZ_OK) && Reader(s') == Reader(s)
    ensures InputInv(s')
  {
    hide Flat, Reader;
  }

  lemma SameReader(s: State, s': State, t: nat)
    requires ReadTurn(s) && t < |s.th| && Others(s, s', t) && !InRead(s.th[t].pc) && s'.h.reader == s.h.reader
    ensures Reader(s') == Reader(s)
  {}

  lemma ReaderIs(s: State, t: nat)
    requires ReadTurn(s) && t < |s.th| && InRead(s.th[t].pc)
    ensures s.h.reader == Of(t) && Reader(s) == s.th[t]
  {}

  lemma ReadWaitInput(s: State, t: nat)
    requires InputInv(s) && t < |s.th| && s.h.reader == Nobody
    ensures InputInv(DoReadWait(s, t))
  {
    hide Flat;
  }

  lemma ReadsPiece(cfg: Config, pos: nat, n: nat, progress: int, log: seq<Piece>, x: Thread, y: Thread)
    requires InputOk(cfg, pos, false, progress, log, x) && x.pc == Read && pos + n <= |cfg.input|
    requires JustRead(y.pc) && y.src == cfg.input[pos..pos + n]
    requires (y.finished ==> pos + n == |cfg.input| || y.res != SZ_OK) && (y.finished || n == cfg.blockSize)
    ensures InputOk(cfg, pos + n, false, progress, log, y)
  {
    hide Flat;
    assert cfg.input[..pos + n] == cfg.input[..pos] + cfg.input[pos..pos + n];
  }

  lemma ReadInput(s: State, t: nat, c: Choice)
    requires InputInv(s) && t < |s.th| && Reader(s) == s.th[t] && s.h.reader == Of(t) && s.th[t].pc == Read
             && s.rd.pos <= |s.cfg.input|
    ensures InputInv(DoRead(s, t, c))
  {
    hide Flat, InputOk;
    var s' := DoRead(s, t, c);
    if s.rd.stop {
      StopsReading(s.cfg, s.rd.pos, s.progress, s.h.log, s.th[t]);
    } else {
      ReadsPiece(s.cfg, s.rd.pos, s'.rd.pos - s.rd.pos, s.progress, s.h.log, s.th[t], s'.th[t]);
    }
  }

  lemma StopsReading(cfg: Config, pos: nat, progress: int, log: seq<Piece>, x: Thread)
    requires InputOk(cfg, pos, true, progress, log, x) && x.pc == Read
    ensures InputOk(cfg, pos, true, progress, log, IDLE)
  {
    hide Flat;
  }

  lemma ErrorInput(s: State, t: nat, pc: Pc)
    requires InputInv(s) && t < |s.th| && Reader(s) == s.th[t] && s.h.reader == Of(t)
    requires (s.th[t].pc == ReadFailed && pc == SemWait) || (s.th[t].pc == StartFailed && pc == EndRead)
    ensures InputInv(DoSetError(s, t, pc))
  {
    hide Flat;
  }

  lemma TakesPiece(cfg: Config, pos: nat, progress: int, log: seq<Piece>, x: Thread, y: Thread)
    requires InputOk(cfg, pos, false, progress, log, x) && JustRead(x.pc)
    requires HasSlot(y.pc) && y.k == |log| && y.finished == x.finished && y.res == x.res
    ensures InputOk(cfg, pos, false, progress, log + [Piece(x.src, x.finished)], y)
  {
    FlatAppend(log, Piece(x.src, x.finished));
    hide Flat;
  }

  lemma SemWaitInput(s: State, t: nat)
    requires InputInv(s) && t < |s.th| && Reader(s) == s.th[t] && s.h.reader == Of(t) && s.th[t].pc == SemWait
             && s.ring.sem > 0
    ensures InputInv(DoSemWait(s, t))
  {
    assert !s.rd.stop by { hide Flat; }
    hide Flat, InputOk;
    TakesPiece(s.cfg, s.rd.pos, s.progress, s.h.log, s.th[t], DoSemWait(s, t).th[t]);
  }

  lemma CheckErrorInput(s: State, t: nat)
    requires InputInv(s) && t < |s.th| && Reader(s) == s.th[t] && s.h.reader == Of(t) && s.th[t].pc == CheckError
    ensures InputInv(DoCheckError(s, t))
  {
    hide Flat, Config.NumThreads;
  }

  lemma StartThreadInput(s: State, t: nat, c: Choice)
    requires InputInv(s) && t < |s.th| && Reader(s) == s.th[t] && s.h.reader == Of(t) && s.th[t].pc == StartThread
    requires s.end.numStarted < |s.th| && s.end.numStarted != t
    ensures InputInv(DoStartThread(s, t, c))
  {
    hide Flat;
  }

  lemma CountThreadInput(s: State, t: nat)
    requires InputInv(s) && t < |s.th| && Reader(s) == s.th[t] && s.h.reader == Of(t) && s.th[t].pc == CountThread
    ensures InputInv(DoCountThread(s, t))
  {
    hide Flat;
  }

  lemma EndReadInput(s: State, t: nat)
    requires InputInv(s) && t < |s.th| && Reader(s) == s.th[t] && s.h.reader == Of(t) && s.th[t].pc == EndRead
    requires ThreadOk(s, s.th[t])
    ensures InputInv(DoEndRead(s, t))
  {
    hide Flat;
  }

  // ----- the output -----

  predicate AtRelease(s: State) {
    s.h.writer.Of? && s.h.writer.t < |s.th| && s.th[s.h.writer.t].pc == Release
  }

  /** Blocks before this one may have been written. */
  function Limit(s: State): nat { s.h.wseq + if AtRelease(s) then 1 else 0 }

  ghost predicate Good(w: Written, log: seq<Piece>) {
    w.k < |log| && w.data.src == log[w.k].src && w.data.finished == log[w.k].finished
  }

  /** Blocks are written in increasing order, each with what was coded from it; without errors, all of them. */
  ghost predicate OutOk(out: seq<Written>, log: seq<Piece>, limit: nat, progress: int) {
    && (forall i: nat | i < |out| :: Good(out[i], log) && out[i].k < limit)
    && (forall i: nat, j: nat | i < j < |out| :: out[i].k < out[j].k)
    && (progress == SZ_OK ==> |out| == limit && forall i: nat | i < |out| :: out[i].k == i)
  }

  ghost predicate OutInv(s: State) {
    OutOk(s.h.out, s.h.log, Limit(s), s.progress)
  }

  lemma OutKeeps(s: State, s': State)
    requires OutInv(s) && s'.h.out == s.h.out && s.h.log <= s'.h.log && Limit(s) <= Limit(s')
    requires s'.progress == SZ_OK ==> s.progress == SZ_OK && Limit(s') == Limit(s)
    ensures OutInv(s')
  {
    hide Limit;
  }

  /** Steps that neither enter nor leave the release. */
  lemma SameLimit(s: State, s': State, t: nat)
    requires WriteTurn(s) && t < |s.th| && Others(s, s', t) && s'.h.wseq == s.h.wseq
    requires s.th[t].pc != Release && s'.th[t].pc != Release
             && (s'.h.writer == s.h.writer || (s.h.writer == Nobody && s'.h.writer == Of(t)))
    ensures Limit(s') == Limit(s)
  {
    hide Slot;
  }

  lemma WriterLimit(s: State, t: nat)
    requires WriteTurn(s) && t < |s.th| && IsWriter(s.th[t])
    ensures s.h.writer == Of(t) && s.th[t].k == s.h.wseq && Limit(s) == s.h.wseq + if s.th[t].pc == Release then 1
            else 0
  {
    hide Slot;
  }

  lemma WriteSkips(s: State, t: nat)
    requires OutInv(s) && WriteTurn(s) && t < |s.th| && s.th[t].pc == Write && ThreadOk(s, s.th[t])
    ensures OutInv(DoWrite(s, t))
  {
    hide OutInv, WriteTurn;
    var s' := DoWrite(s, t);
    WriterLimit(s, t);
    assert Limit(s') == s.h.wseq + if s'.th[t].pc == Release then 1 else 0;
    OutKeeps(s, s');
  }

  lemma WritingOut(s: State, t: nat, c: Choice)
    requires OutInv(s) && WriteTurn(s) && t < |s.th| && s.th[t].pc == Writing && ThreadOk(s, s.th[t])
             && 0 <= s.th[t].buf < |s.pool.bufs|
    ensures OutInv(DoWriting(s, t, c))
  {
    hide OutInv, WriteTurn;
    var s' := DoWriting(s, t, c);
    WriterLimit(s, t);
    if c.err == SZ_OK {
      assert Limit(s') == s.h.wseq + 1;
      WritesOne(s, s', Written(s.th[t].k, s.pool.bufs[s.th[t].buf]));
    } else {
      assert Limit(s') == s.h.wseq;
      OutKeeps(s, s');
    }
  }

  lemma WritesOne(s: State, s': State, w: Written)
    requires OutInv(s) && Limit(s) == w.k && Limit(s') == w.k + 1 && Good(w, s.h.log)
    requires s'.h.out == s.h.out + [w] && s'.h.log == s.h.log && s'.progress == s.progress
    ensures OutInv(s')
  {
    hide Limit;
  }

  lemma WriteFailedOut(s: State, t: nat)
    requires OutInv(s) && WriteTurn(s) && t < |s.th| && s.th[t].pc == WriteFailed && ThreadOk(s, s.th[t])
    ensures OutInv(DoSetError(s, t, Release))
  {
    hide OutInv, WriteTurn;
    var s' := DoSetError(s, t, Release);
    WriterLimit(s, t);
    assert Limit(s') == s.h.wseq + 1;
    OutKeeps(s, s');
  }

  lemma ReleaseOut(s: State, t: nat)
    requires OutInv(s) && WriteTurn(s) && t < |s.th| && s.th[t].pc == Release && -1 <= s.th[t].buf < |s.pool.next|
    requires NextIndex(s.th[t].wi, s.cfg.NumBlocks()) < |s.ring.ready|
    ensures OutInv(DoRelease(s, t))
  {
    hide OutInv, WriteTurn;
    var s' := DoRelease(s, t);
    WriterLimit(s, t);
    assert Limit(s') == s.h.wseq + 1;
    OutKeeps(s, s');
  }
}
