/** The read turn, the started threads, and the count of finished threads. */
module MtCoderTurn {
  import opened MtCoder

  /** From getting the read turn to passing it on. */
  predicate InRead(pc: Pc) {
    match pc
    case Read => true
    case ReadFailed => true
    case SemWait => true
    case CheckError => true
    case StartThread => true
    case StartFailed => true
    case CountThread => true
    case EndRead => true
    case _ => false
  }

  /** The holder of the read turn has started a thread and not counted it yet. */
  predicate Counting(s: State) {
    s.h.reader.Of? && s.h.reader.t < |s.th| && s.th[s.h.reader.t].pc == CountThread
  }

  /** Threads below this index have been started. */
  function Started(s: State): nat {
    s.end.numStarted + if Counting(s) then 1 else 0
  }

  ghost predicate ReadTurn(s: State) {
    && |s.th| == THREADS_MAX
    && (s.h.reader.Of? ==> s.h.reader.t < |s.th| && InRead(s.th[s.h.reader.t].pc))
    && (forall t: nat | t < |s.th| && InRead(s.th[t].pc) :: s.h.reader == Of(t))
    && (s.rd.event <==> s.end.main != Starting && s.h.reader == Nobody)
    && (s.end.main == Starting ==> forall t: nat | t < |s.th| :: s.th[t].pc == Idle || s.th[t].pc == ReadWait)
  }

  ghost predicate StartedThreads(s: State) {
    && 1 <= s.end.numStarted && Started(s) <= THREADS_MAX
    && (forall t: nat | t < |s.th| :: s.th[t].pc == Idle <==> Started(s) <= t)
    && (forall t: nat | t < |s.th| && s.th[t].pc == StartThread :: s.end.numStarted < s.cfg.NumThreads())
    && (Counting(s) ==> s.end.numStarted < |s.th| && s.th[s.end.numStarted].pc == ReadWait)
  }

  predicate IsFinished(pc: Pc) { pc == Compare || pc == Ended }

  /** The finished threads have different ranks from 1 up to their number. */
  ghost predicate RanksOk(th: seq<Thread>, fin: set<nat>, n: nat) {
    && (forall t: nat :: t in fin <==> t < |th| && IsFinished(th[t].pc))
    && n == |fin|
    && (forall t: nat | t in fin :: 1 <= th[t].rank <= n)
    && (forall t: nat, u: nat | t in fin && u in fin && t != u :: th[t].rank != th[u].rank)
    && (n > 0 ==> exists t: nat :: t in fin && th[t].rank == n)
  }

  ghost predicate Ranks(s: State) {
    RanksOk(s.th, s.h.fin, s.end.numFinished)
  }

  /** A thread that was the last one and has compared. */
  ghost predicate Signals(s: State, t: nat) {
    t < |s.th| && s.th[t].pc == Ended && s.th[t].rank == s.end.numStarted
  }

  ghost predicate EventOnce(s: State) {
    && s.end.sets <= 1
    && (s.end.sets == 0 ==> forall t: nat :: !Signals(s, t))
    && (s.end.sets == 1 ==> s.end.numFinished == s.end.numStarted && exists t: nat :: Signals(s, t))
    && (s.end.main.Done? ==> s.end.sets == 1)
  }

  ghost predicate TurnInv(s: State) {
    ReadTurn(s) && StartedThreads(s) && Ranks(s) && EventOnce(s)
  }

  function UpTo(n: nat): (r: set<nat>)
    ensures forall i: nat :: i in r <==> i < n
    ensures |r| == n
  {
    if n == 0 then {} else UpTo(n - 1) + {n - 1}
  }

  lemma SubsetSize(a: set<nat>, b: set<nat>)
    requires a <= b
    ensures |a| <= |b| && (|a| == |b| ==> a == b)
  {
    var d := b - a;
    assert b == a + d;
    assert |b| == |a| + |d|;
  }

  /** As long as a started thread has not finished, the counts differ. */
  lemma NotAllFinished(s: State, t: nat)
    requires TurnInv(s) && t < |s.th| && s.th[t].pc != Idle && !IsFinished(s.th[t].pc) && t < s.end.numStarted
    ensures s.end.numFinished < s.end.numStarted && s.end.sets == 0
  {
    var all := UpTo(s.end.numStarted) - {t};
    forall u | u in s.h.fin
      ensures u in all
    {
      FinishedBelow(s, u);
    }
    SubsetSize(s.h.fin, all);
    assert |all| == s.end.numStarted - 1;
  }

  /** A thread that was started but not counted is not finished: it waits for the read turn. */
  lemma FinishedBelow(s: State, u: nat)
    requires TurnInv(s) && u in s.h.fin
    ensures u < s.end.numStarted
  {
    assert u < |s.th| && s.th[u].pc != Idle;
  }

  /** Every started thread has finished once the event is set. */
  lemma EventMeansAll(s: State, t: nat)
    requires TurnInv(s) && s.end.sets == 1 && t < |s.th| && s.th[t].pc != Idle
    ensures IsFinished(s.th[t].pc)
  {
    if t < s.end.numStarted {
      if !IsFinished(s.th[t].pc) { NotAllFinished(s, t); }
    } else {
      // the reader that has not counted t yet is not finished
      ReaderStarted(s);
      NotAllFinished(s, s.h.reader.t);
    }
  }

  lemma ReaderStarted(s: State)
    requires TurnInv(s) && Counting(s)
    ensures s.h.reader.t < s.end.numStarted
  {
  }

  // ----- the steps -----

  /** Thread t moves inside or outside the read section; nothing else of this invariant changes. */
  ghost predicate TurnLocal(s: State, s': State, t: nat) {
    && t < |s.th| == |s'.th| && (forall u: nat | u < |s.th| && u != t :: s'.th[u] == s.th[u])
    && s'.cfg == s.cfg && s'.end == s.end && s'.h.reader == s.h.reader && s'.h.fin == s.h.fin
    && s'.rd.event == s.rd.event
    && (InRead(s.th[t].pc) <==> InRead(s'.th[t].pc))
    && s.th[t].pc !in {Idle, Compare, Ended, CountThread} && s'.th[t].pc !in {Idle, Compare, Ended, CountThread}
    && (s'.th[t].pc == StartThread ==> s.h.reader == Of(t) && s.end.numStarted < s.cfg.NumThreads())
    && (s.th[t].pc == ReadWait ==> s'.th[t].pc == ReadWait)
    && (s.end.main == Starting ==> s'.th[t].pc == ReadWait)
  }

  lemma TurnKeeps(s: State, s': State, t: nat)
    requires TurnInv(s) && TurnLocal(s, s', t)
    ensures TurnInv(s')
  {
    hide ReadTurn, StartedThreads, Ranks, EventOnce;
    SameTurn(s, s', t);
    SameThreads(s, s', t);
    FinCountKeeps(s, s', t);
  }

  /** What the finish count needs to see unchanged. */
  ghost predicate FinishLocal(s: State, s': State, t: nat) {
    && t < |s.th| == |s'.th|
    && (forall u: nat | u < |s.th| && u != t ::
          s'.th[u].rank == s.th[u].rank && (IsFinished(s.th[u].pc) || IsFinished(s'.th[u].pc) ==>
          s'.th[u].pc == s.th[u].pc))
    && s'.end == s.end && s'.h.fin == s.h.fin && !IsFinished(s.th[t].pc) && !IsFinished(s'.th[t].pc)
  }

  lemma FinCountKeeps(s: State, s': State, t: nat)
    requires Ranks(s) && EventOnce(s) && FinishLocal(s, s', t)
    ensures Ranks(s') && EventOnce(s')
  {
    hide RanksOk;
    RankKeeps(s.th, s'.th, s.h.fin, s.end.numFinished);
    if s.end.sets == 1 {
      var u: nat :| Signals(s, u);
      assert Signals(s', u);
    }
    if s.end.sets == 0 {
      forall u: nat
        ensures !Signals(s', u)
      {
        assert !Signals(s, u);
      }
    }
  }

  lemma NotStarting(s: State, t: nat)
    requires TurnInv(s) && t < |s.th| && s.th[t].pc != Idle && s.th[t].pc != ReadWait
    ensures s.end.main != Starting
  {
    hide StartedThreads, Ranks, EventOnce;
  }

  /** Only thread t moves, and it was started before. */
  ghost predicate Moves(s: State, s': State, t: nat) {
    && t < |s.th| == |s'.th| && s'.cfg == s.cfg
    && (forall u: nat | u < |s.th| && u != t :: s'.th[u].pc == s.th[u].pc)
    && s.th[t].pc != Idle && s'.th[t].pc != Idle
  }

  /** Thread t does not take or give the read turn. */
  lemma SameTurn(s: State, s': State, t: nat)
    requires ReadTurn(s) && Moves(s, s', t) && InRead(s.th[t].pc) == InRead(s'.th[t].pc)
    requires s'.h.reader == s.h.reader && s'.rd.event == s.rd.event
    requires (s'.end.main == Starting) == (s.end.main == Starting)
    requires s.end.main == Starting ==> s'.th[t].pc == ReadWait
    ensures ReadTurn(s')
  {}

  /** Thread t starts and counts no thread. */
  lemma SameStarted(s: State, s': State, t: nat)
    requires StartedThreads(s) && Moves(s, s', t) && !Counting(s) && !Counting(s')
             && s'.end.numStarted == s.end.numStarted
    requires s'.th[t].pc == StartThread ==> s.end.numStarted < s.cfg.NumThreads()
    ensures StartedThreads(s')
  {}

  /** While another thread counts the one it has just started. */
  lemma SameCounting(s: State, s': State, t: nat)
    requires StartedThreads(s) && Moves(s, s', t) && Counting(s) && Counting(s')
             && s'.end.numStarted == s.end.numStarted
    requires (s.th[t].pc == ReadWait ==> s'.th[t].pc == ReadWait) && s'.th[t].pc != StartThread
    ensures StartedThreads(s')
  {}

  lemma SameThreads(s: State, s': State, t: nat)
    requires TurnInv(s) && Moves(s, s', t) && s'.h.reader == s.h.reader && s'.end.numStarted == s.end.numStarted
    requires s.th[t].pc != CountThread && s'.th[t].pc != CountThread
             && (s.th[t].pc == ReadWait ==> s'.th[t].pc == ReadWait)
    requires s'.th[t].pc == StartThread ==> s.h.reader == Of(t) && s.end.numStarted < s.cfg.NumThreads()
    ensures StartedThreads(s')
  {
    hide ReadTurn, StartedThreads, Ranks, EventOnce;
    if Counting(s) { SameCounting(s, s', t); } else { SameStarted(s, s', t); }
  }

  lemma TakesTurn(s: State, t: nat)
    requires TurnInv(s) && t < |s.th| && s.th[t].pc == ReadWait && s.rd.event
    ensures TurnInv(DoReadWait(s, t))
  {
    hide ReadTurn, StartedThreads, Ranks, EventOnce;
    var s' := DoReadWait(s, t);
    EventNobody(s);
    GetsTurn(s, s', t);
    SameStarted(s, s', t);
    FinCountKeeps(s, s', t);
  }

  lemma EventNobody(s: State)
    requires ReadTurn(s) && s.rd.event
    ensures s.h.reader == Nobody && s.end.main != Starting
  {}

  lemma GetsTurn(s: State, s': State, t: nat)
    requires ReadTurn(s) && Moves(s, s', t) && s.h.reader == Nobody && s'.h.reader == Of(t) && !s'.rd.event
    requires s.end.main != Starting && s'.end.main == s.end.main && InRead(s'.th[t].pc)
    ensures ReadTurn(s')
  {}

  /** The read turn is passed on. */
  lemma PassesTurn(s: State, s': State, t: nat)
    requires TurnInv(s) && t < |s.th| == |s'.th| && InRead(s.th[t].pc) && s.th[t].pc != CountThread
    requires forall u: nat | u < |s.th| && u != t :: s'.th[u] == s.th[u]
    requires s'.cfg == s.cfg && s'.end == s.end && s'.h.fin == s.h.fin
    requires s'.h.reader == Nobody && s'.rd.event && s'.th[t].pc in {Finish, PopFree, Store}
    ensures TurnInv(s')
  {
    hide ReadTurn, StartedThreads, Ranks, EventOnce;
    NotStarting(s, t);
    NotCounting(s, t);
    GivesTurn(s, s', t);
    SameStarted(s, s', t);
    FinCountKeeps(s, s', t);
  }

  lemma GivesTurn(s: State, s': State, t: nat)
    requires ReadTurn(s) && Moves(s, s', t) && s.h.reader == Of(t) && s'.h.reader == Nobody && s'.rd.event
    requires s.end.main != Starting && s'.end.main == s.end.main && !InRead(s'.th[t].pc)
    ensures ReadTurn(s')
  {}

  lemma NotCounting(s: State, t: nat)
    requires TurnInv(s) && t < |s.th| && InRead(s.th[t].pc) && s.th[t].pc != CountThread
    ensures !Counting(s) && s.h.reader == Of(t)
  {
    hide StartedThreads, Ranks, EventOnce;
  }

  lemma StartsThread(s: State, t: nat, c: Choice)
    requires TurnInv(s) && t < |s.th| && s.th[t].pc == StartThread && s.end.numStarted < |s.th|
    ensures TurnInv(DoStartThread(s, t, c))
  {
    hide ReadTurn, StartedThreads, Ranks, EventOnce;
    NotStarting(s, t);
    NotCounting(s, t);
    if c.err == SZ_OK {
      AllThreads(s);
      StartsOne(s, t, c);
    } else {
      TurnKeeps(s, DoStartThread(s, t, c), t);
    }
  }

  lemma AllThreads(s: State)
    requires ReadTurn(s)
    ensures |s.th| == THREADS_MAX
  {}

  lemma StartsOne(s: State, t: nat, c: Choice)
    requires TurnInv(s) && t < |s.th| && s.th[t].pc == StartThread && s.end.numStarted < |s.th|
    requires s.end.main != Starting && !Counting(s) && s.h.reader == Of(t) && c.err == SZ_OK && |s.th| == THREADS_MAX
    ensures TurnInv(DoStartThread(s, t, c))
  {
    hide ReadTurn, StartedThreads, Ranks, EventOnce;
    var s', n := DoStartThread(s, t, c), s.end.numStarted;
    StartsIdle(s);
    assert s'.th == s.th[n := s.th[n].(pc := ReadWait)][t := s.th[t].(pc := CountThread)];
    StartsTurn(s, s', t, n);
    StartsStarted(s, s', t, n);
    FinCountKeeps(s, s', t);
  }

  lemma StartsIdle(s: State)
    requires StartedThreads(s) && !Counting(s) && s.end.numStarted < |s.th|
    ensures s.th[s.end.numStarted].pc == Idle
  {}

  ghost predicate StartsIn(s: State, s': State, t: nat, n: nat) {
    && t < |s.th| == |s'.th| && n < |s.th| && t != n && n == s.end.numStarted && s'.end == s.end && s'.cfg == s.cfg
    && (forall u: nat | u < |s.th| && u != t && u != n :: s'.th[u].pc == s.th[u].pc)
    && s.th[n].pc == Idle && s'.th[n].pc == ReadWait && s.th[t].pc == StartThread && s'.th[t].pc == CountThread
    && s'.h.reader == s.h.reader == Of(t) && s'.rd.event == s.rd.event
  }

  lemma StartsTurn(s: State, s': State, t: nat, n: nat)
    requires ReadTurn(s) && s.end.main != Starting && StartsIn(s, s', t, n)
    ensures ReadTurn(s')
  {}

  lemma StartsStarted(s: State, s': State, t: nat, n: nat)
    requires StartedThreads(s) && !Counting(s) && StartsIn(s, s', t, n) && |s.th| == THREADS_MAX
    ensures StartedThreads(s')
  {
    assert Counting(s');
  }

  lemma CountsThread(s: State, t: nat)
    requires TurnInv(s) && t < |s.th| && s.th[t].pc == CountThread
    ensures TurnInv(DoCountThread(s, t))
  {
    hide ReadTurn, StartedThreads, Ranks, EventOnce;
    var s' := DoCountThread(s, t);
    NotStarting(s, t);
    IsCounting(s, t);
    ReaderStarted(s);
    NotAllFinished(s, t);
    SameTurn(s, s', t);
    CountsStarted(s, s', t);
    CountsRanks(s, t);
    CountsEvent(s, t);
  }

  lemma IsCounting(s: State, t: nat)
    requires TurnInv(s) && t < |s.th| && s.th[t].pc == CountThread
    ensures Counting(s) && s.h.reader == Of(t)
  {
    hide StartedThreads, Ranks, EventOnce;
  }

  lemma CountsStarted(s: State, s': State, t: nat)
    requires TurnInv(s) && Moves(s, s', t) && Counting(s) && s.h.reader == s'.h.reader == Of(t)
    requires s'.th[t].pc == EndRead && s'.end.numStarted == s.end.numStarted + 1
    ensures StartedThreads(s')
  {
    hide Ranks, EventOnce;
    assert forall u: nat | u < |s.th| && s.th[u].pc == StartThread :: s.h.reader == Of(u);
  }

  lemma CountsRanks(s: State, t: nat)
    requires Ranks(s) && t < |s.th| && s.th[t].pc == CountThread
    ensures Ranks(DoCountThread(s, t))
  {
    hide RanksOk;
    RankKeeps(s.th, DoCountThread(s, t).th, s.h.fin, s.end.numFinished);
  }

  lemma CountsEvent(s: State, t: nat)
    requires Ranks(s) && EventOnce(s) && t < |s.th| && s.th[t].pc == CountThread
    requires s.end.numFinished < s.end.numStarted && s.end.sets == 0
    ensures EventOnce(DoCountThread(s, t))
  {
    var s' := DoCountThread(s, t);
    forall u: nat
      ensures !Signals(s', u)
    {
      if u < |s.th| && s.th[u].pc == Ended { assert u in s.h.fin; }
    }
  }

  lemma Finishes(s: State, t: nat)
    requires TurnInv(s) && t < |s.th| && s.th[t].pc == Finish
    ensures TurnInv(DoFinish(s, t))
  {
    hide ReadTurn, StartedThreads, Ranks, EventOnce;
    var s' := DoFinish(s, t);
    NotStarting(s, t);
    SameTurn(s, s', t);
    SameThreads(s, s', t);
    BelowStarted(s, t);
    NotAllFinished(s, t);
    FinishesRanks(s, t);
    FinishesEvent(s, t);
  }

  lemma BelowStarted(s: State, t: nat)
    requires TurnInv(s) && t < |s.th| && s.th[t].pc != Idle && s.th[t].pc != ReadWait
    ensures t < s.end.numStarted
  {
    hide ReadTurn, Ranks, EventOnce;
  }

  lemma FinishesEvent(s: State, t: nat)
    requires EventOnce(s) && s.end.sets == 0 && t < |s.th| && s.th[t].pc == Finish
    ensures EventOnce(DoFinish(s, t))
  {
    var s' := DoFinish(s, t);
    forall u: nat
      ensures !Signals(s', u)
    {
      assert !Signals(s, u);
    }
  }

  lemma FinishesRanks(s: State, t: nat)
    requires Ranks(s) && t < |s.th| && s.th[t].pc == Finish
    ensures Ranks(DoFinish(s, t))
  {
    hide RanksOk;
    RankAdds(s.th, DoFinish(s, t).th, s.h.fin, t, s.end.numFinished);
  }

  lemma RankAdds(th: seq<Thread>, th': seq<Thread>, fin: set<nat>, t: nat, n: nat)
    requires RanksOk(th, fin, n) && t < |th| == |th'| && !IsFinished(th[t].pc)
    requires IsFinished(th'[t].pc) && th'[t].rank == n + 1
    requires forall u: nat | u < |th| && u != t :: th'[u].pc == th[u].pc && th'[u].rank == th[u].rank
    ensures RanksOk(th', fin + {t}, n + 1)
  {
    assert t !in fin;
    assert t in fin + {t} && th'[t].rank == n + 1;
  }

  /** Threads other than those that have finished may change. */
  lemma RankKeeps(th: seq<Thread>, th': seq<Thread>, fin: set<nat>, n: nat)
    requires RanksOk(th, fin, n) && |th| == |th'|
    requires forall u: nat | u < |th| ::
               (IsFinished(th[u].pc) <==> IsFinished(th'[u].pc)) && (IsFinished(th[u].pc) ==> th'[u].rank == th[u].rank)
    ensures RanksOk(th', fin, n)
  {
    if n > 0 {
      var u: nat :| u in fin && th[u].rank == n;
      assert u in fin && th'[u].rank == n;
    }
  }

  lemma Compares(s: State, t: nat)
    requires TurnInv(s) && t < |s.th| && s.th[t].pc == Compare
    ensures TurnInv(DoCompare(s, t))
  {
    hide ReadTurn, StartedThreads, Ranks, EventOnce;
    var s' := DoCompare(s, t);
    NotStarting(s, t);
    SameTurn(s, s', t);
    SameThreads(s, s', t);
    ComparesRanks(s, t);
    ComparesEvent(s, t);
  }

  lemma ComparesRanks(s: State, t: nat)
    requires Ranks(s) && t < |s.th| && s.th[t].pc == Compare
    ensures Ranks(DoCompare(s, t)) && t in s.h.fin
  {
    RankKeeps(s.th, DoCompare(s, t).th, s.h.fin, s.end.numFinished);
  }

  lemma ComparesEvent(s: State, t: nat)
    requires TurnInv(s) && t in s.h.fin && t < |s.th| && s.th[t].pc == Compare
    ensures EventOnce(DoCompare(s, t))
  {
    var s' := DoCompare(s, t);
    FinishedAtMost(s);
    if s.end.sets == 1 {
      var u: nat :| Signals(s, u);
      assert u in s.h.fin;
      assert Signals(s', u);
    } else {
      assert forall u: nat :: !Signals(s, u);
      if s.th[t].rank == s.end.numStarted {
        assert Signals(s', t);
      } else {
        forall u: nat
          ensures !Signals(s', u)
        {
          assert !Signals(s, u);
        }
      }
    }
  }

  lemma FinishedAtMost(s: State)
    requires TurnInv(s)
    ensures s.end.numFinished <= s.end.numStarted
  {
    forall u | u in s.h.fin
      ensures u in UpTo(s.end.numStarted)
    {
      FinishedBelow(s, u);
    }
    SubsetSize(s.h.fin, UpTo(s.end.numStarted));
  }

  /** When every started thread has ended, the event has been set. */
  lemma AllEndedSignals(s: State)
    requires TurnInv(s) && forall t: nat | t < |s.th| :: s.th[t].pc == Idle || s.th[t].pc == Ended
    ensures s.end.sets == 1
  {
    AllFinished(s);
    hide ReadTurn, StartedThreads;
    var u: nat :| u in s.h.fin && s.th[u].rank == s.end.numFinished;
    assert Signals(s, u);
  }

  /** Idle is what was not started, and without a reader at work the rest have finished. */
  lemma FinishedAre(s: State, u: nat)
    requires TurnInv(s) && forall t: nat | t < |s.th| :: s.th[t].pc == Idle || s.th[t].pc == Ended
    ensures u in s.h.fin <==> u < |s.th| && s.th[u].pc == Ended
    ensures u in s.h.fin <==> u < s.end.numStarted
  {
    hide EventOnce;
    assert !Counting(s) by { hide Ranks, StartedThreads; }
    if u in s.h.fin { FinishedBelow(s, u); }
  }

  lemma AllFinished(s: State)
    requires TurnInv(s) && forall t: nat | t < |s.th| :: s.th[t].pc == Idle || s.th[t].pc == Ended
    ensures |s.h.fin| == s.end.numStarted
    ensures forall u: nat | u in s.h.fin :: u < |s.th| && s.th[u].pc == Ended
  {
    hide TurnInv;
    var all := UpTo(s.end.numStarted);
    forall u: nat
      ensures u in s.h.fin <==> u in all
      ensures u in s.h.fin ==> u < |s.th| && s.th[u].pc == Ended
    {
      FinishedAre(s, u);
    }
    assert s.h.fin == all;
  }
}
