/** No reachable state is a deadlock: unless a hart waits for its accelerator, some unfinished hart can go on. */
module HartProgress {
  import opened Harts
  import opened HartSums
  import opened HartInvariants
  import opened HartRuns
  import L = HartLocks

  /** Hart `i`'s next access takes it further: it is neither retrying a zero word nor polling a low flag. */
  predicate CanMove(c: Config, s: State, i: nat)
    requires Shaped(c.harts, s) && i < c.harts
  {
    Next(c, s, Run(i, false, 0)).harts[i].pc != s.harts[i].pc
  }

  /** The modelled part of the program ends here. */
  predicate Finished(s: State, i: nat)
    requires i < |s.harts|
  {
    s.harts[i].pc == Printed || (s.harts[i].pc == Passed && i != 0)
  }

  predicate Polling(s: State, i: nat)
    requires i < |s.harts| == |s.flags|
  {
    s.harts[i].pc == Spin && !s.flags[i]
  }

  predicate AtZeroWait(s: State, pc: Pc)
    requires Shaped(|s.harts|, s)
  {
    pc.Lr? && IsWait(pc.site) && s.sem[SemOf(pc.site)] == 0
  }

  lemma AfterInitMoves(m: Sem)
    ensures AfterInit(m) != Init(m)
  {
  }

  lemma ResumeMoves(site: Site)
    ensures Resume(site) != Sc(site)
  {
  }

  lemma WorkMoves(c: Config, s: State, i: nat)
    requires Shaped(c.harts, s) && i < c.harts && AtWork(s.harts[i].pc) && !Polling(s, i)
    ensures WorkHart(c, s, i, 0).pc != s.harts[i].pc
  {
  }

  lemma BarrierMoves(c: Config, s: State, i: nat)
    requires Shaped(c.harts, s) && i < c.harts && L.InBarrier(s.harts[i].pc) && !Finished(s, i)
    ensures BarrierHart(c, s, i).pc != s.harts[i].pc
  {
  }

  /** The only ways to be stuck are a zero word in a wait, a low flag and the end. */
  lemma StuckOnlyThere(c: Config, s: State, i: nat)
    requires Shaped(c.harts, s) && i < c.harts
    requires !AtZeroWait(s, s.harts[i].pc) && !Polling(s, i) && !Finished(s, i)
    ensures CanMove(c, s, i)
  {
    hide SemOf, IsWait, Stored, EndReservations, Resume, AfterInit, WorkHart, BarrierHart, Polling, Finished;
    var pc := s.harts[i].pc;
    if pc.Init? {
      AfterInitMoves(pc.next);
    } else if pc.Sc? {
      ResumeMoves(pc.site);
    } else if AtWork(pc) {
      WorkMoves(c, s, i);
    } else if L.InBarrier(pc) {
      BarrierMoves(c, s, i);
    }
  }

  /** Whoever is inside a mutex can go on. */
  lemma OwnerMoves(c: Config, s: State, m: Sem)
    requires c.Valid() && Shaped(c.harts, s) && LocksOk(s) && IsMutex(m) && s.owner[m].Some?
    ensures s.owner[m].value < c.harts && CanMove(c, s, s.owner[m].value)
  {
    hide CanMove;
    var o := s.owner[m].value;
    assert Inside(s.harts[o].pc) == Some(m);
    hide LocksOk;
    StuckOnlyThere(c, s, o);
  }

  /** With all mutexes free and initialised, a zero wait can only be a sleep in the barrier. */
  lemma FreeMutexes(c: Config, s: State, pc: Pc)
    requires c.Valid() && Shaped(c.harts, s) && LocksOk(s) && !s.harts[0].pc.Init?
    requires forall m :: IsMutex(m) ==> s.owner[m] == None
    requires AtZeroWait(s, pc)
    ensures pc == Lr(SleepWait)
  {
    hide Inside;
  }

  /** Before the barrier is complete some hart has not arrived. */
  lemma SomebodyIsLate(c: Config, s: State) returns (y: nat)
    requires c.Valid() && Shaped(c.harts, s) && BarrierOk(c, s) && s.last == None
    ensures y < c.harts && !AtBarrier(s.harts[y].pc) && !Through(s.harts[y].pc)
  {
    hide Sum, Releasing, Signalling;
    if forall k :: 0 <= k < c.harts ==> AtBarrier(s.harts[k].pc) {
      SumAll(Arrived, s.harts);
      assert false;
    }
    y :| 0 <= y < c.harts && !AtBarrier(s.harts[y].pc);
  }

  /** Once the last hart is through, a hart that still sleeps has a token. */
  lemma SleeperHasToken(c: Config, s: State, x: nat)
    requires Shaped(c.harts, s) && BarrierOk(c, s) && x < c.harts && s.harts[x].pc == Lr(SleepWait)
    requires s.last.Some? && Through(s.harts[s.last.value].pc)
    ensures s.sem[BarrierSem] > 0
  {
    hide Sum, Gathering;
    assert x != s.last.value;
    SumBoundTwo(Woken, s.harts, x, s.last.value);
  }

  /** With nobody inside a mutex, a hart that sleeps in vain proves that another can move. */
  lemma SleeperFindsMover(c: Config, s: State, x: nat) returns (y: nat)
    requires c.Valid() && Shaped(c.harts, s) && LocksOk(s) && BarrierOk(c, s) && !s.harts[0].pc.Init?
    requires forall m :: IsMutex(m) ==> s.owner[m] == None
    requires forall k :: 0 <= k < c.harts ==> !Polling(s, k)
    requires x < c.harts && s.harts[x].pc == Lr(SleepWait) && s.sem[BarrierSem] == 0
    ensures y < c.harts && CanMove(c, s, y)
  {
    hide LocksOk, CanMove;
    if s.last == None {
      hide BarrierOk;
      y := SomebodyIsLate(c, s);
    } else {
      y := s.last.value;
      assert Signalling(s.harts[y].pc) || Through(s.harts[y].pc);
      hide BarrierOk;
      if Through(s.harts[y].pc) {
        SleeperHasToken(c, s, x);
      }
    }
    if AtZeroWait(s, s.harts[y].pc) {
      FreeMutexes(c, s, s.harts[y].pc);
    }
    StuckOnlyThere(c, s, y);
  }

  lemma SomebodyMoves(c: Config, s: State, x: nat) returns (y: nat)
    requires Inv(c, s) && x < c.harts && !Finished(s, x)
    requires forall k :: 0 <= k < c.harts ==> !Polling(s, k)
    ensures y < c.harts && CanMove(c, s, y)
  {
    hide LocksOk, StartupOk, ReservedOk, CountOk, ClaimOk, ReduceOk, BarrierOk, DmaOk, CanMove;
    if s.harts[0].pc.Init? {
      y := 0;
      StuckOnlyThere(c, s, 0);
    } else if m :| IsMutex(m) && s.owner[m].Some? {
      OwnerMoves(c, s, m);
      y := s.owner[m].value;
    } else if AtZeroWait(s, s.harts[x].pc) {
      FreeMutexes(c, s, s.harts[x].pc);
      y := SleeperFindsMover(c, s, x);
    } else {
      y := x;
      StuckOnlyThere(c, s, x);
    }
  }

  /** While some hart is unfinished and none is polling a low flag, some hart can move. */
  lemma NoDeadlock(c: Config, events: seq<Event>, x: nat)
    requires c.Valid() && Schedule(c, events) && x < c.harts
    requires var s := After(c, events); !Finished(s, x) && forall k :: 0 <= k < c.harts ==> !Polling(s, k)
    ensures exists y: nat :: y < c.harts && CanMove(c, After(c, events), y)
  {
    hide After, Inv, CanMove, Finished, Polling;
    RunKeepsInv(c, events);
    var y := SomebodyMoves(c, After(c, events), x);
  }
}
