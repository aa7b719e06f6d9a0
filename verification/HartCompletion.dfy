/** The program can always be completed: from every reachable state some schedule ends with every hart finished. */
module HartCompletion {
  import opened Harts
  import opened HartSums
  import opened HartInvariants
  import opened HartRuns
  import opened HartProgress
  import opened HartHistory
  import T = HartTheorems
  import L = HartLocks
  import W = HartWork

  /** Iterations that may still be entered, 30 steps each, and the steps every hart has before it. */
  function Remaining(c: Config, s: State): nat
    requires Shaped(c.harts, s)
  {
    var entries := c.images + c.harts - 1 - s.cnt - Sum(InFlight, s.harts);
    (if entries > 0 then 30 * entries else 0) + Sum(Distance(c.harts), s.harts)
  }

  /** A step that claims nothing changes what remains by what it takes its hart further. */
  lemma QuietRemaining(c: Config, s: State, s': State, i: nat)
    requires Shaped(c.harts, s) && W.ClaimQuiet(c.harts, s, s', i)
    ensures Remaining(c, s') == Remaining(c, s) - StepsToEnd(c.harts, s.harts[i]) + StepsToEnd(c.harts, s'.harts[i])
  {
    hide Sum, Claiming, StepsToEnd, LoopOver;
    SumUpdate(InFlight, s.harts, i, s'.harts[i]);
    SumUpdate(Distance(c.harts), s.harts, i, s'.harts[i]);
  }

  // ----- The steps -----

  lemma InitCloser(c: Config, s: State, i: nat)
    requires Shaped(c.harts, s) && i < c.harts && s.harts[i].pc.Init?
    ensures Remaining(c, InitStep(c.harts, s, i, s.harts[i].pc.next)) < Remaining(c, s)
  {
    hide Remaining, EndReservations, W.ClaimQuiet;
    W.InitIsQuiet(c.harts, s, i);
    QuietRemaining(c, s, InitStep(c.harts, s, i, s.harts[i].pc.next), i);
  }

  lemma DmaCloser(c: Config, s: State, i: nat)
    requires Shaped(c.harts, s) && i < c.harts && s.harts[i].pc.WriteReg?
    ensures Remaining(c, DmaStep(c, s, i, s.harts[i].pc.read, s.harts[i].pc.reg)) < Remaining(c, s)
  {
    hide Remaining, W.ClaimQuiet;
    W.DmaIsQuiet(c, s, i);
    QuietRemaining(c, s, DmaStep(c, s, i, s.harts[i].pc.read, s.harts[i].pc.reg), i);
  }

  lemma ScFailCloser(c: Config, s: State, i: nat)
    requires Shaped(c.harts, s) && i < c.harts && s.harts[i].pc.Sc?
    ensures Remaining(c, ScFail(s, i, s.harts[i].pc.site)) < Remaining(c, s)
  {
    hide Remaining, W.ClaimQuiet, StepsFrom;
    W.ScFailIsQuiet(c.harts, s, i);
    QuietRemaining(c, s, ScFail(s, i, s.harts[i].pc.site), i);
  }

  /** A completed semaphore call is worth more than the step to its store-conditional. */
  lemma ResumeCloser(n: nat, h: Hart, site: Site)
    requires 0 < n && h.pc == Sc(site) && (site == SignalPost ==> h.j < n - 1)
    ensures StepsToEnd(n, h.(pc := Resume(site), j := if site == SignalPost then h.j + 1 else h.j)) + 2 <= StepsToEnd(n, h)
  {
  }

  lemma SuccessHart(n: nat, s: State, i: nat)
    requires Shaped(n, s) && i < n && s.harts[i].pc.Sc?
    ensures var site := s.harts[i].pc.site; var h := s.harts[i];
            ScSuccess(n, s, i, site).harts[i] == h.(pc := Resume(site), j := if site == SignalPost then h.j + 1 else h.j)
  {
    hide Resume, EndReservations, Stored, IsWait, SemOf;
  }

  lemma SuccessCloser(c: Config, s: State, i: nat)
    requires Shaped(c.harts, s) && i < c.harts && s.harts[i].pc.Sc?
    requires s.harts[i].pc.site == SignalPost ==> s.harts[i].j < c.harts - 1
    ensures Remaining(c, ScSuccess(c.harts, s, i, s.harts[i].pc.site)) + 2 <= Remaining(c, s)
  {
    hide Remaining, W.ClaimQuiet, StepsToEnd, Resume, ScSuccess;
    W.ScSuccessIsQuiet(c.harts, s, i);
    SuccessHart(c.harts, s, i);
    ResumeCloser(c.harts, s.harts[i], s.harts[i].pc.site);
    QuietRemaining(c, s, ScSuccess(c.harts, s, i, s.harts[i].pc.site), i);
  }

  /** The load-reserved of a call that finds its word usable. */
  lemma LrRemaining(c: Config, s: State, i: nat)
    requires Shaped(c.harts, s) && i < c.harts && s.harts[i].pc.Lr? && !AtZeroWait(s, s.harts[i].pc)
    ensures var s' := LrStep(c.harts, s, i, s.harts[i].pc.site);
            && s'.harts[i].pc == Sc(s.harts[i].pc.site) && s'.harts[i].j == s.harts[i].j
            && s'.reserved[i] == Some(SemOf(s.harts[i].pc.site))
            && Remaining(c, s') == Remaining(c, s) + 1
  {
    hide Remaining, W.ClaimQuiet, StepsFrom, SemOf, IsWait;
    W.LrIsQuiet(c.harts, s, i);
    QuietRemaining(c, s, LrStep(c.harts, s, i, s.harts[i].pc.site), i);
  }

  lemma BarrierHartCloser(c: Config, s: State, i: nat)
    requires Shaped(c.harts, s) && i < c.harts && L.InBarrier(s.harts[i].pc) && !Finished(s, i)
    requires s.harts[i].pc.SignalTest? ==> s.harts[i].j <= c.harts - 1
    ensures StepsToEnd(c.harts, BarrierHart(c, s, i)) < StepsToEnd(c.harts, s.harts[i])
  {
  }

  lemma BarrierCloser(c: Config, s: State, i: nat)
    requires Shaped(c.harts, s) && i < c.harts && L.InBarrier(s.harts[i].pc) && !Finished(s, i)
    requires s.harts[i].pc.SignalTest? ==> s.harts[i].j <= c.harts - 1
    ensures Remaining(c, BarrierStep(c, s, i)) < Remaining(c, s)
  {
    hide Remaining, W.ClaimQuiet, StepsToEnd, BarrierHart;
    W.BarrierIsQuiet(c, s, i);
    BarrierHartCloser(c, s, i);
    QuietRemaining(c, s, BarrierStep(c, s, i), i);
  }

  lemma WorkHartCloser(c: Config, s: State, i: nat)
    requires Shaped(c.harts, s) && i < c.harts && AtWork(s.harts[i].pc) && !Polling(s, i)
    requires s.harts[i].pc.LoopTest? ==> s.cnt >= c.images
    ensures StepsToEnd(c.harts, WorkHart(c, s, i, 0)) < StepsToEnd(c.harts, s.harts[i])
  {
  }

  lemma WorkCloser(c: Config, s: State, i: nat)
    requires Shaped(c.harts, s) && i < c.harts && AtWork(s.harts[i].pc) && !W.Counting(s.harts[i].pc) && !Polling(s, i)
    ensures Remaining(c, WorkStep(c, s, i, 0)) < Remaining(c, s)
  {
    hide Remaining, W.ClaimQuiet, StepsToEnd, WorkHart;
    W.WorkIsClaimQuiet(c, s, i, 0);
    WorkHartCloser(c, s, i);
    QuietRemaining(c, s, WorkStep(c, s, i, 0), i);
  }

  /** Taking an id and counting it leaves the entries alone; ending the loop does too. */
  lemma CountingCloser(c: Config, s: State, i: nat)
    requires Shaped(c.harts, s) && i < c.harts && W.Counting(s.harts[i].pc) && ClaimOk(c, s)
    requires s.harts[i].pc.LoopTest? ==> s.cnt >= c.images
    ensures Remaining(c, WorkStep(c, s, i, 0)) < Remaining(c, s)
  {
    hide Sum, StepsToEnd;
    WorkHartCloser(c, s, i);
    SumUpdate(InFlight, s.harts, i, WorkStep(c, s, i, 0).harts[i]);
    SumUpdate(Distance(c.harts), s.harts, i, WorkStep(c, s, i, 0).harts[i]);
  }

  /** Entering an iteration uses up an entry, which is worth more than the iteration's steps. */
  lemma EntryCloser(c: Config, s: State, i: nat)
    requires Shaped(c.harts, s) && i < c.harts && s.harts[i].pc.LoopTest? && s.cnt < c.images
    ensures Remaining(c, WorkStep(c, s, i, 0)) < Remaining(c, s)
  {
    hide Sum;
    SumBoundOne(InFlight, s.harts, i);
    SumUpdate(InFlight, s.harts, i, WorkStep(c, s, i, 0).harts[i]);
    SumUpdate(Distance(c.harts), s.harts, i, WorkStep(c, s, i, 0).harts[i]);
  }

  // ----- One hart goes on -----

  /** What the closeness of a semaphore call and of the signalling loop rests on. */
  lemma SignalsLeft(c: Config, s: State, i: nat)
    requires Inv(c, s) && i < c.harts
    ensures s.harts[i].pc == Lr(SignalPost) || s.harts[i].pc == Sc(SignalPost) ==> s.harts[i].j < c.harts - 1
    ensures s.harts[i].pc.SignalTest? ==> s.harts[i].j <= c.harts - 1
  {
    hide LocksOk, ReservedOk, StartupOk, CountOk, ClaimOk, ReduceOk, DmaOk, Sum;
  }

  /** Any access but a load-reserved takes a hart that can go on closer to the end. */
  lemma RunCloser(c: Config, s: State, i: nat)
    requires Inv(c, s) && i < c.harts && !s.harts[i].pc.Lr? && !Polling(s, i) && !Finished(s, i)
    ensures Remaining(c, Next(c, s, Run(i, false, 0))) < Remaining(c, s)
  {
    hide Remaining, InitStep, ScFail, ScSuccess, DmaStep, WorkStep, BarrierStep, LrStep, Polling, Finished;
    hide LocksOk, ReservedOk, StartupOk, CountOk, ClaimOk, ReduceOk, BarrierOk, DmaOk;
    SignalsLeft(c, s, i);
    var pc := s.harts[i].pc;
    if pc.Init? {
      InitCloser(c, s, i);
    } else if pc.Sc? && s.reserved[i] != Some(SemOf(pc.site)) {
      ScFailCloser(c, s, i);
    } else if pc.Sc? {
      SuccessCloser(c, s, i);
    } else if pc.WriteReg? {
      DmaCloser(c, s, i);
    } else if AtWork(pc) {
      WorkStepCloser(c, s, i);
    } else {
      BarrierCloser(c, s, i);
    }
  }

  lemma WorkStepCloser(c: Config, s: State, i: nat)
    requires Inv(c, s) && i < c.harts && AtWork(s.harts[i].pc) && !Polling(s, i)
    ensures Remaining(c, WorkStep(c, s, i, 0)) < Remaining(c, s)
  {
    hide Remaining, WorkStep, Polling, AtWork;
    hide LocksOk, ReservedOk, StartupOk, CountOk, ClaimOk, ReduceOk, BarrierOk, DmaOk;
    if s.harts[i].pc.LoopTest? && s.cnt < c.images {
      EntryCloser(c, s, i);
    } else if W.Counting(s.harts[i].pc) {
      CountingCloser(c, s, i);
    } else {
      WorkCloser(c, s, i);
    }
  }

  /** A semaphore call on a usable word, run on its own, completes and takes its hart closer. */
  lemma CallCloser(c: Config, s: State, i: nat)
    requires Inv(c, s) && i < c.harts && s.harts[i].pc.Lr? && !AtZeroWait(s, s.harts[i].pc)
    ensures var s' := Next(c, s, Run(i, false, 0)); Remaining(c, Next(c, s', Run(i, false, 0))) < Remaining(c, s)
  {
    hide Remaining, LrStep, ScSuccess, AtZeroWait;
    hide LocksOk, ReservedOk, StartupOk, CountOk, ClaimOk, ReduceOk, BarrierOk, DmaOk;
    SignalsLeft(c, s, i);
    LrRemaining(c, s, i);
    SuccessCloser(c, LrStep(c.harts, s, i, s.harts[i].pc.site), i);
  }

  /** A hart that polls goes on after its accelerator's interrupt. */
  lemma InterruptCloser(c: Config, s: State, i: nat)
    requires Shaped(c.harts, s) && i < c.harts && Polling(s, i)
    ensures var s' := Next(c, s, Interrupt(i)); Remaining(c, Next(c, s', Run(i, false, 0))) < Remaining(c, s)
  {
    hide Sum, WorkStep, StepsToEnd;
    WorkCloser(c, Next(c, s, Interrupt(i)), i);
  }

  // ----- The whole program -----

  lemma AfterOne(c: Config, events: seq<Event>, e: Event)
    requires Schedule(c, events) && e.hart < c.harts
    ensures Schedule(c, events + [e]) && After(c, events + [e]) == Next(c, After(c, events), e)
  {
    hide Next;
    assert (events + [e])[..|events|] == events;
  }

  lemma AfterTwo(c: Config, events: seq<Event>, d: Event, e: Event)
    requires Schedule(c, events) && d.hart < c.harts && e.hart < c.harts
    ensures Schedule(c, events + [d, e]) && After(c, events + [d, e]) == Next(c, Next(c, After(c, events), d), e)
  {
    hide Next, After;
    AfterOne(c, events, d);
    AfterOne(c, events + [d], e);
    assert events + [d] + [e] == events + [d, e];
  }

  /** While a hart is unfinished, one or two events bring the program closer to its end. */
  lemma Advance(c: Config, events: seq<Event>, x: nat) returns (more: seq<Event>)
    requires c.Valid() && Schedule(c, events) && x < c.harts && !Finished(After(c, events), x)
    ensures 1 <= |more| <= 2 && Schedule(c, events + more)
    ensures Remaining(c, After(c, events + more)) < Remaining(c, After(c, events))
  {
    hide After, Next, Remaining, Finished, Polling, AtZeroWait;
    hide LocksOk, ReservedOk, StartupOk, CountOk, ClaimOk, ReduceOk, BarrierOk, DmaOk;
    RunKeepsInv(c, events);
    var s := After(c, events);
    if k: nat :| k < c.harts && Polling(s, k) {
      InterruptCloser(c, s, k);
      AfterTwo(c, events, Interrupt(k), Run(k, false, 0));
      more := [Interrupt(k), Run(k, false, 0)];
    } else {
      var y := SomebodyMoves(c, s, x);
      MoverIsFree(c, s, y);
      if s.harts[y].pc.Lr? {
        CallCloser(c, s, y);
        AfterTwo(c, events, Run(y, false, 0), Run(y, false, 0));
        more := [Run(y, false, 0), Run(y, false, 0)];
      } else {
        RunCloser(c, s, y);
        AfterOne(c, events, Run(y, false, 0));
        more := [Run(y, false, 0)];
      }
    }
  }

  lemma MoverIsFree(c: Config, s: State, i: nat)
    requires Shaped(c.harts, s) && i < c.harts && CanMove(c, s, i)
    ensures !AtZeroWait(s, s.harts[i].pc) && !Finished(s, i)
  {
    hide InitStep, ScStep, DmaStep, WorkStep, EndReservations;
  }

  /**
   * From every reachable state the program can be run to its end: every hart finished, hart 0's print the
   * mismatches of all comparisons, and every image claimed exactly once.
   */
  lemma {:induction false} ProgramCompletes(c: Config, events: seq<Event>) returns (more: seq<Event>)
    requires c.Valid() && Schedule(c, events)
    ensures Schedule(c, events + more) && |more| <= 2 * Remaining(c, After(c, events))
    ensures var s := After(c, events + more);
            && (forall i :: 0 <= i < c.harts ==> Finished(s, i))
            && s.printed == Some(AllMismatches(c, events + more, c.harts))
            && c.images <= |s.claims| <= c.images + c.harts - 1
            && (forall k :: 0 <= k < |s.claims| ==> s.claims[k].id == k)
    decreases Remaining(c, After(c, events))
  {
    hide After, Remaining, Finished;
    if forall i :: 0 <= i < c.harts ==> Finished(After(c, events), i) {
      more := [];
      assert events + more == events;
      FinishedIsDone(c, events);
    } else {
      var x: nat :| x < c.harts && !Finished(After(c, events), x);
      var step := Advance(c, events, x);
      var rest := ProgramCompletes(c, events + step);
      more := step + rest;
      assert events + more == events + step + rest;
    }
  }

  lemma FinishedIsDone(c: Config, events: seq<Event>)
    requires c.Valid() && Schedule(c, events)
    requires forall i :: 0 <= i < c.harts ==> Finished(After(c, events), i)
    ensures var s := After(c, events);
            && s.printed == Some(AllMismatches(c, events, c.harts))
            && c.images <= |s.claims| <= c.images + c.harts - 1
            && (forall k :: 0 <= k < |s.claims| ==> s.claims[k].id == k)
  {
    hide After, Sum, LocksOk, ReservedOk, StartupOk, CountOk, BarrierOk, DmaOk;
    RunKeepsInv(c, events);
    var s := After(c, events);
    assert Finished(s, 0);
    T.PrintedTotal(c, events);
    assert s.cnt >= c.images;
  }
}
