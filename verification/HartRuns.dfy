/** What holds in every state that any schedule of N harts and interrupts can reach. */
module HartRuns {
  import opened Harts
  import opened HartSums
  import opened HartInvariants
  import L = HartLocks
  import W = HartWork
  import B = HartBarrier

  lemma SemaphoreKeepsInv(c: Config, s: State, s': State, i: nat)
    requires Inv(c, s) && W.Quiet(c.harts, s, s', i)
    ensures ClaimOk(c, s') && ReduceOk(s') && DmaOk(c, s')
  {
    hide LocksOk, ReservedOk, StartupOk, CountOk, ClaimOk, ReduceOk, BarrierOk, DmaOk;
    W.QuietKeepsClaims(c, s, s', i);
    W.QuietKeepsTotal(s, s', i);
    W.QuietKeepsDma(c, s, s', i);
  }

  lemma InitKeepsInv(c: Config, s: State, i: nat)
    requires Inv(c, s) && i < c.harts && s.harts[i].pc.Init?
    ensures Inv(c, InitStep(c.harts, s, i, s.harts[i].pc.next))
  {
    hide LocksOk, ReservedOk, StartupOk, CountOk, ClaimOk, ReduceOk, BarrierOk, DmaOk, InitStep, W.Quiet, B.BarrierQuiet;
    var s' := InitStep(c.harts, s, i, s.harts[i].pc.next);
    L.InitKeepsSync(c.harts, s, i);
    W.InitIsQuiet(c.harts, s, i);
    SemaphoreKeepsInv(c, s, s', i);
    B.InitIsQuiet(c.harts, s, i);
    B.QuietKeepsBarrier(c, s, s', i);
  }

  lemma LrKeepsInv(c: Config, s: State, i: nat)
    requires Inv(c, s) && i < c.harts && s.harts[i].pc.Lr?
    ensures Inv(c, LrStep(c.harts, s, i, s.harts[i].pc.site))
  {
    hide LocksOk, ReservedOk, StartupOk, CountOk, ClaimOk, ReduceOk, BarrierOk, DmaOk, LrStep, W.Quiet, B.BarrierQuiet;
    var s' := LrStep(c.harts, s, i, s.harts[i].pc.site);
    L.LrKeepsSync(c.harts, s, i);
    W.LrIsQuiet(c.harts, s, i);
    SemaphoreKeepsInv(c, s, s', i);
    B.LrIsQuiet(c.harts, s, i);
    B.QuietKeepsBarrier(c, s, s', i);
  }

  lemma ScFailKeepsInv(c: Config, s: State, i: nat)
    requires Inv(c, s) && i < c.harts && s.harts[i].pc.Sc?
    ensures Inv(c, ScFail(s, i, s.harts[i].pc.site))
  {
    hide LocksOk, ReservedOk, StartupOk, CountOk, ClaimOk, ReduceOk, BarrierOk, DmaOk, ScFail, W.Quiet, B.BarrierQuiet;
    var s' := ScFail(s, i, s.harts[i].pc.site);
    L.ScFailKeepsSync(c.harts, s, i);
    W.ScFailIsQuiet(c.harts, s, i);
    SemaphoreKeepsInv(c, s, s', i);
    B.ScFailIsQuiet(c.harts, s, i);
    B.QuietKeepsBarrier(c, s, s', i);
  }

  lemma SuccessKeepsInv(c: Config, s: State, i: nat)
    requires Inv(c, s) && i < c.harts && s.harts[i].pc.Sc? && s.reserved[i] == Some(SemOf(s.harts[i].pc.site))
    ensures Inv(c, ScSuccess(c.harts, s, i, s.harts[i].pc.site))
  {
    hide LocksOk, ReservedOk, StartupOk, CountOk, ClaimOk, ReduceOk, BarrierOk, DmaOk, ScSuccess, W.Quiet, B.BarrierQuiet;
    var site := s.harts[i].pc.site;
    var s' := ScSuccess(c.harts, s, i, site);
    L.SuccessKeepsLocks(c.harts, s, i);
    L.SuccessKeepsCounts(c, s, i);
    L.SuccessKeepsStartup(c, s, i);
    W.ScSuccessIsQuiet(c.harts, s, i);
    SemaphoreKeepsInv(c, s, s', i);
    if site == SignalPost {
      B.SignalKeepsBarrier(c, s, i);
    } else if site == SleepWait {
      B.WakeKeepsBarrier(c, s, i);
    } else {
      B.MutexSuccessIsQuiet(c.harts, s, i);
      B.QuietKeepsBarrier(c, s, s', i);
    }
  }

  lemma DmaKeepsInv(c: Config, s: State, i: nat)
    requires Inv(c, s) && i < c.harts && s.harts[i].pc.WriteReg?
    ensures Inv(c, DmaStep(c, s, i, s.harts[i].pc.read, s.harts[i].pc.reg))
  {
    hide LocksOk, ReservedOk, StartupOk, CountOk, ClaimOk, ReduceOk, BarrierOk, DmaOk, DmaStep, B.BarrierQuiet;
    hide L.Access, W.ClaimQuiet, W.ReduceQuiet;
    var s' := DmaStep(c, s, i, s.harts[i].pc.read, s.harts[i].pc.reg);
    L.DmaIsAccess(c, s, i);
    L.AccessKeepsSync(c.harts, s, s', i);
    W.DmaIsQuiet(c, s, i);
    W.QuietKeepsClaims(c, s, s', i);
    W.QuietKeepsTotal(s, s', i);
    W.StoresKeepDma(c, s, i);
    B.DmaIsQuiet(c, s, i);
    B.QuietKeepsBarrier(c, s, s', i);
  }

  lemma WorkKeepsClaims(c: Config, s: State, i: nat, errors: nat)
    requires Inv(c, s) && i < c.harts && AtWork(s.harts[i].pc)
    ensures ClaimOk(c, WorkStep(c, s, i, errors))
  {
    hide LocksOk, ReservedOk, StartupOk, CountOk, ClaimOk, ReduceOk, BarrierOk, DmaOk, WorkStep, W.ClaimQuiet;
    if s.harts[i].pc.LoopTest? {
      W.LoopTestKeepsClaims(c, s, i, errors);
    } else if s.harts[i].pc.StoreCnt? {
      W.StoringKeepsClaims(c, s, i, errors);
    } else if W.Counting(s.harts[i].pc) {
      W.LoadingKeepsClaims(c, s, i, errors);
    } else {
      W.WorkIsClaimQuiet(c, s, i, errors);
      W.QuietKeepsClaims(c, s, WorkStep(c, s, i, errors), i);
    }
  }

  lemma WorkKeepsTotal(c: Config, s: State, i: nat, errors: nat)
    requires Inv(c, s) && i < c.harts && AtWork(s.harts[i].pc)
    ensures ReduceOk(WorkStep(c, s, i, errors))
  {
    hide LocksOk, ReservedOk, StartupOk, CountOk, ClaimOk, ReduceOk, BarrierOk, DmaOk, WorkStep, W.ReduceQuiet;
    if s.harts[i].pc.LoadTotal? {
      W.LoadingKeepsTotal(c, s, i, errors);
    } else if s.harts[i].pc.StoreTotal? {
      W.StoringKeepsTotal(c, s, i, errors);
    } else {
      W.WorkIsReduceQuiet(c, s, i, errors);
      W.QuietKeepsTotal(s, WorkStep(c, s, i, errors), i);
    }
  }

  lemma WorkKeepsInv(c: Config, s: State, i: nat, errors: nat)
    requires Inv(c, s) && i < c.harts && AtWork(s.harts[i].pc)
    ensures Inv(c, WorkStep(c, s, i, errors))
  {
    hide LocksOk, ReservedOk, StartupOk, CountOk, ClaimOk, ReduceOk, BarrierOk, DmaOk, WorkStep, AtWork;
    hide L.Access, W.DmaQuiet, B.BarrierQuiet;
    var s' := WorkStep(c, s, i, errors);
    L.WorkIsAccess(c, s, i, errors);
    L.AccessKeepsSync(c.harts, s, s', i);
    WorkKeepsClaims(c, s, i, errors);
    WorkKeepsTotal(c, s, i, errors);
    W.WorkIsDmaQuiet(c, s, i, errors);
    W.QuietKeepsDma(c, s, s', i);
    B.WorkIsQuiet(c, s, i, errors);
    B.QuietKeepsBarrier(c, s, s', i);
  }

  lemma BarrierKeepsBarrier(c: Config, s: State, i: nat)
    requires Inv(c, s) && i < c.harts && L.InBarrier(s.harts[i].pc)
    ensures BarrierOk(c, BarrierStep(c, s, i))
  {
    hide LocksOk, ReservedOk, StartupOk, CountOk, ClaimOk, ReduceOk, BarrierOk, DmaOk, BarrierStep, B.BarrierQuiet;
    var pc := s.harts[i].pc;
    if pc.TestCounter? && s.counter == c.harts - 1 {
      B.LastKeepsBarrier(c, s, i);
    } else if pc.TestCounter? {
      B.NotLastKeepsBarrier(c, s, i);
    } else if pc.LoadCounter? {
      B.LoadKeepsBarrier(c, s, i);
    } else if pc.StoreCounter? {
      B.CountKeepsBarrier(c, s, i);
    } else if pc.ResetCounter? || pc.SignalTest? {
      B.ReleaseKeepsBarrier(c, s, i);
    } else {
      B.PrintIsQuiet(c, s, i);
      B.QuietKeepsBarrier(c, s, BarrierStep(c, s, i), i);
    }
  }

  lemma BarrierKeepsInv(c: Config, s: State, i: nat)
    requires Inv(c, s) && i < c.harts && L.InBarrier(s.harts[i].pc)
    ensures Inv(c, BarrierStep(c, s, i))
  {
    hide LocksOk, ReservedOk, StartupOk, CountOk, ClaimOk, ReduceOk, BarrierOk, DmaOk, BarrierStep;
    hide L.Access, W.ClaimQuiet, W.DmaQuiet;
    var s' := BarrierStep(c, s, i);
    L.BarrierIsAccess(c, s, i);
    L.AccessKeepsSync(c.harts, s, s', i);
    W.BarrierIsQuiet(c, s, i);
    W.QuietKeepsClaims(c, s, s', i);
    W.QuietKeepsDma(c, s, s', i);
    W.BarrierKeepsTotal(c, s, i);
    BarrierKeepsBarrier(c, s, i);
  }

  lemma InterruptKeepsSync(c: Config, s: State, i: nat)
    requires Inv(c, s) && i < c.harts
    ensures L.SyncOk(Next(c, s, Interrupt(i)))
  {
    hide Inside, Early, IsWait, InitialValue, ClaimOk, ReduceOk, BarrierOk, DmaOk;
    assert forall m :: Ready(Next(c, s, Interrupt(i)), m) == Ready(s, m);
    hide Ready;
  }

  lemma InterruptKeepsInv(c: Config, s: State, i: nat)
    requires Inv(c, s) && i < c.harts
    ensures Inv(c, Next(c, s, Interrupt(i)))
  {
    hide LocksOk, ReservedOk, StartupOk, CountOk, Sum, LoopOver, AtBarrier, Signalling, Through, TokensOk, Written;
    InterruptKeepsSync(c, s, i);
  }

  lemma NextKeepsInv(c: Config, s: State, e: Event)
    requires Inv(c, s) && e.hart < c.harts
    ensures Inv(c, Next(c, s, e))
  {
    assert Shaped(c.harts, s);
    hide Inv, InitStep, LrStep, ScFail, ScSuccess, DmaStep, WorkStep, BarrierStep;
    if e.Interrupt? {
      InterruptKeepsInv(c, s, e.hart);
    } else {
      var pc := s.harts[e.hart].pc;
      if pc.Init? {
        InitKeepsInv(c, s, e.hart);
      } else if pc.Lr? {
        LrKeepsInv(c, s, e.hart);
      } else if pc.Sc? && (s.reserved[e.hart] != Some(SemOf(pc.site)) || e.scFails) {
        ScFailKeepsInv(c, s, e.hart);
      } else if pc.Sc? {
        SuccessKeepsInv(c, s, e.hart);
      } else if pc.WriteReg? {
        DmaKeepsInv(c, s, e.hart);
      } else if AtWork(pc) {
        WorkKeepsInv(c, s, e.hart, e.errors);
      } else {
        BarrierKeepsInv(c, s, e.hart);
      }
    }
  }

  /** The invariant holds after every schedule. */
  lemma {:induction false} RunKeepsInv(c: Config, events: seq<Event>)
    requires c.Valid() && Schedule(c, events)
    ensures Inv(c, After(c, events))
  {
    hide Inv, Next;
    if events == [] {
      StartInv(c);
    } else {
      RunKeepsInv(c, events[..|events| - 1]);
      NextKeepsInv(c, After(c, events[..|events| - 1]), events[|events| - 1]);
    }
  }
}
