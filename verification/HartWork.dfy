/** Every step keeps the facts about claimed ids, the error total and the DMA registers. */
module HartWork {
  import opened Harts
  import opened HartSums
  import opened HartInvariants

  /** No two harts are inside one mutex. */
  lemma Exclusive(s: State, i: nat, k: nat)
    requires Shaped(|s.harts|, s) && i < |s.harts| && k < |s.harts| && LocksOk(s)
    requires Inside(s.harts[i].pc).Some? && Inside(s.harts[i].pc) == Inside(s.harts[k].pc)
    ensures i == k
  {
    hide Inside;
  }

  /** A hart inside `lock` is the only one between a load and a store of `cnt` or `total_error`. */
  lemma AloneInLock(s: State, i: nat)
    requires Shaped(|s.harts|, s) && i < |s.harts| && LocksOk(s)
    requires s.harts[i].pc.StoreCnt? || s.harts[i].pc.StoreTotal?
    ensures forall k :: 0 <= k < |s.harts| && k != i ==>
              !s.harts[k].pc.LoadCnt? && !s.harts[k].pc.StoreCnt? && !s.harts[k].pc.StoreTotal?
  {
    forall k | 0 <= k < |s.harts| && k != i
      ensures Inside(s.harts[k].pc) != Some(Lock)
    {
      if Inside(s.harts[k].pc) == Some(Lock) {
        Exclusive(s, i, k);
      }
    }
    hide LocksOk;
  }

  /** A hart inside `dma_lock` is the only one storing to the DMA registers. */
  lemma AloneInDmaLock(s: State, i: nat)
    requires Shaped(|s.harts|, s) && i < |s.harts| && LocksOk(s) && s.harts[i].pc.WriteReg?
    ensures forall k :: 0 <= k < |s.harts| && k != i ==> !s.harts[k].pc.WriteReg?
  {
    forall k | 0 <= k < |s.harts| && k != i
      ensures !s.harts[k].pc.WriteReg?
    {
      if s.harts[k].pc.WriteReg? {
        Exclusive(s, i, k);
      }
    }
  }

  /** A step of hart `i` that neither claims nor tests the loop. */
  predicate ClaimQuiet(n: nat, s: State, s': State, i: nat)
    requires Shaped(n, s)
  {
    && i < n && Shaped(n, s') && s'.harts == s.harts[i := s'.harts[i]]
    && s'.cnt == s.cnt && s'.claims == s.claims
    && Claiming(s'.harts[i].pc) == Claiming(s.harts[i].pc)
    && !s'.harts[i].pc.LoadCnt? && !s'.harts[i].pc.StoreCnt?
    && (LoopOver(s'.harts[i].pc) ==> LoopOver(s.harts[i].pc))
  }

  lemma QuietKeepsClaims(c: Config, s: State, s': State, i: nat)
    requires Shaped(c.harts, s) && ClaimOk(c, s) && ClaimQuiet(c.harts, s, s', i)
    ensures ClaimOk(c, s')
  {
    SumUpdate(InFlight, s.harts, i, s'.harts[i]);
    hide Claiming, LoopOver, Sum;
  }

  /** A step of hart `i` that adds nothing to the total and does not end the barrier. */
  predicate ReduceQuiet(n: nat, s: State, s': State, i: nat)
    requires Shaped(n, s)
  {
    && i < n && Shaped(n, s') && s'.harts == s.harts[i := s'.harts[i]]
    && s'.total == s.total && s'.printed == s.printed && s'.last == s.last
    && Weight(Added, s'.harts[i]) == Weight(Added, s.harts[i])
    && !s'.harts[i].pc.StoreTotal? && !s'.harts[i].pc.Printed?
  }

  lemma QuietKeepsTotal(s: State, s': State, i: nat)
    requires Shaped(|s.harts|, s) && ReduceOk(s) && ReduceQuiet(|s.harts|, s, s', i)
    ensures ReduceOk(s')
  {
    SumUpdate(Added, s.harts, i, s'.harts[i]);
    hide Weight, Sum;
  }

  /** A step of hart `i` that stores to no DMA register. */
  predicate DmaQuiet(n: nat, s: State, s': State, i: nat)
    requires Shaped(n, s)
  {
    && i < n && Shaped(n, s') && s'.harts == s.harts[i := s'.harts[i]]
    && s'.dma == s.dma && s'.started == s.started
    && (s'.harts[i].pc.WriteReg? ==> s'.harts[i].pc.reg == Src)
  }

  lemma QuietKeepsDma(c: Config, s: State, s': State, i: nat)
    requires Shaped(c.harts, s) && DmaOk(c, s) && DmaQuiet(c.harts, s, s', i)
    ensures DmaOk(c, s')
  {
  }

  predicate Quiet(n: nat, s: State, s': State, i: nat)
    requires Shaped(n, s)
  {
    ClaimQuiet(n, s, s', i) && ReduceQuiet(n, s, s', i) && DmaQuiet(n, s, s', i)
  }

  lemma InitIsQuiet(n: nat, s: State, i: nat)
    requires Shaped(n, s) && i < n && s.harts[i].pc.Init?
    ensures Quiet(n, s, InitStep(n, s, i, s.harts[i].pc.next), i)
  {
  }

  lemma LrIsQuiet(n: nat, s: State, i: nat)
    requires Shaped(n, s) && i < n && s.harts[i].pc.Lr?
    ensures Quiet(n, s, LrStep(n, s, i, s.harts[i].pc.site), i)
  {
  }

  lemma ScFailIsQuiet(n: nat, s: State, i: nat)
    requires Shaped(n, s) && i < n && s.harts[i].pc.Sc?
    ensures Quiet(n, s, ScFail(s, i, s.harts[i].pc.site), i)
  {
  }

  lemma ResumeIsQuiet(site: Site)
    ensures Claiming(Resume(site)) == Claiming(Sc(site)) && HasAdded(Resume(site)) == HasAdded(Sc(site))
    ensures LoopOver(Resume(site)) ==> LoopOver(Sc(site))
    ensures var pc := Resume(site); !pc.LoadCnt? && !pc.StoreCnt? && !pc.StoreTotal? && !pc.Printed? && (pc.WriteReg? ==> pc.reg == Src)
  {
  }

  lemma ScSuccessIsQuiet(n: nat, s: State, i: nat)
    requires Shaped(n, s) && i < n && s.harts[i].pc.Sc?
    ensures Quiet(n, s, ScSuccess(n, s, i, s.harts[i].pc.site), i)
  {
    hide Claiming, LoopOver, HasAdded, Resume, IsWait, SemOf;
    ResumeIsQuiet(s.harts[i].pc.site);
  }

  lemma DmaIsQuiet(c: Config, s: State, i: nat)
    requires Shaped(c.harts, s) && i < c.harts && s.harts[i].pc.WriteReg?
    ensures var s' := DmaStep(c, s, i, s.harts[i].pc.read, s.harts[i].pc.reg);
            ClaimQuiet(c.harts, s, s', i) && ReduceQuiet(c.harts, s, s', i)
  {
  }

  lemma BarrierIsQuiet(c: Config, s: State, i: nat)
    requires Shaped(c.harts, s) && i < c.harts
    requires HasAdded(s.harts[i].pc) && !s.harts[i].pc.Lr? && !s.harts[i].pc.Sc?
    ensures var s' := BarrierStep(c, s, i); ClaimQuiet(c.harts, s, s', i) && DmaQuiet(c.harts, s, s', i)
  {
  }

  lemma WorkIsDmaQuiet(c: Config, s: State, i: nat, errors: nat)
    requires Shaped(c.harts, s) && i < c.harts && AtWork(s.harts[i].pc)
    ensures DmaQuiet(c.harts, s, WorkStep(c, s, i, errors), i)
  {
  }

  predicate Counting(pc: Pc) {
    pc.LoopTest? || pc.TakeId? || pc.LoadCnt? || pc.StoreCnt?
  }

  lemma WorkIsClaimQuiet(c: Config, s: State, i: nat, errors: nat)
    requires Shaped(c.harts, s) && i < c.harts && AtWork(s.harts[i].pc) && !Counting(s.harts[i].pc)
    ensures ClaimQuiet(c.harts, s, WorkStep(c, s, i, errors), i)
  {
  }

  lemma WorkHartAdds(c: Config, s: State, i: nat, errors: nat)
    requires Shaped(c.harts, s) && i < c.harts && AtWork(s.harts[i].pc)
    requires !s.harts[i].pc.LoadTotal? && !s.harts[i].pc.StoreTotal?
    ensures var h := WorkHart(c, s, i, errors); !HasAdded(s.harts[i].pc) && !HasAdded(h.pc) && !h.pc.StoreTotal? && !h.pc.Printed?
  {
  }

  lemma WorkIsReduceQuiet(c: Config, s: State, i: nat, errors: nat)
    requires Shaped(c.harts, s) && i < c.harts && AtWork(s.harts[i].pc)
    requires !s.harts[i].pc.LoadTotal? && !s.harts[i].pc.StoreTotal?
    ensures ReduceQuiet(c.harts, s, WorkStep(c, s, i, errors), i)
  {
    hide HasAdded, WorkHart, AtWork;
    WorkHartAdds(c, s, i, errors);
  }

  /** The unlocked loop test lets at most one hart in for each hart, beyond those counted. */
  lemma LoopTestKeepsClaims(c: Config, s: State, i: nat, errors: nat)
    requires Shaped(c.harts, s) && i < c.harts && ClaimOk(c, s) && s.harts[i].pc.LoopTest?
    ensures ClaimOk(c, WorkStep(c, s, i, errors))
  {
    var s' := WorkStep(c, s, i, errors);
    SumUpdate(InFlight, s.harts, i, s'.harts[i]);
    SumBoundOne(InFlight, s.harts, i);
    hide Sum;
  }

  /** Between taking the id and storing the count nobody else changes `cnt`. */
  lemma LoadingKeepsClaims(c: Config, s: State, i: nat, errors: nat)
    requires Shaped(c.harts, s) && i < c.harts && ClaimOk(c, s)
    requires s.harts[i].pc.TakeId? || s.harts[i].pc.LoadCnt?
    ensures ClaimOk(c, WorkStep(c, s, i, errors))
  {
    hide Sum;
    var s' := WorkStep(c, s, i, errors);
    SumUpdate(InFlight, s.harts, i, s'.harts[i]);
  }

  lemma StoringKeepsClaims(c: Config, s: State, i: nat, errors: nat)
    requires Shaped(c.harts, s) && i < c.harts && ClaimOk(c, s) && LocksOk(s) && s.harts[i].pc.StoreCnt?
    ensures ClaimOk(c, WorkStep(c, s, i, errors))
  {
    hide Sum, Inside, LocksOk, BarrierOk;
    var s' := WorkStep(c, s, i, errors);
    SumUpdate(InFlight, s.harts, i, s'.harts[i]);
    AloneInLock(s, i);
  }

  lemma NobodyReleased(c: Config, s: State, i: nat)
    requires Shaped(c.harts, s) && i < c.harts && BarrierOk(c, s) && !AtBarrier(s.harts[i].pc) && !Signalling(s.harts[i].pc)
    ensures s.last == None
  {
  }

  lemma LoadingKeepsTotal(c: Config, s: State, i: nat, errors: nat)
    requires Shaped(c.harts, s) && i < c.harts && ReduceOk(s) && s.harts[i].pc.LoadTotal?
    ensures ReduceOk(WorkStep(c, s, i, errors))
  {
    hide Sum;
    var s' := WorkStep(c, s, i, errors);
    SumUpdate(Added, s.harts, i, s'.harts[i]);
  }

  lemma StoringKeepsTotal(c: Config, s: State, i: nat, errors: nat)
    requires Shaped(c.harts, s) && i < c.harts && ReduceOk(s) && LocksOk(s) && BarrierOk(c, s) && s.harts[i].pc.StoreTotal?
    ensures ReduceOk(WorkStep(c, s, i, errors))
  {
    hide Sum, Inside, LocksOk, BarrierOk;
    var s' := WorkStep(c, s, i, errors);
    SumUpdate(Added, s.harts, i, s'.harts[i]);
    AloneInLock(s, i);
    NobodyReleased(c, s, i);
  }

  lemma BarrierHartAdds(c: Config, s: State, i: nat)
    requires Shaped(c.harts, s) && i < c.harts
    requires HasAdded(s.harts[i].pc) && !s.harts[i].pc.Lr? && !s.harts[i].pc.Sc?
    ensures var h := BarrierHart(c, s, i);
            && Weight(Added, h) == Weight(Added, s.harts[i]) && !h.pc.StoreTotal?
            && (h.pc.Printed? ==> s.harts[i].pc.Printed? || (s.harts[i].pc.Passed? && i == 0))
  {
  }

  /** Hart 0 prints only when the barrier is complete. */
  lemma BarrierKeepsTotal(c: Config, s: State, i: nat)
    requires Shaped(c.harts, s) && i < c.harts && ReduceOk(s) && BarrierOk(c, s)
    requires HasAdded(s.harts[i].pc) && !s.harts[i].pc.Lr? && !s.harts[i].pc.Sc?
    ensures ReduceOk(BarrierStep(c, s, i))
  {
    hide Sum, BarrierOk, BarrierHart, Weight, HasAdded;
    BarrierHartAdds(c, s, i);
    PassedIsReleased(c, s, i);
    SumUpdate(Added, s.harts, i, BarrierStep(c, s, i).harts[i]);
  }

  lemma PassedIsReleased(c: Config, s: State, i: nat)
    requires Shaped(c.harts, s) && i < c.harts && BarrierOk(c, s)
    ensures s.harts[i].pc.Passed? ==> s.last.Some?
  {
  }

  lemma StoresKeepDma(c: Config, s: State, i: nat)
    requires Shaped(c.harts, s) && i < c.harts && DmaOk(c, s) && LocksOk(s) && s.harts[i].pc.WriteReg?
    ensures DmaOk(c, DmaStep(c, s, i, s.harts[i].pc.read, s.harts[i].pc.reg))
  {
    AloneInDmaLock(s, i);
    hide LocksOk;
  }
}
