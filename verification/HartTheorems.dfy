/** What the program promises, for any number of harts, any number of images and every schedule. */
module HartTheorems {
  import opened Harts
  import opened HartSums
  import opened HartInvariants
  import opened HartRuns
  import opened HartHistory
  import L = HartLocks
  import W = HartWork

  /** A semaphore that starts at 1 and is used as wait then post admits one hart at a time. */
  lemma MutualExclusion(c: Config, events: seq<Event>, i: nat, k: nat)
    requires c.Valid() && Schedule(c, events) && i < c.harts && k < c.harts
    requires var hs := After(c, events).harts; Inside(hs[i].pc).Some? && Inside(hs[i].pc) == Inside(hs[k].pc)
    ensures i == k
  {
    hide After, Inside;
    RunKeepsInv(c, events);
    W.Exclusive(After(c, events), i, k);
  }

  /** The register stores of two harts never interleave, so each transfer starts with its own hart's registers. */
  lemma TransfersAreWhole(c: Config, events: seq<Event>, i: nat, k: nat)
    requires c.Valid() && Schedule(c, events) && i < c.harts && k < c.harts
    ensures var s := After(c, events); s.harts[i].pc.WriteReg? && s.harts[k].pc.WriteReg? ==> i == k
    ensures forall t :: t in After(c, events).started ==> t.regs == c.Request(t.hart, t.read)
  {
    hide After, LocksOk, ReservedOk, StartupOk, CountOk, ClaimOk, ReduceOk, BarrierOk;
    RunKeepsInv(c, events);
    var s := After(c, events);
    if s.harts[i].pc.WriteReg? && s.harts[k].pc.WriteReg? {
      W.AloneInDmaLock(s, i);
    }
  }

  /** A semaphore holds its initial value, once initialised, plus completed posts minus completed waits. */
  lemma SemaphoreCounts(c: Config, events: seq<Event>, m: Sem)
    requires c.Valid() && Schedule(c, events)
    ensures var s := After(c, events);
            s.sem[m] == (if Ready(s, m) then InitialValue(m) else 0) + s.posts[m] - s.waits[m]
  {
    hide After, LocksOk, ReservedOk, StartupOk, ClaimOk, ReduceOk, BarrierOk, DmaOk;
    RunKeepsInv(c, events);
  }

  lemma SuccessHistory(c: Config, s: State, i: nat)
    requires Shaped(c.harts, s) && i < c.harts && s.harts[i].pc.Sc? && s.reserved[i] == Some(SemOf(s.harts[i].pc.site))
    ensures var site := s.harts[i].pc.site; var m := SemOf(site); var s' := ScSuccess(c.harts, s, i, site);
            && s'.waits == (if IsWait(site) then s.waits[m := s.waits[m] + 1] else s.waits)
            && s'.posts == (if IsWait(site) then s.posts else s.posts[m := s.posts[m] + 1])
            && s'.harts[i].pc == Resume(site)
            && Next(c, s, Run(i, false, 0)) == s'
  {
    hide SemOf, IsWait, Stored, Resume, EndReservations;
  }

  /** A store-conditional that succeeds is one atomic step up or down; a wait never takes a word below zero. */
  lemma StoreConditionalIsAtomic(c: Config, events: seq<Event>, i: nat)
    requires c.Valid() && Schedule(c, events) && i < c.harts
    requires var s := After(c, events); s.harts[i].pc.Sc? && s.reserved[i] == Some(SemOf(s.harts[i].pc.site))
    ensures var s := After(c, events); var site := s.harts[i].pc.site; var m := SemOf(site);
            var s' := Next(c, s, Run(i, false, 0));
            && (IsWait(site) ==> s.sem[m] > 0 && s'.sem == s.sem[m := s.sem[m] - 1] && s'.waits[m] == s.waits[m] + 1)
            && (!IsWait(site) ==> s'.sem == s.sem[m := s.sem[m] + 1] && s'.posts[m] == s.posts[m] + 1)
            && s'.harts[i].pc == Resume(site)
  {
    hide After, LocksOk, ReservedOk, StartupOk, CountOk, ClaimOk, ReduceOk, BarrierOk, DmaOk;
    hide Next, ScSuccess, SemOf, IsWait, Resume;
    RunKeepsInv(c, events);
    L.ScIsAtomic(c, After(c, events), i);
    SuccessHistory(c, After(c, events), i);
  }

  /** When hart 0 initialises a word nobody has posted, waited or entered, so nothing is overwritten. */
  lemma LateInitialisationIsSafe(c: Config, events: seq<Event>, m: Sem)
    requires c.Valid() && Schedule(c, events) && !Ready(After(c, events), m)
    ensures var s := After(c, events);
            && s.sem[m] == s.posts[m] == s.waits[m] == 0
            && forall k :: 0 <= k < c.harts ==> Inside(s.harts[k].pc) != Some(m)
  {
    hide After, Ready, Inside, ReservedOk, CountOk, ClaimOk, ReduceOk, DmaOk, BarrierOk;
    RunKeepsInv(c, events);
    var s := After(c, events);
    forall k | 0 <= k < c.harts
      ensures Inside(s.harts[k].pc) != Some(m)
    {
      NotInsideBarrierSem(s.harts[k].pc);
    }
  }

  lemma NotInsideBarrierSem(pc: Pc)
    ensures Inside(pc) != Some(BarrierSem)
  {
  }

  /** Nobody leaves the barrier before everybody has arrived with its errors added. */
  lemma BarrierWaitsForAll(c: Config, events: seq<Event>, i: nat, k: nat)
    requires c.Valid() && Schedule(c, events) && i < c.harts && k < c.harts
    requires Through(After(c, events).harts[i].pc)
    ensures var pc := After(c, events).harts[k].pc; (AtBarrier(pc) || Signalling(pc)) && HasAdded(pc)
  {
    hide After, LocksOk, StartupOk, CountOk, ClaimOk, ReduceOk, DmaOk, ReservedOk, Sum;
    RunKeepsInv(c, events);
  }

  /** The last hart posts one token for each of the N-1 others, and tokens left match harts still waiting. */
  lemma BarrierTokens(c: Config, events: seq<Event>, l: nat)
    requires c.Valid() && Schedule(c, events) && After(c, events).last == Some(l)
    ensures var s := After(c, events);
            && l < c.harts && s.posts[BarrierSem] == s.harts[l].j <= c.harts - 1
            && (Through(s.harts[l].pc) ==> s.posts[BarrierSem] == c.harts - 1)
            && (Through(s.harts[l].pc) ==> s.sem[BarrierSem] == c.harts - 1 - Sum(Woken, s.harts))
            && (Through(s.harts[l].pc) ==> s.counter == 0)
            && (forall k :: 0 <= k < c.harts && k != l ==> AtBarrier(s.harts[k].pc) && !s.harts[k].isLast)
  {
    hide After, LocksOk, StartupOk, CountOk, ClaimOk, ReduceOk, DmaOk, ReservedOk, Sum;
    RunKeepsInv(c, events);
  }

  /** What hart 0 prints is the number of mismatches in all comparisons that all harts have made. */
  lemma PrintedTotal(c: Config, events: seq<Event>)
    requires c.Valid() && Schedule(c, events) && After(c, events).printed.Some?
    ensures After(c, events).printed.value == AllMismatches(c, events, c.harts)
  {
    hide After, LocksOk, StartupOk, CountOk, ClaimOk, DmaOk, ReservedOk, Sum;
    RunKeepsInv(c, events);
    var s := After(c, events);
    assert forall k :: 0 <= k < c.harts ==> HasAdded(s.harts[k].pc);
    AllAdded(s.harts);
    SumIsMismatches(c, events, c.harts);
    assert s.harts[..c.harts] == s.harts;
  }

  /** A hart between a load and a store of shared data holds the word that guards it, and that word is zero. */
  lemma WordsGuard(c: Config, events: seq<Event>, i: nat)
    requires c.Valid() && Schedule(c, events) && i < c.harts
    ensures var s := After(c, events); var pc := s.harts[i].pc;
            && (pc.TakeId? || pc.LoadCnt? || pc.StoreCnt? || pc.LoadTotal? || pc.StoreTotal? ==> s.sem[Lock] == 0)
            && (pc.WriteReg? ==> s.sem[DmaLock] == 0)
            && (pc.TestCounter? || pc.ResetCounter? || pc.LoadCounter? || pc.StoreCounter? ==> s.sem[BarrierLock] == 0)
  {
    hide After, ReservedOk, StartupOk, CountOk, ClaimOk, ReduceOk, BarrierOk, DmaOk, Ready;
    RunKeepsInv(c, events);
  }

  /** Claimed ids are 0, 1, 2, ... without gap or repetition, and the count can overshoot by N-1 at most. */
  lemma ClaimsAreOrdered(c: Config, events: seq<Event>)
    requires c.Valid() && Schedule(c, events)
    ensures var s := After(c, events);
            && s.cnt == |s.claims|
            && (forall k :: 0 <= k < |s.claims| ==> s.claims[k].id == k)
            && s.cnt + Sum(InFlight, s.harts) <= c.images + c.harts - 1
  {
    hide After, LocksOk, StartupOk, CountOk, ReduceOk, BarrierOk, DmaOk, ReservedOk, Sum, LoopOver;
    RunKeepsInv(c, events);
  }

  /** Once some hart's loop has ended every image is claimed. */
  lemma AllImagesClaimed(c: Config, events: seq<Event>, i: nat, id: nat)
    requires c.Valid() && Schedule(c, events) && i < c.harts && id < c.images
    requires LoopOver(After(c, events).harts[i].pc)
    ensures var s := After(c, events);
            && c.images <= s.cnt <= c.images + c.harts - 1
            && id < |s.claims| && s.claims[id].id == id && forall k :: 0 <= k < |s.claims| && k != id ==> s.claims[k].id != id
  {
    hide After, LocksOk, StartupOk, CountOk, ReduceOk, BarrierOk, DmaOk, ReservedOk, Sum, LoopOver;
    RunKeepsInv(c, events);
  }
}
