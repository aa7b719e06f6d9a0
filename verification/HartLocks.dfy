/** Every step keeps the facts about semaphore words, owners, reservations and start-up. */
module HartLocks {
  import opened Harts
  import opened HartSums
  import opened HartInvariants

  predicate SyncOk(s: State)
    requires Shaped(|s.harts|, s) && |s.harts| > 0
  {
    LocksOk(s) && ReservedOk(s) && StartupOk(s) && CountOk(s)
  }

  /** A step of hart `i` that touches no semaphore word and neither enters nor leaves a mutex. */
  predicate Access(n: nat, s: State, s': State, i: nat)
    requires Shaped(n, s)
  {
    && i < n && Shaped(n, s')
    && s'.harts == s.harts[i := s'.harts[i]]
    && s'.sem == s.sem && s'.reserved == s.reserved
    && s'.posts == s.posts && s'.waits == s.waits && s'.owner == s.owner
    && s'.harts[i].value == s.harts[i].value
    && !s.harts[i].pc.Init? && !s'.harts[i].pc.Init? && !s'.harts[i].pc.Sc?
    && Inside(s'.harts[i].pc) == Inside(s.harts[i].pc)
    && (Early(s.harts[i].pc) ==> Early(s'.harts[i].pc))
  }

  lemma AccessKeepsSync(n: nat, s: State, s': State, i: nat)
    requires Shaped(n, s) && n > 0 && SyncOk(s) && Access(n, s, s', i)
    ensures SyncOk(s')
  {
    hide Inside, Early, IsWait;
    assert forall m :: Ready(s', m) == Ready(s, m);
  }

  lemma WorkIsAccess(c: Config, s: State, i: nat, errors: nat)
    requires Shaped(c.harts, s) && i < c.harts && AtWork(s.harts[i].pc)
    ensures Access(c.harts, s, WorkStep(c, s, i, errors), i)
  {
  }

  lemma DmaIsAccess(c: Config, s: State, i: nat)
    requires Shaped(c.harts, s) && i < c.harts && s.harts[i].pc.WriteReg?
    ensures Access(c.harts, s, DmaStep(c, s, i, s.harts[i].pc.read, s.harts[i].pc.reg), i)
  {
  }

  predicate InBarrier(pc: Pc) {
    pc.TestCounter? || pc.ResetCounter? || pc.LoadCounter? || pc.StoreCounter? || pc.SignalTest? || pc.Passed? || pc.Printed?
  }

  lemma BarrierIsAccess(c: Config, s: State, i: nat)
    requires Shaped(c.harts, s) && i < c.harts && InBarrier(s.harts[i].pc)
    ensures Access(c.harts, s, BarrierStep(c, s, i), i)
  {
  }

  lemma InitMakesReady(n: nat, s: State, i: nat)
    requires Shaped(n, s) && i < n && StartupOk(s) && s.harts[i].pc.Init?
    ensures var m := s.harts[i].pc.next; var s' := InitStep(n, s, i, m);
            && i == 0 && !Ready(s, m)
            && (forall w :: Ready(s', w) <==> Ready(s, w) || w == m)
            && Inside(s.harts[i].pc) == Inside(s'.harts[i].pc) == None && !s'.harts[i].pc.Sc?
  {
    hide Early;
  }

  lemma InitKeepsLocks(n: nat, s: State, i: nat)
    requires Shaped(n, s) && i < n && StartupOk(s) && LocksOk(s) && s.harts[i].pc.Init?
    ensures LocksOk(InitStep(n, s, i, s.harts[i].pc.next))
  {
    hide StartupOk, Inside, Ready, AfterInit;
    InitMakesReady(n, s, i);
  }

  lemma InitKeepsCounts(n: nat, s: State, i: nat)
    requires Shaped(n, s) && i < n && StartupOk(s) && CountOk(s) && ReservedOk(s) && s.harts[i].pc.Init?
    ensures var s' := InitStep(n, s, i, s.harts[i].pc.next); StartupOk(s') && CountOk(s') && ReservedOk(s')
  {
    hide Early, Inside, IsWait, Ready, AfterInit;
    InitMakesReady(n, s, i);
    var s' := InitStep(n, s, i, s.harts[i].pc.next);
    assert CountOk(s');
    assert ReservedOk(s');
  }

  lemma InitKeepsSync(n: nat, s: State, i: nat)
    requires Shaped(n, s) && i < n && SyncOk(s) && s.harts[i].pc.Init?
    ensures SyncOk(InitStep(n, s, i, s.harts[i].pc.next))
  {
    hide LocksOk, ReservedOk, StartupOk, CountOk, InitStep;
    InitKeepsLocks(n, s, i);
    InitKeepsCounts(n, s, i);
  }

  lemma SuccessKeepsReady(n: nat, s: State, i: nat)
    requires Shaped(n, s) && i < n && n > 0 && s.harts[i].pc.Sc?
    ensures var s' := ScSuccess(n, s, i, s.harts[i].pc.site);
            && (forall w :: Ready(s', w) == Ready(s, w))
            && !s'.harts[i].pc.Sc? && !s'.harts[i].pc.Init?
  {
  }

  /** Hart `i` moves, and the mutex word `m` and its owner change together. */
  lemma HandOver(n: nat, s: State, s': State, i: nat, m: Sem, holder: Option<nat>)
    requires Shaped(n, s) && Shaped(n, s') && i < n && LocksOk(s) && IsMutex(m) && Ready(s, m)
    requires s'.harts == s.harts[i := s'.harts[i]] && (forall w :: Ready(s', w) == Ready(s, w))
    requires s'.sem == s.sem[m := if holder == None then 1 else 0] && s'.owner == s.owner[m := holder]
    requires holder == Some(i) ==> Inside(s.harts[i].pc) == None && Inside(s'.harts[i].pc) == Some(m) && s.owner[m] == None
    requires holder == None ==> Inside(s.harts[i].pc) == Some(m) && Inside(s'.harts[i].pc) == None
    requires holder == None || holder == Some(i)
    ensures LocksOk(s')
  {
    hide Inside, Ready;
  }

  /** A move that changes neither a mutex nor its owner. */
  lemma NoHandOver(n: nat, s: State, s': State, i: nat)
    requires Shaped(n, s) && Shaped(n, s') && i < n && LocksOk(s)
    requires s'.harts == s.harts[i := s'.harts[i]] && (forall w :: Ready(s', w) == Ready(s, w))
    requires forall m :: IsMutex(m) ==> s'.sem[m] == s.sem[m]
    requires s'.owner == s.owner && Inside(s.harts[i].pc) == None && Inside(s'.harts[i].pc) == None
    ensures LocksOk(s')
  {
    hide Inside, Ready;
  }

  lemma InsideAfter(site: Site)
    requires SemOf(site) != BarrierSem
    ensures Inside(Resume(site)) == if IsWait(site) then Some(SemOf(site)) else None
    ensures Inside(Sc(site)) == if IsWait(site) then None else Some(SemOf(site))
  {
  }

  /** A successful wait on a mutex takes it, a successful post releases it. */
  lemma SuccessKeepsLocks(n: nat, s: State, i: nat)
    requires Shaped(n, s) && i < n && SyncOk(s)
    requires s.harts[i].pc.Sc? && s.reserved[i] == Some(SemOf(s.harts[i].pc.site))
    ensures LocksOk(ScSuccess(n, s, i, s.harts[i].pc.site))
  {
    hide Ready, StartupOk, ReservedOk, CountOk, LocksOk, Inside, EndReservations;
    SuccessKeepsReady(n, s, i);
    var site := s.harts[i].pc.site;
    var s' := ScSuccess(n, s, i, site);
    if SemOf(site) == BarrierSem {
      NoSemaphoreInside(site);
      NoHandOver(n, s, s', i);
    } else {
      ScFacts(n, s, i);
      InsideAfter(site);
      WaitFindsFree(n, s, SemOf(site));
      HandOver(n, s, s', i, SemOf(site), if IsWait(site) then Some(i) else None);
    }
  }

  lemma NoSemaphoreInside(site: Site)
    requires SemOf(site) == BarrierSem
    ensures Inside(Sc(site)) == None && Inside(Resume(site)) == None
  {
  }

  lemma WaitFindsFree(n: nat, s: State, m: Sem)
    requires Shaped(n, s) && n > 0 && LocksOk(s) && IsMutex(m)
    ensures s.sem[m] <= 1 && (s.sem[m] > 0 ==> s.owner[m] == None)
  {
    hide Inside, Ready;
  }

  /** A store-conditional that succeeds adds or subtracts exactly 1, without wrapping, and touches no other word. */
  lemma ScIsAtomic(c: Config, s: State, i: nat)
    requires Shaped(c.harts, s) && i < c.harts && c.Valid() && SyncOk(s) && BarrierOk(c, s)
    requires s.harts[i].pc.Sc? && s.reserved[i] == Some(SemOf(s.harts[i].pc.site))
    ensures var site := s.harts[i].pc.site; var m := SemOf(site); var s' := ScSuccess(c.harts, s, i, site);
            && Ready(s, m)
            && (IsWait(site) ==> s.sem[m] > 0 && s'.sem == s.sem[m := s.sem[m] - 1])
            && (!IsWait(site) ==> s'.sem == s.sem[m := s.sem[m] + 1])
  {
    hide Ready, SyncOk, BarrierOk, EndReservations, Resume;
    var h := s.harts[i];
    if h.pc.site == SignalPost {
      SignalFacts(c, s, i);
    } else {
      ScFacts(c.harts, s, i);
    }
    StoredExact(h.pc.site, h.value);
    hide SemOf, IsWait, Stored;
  }

  lemma StoredExact(site: Site, v: nat)
    requires if IsWait(site) then v > 0 else v < 0xffff_ffff
    ensures Stored(site, v) == if IsWait(site) then v - 1 else v + 1
  {
  }

  lemma SuccessKeepsCounts(c: Config, s: State, i: nat)
    requires Shaped(c.harts, s) && i < c.harts && c.Valid() && SyncOk(s) && BarrierOk(c, s)
    requires s.harts[i].pc.Sc? && s.reserved[i] == Some(SemOf(s.harts[i].pc.site))
    ensures CountOk(ScSuccess(c.harts, s, i, s.harts[i].pc.site))
  {
    hide Ready, BarrierOk, LocksOk, ReservedOk, StartupOk, SemOf, EndReservations, IsWait;
    ScIsAtomic(c, s, i);
    SuccessKeepsReady(c.harts, s, i);
  }

  lemma SuccessKeepsStartup(c: Config, s: State, i: nat)
    requires Shaped(c.harts, s) && i < c.harts && c.Valid() && SyncOk(s) && BarrierOk(c, s)
    requires s.harts[i].pc.Sc? && s.reserved[i] == Some(SemOf(s.harts[i].pc.site))
    ensures var s' := ScSuccess(c.harts, s, i, s.harts[i].pc.site); StartupOk(s') && ReservedOk(s')
  {
    hide BarrierOk, LocksOk, CountOk, SemOf, IsWait, Early, Ready;
    ScIsAtomic(c, s, i);
    SuccessKeepsReady(c.harts, s, i);
    if !Ready(s, Lock) && i > 0 {
      EarlyWaits(s, i);
    }
    var s' := ScSuccess(c.harts, s, i, s.harts[i].pc.site);
    assert ReservedOk(s');
    assert StartupOk(s');
  }

  /** Until `lock` is initialised, the other harts can only fail to get it. */
  lemma EarlyWaits(s: State, i: nat)
    requires Shaped(|s.harts|, s) && 0 < i < |s.harts| && SyncOk(s) && !Ready(s, Lock)
    ensures Early(s.harts[i].pc) && s.sem[Lock] == 0 && !s.harts[i].pc.Sc?
    ensures s.harts[i].pc.Lr? ==> IsWait(s.harts[i].pc.site) && SemOf(s.harts[i].pc.site) == Lock
  {
  }

  lemma LrKeepsPlace(n: nat, s: State, i: nat)
    requires Shaped(n, s) && i < n && SyncOk(s) && s.harts[i].pc.Lr?
    ensures var s' := LrStep(n, s, i, s.harts[i].pc.site);
            && (forall m :: Ready(s', m) == Ready(s, m))
            && Inside(s'.harts[i].pc) == Inside(s.harts[i].pc)
            && !s'.harts[i].pc.Init?
            && (!Ready(s, Lock) && i > 0 ==> s'.harts[i].pc == s.harts[i].pc)
  {
    if !Ready(s, Lock) && i > 0 {
      EarlyWaits(s, i);
    }
    hide LocksOk, ReservedOk, CountOk, StartupOk;
  }

  lemma LrKeepsLocks(n: nat, s: State, i: nat)
    requires Shaped(n, s) && i < n && SyncOk(s) && s.harts[i].pc.Lr?
    ensures LocksOk(LrStep(n, s, i, s.harts[i].pc.site))
  {
    hide Inside, SemOf, Ready, IsWait, ReservedOk, CountOk, StartupOk;
    LrKeepsPlace(n, s, i);
  }

  lemma LrKeepsSync(n: nat, s: State, i: nat)
    requires Shaped(n, s) && i < n && SyncOk(s) && s.harts[i].pc.Lr?
    ensures SyncOk(LrStep(n, s, i, s.harts[i].pc.site))
  {
    hide Early, Inside, SemOf, Ready, LocksOk;
    LrKeepsPlace(n, s, i);
    LrKeepsLocks(n, s, i);
  }

  lemma ScFailKeepsSync(n: nat, s: State, i: nat)
    requires Shaped(n, s) && i < n && SyncOk(s) && s.harts[i].pc.Sc?
    ensures SyncOk(ScFail(s, i, s.harts[i].pc.site))
  {
    var site := s.harts[i].pc.site;
    var s' := ScFail(s, i, site);
    assert forall m :: Ready(s', m) == Ready(s, m);
    assert Inside(s'.harts[i].pc) == Inside(s.harts[i].pc);
    if !Ready(s, Lock) && i > 0 {
      EarlyWaits(s, i);
    }
    hide Early, Inside, SemOf, Ready;
    assert LocksOk(s');
    assert StartupOk(s');
  }

  /** What a hart about to store into a semaphore word on a live reservation can rely on. */
  lemma ScFacts(n: nat, s: State, i: nat)
    requires Shaped(n, s) && i < n && SyncOk(s)
    requires s.harts[i].pc.Sc? && s.reserved[i] == Some(SemOf(s.harts[i].pc.site)) && s.harts[i].pc.site != SignalPost
    ensures var site := s.harts[i].pc.site; var m := SemOf(site);
            && Ready(s, m) && s.harts[i].value == s.sem[m]
            && (IsWait(site) ==> s.sem[m] > 0)
            && (!IsWait(site) ==> IsMutex(m) && s.sem[m] == 0 && s.owner[m] == Some(i))
  {
    hide Early, Ready;
  }

  lemma SignalFacts(c: Config, s: State, i: nat)
    requires Shaped(c.harts, s) && i < c.harts && c.Valid() && SyncOk(s) && BarrierOk(c, s)
    requires s.harts[i].pc == Sc(SignalPost) && s.reserved[i] == Some(BarrierSem)
    ensures s.last == Some(i) && s.harts[i].j < c.harts - 1
    ensures Ready(s, BarrierSem) && s.harts[i].value == s.sem[BarrierSem] <= s.harts[i].j
  {
    hide Inside, LocksOk, CountOk;
    assert s.last == Some(i);
  }
}
