/** Every step keeps the facts about the barrier. */
module HartBarrier {
  import opened Harts
  import opened HartSums
  import opened HartInvariants
  import HartWork
  import HartLocks

  /** A step of hart `i` that neither counts, resets, signals nor wakes. */
  predicate BarrierQuiet(n: nat, s: State, s': State, i: nat)
    requires Shaped(n, s)
  {
    && 0 < n && i < n && Shaped(n, s') && s'.harts == s.harts[i := s'.harts[i]]
    && s'.counter == s.counter && s'.last == s.last
    && s'.sem[BarrierSem] == s.sem[BarrierSem]
    && s'.posts[BarrierSem] == s.posts[BarrierSem] && s'.waits[BarrierSem] == s.waits[BarrierSem]
    && QuietHart(n, s.harts[i], s'.harts[i])
    && (s'.harts[i].pc == Sc(SleepWait) ==> s.sem[BarrierSem] > 0)
  }

  predicate QuietHart(n: nat, h: Hart, h': Hart)
    requires 0 < n
  {
    && h'.j == h.j && h'.isLast == h.isLast
    && QuietPc(h.pc, h'.pc)
    && (TokensOk(n, h) ==> TokensOk(n, h'))
  }

  predicate QuietPc(pc: Pc, pc': Pc) {
    && AtBarrier(pc') == AtBarrier(pc) && Through(pc') == Through(pc) && Signalling(pc') == Signalling(pc)
    && !pc'.LoadCounter? && !pc'.StoreCounter? && !pc.ResetCounter? && !pc'.ResetCounter?
  }

  lemma QuietKeepsBarrier(c: Config, s: State, s': State, i: nat)
    requires Shaped(c.harts, s) && BarrierOk(c, s) && 0 < c.harts && BarrierQuiet(c.harts, s, s', i)
    ensures BarrierOk(c, s')
  {
    hide Sum, AtBarrier, Through, Signalling, TokensOk;
    SumUpdate(Arrived, s.harts, i, s'.harts[i]);
    SumUpdate(Woken, s.harts, i, s'.harts[i]);
  }

  lemma InitIsQuiet(n: nat, s: State, i: nat)
    requires Shaped(n, s) && i < n && StartupOk(s) && s.harts[i].pc.Init?
    ensures BarrierQuiet(n, s, InitStep(n, s, i, s.harts[i].pc.next), i)
  {
    hide Early, EndReservations;
    HartLocks.InitMakesReady(n, s, i);
    hide Ready, StartupOk;
  }

  lemma LrIsQuiet(n: nat, s: State, i: nat)
    requires Shaped(n, s) && i < n && s.harts[i].pc.Lr?
    ensures BarrierQuiet(n, s, LrStep(n, s, i, s.harts[i].pc.site), i)
  {
  }

  lemma ScFailIsQuiet(n: nat, s: State, i: nat)
    requires Shaped(n, s) && i < n && s.harts[i].pc.Sc?
    ensures BarrierQuiet(n, s, ScFail(s, i, s.harts[i].pc.site), i)
  {
  }

  lemma MutexResumeIsQuiet(site: Site)
    requires SemOf(site) != BarrierSem
    ensures QuietPc(Sc(site), Resume(site)) && Resume(site) != Sc(SleepWait) && !Through(Resume(site))
    ensures Resume(site) != Lr(SignalPost) && Resume(site) != Lr(LastPost) && !Resume(site).Sc?
  {
  }

  lemma MutexSuccessIsQuiet(n: nat, s: State, i: nat)
    requires Shaped(n, s) && i < n && s.harts[i].pc.Sc? && SemOf(s.harts[i].pc.site) != BarrierSem
    ensures BarrierQuiet(n, s, ScSuccess(n, s, i, s.harts[i].pc.site), i)
  {
    hide QuietPc, AtBarrier, Signalling, EndReservations, Resume;
    MutexResumeIsQuiet(s.harts[i].pc.site);
  }

  lemma DmaIsQuiet(c: Config, s: State, i: nat)
    requires Shaped(c.harts, s) && i < c.harts && s.harts[i].pc.WriteReg?
    ensures BarrierQuiet(c.harts, s, DmaStep(c, s, i, s.harts[i].pc.read, s.harts[i].pc.reg), i)
  {
  }

  lemma WorkIsQuiet(c: Config, s: State, i: nat, errors: nat)
    requires Shaped(c.harts, s) && i < c.harts && AtWork(s.harts[i].pc)
    ensures BarrierQuiet(c.harts, s, WorkStep(c, s, i, errors), i)
  {
  }

  /** The releasing hart posts one more token. */
  lemma SignalKeepsBarrier(c: Config, s: State, i: nat)
    requires Shaped(c.harts, s) && i < c.harts && c.Valid() && BarrierOk(c, s) && HartLocks.SyncOk(s)
    requires s.harts[i].pc == Sc(SignalPost) && s.reserved[i] == Some(BarrierSem)
    ensures BarrierOk(c, ScSuccess(c.harts, s, i, SignalPost))
  {
    hide Sum, LocksOk, StartupOk, CountOk, ReservedOk, EndReservations, Gathering;
    HartLocks.SignalFacts(c, s, i);
    HartLocks.ScIsAtomic(c, s, i);
    SumUpdate(Woken, s.harts, i, ScSuccess(c.harts, s, i, SignalPost).harts[i]);
    hide Stored;
  }

  lemma SleeperIsReleased(c: Config, s: State, i: nat)
    requires Shaped(c.harts, s) && i < c.harts && BarrierOk(c, s) && s.harts[i].pc == Sc(SleepWait)
    ensures s.last.Some? && s.last != Some(i)
  {
  }

  /** A sleeping hart takes a token. */
  lemma WakeKeepsReleasing(c: Config, s: State, s': State, i: nat, l: nat)
    requires Shaped(c.harts, s) && Shaped(c.harts, s') && i < c.harts && Releasing(c, s, l) && i != l
    requires s'.harts == s.harts[i := s.harts[i].(pc := Passed)] && s.harts[i].pc == Sc(SleepWait)
    requires s'.counter == s.counter && s'.posts[BarrierSem] == s.posts[BarrierSem]
    requires s'.waits[BarrierSem] == s.waits[BarrierSem] + 1 && s'.sem[BarrierSem] + 1 == s.sem[BarrierSem]
    ensures Releasing(c, s', l)
  {
    hide Sum, TokensOk, Signalling;
    SumUpdate(Woken, s.harts, i, s'.harts[i]);
  }

  lemma WakeKeepsBarrier(c: Config, s: State, i: nat)
    requires Shaped(c.harts, s) && i < c.harts && c.Valid() && BarrierOk(c, s) && HartLocks.SyncOk(s)
    requires s.harts[i].pc == Sc(SleepWait) && s.reserved[i] == Some(BarrierSem)
    ensures BarrierOk(c, ScSuccess(c.harts, s, i, SleepWait))
  {
    hide LocksOk, StartupOk, CountOk, ReservedOk, EndReservations, Gathering, Releasing, Stored;
    HartLocks.ScIsAtomic(c, s, i);
    SleeperIsReleased(c, s, i);
    WakeKeepsReleasing(c, s, ScSuccess(c.harts, s, i, SleepWait), i, s.last.value);
  }

  /** A hart inside `barrier_lock` is the only one between a load and a store of the counter. */
  lemma AloneInBarrierLock(s: State, i: nat)
    requires Shaped(|s.harts|, s) && i < |s.harts| && LocksOk(s)
    requires s.harts[i].pc.LoadCounter? || s.harts[i].pc.StoreCounter?
    ensures forall k :: 0 <= k < |s.harts| && k != i ==>
              !s.harts[k].pc.LoadCounter? && !s.harts[k].pc.StoreCounter? && !s.harts[k].pc.ResetCounter?
  {
    forall k | 0 <= k < |s.harts| && k != i
      ensures Inside(s.harts[k].pc) != Some(BarrierLock)
    {
      if Inside(s.harts[k].pc) == Some(BarrierLock) {
        HartWork.Exclusive(s, i, k);
      }
    }
    hide LocksOk;
  }

  /** The hart that reads N-1 under the lock is the last: all others have been counted. */
  lemma LastKeepsBarrier(c: Config, s: State, i: nat)
    requires Shaped(c.harts, s) && i < c.harts && c.Valid() && BarrierOk(c, s)
    requires s.harts[i].pc.TestCounter? && s.counter == c.harts - 1
    ensures BarrierOk(c, BarrierStep(c, s, i))
  {
    hide Sum;
    HartWork.NobodyReleased(c, s, i);
    SumFull(Arrived, s.harts, i);
    SumZero(Woken, BarrierStep(c, s, i).harts);
    assert forall k :: 0 <= k < c.harts && k != i ==> AtBarrier(s.harts[k].pc);
    hide Weight;
  }

  lemma NotLastKeepsBarrier(c: Config, s: State, i: nat)
    requires Shaped(c.harts, s) && i < c.harts && c.Valid() && BarrierOk(c, s)
    requires s.harts[i].pc.TestCounter? && s.counter != c.harts - 1
    ensures BarrierOk(c, BarrierStep(c, s, i))
  {
    hide Sum;
    HartWork.NobodyReleased(c, s, i);
    SumBoundOne(Arrived, s.harts, i);
    SumUpdate(Arrived, s.harts, i, BarrierStep(c, s, i).harts[i]);
  }

  lemma LoadKeepsBarrier(c: Config, s: State, i: nat)
    requires Shaped(c.harts, s) && i < c.harts && c.Valid() && BarrierOk(c, s) && s.harts[i].pc.LoadCounter?
    ensures BarrierOk(c, BarrierStep(c, s, i))
  {
    hide Sum, Releasing, TokensOk;
    HartWork.NobodyReleased(c, s, i);
    SumUpdate(Arrived, s.harts, i, BarrierStep(c, s, i).harts[i]);
  }

  /** The counter is stored as loaded plus one, and nobody changed it in between. */
  lemma CountKeepsBarrier(c: Config, s: State, i: nat)
    requires Shaped(c.harts, s) && i < c.harts && c.Valid() && BarrierOk(c, s) && LocksOk(s) && s.harts[i].pc.StoreCounter?
    ensures BarrierOk(c, BarrierStep(c, s, i))
  {
    hide Sum, Inside, LocksOk, Releasing, TokensOk;
    HartWork.NobodyReleased(c, s, i);
    AloneInBarrierLock(s, i);
    SumUpdate(Arrived, s.harts, i, BarrierStep(c, s, i).harts[i]);
  }

  lemma SignallerIsLast(c: Config, s: State, i: nat)
    requires Shaped(c.harts, s) && i < c.harts && BarrierOk(c, s) && Signalling(s.harts[i].pc)
    ensures s.last == Some(i)
  {
  }

  lemma ReleaseKeepsBarrier(c: Config, s: State, i: nat)
    requires Shaped(c.harts, s) && i < c.harts && c.Valid() && BarrierOk(c, s)
    requires s.harts[i].pc.ResetCounter? || s.harts[i].pc.SignalTest?
    ensures BarrierOk(c, BarrierStep(c, s, i))
  {
    hide Sum, Gathering, AtBarrier;
    SignallerIsLast(c, s, i);
    SumUpdate(Woken, s.harts, i, BarrierStep(c, s, i).harts[i]);
  }

  lemma PrintIsQuiet(c: Config, s: State, i: nat)
    requires Shaped(c.harts, s) && i < c.harts && Through(s.harts[i].pc)
    ensures BarrierQuiet(c.harts, s, BarrierStep(c, s, i), i)
  {
  }
}
