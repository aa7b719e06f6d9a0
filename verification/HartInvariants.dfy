/** What every step of every hart keeps. Each predicate is one group of facts; `Inv` is all of them. */
module HartInvariants {
  import opened Harts
  import opened HartSums

  function Rank(m: Sem): nat {
    match m
    case BarrierLock => 0
    case BarrierSem => 1
    case Lock => 2
    case DmaLock => 3
  }

  predicate IsMutex(m: Sem) {
    m != BarrierSem
  }

  /** Hart 0 has initialised the word. */
  predicate Ready(s: State, m: Sem)
    requires |s.harts| > 0
  {
    s.harts[0].pc.Init? ==> Rank(m) < Rank(s.harts[0].pc.next)
  }

  /** The mutex a hart at `pc` is inside of. */
  function Inside(pc: Pc): Option<Sem> {
    match pc
    case TakeId | LoadCnt | StoreCnt | LoadTotal | StoreTotal => Some(Lock)
    case WriteReg(_, _) => Some(DmaLock)
    case TestCounter | ResetCounter | LoadCounter | StoreCounter => Some(BarrierLock)
    case Lr(site) => if IsWait(site) || site == SignalPost then None else Some(SemOf(site))
    case Sc(site) => if IsWait(site) || site == SignalPost then None else Some(SemOf(site))
    case _ => None
  }

  /** Where a hart can get before `lock` is initialised. */
  predicate Early(pc: Pc) {
    pc.LoopTest? || pc == Lr(ClaimWait) || pc == Lr(AddWait)
  }

  /** A mutex is 0 when held or not initialised, otherwise 1; its owner is the one hart inside. */
  predicate LocksOk(s: State)
    requires Shaped(|s.harts|, s) && |s.harts| > 0
  {
    && (forall m :: IsMutex(m) ==> s.sem[m] == if Ready(s, m) && s.owner[m] == None then 1 else 0)
    && (forall m :: IsMutex(m) && s.owner[m].Some? ==>
          s.owner[m].value < |s.harts| && Inside(s.harts[s.owner[m].value].pc) == Some(m) && Ready(s, m))
    && (forall k :: 0 <= k < |s.harts| && Inside(s.harts[k].pc).Some? ==>
          s.owner[Inside(s.harts[k].pc).value] == Some(k))
  }

  /** A live reservation means that the word still has the value that was loaded. */
  predicate ReservedOk(s: State)
    requires Shaped(|s.harts|, s)
  {
    && (forall k :: 0 <= k < |s.harts| && s.reserved[k].Some? ==> s.harts[k].value == s.sem[s.reserved[k].value])
    && (forall k :: 0 <= k < |s.harts| && s.harts[k].pc.Sc? && IsWait(s.harts[k].pc.site) ==> s.harts[k].value > 0)
  }

  /** Nothing has happened to a word before it is initialised. */
  predicate StartupOk(s: State)
    requires Shaped(|s.harts|, s) && |s.harts| > 0
  {
    && (forall k :: 0 < k < |s.harts| ==> !s.harts[k].pc.Init?)
    && (!Ready(s, Lock) ==> forall k :: 0 < k < |s.harts| ==> Early(s.harts[k].pc))
    && (forall m :: !Ready(s, m) ==> s.sem[m] == s.posts[m] == s.waits[m] == 0)
  }

  /** A semaphore holds its initial value plus posts minus waits. */
  predicate CountOk(s: State)
    requires Shaped(|s.harts|, s) && |s.harts| > 0
  {
    forall m :: s.sem[m] == (if Ready(s, m) then InitialValue(m) else 0) + s.posts[m] - s.waits[m]
  }

  /** The loop of a hart at `pc` has ended. */
  predicate LoopOver(pc: Pc) {
    pc == Lr(AddWait) || pc == Sc(AddWait) || pc.LoadTotal? || pc.StoreTotal? || HasAdded(pc)
  }

  /** Ids are claimed in order; `cnt` counts them and cannot run away. */
  predicate ClaimOk(c: Config, s: State)
    requires Shaped(c.harts, s)
  {
    && s.cnt == |s.claims|
    && (forall k :: 0 <= k < |s.claims| ==> s.claims[k].id == k && s.claims[k].hart < c.harts)
    && s.cnt + Sum(InFlight, s.harts) <= c.images + c.harts - 1
    && (forall k :: 0 <= k < c.harts ==>
          && ((s.harts[k].pc.LoadCnt? || s.harts[k].pc.StoreCnt?) ==> s.harts[k].curId == s.cnt)
          && (s.harts[k].pc == StoreCnt ==> s.harts[k].tmp == s.cnt)
          && (LoopOver(s.harts[k].pc) ==> s.cnt >= c.images))
  }

  /** The total is the sum of the errors added so far, also when it is printed. */
  predicate ReduceOk(s: State)
    requires Shaped(|s.harts|, s)
  {
    && s.total == Sum(Added, s.harts)
    && (forall k :: 0 <= k < |s.harts| && s.harts[k].pc == StoreTotal ==> s.harts[k].tmp == s.total)
    && (s.printed.Some? ==> s.printed.value == s.total && s.last.Some?)
    && (forall k :: 0 <= k < |s.harts| && s.harts[k].pc.Printed? ==> s.printed.Some?)
  }

  /** How many of its tokens the hart at `pc` has posted. */
  predicate TokensOk(n: nat, h: Hart) {
    && ((h.pc.ResetCounter? || h.pc == Lr(LastPost) || h.pc == Sc(LastPost)) ==> h.j == 0)
    && ((h.pc == Lr(SignalPost) || h.pc == Sc(SignalPost)) ==> h.j < n - 1)
    && (Through(h.pc) ==> h.j == n - 1)
    && h.j <= n - 1
  }

  /** Nobody has found the barrier complete yet. */
  predicate Gathering(c: Config, s: State)
    requires Shaped(c.harts, s)
  {
    && s.counter == Sum(Arrived, s.harts) <= c.harts - 1
    && s.sem[BarrierSem] == s.posts[BarrierSem] == s.waits[BarrierSem] == 0
    && (forall k :: 0 <= k < c.harts ==>
         && !Through(s.harts[k].pc) && !Signalling(s.harts[k].pc) && !s.harts[k].isLast && s.harts[k].pc != Sc(SleepWait)
         && ((s.harts[k].pc.LoadCounter? || s.harts[k].pc.StoreCounter?) ==> s.counter < c.harts - 1)
         && (s.harts[k].pc == StoreCounter ==> s.harts[k].tmp == s.counter))
  }

  /** Hart `l` found the barrier complete: the others have arrived, and its tokens are posted or used. */
  predicate Releasing(c: Config, s: State, l: nat)
    requires Shaped(c.harts, s)
  {
    && l < c.harts
    && (Signalling(s.harts[l].pc) || Through(s.harts[l].pc))
    && (forall k :: 0 <= k < c.harts && k != l ==> AtBarrier(s.harts[k].pc))
    && (forall k :: 0 <= k < c.harts ==> (s.harts[k].isLast <==> k == l))
    && TokensOk(c.harts, s.harts[l])
    && s.posts[BarrierSem] == s.harts[l].j
    && s.waits[BarrierSem] == Sum(Woken, s.harts)
    && s.sem[BarrierSem] + s.waits[BarrierSem] == s.posts[BarrierSem]
    && s.counter == (if s.harts[l].pc == ResetCounter then c.harts - 1 else 0)
  }

  predicate BarrierOk(c: Config, s: State)
    requires Shaped(c.harts, s)
  {
    && (s.last.None? ==> Gathering(c, s))
    && (s.last.Some? ==> Releasing(c, s, s.last.value))
    && (forall k :: 0 <= k < c.harts && s.last != Some(k) ==> s.harts[k].j == 0)
  }

  /** The registers a hart has written are still as it wrote them, and each started transfer was its starter's. */
  predicate DmaOk(c: Config, s: State)
    requires Shaped(c.harts, s)
  {
    && (forall k :: 0 <= k < c.harts && s.harts[k].pc.WriteReg? ==> Written(c, s.dma, k, s.harts[k].pc.read, s.harts[k].pc.reg))
    && (forall k :: 0 <= k < |s.started| ==> s.started[k].regs == c.Request(s.started[k].hart, s.started[k].read))
  }

  /** The registers before `reg`, in the order of the stores, hold hart `i`'s request. */
  predicate Written(c: Config, dma: DmaRegs, i: nat, read: bool, reg: Reg) {
    && (reg != Src ==> dma.src == c.Request(i, read).src)
    && (reg == Len || reg == Op ==> dma.dst == c.Request(i, read).dst)
    && (reg == Op ==> dma.len == c.Request(i, read).len)
  }

  predicate Inv(c: Config, s: State) {
    && c.Valid() && Shaped(c.harts, s)
    && LocksOk(s) && ReservedOk(s) && StartupOk(s) && CountOk(s)
    && ClaimOk(c, s) && ReduceOk(s) && BarrierOk(c, s) && DmaOk(c, s)
  }

  lemma StartBarrier(c: Config)
    requires c.Valid()
    ensures BarrierOk(c, Start(c))
  {
    SumZero(Arrived, Start(c).harts);
  }

  lemma StartClaims(c: Config)
    requires c.Valid()
    ensures ClaimOk(c, Start(c)) && DmaOk(c, Start(c))
  {
    SumZero(InFlight, Start(c).harts);
  }

  lemma StartTotal(c: Config)
    requires c.Valid()
    ensures ReduceOk(Start(c))
  {
    SumZero(Added, Start(c).harts);
  }

  lemma StartInv(c: Config)
    requires c.Valid()
    ensures Inv(c, Start(c))
  {
    hide ClaimOk, ReduceOk, DmaOk, BarrierOk;
    StartBarrier(c);
    StartClaims(c);
    StartTotal(c);
  }
}
