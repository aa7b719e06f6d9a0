/** What each hart has done over a schedule, counted on the schedule itself. */
module HartHistory {
  import opened Harts
  import opened HartSums
  import opened HartInvariants
  import L = HartLocks

  /** Event `e` is hart `i`'s access at `pc`. */
  predicate Does(s: State, e: Event, i: nat, pc: Pc)
    requires i < |s.harts|
  {
    e.Run? && e.hart == i && s.harts[i].pc == pc
  }

  /** How often hart `i` has made the access at `pc`. */
  function Times(c: Config, events: seq<Event>, i: nat, pc: Pc): nat
    requires Schedule(c, events) && i < c.harts
  {
    if events == [] then 0
    else
      var rest := events[..|events| - 1];
      Times(c, rest, i, pc) + if Does(After(c, rest), events[|events| - 1], i, pc) then 1 else 0
  }

  /** The mismatches that hart `i` has counted: at most ten in each comparison it has made. */
  function Mismatches(c: Config, events: seq<Event>, i: nat): nat
    requires Schedule(c, events) && i < c.harts
  {
    if events == [] then 0
    else
      var rest := events[..|events| - 1];
      var e := events[|events| - 1];
      Mismatches(c, rest, i) + if Does(After(c, rest), e, i, Compare) then (if e.errors <= 10 then e.errors else 10) else 0
  }

  /** The mismatches of harts 0 to `n`. */
  function AllMismatches(c: Config, events: seq<Event>, n: nat): nat
    requires Schedule(c, events) && n <= c.harts
  {
    if n == 0 then 0 else AllMismatches(c, events, n - 1) + Mismatches(c, events, n - 1)
  }

  /** How often hart `i`'s accelerator has interrupted. */
  function Interrupts(events: seq<Event>, i: nat): nat {
    if events == [] then 0
    else Interrupts(events[..|events| - 1], i) + if events[|events| - 1] == Interrupt(i) then 1 else 0
  }

  // ----- What one event does to one hart -----

  /** The errors that the event adds to hart `i`'s count. */
  function Added(s: State, e: Event, i: nat): nat
    requires i < |s.harts|
  {
    if Does(s, e, i, Compare) then (if e.errors <= 10 then e.errors else 10) else 0
  }

  lemma OthersStay(c: Config, s: State, e: Event, i: nat)
    requires Shaped(c.harts, s) && e.hart < c.harts && i < c.harts && (e.Interrupt? || e.hart != i)
    ensures Next(c, s, e).harts[i] == s.harts[i]
  {
    hide WorkHart, BarrierHart, EndReservations, Stored, Resume, SemOf, IsWait, AfterInit, AfterReg;
  }

  lemma SemaphoreErrors(n: nat, s: State, i: nat)
    requires Shaped(n, s) && i < n
    ensures s.harts[i].pc.Init? ==> InitStep(n, s, i, s.harts[i].pc.next).harts[i].localError == s.harts[i].localError
    ensures s.harts[i].pc.Lr? ==> LrStep(n, s, i, s.harts[i].pc.site).harts[i].localError == s.harts[i].localError
    ensures s.harts[i].pc.Sc? ==> ScFail(s, i, s.harts[i].pc.site).harts[i].localError == s.harts[i].localError
    ensures s.harts[i].pc.Sc? ==> ScSuccess(n, s, i, s.harts[i].pc.site).harts[i].localError == s.harts[i].localError
  {
    hide EndReservations, Stored, Resume, SemOf, IsWait, AfterInit;
  }

  lemma NextErrors(c: Config, s: State, e: Event, i: nat)
    requires Shaped(c.harts, s) && e.hart < c.harts && i < c.harts
    ensures Next(c, s, e).harts[i].localError == s.harts[i].localError + Added(s, e, i)
  {
    if e.Interrupt? || e.hart != i {
      OthersStay(c, s, e, i);
    } else {
      SemaphoreErrors(c.harts, s, i);
      hide InitStep, LrStep, ScFail, ScSuccess;
    }
  }

  /** A hart's error count is what it has counted, over every schedule. */
  lemma {:induction false} ErrorsAreMismatches(c: Config, events: seq<Event>, i: nat)
    requires Schedule(c, events) && i < c.harts
    ensures After(c, events).harts[i].localError == Mismatches(c, events, i)
  {
    hide Next;
    if events != [] {
      var rest := events[..|events| - 1];
      ErrorsAreMismatches(c, rest, i);
      NextErrors(c, After(c, rest), events[|events| - 1], i);
    }
  }

  lemma {:induction false} SumIsMismatches(c: Config, events: seq<Event>, n: nat)
    requires Schedule(c, events) && n <= c.harts
    ensures Sum(Errors, After(c, events).harts[..n]) == AllMismatches(c, events, n)
  {
    hide After;
    if n > 0 {
      SumIsMismatches(c, events, n - 1);
      ErrorsAreMismatches(c, events, n - 1);
      assert After(c, events).harts[..n][..n - 1] == After(c, events).harts[..n - 1];
    }
  }

  // ----- One iteration of the work loop -----

  /** The image is claimed and not yet sent. */
  predicate SendDue(pc: Pc) {
    pc == Lr(ClaimPost) || pc == Sc(ClaimPost) || pc == Lr(SendWait) || pc == Sc(SendWait) || (pc.WriteReg? && !pc.read)
  }

  /** The completion is not yet acknowledged. */
  predicate ClearDue(pc: Pc) {
    SendDue(pc) || pc == Lr(SendPost) || pc == Sc(SendPost) || pc.Spin? || pc.ClearFlag?
  }

  /** The results are not yet being read back. */
  predicate ReadDue(pc: Pc) {
    ClearDue(pc) || pc == Lr(ReadWait) || pc == Sc(ReadWait) || (pc.WriteReg? && pc.read)
  }

  /** The results are not yet compared. */
  predicate CompareDue(pc: Pc) {
    ReadDue(pc) || pc == Lr(ReadPost) || pc == Sc(ReadPost) || pc.Compare?
  }

  datatype Part = Sending | Clearing | Reading | Comparing

  predicate Due(part: Part, pc: Pc) {
    match part
    case Sending => SendDue(pc)
    case Clearing => ClearDue(pc)
    case Reading => ReadDue(pc)
    case Comparing => CompareDue(pc)
  }

  /** The access that ends each part. */
  function EndOf(part: Part): Pc {
    match part
    case Sending => WriteReg(false, Op)
    case Clearing => ClearFlag
    case Reading => WriteReg(true, Op)
    case Comparing => Compare
  }

  /** A hart that moves from `pc` to `pc'` becomes due by counting its claim, and is no longer due after the end. */
  predicate PartStep(part: Part, pc: Pc, pc': Pc) {
    && (pc == StoreCnt ==> !Due(part, pc) && Due(part, pc'))
    && (pc == EndOf(part) ==> Due(part, pc) && !Due(part, pc'))
    && (pc != StoreCnt && pc != EndOf(part) ==> Due(part, pc') == Due(part, pc))
  }

  lemma ResumePart(part: Part, site: Site)
    ensures PartStep(part, Sc(site), Resume(site))
  {
  }

  lemma RetryPart(part: Part, site: Site)
    ensures PartStep(part, Lr(site), Sc(site)) && PartStep(part, Sc(site), Lr(site)) && PartStep(part, Lr(site), Lr(site))
  {
  }

  lemma RegPart(part: Part, read: bool, reg: Reg)
    ensures PartStep(part, WriteReg(read, reg), AfterReg(read, reg))
  {
  }

  lemma InitPart(part: Part, m: Sem)
    ensures PartStep(part, Init(m), AfterInit(m))
  {
  }

  lemma WorkPart(part: Part, c: Config, s: State, i: nat, errors: nat)
    requires Shaped(c.harts, s) && i < c.harts && AtWork(s.harts[i].pc)
    ensures PartStep(part, s.harts[i].pc, WorkHart(c, s, i, errors).pc)
  {
  }

  lemma BarrierPart(part: Part, c: Config, s: State, i: nat)
    requires Shaped(c.harts, s) && i < c.harts && L.InBarrier(s.harts[i].pc)
    ensures PartStep(part, s.harts[i].pc, BarrierHart(c, s, i).pc)
  {
  }

  lemma NextPart(part: Part, c: Config, s: State, i: nat, scFails: bool, errors: nat)
    requires Shaped(c.harts, s) && i < c.harts
    ensures PartStep(part, s.harts[i].pc, Next(c, s, Run(i, scFails, errors)).harts[i].pc)
  {
    hide PartStep, WorkHart, BarrierHart, EndReservations, Stored, Resume, SemOf, IsWait, AfterInit, AfterReg;
    var pc := s.harts[i].pc;
    if pc.Init? {
      InitPart(part, pc.next);
    } else if pc.Lr? || pc.Sc? {
      ResumePart(part, pc.site);
      RetryPart(part, pc.site);
    } else if pc.WriteReg? {
      RegPart(part, pc.read, pc.reg);
    } else if AtWork(pc) {
      WorkPart(part, c, s, i, errors);
    } else {
      BarrierPart(part, c, s, i);
    }
  }

  lemma StartPart(part: Part, c: Config, i: nat)
    requires i < c.harts
    ensures !Due(part, Start(c).harts[i].pc)
  {
  }

  /** Every part has ended as often as the hart has claimed, but for the one that is due. */
  lemma {:induction false} PartsAreCounted(part: Part, c: Config, events: seq<Event>, i: nat)
    requires Schedule(c, events) && i < c.harts
    ensures Times(c, events, i, StoreCnt) == Times(c, events, i, EndOf(part)) + if Due(part, After(c, events).harts[i].pc) then 1 else 0
  {
    hide Next, Due, EndOf;
    if events == [] {
      StartPart(part, c, i);
    } else {
      var rest, e := events[..|events| - 1], events[|events| - 1];
      var s := After(c, rest);
      PartsAreCounted(part, c, rest, i);
      if e.Run? && e.hart == i {
        NextPart(part, c, s, i, e.scFails, e.errors);
        EndIsNotClaim(part);
      } else {
        OthersStay(c, s, e, i);
      }
    }
  }

  lemma EndIsNotClaim(part: Part)
    ensures EndOf(part) != StoreCnt
  {
  }

  /**
   * Each claimed image is sent, acknowledged, read back and compared once, in this order: the counts never differ
   * by more than one, and they are equal whenever the hart is at the loop test or past the loop.
   */
  lemma IterationsAreWhole(c: Config, events: seq<Event>, i: nat)
    requires Schedule(c, events) && i < c.harts
    ensures var claimed, sent := Times(c, events, i, StoreCnt), Times(c, events, i, WriteReg(false, Op));
            var cleared, read, compared := Times(c, events, i, ClearFlag), Times(c, events, i, WriteReg(true, Op)), Times(c, events, i, Compare);
            var pc := After(c, events).harts[i].pc;
            && claimed >= sent >= cleared >= read >= compared >= claimed - 1
            && (pc == LoopTest || LoopOver(pc) ==> claimed == sent == cleared == read == compared)
  {
    hide After, Times;
    PartsAreCounted(Sending, c, events, i);
    PartsAreCounted(Clearing, c, events, i);
    PartsAreCounted(Reading, c, events, i);
    PartsAreCounted(Comparing, c, events, i);
  }

  // ----- The records -----

  /** How many of the claims are hart `i`'s. */
  function ClaimsBy(claims: seq<Claim>, i: nat): nat {
    if claims == [] then 0
    else ClaimsBy(claims[..|claims| - 1], i) + if claims[|claims| - 1].hart == i then 1 else 0
  }

  /** How many of the transfers are hart `i`'s, in the given direction. */
  function StartedBy(started: seq<Transfer>, i: nat, read: bool): nat {
    if started == [] then 0
    else
      var t := started[|started| - 1];
      StartedBy(started[..|started| - 1], i, read) + if t.hart == i && t.read == read then 1 else 0
  }

  /** Semaphore accesses record neither. */
  lemma SemaphoreRecords(n: nat, s: State, e: Event)
    requires Shaped(n, s) && e.hart < n
    ensures var pc := s.harts[e.hart].pc;
      && (pc.Init? ==> var t := InitStep(n, s, e.hart, pc.next); t.claims == s.claims && t.started == s.started)
      && (pc.Lr? ==> var t := LrStep(n, s, e.hart, pc.site); t.claims == s.claims && t.started == s.started)
      && (pc.Sc? ==> var t := ScFail(s, e.hart, pc.site); t.claims == s.claims && t.started == s.started)
      && (pc.Sc? ==> var t := ScSuccess(n, s, e.hart, pc.site); t.claims == s.claims && t.started == s.started)
  {
    hide EndReservations, Stored, Resume, SemOf, IsWait, AfterInit;
  }

  lemma NextClaims(c: Config, s: State, e: Event, i: nat)
    requires Shaped(c.harts, s) && e.hart < c.harts && i < c.harts
    ensures ClaimsBy(Next(c, s, e).claims, i) == ClaimsBy(s.claims, i) + if Does(s, e, i, StoreCnt) then 1 else 0
  {
    hide InitStep, LrStep, ScFail, ScSuccess, WorkHart, BarrierHart, DmaStep;
    SemaphoreRecords(c.harts, s, e);
    DmaClaims(c, s, e.hart);
    var claims := Next(c, s, e).claims;
    assert claims == s.claims || claims[..|claims| - 1] == s.claims;
  }

  lemma DmaClaims(c: Config, s: State, i: nat)
    requires Shaped(c.harts, s) && i < c.harts
    ensures s.harts[i].pc.WriteReg? ==> DmaStep(c, s, i, s.harts[i].pc.read, s.harts[i].pc.reg).claims == s.claims
  {
    hide AfterReg;
  }

  lemma WorkStarts(c: Config, s: State, i: nat, errors: nat)
    requires Shaped(c.harts, s) && i < c.harts
    ensures WorkStep(c, s, i, errors).started == s.started && BarrierStep(c, s, i).started == s.started
  {
    hide WorkHart, BarrierHart;
  }

  lemma NextStarts(c: Config, s: State, e: Event, i: nat, read: bool)
    requires Shaped(c.harts, s) && e.hart < c.harts && i < c.harts
    ensures StartedBy(Next(c, s, e).started, i, read) == StartedBy(s.started, i, read) + if Does(s, e, i, WriteReg(read, Op)) then 1 else 0
  {
    hide InitStep, LrStep, ScFail, ScSuccess, WorkStep, BarrierStep, AfterReg;
    SemaphoreRecords(c.harts, s, e);
    if e.Run? {
      WorkStarts(c, s, e.hart, e.errors);
    }
    var started := Next(c, s, e).started;
    assert started == s.started || started[..|started| - 1] == s.started;
  }

  /** The recorded claims and transfers of a hart are those it has made. */
  lemma {:induction false} RecordsAreCounted(c: Config, events: seq<Event>, i: nat, read: bool)
    requires Schedule(c, events) && i < c.harts
    ensures ClaimsBy(After(c, events).claims, i) == Times(c, events, i, StoreCnt)
    ensures StartedBy(After(c, events).started, i, read) == Times(c, events, i, WriteReg(read, Op))
  {
    hide Next;
    if events != [] {
      var rest, e := events[..|events| - 1], events[|events| - 1];
      RecordsAreCounted(c, rest, i, read);
      NextClaims(c, After(c, rest), e, i);
      NextStarts(c, After(c, rest), e, i, read);
    }
  }

  // ----- Completions -----

  /** The flag is up only since an interrupt that no acknowledgement has used. */
  predicate FlagOk(s: State, i: nat)
    requires i < |s.harts| == |s.flags|
  {
    s.harts[i].pc == ClearFlag ==> s.flags[i]
  }

  lemma NextFlag(c: Config, s: State, e: Event, i: nat)
    requires Shaped(c.harts, s) && e.hart < c.harts && i < c.harts && FlagOk(s, i)
    ensures var s' := Next(c, s, e);
      && FlagOk(s', i)
      && (e == Interrupt(i) ==> s'.flags[i])
      && (Does(s, e, i, ClearFlag) ==> !s'.flags[i])
      && (e != Interrupt(i) && !Does(s, e, i, ClearFlag) ==> s'.flags[i] == s.flags[i])
  {
    if e.Interrupt? || e.hart != i {
      OthersStay(c, s, e, i);
    } else {
      FlagHart(c, s, i, e);
    }
    hide InitStep, LrStep, ScFail, ScSuccess, BarrierHart, WorkHart;
    FlagsElsewhere(c.harts, s, e);
  }

  lemma FlagsElsewhere(n: nat, s: State, e: Event)
    requires Shaped(n, s) && e.hart < n
    ensures var pc := s.harts[e.hart].pc;
      && (pc.Init? ==> InitStep(n, s, e.hart, pc.next).flags == s.flags)
      && (pc.Lr? ==> LrStep(n, s, e.hart, pc.site).flags == s.flags)
      && (pc.Sc? ==> ScFail(s, e.hart, pc.site).flags == s.flags && ScSuccess(n, s, e.hart, pc.site).flags == s.flags)
  {
    hide EndReservations, Stored, Resume, SemOf, IsWait, AfterInit;
  }

  lemma ClearFollowsSpin(site: Site, m: Sem, read: bool, reg: Reg)
    ensures !Resume(site).ClearFlag? && !AfterInit(m).ClearFlag? && !AfterReg(read, reg).ClearFlag?
  {
  }

  lemma FlagHart(c: Config, s: State, i: nat, e: Event)
    requires Shaped(c.harts, s) && i < c.harts && e.Run? && e.hart == i
    ensures Next(c, s, e).harts[i].pc == ClearFlag ==> s.harts[i].pc == Spin && s.flags[i]
  {
    hide EndReservations, Stored, SemOf, IsWait, Resume, AfterInit, AfterReg;
    var pc := s.harts[i].pc;
    if pc.Init? {
      ClearFollowsSpin(ClaimWait, pc.next, false, Src);
    } else if pc.Lr? || pc.Sc? {
      ClearFollowsSpin(pc.site, Lock, false, Src);
    } else if pc.WriteReg? {
      ClearFollowsSpin(ClaimWait, Lock, pc.read, pc.reg);
    }
  }

  /** A hart never acknowledges more completions than its accelerator has signalled. */
  lemma {:induction false} EveryClearHasItsInterrupt(c: Config, events: seq<Event>, i: nat)
    requires Schedule(c, events) && i < c.harts
    ensures FlagOk(After(c, events), i)
    ensures Times(c, events, i, ClearFlag) + (if After(c, events).flags[i] then 1 else 0) <= Interrupts(events, i)
  {
    hide Next;
    if events != [] {
      var rest, e := events[..|events| - 1], events[|events| - 1];
      EveryClearHasItsInterrupt(c, rest, i);
      NextFlag(c, After(c, rest), e, i);
    }
  }
}
