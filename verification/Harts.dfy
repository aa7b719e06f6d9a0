/**
 * sw/main.cpp as a step system: N harts run `main` over shared memory, one load, store, load-reserved or
 * store-conditional at a time, in any order. Load-reserved and store-conditional follow section 8.2 of the
 * RISC-V Unprivileged ISA: a store-conditional succeeds only on a live reservation, may fail for no reason,
 * and every store to the word ends the reservations of all harts.
 */
module Harts {

  datatype Option<T> = None | Some(value: T)

  /** The semaphore words the modelled part of the program uses. */
  datatype Sem = BarrierLock | BarrierSem | Lock | DmaLock

  /** The calls of sem_wait and sem_post, in program order. */
  datatype Site =
    | ClaimWait | ClaimPost
    | SendWait | SendPost
    | ReadWait | ReadPost
    | AddWait | AddPost
    | EnterWait | LastPost | SignalPost | MorePost | SleepWait

  function SemOf(site: Site): Sem {
    match site
    case ClaimWait | ClaimPost | AddWait | AddPost => Lock
    case SendWait | SendPost | ReadWait | ReadPost => DmaLock
    case EnterWait | LastPost | MorePost => BarrierLock
    case SignalPost | SleepWait => BarrierSem
  }

  predicate IsWait(site: Site) {
    site.ClaimWait? || site.SendWait? || site.ReadWait? || site.AddWait? || site.EnterWait? || site.SleepWait?
  }

  datatype Reg = Src | Dst | Len | Op

  /** Where a hart is; each value is the next memory access. */
  datatype Pc =
    | Init(next: Sem)                  // sem_init, hart 0 only
    | LoopTest                         // while (cnt < 10)
    | Lr(site: Site)                   // lr.w, and the zero test of sem_wait
    | Sc(site: Site)                   // sc.w, and the retry branch
    | TakeId                           // cur_id = cnt
    | LoadCnt | StoreCnt               // cnt++
    | WriteReg(read: bool, reg: Reg)   // the four DMA register stores
    | Spin                             // while (!acc_completed[hart_id])
    | ClearFlag                        // acc_completed[hart_id] = 0
    | Compare                          // the ten comparisons
    | LoadTotal | StoreTotal           // total_error += local_error
    | TestCounter                      // *counter == thread_count - 1
    | ResetCounter                     // *counter = 0
    | LoadCounter | StoreCounter       // (*counter)++
    | SignalTest                       // j < thread_count - 1
    | Passed                           // past the barrier
    | Printed                          // hart 0 has printed total_error

  /** Registers and locals. `isLast` records that the hart found the barrier complete. */
  datatype Hart = Hart(pc: Pc, value: nat, tmp: int, curId: int, localError: nat, j: nat, isLast: bool)

  /** The transfer registers of the DMA engine. */
  datatype DmaRegs = DmaRegs(src: int, dst: int, len: int)

  datatype Transfer = Transfer(hart: nat, read: bool, regs: DmaRegs)

  datatype Claim = Claim(hart: nat, id: int)

  /** Shared memory, reservations and harts, followed by history. */
  datatype State = State(
    sem: map<Sem, nat>, cnt: int, total: int, counter: int, flags: seq<bool>, dma: DmaRegs,
    reserved: seq<Option<Sem>>, harts: seq<Hart>,
    posts: map<Sem, nat>, waits: map<Sem, nat>, owner: map<Sem, Option<nat>>,
    claims: seq<Claim>, started: seq<Transfer>, last: Option<nat>, printed: Option<int>)

  /** Number of harts, number of images, and the addresses the transfers name. */
  datatype Config = Config(harts: nat, images: nat, image: int, start: int -> int, result: int -> int, local: int -> int) {
    predicate Valid() {
      1 <= harts < 0x1_0000_0000
    }

    /** The register values of hart `i`'s transfer to or from its accelerator. */
    function Request(i: nat, read: bool): DmaRegs {
      if read then DmaRegs(result(i), local(i), 40) else DmaRegs(image, start(i), 1024)
    }
  }

  /** What the scheduler picks: a hart's next access, or an accelerator interrupt. */
  datatype Event =
    | Run(hart: nat, scFails: bool, errors: nat)
    | Interrupt(hart: nat)

  const ALL_ZERO: map<Sem, nat> := map m: Sem | true :: 0
  const NO_OWNER: map<Sem, Option<nat>> := map m: Sem | true :: None

  /** All globals are zero; hart 0 is about to initialise, the others are at the work loop. */
  function Start(c: Config): State {
    State(ALL_ZERO, 0, 0, 0, seq(c.harts, i => false), DmaRegs(0, 0, 0),
          seq(c.harts, i => None),
          seq(c.harts, i => Hart(if i == 0 then Init(BarrierLock) else LoopTest, 0, 0, 0, 0, 0, false)),
          ALL_ZERO, ALL_ZERO, NO_OWNER, [], [], None, None)
  }

  function InitialValue(m: Sem): nat {
    if m == BarrierSem then 0 else 1
  }

  function AfterInit(m: Sem): Pc {
    match m
    case BarrierLock => Init(BarrierSem)
    case BarrierSem => Init(Lock)
    case Lock => Init(DmaLock)
    case DmaLock => LoopTest
  }

  /** Where a hart goes on when the semaphore call at `site` returns. */
  function Resume(site: Site): Pc {
    match site
    case ClaimWait => TakeId
    case ClaimPost => Lr(SendWait)
    case SendWait => WriteReg(false, Src)
    case SendPost => Spin
    case ReadWait => WriteReg(true, Src)
    case ReadPost => Compare
    case AddWait => LoadTotal
    case AddPost => Lr(EnterWait)
    case EnterWait => TestCounter
    case LastPost => SignalTest
    case SignalPost => SignalTest
    case MorePost => Lr(SleepWait)
    case SleepWait => Passed
  }

  /** Every hart has its registers, reservation and flag, every semaphore its word and history. */
  predicate Shaped(n: nat, s: State) {
    && |s.harts| == n && |s.reserved| == n && |s.flags| == n
    && (forall m: Sem :: m in s.sem && m in s.posts && m in s.waits && m in s.owner)
  }

  /** A store to word `m` by hart `i`: every reservation of it ends, and hart `i`'s own. */
  function EndReservations(r: seq<Option<Sem>>, i: nat, m: Sem): (r': seq<Option<Sem>>)
    requires i < |r|
    ensures |r'| == |r| && r'[i] == None
    ensures forall k :: 0 <= k < |r| ==> r'[k] != Some(m) && (r'[k] == None || r'[k] == r[k])
    ensures forall k :: 0 <= k < |r| && k != i && r[k] != Some(m) ==> r'[k] == r[k]
  {
    seq(|r|, k requires 0 <= k < |r| => if k == i || r[k] == Some(m) then None else r[k])
  }

  function Goto(s: State, i: nat, h: Hart): State
    requires i < |s.harts|
  {
    s.(harts := s.harts[i := h])
  }

  /** `sem_init`: a plain store. */
  function InitStep(n: nat, s: State, i: nat, m: Sem): (s': State)
    requires Shaped(n, s) && i < n
    ensures Shaped(n, s')
  {
    Goto(s, i, s.harts[i].(pc := AfterInit(m))).(
      sem := s.sem[m := InitialValue(m)],
      reserved := EndReservations(s.reserved, i, m))
  }

  /** `lr.w`, then `beqz` in a wait. */
  function LrStep(n: nat, s: State, i: nat, site: Site): (s': State)
    requires Shaped(n, s) && i < n
    ensures Shaped(n, s')
  {
    var v := s.sem[SemOf(site)];
    var pc := if IsWait(site) && v == 0 then Lr(site) else Sc(site);
    Goto(s, i, s.harts[i].(value := v, pc := pc)).(reserved := s.reserved[i := Some(SemOf(site))])
  }

  /** `sc.w` failed: try again. */
  function ScFail(s: State, i: nat, site: Site): State
    requires i < |s.harts| == |s.reserved|
  {
    Goto(s, i, s.harts[i].(pc := Lr(site))).(reserved := s.reserved[i := None])
  }

  /** `sc.w` and `bnez`. */
  function ScStep(n: nat, s: State, i: nat, site: Site, fails: bool): (s': State)
    requires Shaped(n, s) && i < n
    ensures Shaped(n, s')
  {
    if s.reserved[i] != Some(SemOf(site)) || fails then ScFail(s, i, site) else ScSuccess(n, s, i, site)
  }

  /** What `sc.w` stores after `lr.w` loaded `v`, in 32 bits. */
  function Stored(site: Site, v: nat): nat {
    if !IsWait(site) then (v + 1) % 0x1_0000_0000
    else if v > 0 then v - 1
    else 0xffff_ffff
  }

  /** `sc.w` succeeded. */
  function ScSuccess(n: nat, s: State, i: nat, site: Site): (s': State)
    requires Shaped(n, s) && i < n
    ensures Shaped(n, s')
  {
    var m := SemOf(site);
    var h := s.harts[i];
    Goto(s, i, h.(pc := Resume(site), j := if site == SignalPost then h.j + 1 else h.j)).(
      sem := s.sem[m := Stored(site, h.value)],
      reserved := EndReservations(s.reserved, i, m),
      posts := if IsWait(site) then s.posts else s.posts[m := s.posts[m] + 1],
      waits := if IsWait(site) then s.waits[m := s.waits[m] + 1] else s.waits,
      owner := if m == BarrierSem then s.owner else s.owner[m := if IsWait(site) then Some(i) else None])
  }

  /** A hart in the work loop after its next access. */
  function WorkHart(c: Config, s: State, i: nat, errors: nat): Hart
    requires Shaped(c.harts, s) && i < c.harts
  {
    var h := s.harts[i];
    match h.pc
    case LoopTest => h.(pc := Lr(if s.cnt < c.images then ClaimWait else AddWait))
    case TakeId => h.(pc := LoadCnt, curId := s.cnt)
    case LoadCnt => h.(pc := StoreCnt, tmp := s.cnt)
    case StoreCnt => h.(pc := Lr(ClaimPost))
    case Spin => if s.flags[i] then h.(pc := ClearFlag) else h
    case ClearFlag => h.(pc := Lr(ReadWait))
    case Compare => h.(pc := LoopTest, localError := h.localError + if errors <= 10 then errors else 10)
    case LoadTotal => h.(pc := StoreTotal, tmp := s.total)
    case StoreTotal => h.(pc := Lr(AddPost))
    case _ => h
  }

  /** The work loop's own accesses. */
  function WorkStep(c: Config, s: State, i: nat, errors: nat): (s': State)
    requires Shaped(c.harts, s) && i < c.harts
    ensures Shaped(c.harts, s')
  {
    var h := s.harts[i];
    Goto(s, i, WorkHart(c, s, i, errors)).(
      cnt := if h.pc.StoreCnt? then h.tmp + 1 else s.cnt,
      claims := if h.pc.StoreCnt? then s.claims + [Claim(i, h.curId)] else s.claims,
      flags := if h.pc.ClearFlag? then s.flags[i := false] else s.flags,
      total := if h.pc.StoreTotal? then h.tmp + h.localError else s.total)
  }

  function AfterReg(read: bool, reg: Reg): Pc {
    match reg
    case Src => WriteReg(read, Dst)
    case Dst => WriteReg(read, Len)
    case Len => WriteReg(read, Op)
    case Op => Lr(if read then ReadPost else SendPost)
  }

  /** The four register stores of one transfer; storing OP starts it. */
  function DmaStep(c: Config, s: State, i: nat, read: bool, reg: Reg): (s': State)
    requires Shaped(c.harts, s) && i < c.harts
    ensures Shaped(c.harts, s')
  {
    var want := c.Request(i, read);
    Goto(s, i, s.harts[i].(pc := AfterReg(read, reg))).(
      dma := match reg
             case Src => s.dma.(src := want.src)
             case Dst => s.dma.(dst := want.dst)
             case Len => s.dma.(len := want.len)
             case Op => s.dma,
      started := if reg == Op then s.started + [Transfer(i, read, s.dma)] else s.started)
  }

  /** A hart in the barrier or past it after its next access. */
  function BarrierHart(c: Config, s: State, i: nat): Hart
    requires Shaped(c.harts, s) && i < c.harts
  {
    var h := s.harts[i];
    match h.pc
    case TestCounter => if s.counter == c.harts - 1 then h.(pc := ResetCounter, isLast := true) else h.(pc := LoadCounter)
    case ResetCounter => h.(pc := Lr(LastPost))
    case LoadCounter => h.(pc := StoreCounter, tmp := s.counter)
    case StoreCounter => h.(pc := Lr(MorePost))
    case SignalTest => h.(pc := if h.j < c.harts - 1 then Lr(SignalPost) else Passed)
    case Passed => if i == 0 then h.(pc := Printed) else h
    case _ => h
  }

  /** The barrier's own accesses, and hart 0's print. */
  function BarrierStep(c: Config, s: State, i: nat): (s': State)
    requires Shaped(c.harts, s) && i < c.harts
    ensures Shaped(c.harts, s')
  {
    var h := s.harts[i];
    Goto(s, i, BarrierHart(c, s, i)).(
      counter := if h.pc.ResetCounter? then 0 else if h.pc.StoreCounter? then h.tmp + 1 else s.counter,
      last := if h.pc.TestCounter? && s.counter == c.harts - 1 then Some(i) else s.last,
      printed := if h.pc.Passed? && i == 0 then Some(s.total) else s.printed)
  }

  predicate AtWork(pc: Pc) {
    || pc.LoopTest? || pc.TakeId? || pc.LoadCnt? || pc.StoreCnt? || pc.Spin? || pc.ClearFlag? || pc.Compare?
    || pc.LoadTotal? || pc.StoreTotal?
  }

  /** One event. */
  function Next(c: Config, s: State, e: Event): (s': State)
    requires Shaped(c.harts, s) && e.hart < c.harts
    ensures Shaped(c.harts, s')
  {
    match e
    case Interrupt(i) => s.(flags := s.flags[i := true])
    case Run(i, scFails, errors) =>
      var pc := s.harts[i].pc;
      if pc.Init? then InitStep(c.harts, s, i, pc.next)
      else if pc.Lr? then LrStep(c.harts, s, i, pc.site)
      else if pc.Sc? then ScStep(c.harts, s, i, pc.site, scFails)
      else if pc.WriteReg? then DmaStep(c, s, i, pc.read, pc.reg)
      else if AtWork(pc) then WorkStep(c, s, i, errors)
      else BarrierStep(c, s, i)
  }

  predicate Schedule(c: Config, events: seq<Event>) {
    forall k :: 0 <= k < |events| ==> events[k].hart < c.harts
  }

  /** The state that a schedule leads to from power-up. */
  function After(c: Config, events: seq<Event>): (s: State)
    requires Schedule(c, events)
    ensures Shaped(c.harts, s)
  {
    if events == [] then Start(c)
    else Next(c, After(c, events[..|events| - 1]), events[|events| - 1])
  }
}
