/** Sums over all harts, used to count harts in a phase and to add up what they carry. */
module HartSums {
  import opened Harts

  /** `Distance(n)` is measured for `n` harts. */
  datatype Measure = InFlight | Arrived | Woken | Added | Errors | Distance(n: nat)

  /** Past the loop test, but `cnt` not yet incremented. */
  predicate Claiming(pc: Pc) {
    pc == Lr(ClaimWait) || pc == Sc(ClaimWait) || pc.TakeId? || pc.LoadCnt? || pc.StoreCnt?
  }

  /** Past `barrier`. */
  predicate Through(pc: Pc) {
    pc == Passed || pc == Printed
  }

  /** Counted by `barrier` as one of the waiting harts. */
  predicate AtBarrier(pc: Pc) {
    pc == Lr(MorePost) || pc == Sc(MorePost) || pc == Lr(SleepWait) || pc == Sc(SleepWait) || Through(pc)
  }

  /** The hart that found the barrier complete, before it leaves. */
  predicate Signalling(pc: Pc) {
    || pc.ResetCounter? || pc == Lr(LastPost) || pc == Sc(LastPost)
    || pc.SignalTest? || pc == Lr(SignalPost) || pc == Sc(SignalPost)
  }

  /** The hart's errors are in the global total. */
  predicate HasAdded(pc: Pc) {
    || pc == Lr(AddPost) || pc == Sc(AddPost) || pc == Lr(EnterWait) || pc == Sc(EnterWait)
    || pc.TestCounter? || pc.LoadCounter? || pc.StoreCounter?
    || AtBarrier(pc) || Signalling(pc)
  }

  /** Above the number of steps that a hart takes from the call at `site` to the end of the program or of its iteration. */
  function StepsFrom(n: nat, left: nat, site: Site): nat {
    match site
    case SleepWait => 2
    case MorePost => 4
    case SignalPost => 4 * left
    case LastPost => 4 * n
    case EnterWait => 4 * n + 11
    case AddPost => 4 * n + 13
    case AddWait => 4 * n + 17
    case ReadPost => 4 * n + 21
    case ReadWait => 4 * n + 27
    case SendPost => 4 * n + 31
    case SendWait => 4 * n + 37
    case ClaimPost => 4 * n + 39
    case ClaimWait => 4 * n + 44
  }

  function StepsFromReg(read: bool, reg: Reg): nat {
    (if read then 23 else 33) + match reg case Op => 0 case Len => 1 case Dst => 2 case Src => 3
  }

  function StepsFromInit(m: Sem): nat {
    match m
    case DmaLock => 46
    case Lock => 47
    case BarrierSem => 48
    case BarrierLock => 49
  }

  /** It falls with every access that takes the hart further, except when it enters another iteration. */
  function StepsToEnd(n: nat, h: Hart): nat {
    var left := if h.j < n then n - 1 - h.j else 0;
    match h.pc
    case Init(m) => 4 * n + StepsFromInit(m)
    case LoopTest => 4 * n + 19
    case Lr(site) => StepsFrom(n, left, site)
    case Sc(site) => StepsFrom(n, left, site) + 1
    case TakeId => 4 * n + 43
    case LoadCnt => 4 * n + 42
    case StoreCnt => 4 * n + 41
    case WriteReg(read, reg) => 4 * n + StepsFromReg(read, reg)
    case Spin => 4 * n + 30
    case ClearFlag => 4 * n + 29
    case Compare => 4 * n + 20
    case LoadTotal => 4 * n + 16
    case StoreTotal => 4 * n + 15
    case TestCounter => 4 * n + 10
    case ResetCounter => 4 * n + 2
    case LoadCounter => 7
    case StoreCounter => 6
    case SignalTest => 4 * left + 2
    case Passed => 1
    case Printed => 0
  }

  function Weight(m: Measure, h: Hart): nat {
    match m
    case InFlight => if Claiming(h.pc) then 1 else 0
    case Arrived => if AtBarrier(h.pc) then 1 else 0
    case Woken => if Through(h.pc) && !h.isLast then 1 else 0
    case Added => if HasAdded(h.pc) then h.localError else 0
    case Errors => h.localError
    case Distance(n) => StepsToEnd(n, h)
  }

  function Sum(m: Measure, hs: seq<Hart>): nat {
    if hs == [] then 0 else Sum(m, hs[..|hs| - 1]) + Weight(m, hs[|hs| - 1])
  }

  lemma {:induction false} SumUpdate(m: Measure, hs: seq<Hart>, i: nat, h: Hart)
    requires i < |hs|
    ensures Sum(m, hs[i := h]) == Sum(m, hs) - Weight(m, hs[i]) + Weight(m, h)
  {
    hide Weight;
    var n := |hs| - 1;
    if i == n {
      assert hs[i := h][..n] == hs[..n];
    } else {
      SumUpdate(m, hs[..n], i, h);
      assert hs[i := h][..n] == hs[..n][i := h];
    }
  }

  lemma {:induction false} SumBound(m: Measure, hs: seq<Hart>)
    requires m.InFlight? || m.Arrived? || m.Woken?
    ensures Sum(m, hs) <= |hs|
  {
    hide Claiming, AtBarrier, Through, HasAdded;
    if hs != [] {
      SumBound(m, hs[..|hs| - 1]);
    }
  }

  /** A hart that the measure counts. */
  function Counted(m: Measure): (h: Hart)
    ensures (m.InFlight? || m.Arrived? || m.Woken?) ==> Weight(m, h) == 1
  {
    Hart(if m == InFlight then TakeId else Passed, 0, 0, 0, 0, 0, false)
  }

  /** One hart that is not counted leaves room for one less. */
  lemma SumBoundOne(m: Measure, hs: seq<Hart>, i: nat)
    requires (m.InFlight? || m.Arrived? || m.Woken?) && i < |hs| && Weight(m, hs[i]) == 0
    ensures Sum(m, hs) <= |hs| - 1
  {
    hide Weight;
    SumUpdate(m, hs, i, Counted(m));
    SumBound(m, hs[i := Counted(m)]);
  }

  lemma SumBoundTwo(m: Measure, hs: seq<Hart>, i: nat, k: nat)
    requires (m.InFlight? || m.Arrived? || m.Woken?) && i < |hs| && k < |hs| && i != k
    requires Weight(m, hs[i]) == 0 && Weight(m, hs[k]) == 0
    ensures Sum(m, hs) <= |hs| - 2
  {
    hide Weight;
    SumUpdate(m, hs, i, Counted(m));
    SumBoundOne(m, hs[i := Counted(m)], k);
  }

  lemma {:induction false} SumZero(m: Measure, hs: seq<Hart>)
    requires forall k :: 0 <= k < |hs| ==> Weight(m, hs[k]) == 0
    ensures Sum(m, hs) == 0
  {
    hide Weight;
    if hs != [] {
      SumZero(m, hs[..|hs| - 1]);
    }
  }

  lemma {:induction false} SumAll(m: Measure, hs: seq<Hart>)
    requires forall k :: 0 <= k < |hs| ==> Weight(m, hs[k]) == 1
    ensures Sum(m, hs) == |hs|
  {
    hide Weight;
    if hs != [] {
      SumAll(m, hs[..|hs| - 1]);
    }
  }

  /** When every hart but `i` may count and the sum is as large as it can be, every other hart counts. */
  lemma SumFull(m: Measure, hs: seq<Hart>, i: nat)
    requires (m.InFlight? || m.Arrived? || m.Woken?) && i < |hs| && Weight(m, hs[i]) == 0
    requires Sum(m, hs) == |hs| - 1
    ensures forall k :: 0 <= k < |hs| && k != i ==> Weight(m, hs[k]) == 1
  {
    forall k | 0 <= k < |hs| && k != i
      ensures Weight(m, hs[k]) == 1
    {
      if Weight(m, hs[k]) == 0 {
        SumBoundTwo(m, hs, i, k);
      }
    }
  }

  /** Once every hart has added its errors, the sum of added errors is the sum of errors. */
  lemma {:induction false} AllAdded(hs: seq<Hart>)
    requires forall k :: 0 <= k < |hs| ==> HasAdded(hs[k].pc)
    ensures Sum(Added, hs) == Sum(Errors, hs)
  {
    hide HasAdded;
    if hs != [] {
      AllAdded(hs[..|hs| - 1]);
    }
  }
}
