/** Every image completes: each step that changes anything brings the pair closer to the end of the round. */
module AcceleratorProgress {
  import opened Arith
  import opened Network
  import opened Accelerator

  /** An upper bound on the steps left until the hart has its result, by stage. */
  function StepsLeft(s: State): (r: nat)
    requires Shaped(s)
    ensures r <= 3103
  {
    var resting := if s.filter.Resting? then 1 else 0;
    match s.hart
    case Ready => resting
    case Reading(got) => 11 - |got| + resting
    case Clearing => 12 + resting
    case Spinning =>
      if s.flag then 13 + resting
      else if s.pending then 14 + resting
      else match s.filter
        case Emit(_, n) => 26 - n
        case Load(seen) => 27 + 1024 - |seen|
        case _ =>
          if s.starts > 0 then 1052 + resting
          else match s.writer
            case Announce => 1053 + resting
            case Fill(b, j) => 1054 + Unsent(s) + (1024 - (b * 64 + j)) + resting
  }

  function Unsent(s: State): nat
    requires Shaped(s)
  {
    if s.sendBlock == BLOCKS then 0 else 1024 - (s.sendBlock * 64 + s.sendLane)
  }

  lemma HartStepsRunOut(s: State)
    requires Shaped(s) && HartNext(s) != s && s.hart != Ready
    ensures StepsLeft(HartNext(s)) < StepsLeft(s)
  {
  }

  lemma SendStepsRunOut(c: Config, s: State)
    requires Inv(c, s) && SendNext(c, s) != s
    ensures StepsLeft(SendNext(c, s)) < StepsLeft(s)
  {
    hide InTransit, Queued;
  }

  lemma WriterStepsRunOut(c: Config, s: State)
    requires Inv(c, s) && WriterNext(s) != s
    ensures StepsLeft(WriterNext(s)) < StepsLeft(s)
  {
    hide InTransit, Queued;
  }

  lemma FilterStepsRunOut(c: Config, s: State)
    requires Inv(c, s) && FilterNext(c, s) != s
    ensures StepsLeft(FilterNext(c, s)) < StepsLeft(s)
  {
    hide InTransit, Queued;
  }

  lemma HandlerStepsRunOut(c: Config, s: State)
    requires Inv(c, s) && HandlerNext(s) != s
    ensures StepsLeft(HandlerNext(s)) < StepsLeft(s)
  {
    hide InTransit, Queued;
  }

  /** Every step but the start of the next transfer that changes the state uses up a step. */
  lemma StepsRunOut(c: Config, s: State, e: Event)
    requires Inv(c, s) && Next(c, s, e) != s && !(e == HartStep && s.hart == Ready)
    ensures StepsLeft(Next(c, s, e)) < StepsLeft(s)
  {
    assert Shaped(s);
    hide Inv, StepsLeft, HartNext, SendNext, WriterNext, FilterNext, HandlerNext;
    match e
    case HartStep => HartStepsRunOut(s);
    case SendStep => SendStepsRunOut(c, s);
    case WriterStep => WriterStepsRunOut(c, s);
    case FilterStep => FilterStepsRunOut(c, s);
    case HandlerStep => HandlerStepsRunOut(c, s);
  }

  /** While a result is outstanding some step changes the state. */
  lemma NextUseful(c: Config, memory: Pixels, events: seq<Event>) returns (e: Event)
    requires After(c, memory, events).hart != Ready
    ensures var s := After(c, memory, events); StepsLeft(Next(c, s, e)) < StepsLeft(s)
  {
    hide After, Inv, StepsLeft, Next;
    e := NeverStuck(c, memory, events);
    RunKeeps(c, memory, events);
    StepsRunOut(c, After(c, memory, events), e);
  }

  /** From every reachable state the outstanding image can be completed, within the steps left. */
  lemma {:induction false} ImageCompletes(c: Config, memory: Pixels, events: seq<Event>) returns (more: seq<Event>)
    ensures |more| <= StepsLeft(After(c, memory, events)) <= 3103
    ensures var s := After(c, memory, events); var s' := After(c, memory, events + more);
            s'.hart == Ready && s'.round == s.round && |s'.results| == s'.round
            && (s.round > 0 ==> s'.results[s.round - 1] == c.net(c.image(s.round - 1)))
    decreases StepsLeft(After(c, memory, events))
  {
    hide Inv, StepsLeft, Next;
    var s := After(c, memory, events);
    if s.hart == Ready {
      more := [];
      assert events + more == events;
      ReadyHasResults(c, memory, events);
      if s.round > 0 {
        ResultsAreNet(c, memory, events, s.round - 1);
      }
    } else {
      var e := NextUseful(c, memory, events);
      assert (events + [e])[..|events|] == events;
      var rest := ImageCompletes(c, memory, events + [e]);
      more := [e] + rest;
      assert events + more == events + [e] + rest;
      SameRound(c, s, e);
    }
  }

  lemma ReadyHasResults(c: Config, memory: Pixels, events: seq<Event>)
    requires After(c, memory, events).hart == Ready
    ensures var s := After(c, memory, events); |s.results| == s.round
  {
    hide After, InTransit, Queued, LanesEmpty;
    RunKeeps(c, memory, events);
  }

  lemma SameRound(c: Config, s: State, e: Event)
    requires Shaped(s) && s.hart != Ready
    ensures Next(c, s, e).round == s.round
  {
  }
}
