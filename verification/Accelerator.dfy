/**
 * One hart and its accelerator as a step system: the hart starts a transfer and polls its flag (sw/main.cpp), the
 * DMA engine feeds 64 lanes, and the accelerator's three processes and the interrupt handler take their steps in
 * any order (vp/lenet.h).
 */
module Accelerator {
  import opened Arith
  import opened Network

  const LANES := 64
  const BLOCKS := 16
  const CAPACITY := 16   // of an sc_fifo
  const RESULTS := 10

  type Scores = s: seq<int32> | |s| == 10 witness seq(10, i => 0)

  /** The images the hart sends, and what the compute process makes of one. */
  datatype Config = Config(image: nat -> Pixels, net: Pixels -> Scores)

  datatype Hart =
    | Ready                       // about to start the transfer of the next image
    | Spinning                    // while (!acc_completed[hart_id])
    | Clearing                    // acc_completed[hart_id] = 0
    | Reading(got: seq<int32>)    // reading the ten results back

  datatype Writer =
    | Fill(block: nat, lane: nat) // input_img[block * 64 + lane] = data_fifo[lane].read()
    | Announce                    // compute_start_fifo.write(1)

  datatype Filter =
    | Idle                        // compute_start_fifo.read()
    | Load(seen: seq<int8>)       // reading input_img, one pixel a step
    | Emit(out: Scores, next: nat)// o_result[next].write(fc3_out[next]), then the interrupt
    | Resting                     // the waits after the interrupt

  /** `round` counts transfers started; `results`, `triggered` and `observed` are history. */
  datatype State = State(
    hart: Hart, round: nat, sendBlock: nat, sendLane: nat, lanes: seq<seq<int8>>,
    writer: Writer, img: seq<int8>, starts: nat, filter: Filter, outs: seq<seq<int32>>,
    pending: bool, flag: bool,
    results: seq<seq<int32>>, triggered: nat, observed: nat)

  datatype Event = HartStep | SendStep | WriterStep | FilterStep | HandlerStep

  /** Power-up: `input_img` holds anything. */
  function Start(memory: Pixels): State {
    State(Ready, 0, BLOCKS, 0, seq(LANES, j => []), Fill(0, 0), memory, 0, Idle, seq(RESULTS, r => []),
          false, false, [], 0, 0)
  }

  predicate Shaped(s: State) {
    && |s.lanes| == LANES && |s.img| == 1024 && |s.outs| == RESULTS
    && s.sendLane < LANES && s.sendBlock <= BLOCKS
    && (s.writer.Fill? ==> s.writer.block < BLOCKS && s.writer.lane < LANES)
    && (s.filter.Load? ==> |s.filter.seen| <= 1024)
    && (s.filter.Emit? ==> s.filter.next <= RESULTS)
    && (s.hart.Reading? ==> |s.hart.got| <= RESULTS)
    && (s.sendBlock < BLOCKS ==> s.round > 0)
  }

  /** The place after `(block, lane)` in the loops over blocks and lanes. */
  function NextPlace(block: nat, lane: nat): (nat, nat) {
    if lane + 1 < LANES then (block, lane + 1) else (block + 1, 0)
  }

  function HartNext(s: State): (s': State)
    requires Shaped(s)
    ensures Shaped(s')
  {
    match s.hart
    case Ready => s.(hart := Spinning, round := s.round + 1, sendBlock := 0, sendLane := 0)
    case Spinning => if s.flag then s.(hart := Clearing) else s
    case Clearing => s.(hart := Reading([]), flag := false, observed := s.observed + 1)
    case Reading(got) =>
      if |got| == RESULTS then s.(hart := Ready, results := s.results + [got])
      else if s.outs[|got|] == [] then s
      else s.(hart := Reading(got + [s.outs[|got|][0]]), outs := s.outs[|got| := s.outs[|got|][1..]])
  }

  /** The DMA engine writes the next byte of the image into its lane, when there is room. */
  function SendNext(c: Config, s: State): (s': State)
    requires Shaped(s)
    ensures Shaped(s')
  {
    if s.sendBlock == BLOCKS || |s.lanes[s.sendLane]| >= CAPACITY then s
    else
      var byte := c.image(s.round - 1)[s.sendBlock * 64 + s.sendLane];
      var next := NextPlace(s.sendBlock, s.sendLane);
      s.(lanes := s.lanes[s.sendLane := s.lanes[s.sendLane] + [byte]], sendBlock := next.0, sendLane := next.1)
  }

  /** write_buffer */
  function WriterNext(s: State): (s': State)
    requires Shaped(s)
    ensures Shaped(s')
  {
    match s.writer
    case Fill(b, j) =>
      if s.lanes[j] == [] then s
      else
        var next := NextPlace(b, j);
        s.(img := s.img[b * 64 + j := s.lanes[j][0]], lanes := s.lanes[j := s.lanes[j][1..]],
           writer := if next.0 == BLOCKS then Announce else Fill(next.0, next.1))
    case Announce => if s.starts >= CAPACITY then s else s.(starts := s.starts + 1, writer := Fill(0, 0))
  }

  /** do_filter */
  function FilterNext(c: Config, s: State): (s': State)
    requires Shaped(s)
    ensures Shaped(s')
  {
    match s.filter
    case Idle => if s.starts == 0 then s else s.(starts := s.starts - 1, filter := Load([]))
    case Load(seen) =>
      if |seen| < 1024 then s.(filter := Load(seen + [s.img[|seen|]]))
      else s.(filter := Emit(c.net(seen), 0))
    case Emit(out, n) =>
      if n == RESULTS then s.(filter := Resting, pending := true, triggered := s.triggered + 1)
      else if |s.outs[n]| >= CAPACITY then s
      else s.(filter := Emit(out, n + 1), outs := s.outs[n := s.outs[n] + [out[n]]])
    case Resting => s.(filter := Idle)
  }

  /** acc_irq_handler: a pending interrupt raises the flag. */
  function HandlerNext(s: State): (s': State)
    requires Shaped(s)
    ensures Shaped(s')
  {
    if s.pending then s.(pending := false, flag := true) else s
  }

  function Next(c: Config, s: State, e: Event): (s': State)
    requires Shaped(s)
    ensures Shaped(s')
  {
    match e
    case HartStep => HartNext(s)
    case SendStep => SendNext(c, s)
    case WriterStep => WriterNext(s)
    case FilterStep => FilterNext(c, s)
    case HandlerStep => HandlerNext(s)
  }

  /** The state that a schedule leads to. */
  function After(c: Config, memory: Pixels, events: seq<Event>): (s: State)
    ensures Shaped(s)
  {
    if events == [] then Start(memory)
    else Next(c, After(c, memory, events[..|events| - 1]), events[|events| - 1])
  }

  // ----- The stages one image goes through -----

  predicate FilterFree(s: State) {
    s.filter.Idle? || s.filter.Resting?
  }

  predicate LanesEmpty(s: State) {
    s.sendBlock == BLOCKS && s.sendLane == 0 && forall j :: 0 <= j < |s.lanes| ==> s.lanes[j] == []
  }

  /** Results `lo` to `hi` of `out` are in their queues, one each; the other queues are empty. */
  predicate Queued(s: State, out: seq<int32>, lo: nat, hi: nat)
    requires Shaped(s) && |out| == RESULTS
  {
    forall r :: 0 <= r < RESULTS ==> s.outs[r] == if lo <= r < hi then [out[r]] else []
  }

  /** The bytes of lane `j` in blocks `lo` to `hi`. */
  function Column(im: Pixels, j: nat, lo: nat, hi: nat): (r: seq<int8>)
    requires j < LANES && lo <= hi <= BLOCKS
    ensures |r| == hi - lo && forall t :: 0 <= t < hi - lo ==> r[t] == im[(lo + t) * 64 + j]
  {
    seq(hi - lo, t requires 0 <= t < hi - lo => im[(lo + t) * 64 + j])
  }

  /** How many of lane `j`'s bytes a loop at `(block, lane)` has passed. */
  function Passed(block: nat, lane: nat, j: nat): nat {
    if j < lane then block + 1 else block
  }

  /** Each lane holds what was sent and not yet taken; what was taken is in `input_img`. */
  predicate InTransit(s: State, im: Pixels)
    requires Shaped(s) && s.writer.Fill?
  {
    && (forall j :: 0 <= j < LANES ==>
          && Passed(s.writer.block, s.writer.lane, j) <= Passed(s.sendBlock, s.sendLane, j) <= BLOCKS
          && s.lanes[j] == Column(im, j, Passed(s.writer.block, s.writer.lane, j), Passed(s.sendBlock, s.sendLane, j)))
    && (forall x :: 0 <= x < s.writer.block * 64 + s.writer.lane ==> s.img[x] == im[x])
  }

  predicate Calm(s: State, n: nat) {
    !s.pending && !s.flag && s.triggered == n && s.observed == n
  }

  predicate Between(s: State)
    requires Shaped(s)
  {
    && s.hart == Ready && LanesEmpty(s) && s.writer == Fill(0, 0) && s.starts == 0 && FilterFree(s)
    && (forall r :: 0 <= r < RESULTS ==> s.outs[r] == []) && Calm(s, s.round) && |s.results| == s.round
  }

  /** The hart waits for image `round - 1`. */
  predicate InFlight(s: State) {
    s.round > 0 && |s.results| == s.round - 1
  }

  predicate Filling(c: Config, s: State)
    requires Shaped(s)
  {
    && InFlight(s) && s.hart == Spinning && s.writer.Fill? && s.starts == 0 && FilterFree(s)
    && (forall r :: 0 <= r < RESULTS ==> s.outs[r] == []) && Calm(s, s.round - 1)
    && InTransit(s, c.image(s.round - 1))
  }

  /** The image is complete, and the compute process has not started. */
  predicate Filled(c: Config, s: State)
    requires Shaped(s)
  {
    && InFlight(s) && s.hart == Spinning && FilterFree(s) && LanesEmpty(s)
    && ((s.writer == Announce && s.starts == 0) || (s.writer == Fill(0, 0) && s.starts == 1))
    && (forall r :: 0 <= r < RESULTS ==> s.outs[r] == []) && Calm(s, s.round - 1)
    && s.img == c.image(s.round - 1)
  }

  /** From here until the next transfer the writer waits on empty lanes. */
  predicate WriterParked(s: State) {
    LanesEmpty(s) && s.writer == Fill(0, 0) && s.starts == 0
  }

  predicate Computing(c: Config, s: State)
    requires Shaped(s)
  {
    && InFlight(s) && s.hart == Spinning && WriterParked(s) && Calm(s, s.round - 1)
    && s.img == c.image(s.round - 1)
    && match s.filter
       case Load(seen) => seen == s.img[..|seen|] && forall r :: 0 <= r < RESULTS ==> s.outs[r] == []
       case Emit(out, n) => out == c.net(c.image(s.round - 1)) && Queued(s, out, 0, n)
       case _ => false
  }

  /** The interrupt is on its way to the hart. */
  predicate Raised(c: Config, s: State)
    requires Shaped(s)
  {
    && InFlight(s) && WriterParked(s) && FilterFree(s)
    && Queued(s, c.net(c.image(s.round - 1)), 0, RESULTS)
    && s.triggered == s.round && s.observed == s.round - 1
    && ((s.hart == Spinning && s.pending && !s.flag) || ((s.hart == Spinning || s.hart == Clearing) && !s.pending && s.flag))
  }

  predicate ReadingBack(c: Config, s: State)
    requires Shaped(s)
  {
    && InFlight(s) && WriterParked(s) && FilterFree(s) && Calm(s, s.round)
    && s.hart.Reading?
    && s.hart.got == c.net(c.image(s.round - 1))[..|s.hart.got|]
    && Queued(s, c.net(c.image(s.round - 1)), |s.hart.got|, RESULTS)
  }

  predicate ResultsOk(c: Config, s: State) {
    forall k :: 0 <= k < |s.results| ==> s.results[k] == c.net(c.image(k))
  }

  predicate Inv(c: Config, s: State) {
    && Shaped(s) && ResultsOk(c, s)
    && (Between(s) || Filling(c, s) || Filled(c, s) || Computing(c, s) || Raised(c, s) || ReadingBack(c, s))
  }

  // ----- Every step of every process keeps the stages -----

  lemma TransferStartKeeps(c: Config, s: State)
    requires Inv(c, s) && s.hart == Ready
    ensures Inv(c, HartNext(s))
  {
    var s' := HartNext(s);
    assert Between(s);
    assert InTransit(s', c.image(s'.round - 1));
  }

  lemma HartKeeps(c: Config, s: State)
    requires Inv(c, s)
    ensures Inv(c, HartNext(s))
  {
    if s.hart == Ready {
      TransferStartKeeps(c, s);
    } else {
      hide InTransit;
    }
  }

  lemma SendKeepsTransit(c: Config, s: State)
    requires Shaped(s) && Filling(c, s) && s.sendBlock < BLOCKS
    ensures |s.lanes[s.sendLane]| < CAPACITY && Filling(c, SendNext(c, s))
  {
    var s' := SendNext(c, s);
    assert Passed(s.sendBlock, s.sendLane, s.sendLane) < BLOCKS;
    assert InTransit(s', c.image(s.round - 1));
  }

  lemma SendKeeps(c: Config, s: State)
    requires Inv(c, s)
    ensures Inv(c, SendNext(c, s))
  {
    if s.sendBlock < BLOCKS {
      assert Filling(c, s);
      SendKeepsTransit(c, s);
    }
  }

  /** The last byte of the image: no lane can hold anything else. */
  lemma LastByteFills(c: Config, s: State)
    requires Shaped(s) && Filling(c, s) && s.lanes[s.writer.lane] != []
    requires s.writer == Fill(BLOCKS - 1, LANES - 1)
    ensures Filled(c, WriterNext(s))
  {
    var s' := WriterNext(s);
    assert Passed(s.sendBlock, s.sendLane, 63) == BLOCKS && Passed(s.sendBlock, s.sendLane, 0) <= BLOCKS;
    forall j | 0 <= j < LANES
      ensures s'.lanes[j] == []
    {
      assert Passed(s.writer.block, s.writer.lane, j) <= Passed(s.sendBlock, s.sendLane, j) <= BLOCKS;
    }
    assert s'.img == c.image(s.round - 1);
  }

  /** Taking a byte keeps what is in the lanes and extends what is in `input_img`. */
  lemma TakingKeepsTransit(s: State, im: Pixels)
    requires Shaped(s) && s.writer.Fill? && InTransit(s, im) && s.lanes[s.writer.lane] != []
    requires s.writer != Fill(BLOCKS - 1, LANES - 1)
    ensures InTransit(WriterNext(s), im)
  {
    var s' := WriterNext(s);
    forall j | 0 <= j < LANES
      ensures Passed(s'.writer.block, s'.writer.lane, j) <= Passed(s'.sendBlock, s'.sendLane, j) <= BLOCKS
      ensures s'.lanes[j] == Column(im, j, Passed(s'.writer.block, s'.writer.lane, j), Passed(s'.sendBlock, s'.sendLane, j))
    {
      assert Passed(s.writer.block, s.writer.lane, j) <= Passed(s.sendBlock, s.sendLane, j) <= BLOCKS;
    }
  }

  lemma WriterKeepsTransit(c: Config, s: State)
    requires Shaped(s) && Filling(c, s) && s.lanes[s.writer.lane] != []
    requires s.writer != Fill(BLOCKS - 1, LANES - 1)
    ensures Filling(c, WriterNext(s))
  {
    hide InTransit;
    TakingKeepsTransit(s, c.image(s.round - 1));
  }

  lemma WriterKeeps(c: Config, s: State)
    requires Inv(c, s)
    ensures Inv(c, WriterNext(s))
  {
    if Filling(c, s) {
      if s.lanes[s.writer.lane] != [] {
        if s.writer == Fill(BLOCKS - 1, LANES - 1) {
          LastByteFills(c, s);
        } else {
          WriterKeepsTransit(c, s);
        }
      }
    } else {
      hide InTransit;
    }
  }

  lemma LoadKeeps(c: Config, s: State)
    requires Shaped(s) && Computing(c, s) && s.filter.Load?
    ensures Computing(c, FilterNext(c, s))
  {
    assert s.img[..1024] == s.img;
  }

  lemma FilterKeeps(c: Config, s: State)
    requires Inv(c, s)
    ensures Inv(c, FilterNext(c, s))
  {
    assert s.img[..0] == [];
    if Computing(c, s) && s.filter.Load? {
      LoadKeeps(c, s);
    }
  }

  lemma HandlerKeeps(c: Config, s: State)
    requires Inv(c, s)
    ensures Inv(c, HandlerNext(s))
  {
    hide InTransit;
  }

  lemma {:induction false} RunKeeps(c: Config, memory: Pixels, events: seq<Event>)
    ensures Inv(c, After(c, memory, events))
  {
    hide Inv, HartNext, SendNext, WriterNext, FilterNext, HandlerNext;
    if events == [] {
      PowerUpKeeps(c, memory);
    } else {
      var rest := events[..|events| - 1];
      var s := After(c, memory, rest);
      RunKeeps(c, memory, rest);
      match events[|events| - 1]
      case HartStep => HartKeeps(c, s);
      case SendStep => SendKeeps(c, s);
      case WriterStep => WriterKeeps(c, s);
      case FilterStep => FilterKeeps(c, s);
      case HandlerStep => HandlerKeeps(c, s);
    }
  }

  lemma PowerUpKeeps(c: Config, memory: Pixels)
    ensures Inv(c, Start(memory))
  {
  }

  // ----- What the hart can rely on, in every interleaving -----

  /** The k-th result read is the network applied to the k-th image sent. */
  lemma ResultsAreNet(c: Config, memory: Pixels, events: seq<Event>, k: nat)
    requires k < |After(c, memory, events).results|
    ensures After(c, memory, events).results[k] == c.net(c.image(k))
  {
    hide After, Between, Filling, Filled, Computing, Raised, ReadingBack;
    RunKeeps(c, memory, events);
  }

  /** Every interrupt raised is observed once: none is pending twice, lost in a set flag, or cleared unseen. */
  lemma NoCompletionLost(c: Config, memory: Pixels, events: seq<Event>)
    ensures var s := After(c, memory, events);
            && s.triggered == s.observed + (if s.pending then 1 else 0) + (if s.flag then 1 else 0)
            && s.observed <= s.triggered <= s.round <= s.observed + 1
            && (s.hart == Clearing ==> s.flag)
  {
    hide After, InTransit, LanesEmpty, Queued;
    RunKeeps(c, memory, events);
  }

  /** While an image is computed nothing is written over it: any pixel, read at any time, is the image's. */
  lemma InputIsStable(c: Config, memory: Pixels, events: seq<Event>, e: Event)
    requires var s := After(c, memory, events); s.filter.Load? || s.filter.Emit?
    ensures var s := After(c, memory, events);
            s.round > 0 && s.img == c.image(s.round - 1) && Next(c, s, e).img == s.img
  {
    hide After, InTransit, Queued;
    RunKeeps(c, memory, events);
  }

  /** No queue ever holds more than it can, and the bus never waits for room in a lane. */
  lemma QueuesNeverBlock(c: Config, memory: Pixels, events: seq<Event>, j: nat, r: nat)
    requires j < LANES && r < RESULTS
    ensures var s := After(c, memory, events);
            && |s.lanes[j]| <= 16 && s.starts <= 1 && |s.outs[r]| <= 1
            && (s.sendBlock < BLOCKS ==> |s.lanes[s.sendLane]| < 16)
  {
    hide After;
    RunKeeps(c, memory, events);
    var s := After(c, memory, events);
    if s.sendBlock < BLOCKS {
      SendKeepsTransit(c, s);
    }
    hide WriterNext, HartNext, FilterNext, SendNext, HandlerNext, Inv;
  }

  /** The pair is never stuck: some process can always take a step that changes the state. */
  lemma NeverStuck(c: Config, memory: Pixels, events: seq<Event>) returns (e: Event)
    ensures Next(c, After(c, memory, events), e) != After(c, memory, events)
  {
    hide After;
    RunKeeps(c, memory, events);
    var s := After(c, memory, events);
    if s.filter.Resting? {
      e := FilterStep;
    } else if Between(s) || ReadingBack(c, s) {
      e := HartStep;
    } else if Filling(c, s) {
      if s.sendBlock < BLOCKS {
        SendKeepsTransit(c, s);
        e := SendStep;
      } else {
        e := WriterStep;
      }
    } else if Filled(c, s) {
      e := if s.writer == Announce then WriterStep else FilterStep;
    } else if Computing(c, s) {
      e := FilterStep;
    } else {
      e := if s.pending then HandlerStep else HartStep;
    }
  }

  // ----- With the network of this repository -----

  /** The hart's images through the reference accelerator. */
  function Lenet(w: Weights, image: nat -> Pixels): Config {
    Config(image, p => RefOut(p, w))
  }

  /** Every result the hart reads is what the hardware datapath computes for that image, when activations fit. */
  lemma StreamIsLenet(w: Weights, image: nat -> Pixels, memory: Pixels, events: seq<Event>, k: nat)
    requires w.Shaped() && k < |After(Lenet(w, image), memory, events).results|
    ensures var r := After(Lenet(w, image), memory, events).results[k];
            r == RefOut(image(k), w) && (ActivationsFit(image(k), w) ==> r == HlsOut(image(k), w))
  {
    hide After, RefOut, HlsOut, ActivationsFit;
    ResultsAreNet(Lenet(w, image), memory, events, k);
    if ActivationsFit(image(k), w) {
      EndToEnd(image(k), w);
    }
  }
}
