/**
 * The layer halves that the hardware runs side by side. A half is a list of output steps, each of which reads
 * some buffers and stores one cell; every interleaving of two independent halves ends in the same buffers as
 * running one after the other.
 */
module Halves {
  import opened Arith
  import opened Convolution
  import opened FullyConnected
  import opened FusedConv
  import opened Network
  import opened HlsLenet

  type Cells = seq<int8>

  /** The four ping-pong buffers; `bufs[0]` is buffer_1. */
  type Buffers = s: seq<Cells> | |s| == 4 witness [[], [], [], []]

  /** One output of a fully connected or of a fused convolution half. */
  datatype Step =
    | FcStep(lo: nat, hi: nat, split: nat, fw: Matrix, k: nat, row: nat, dst: nat, idx: nat)
    | ConvStep(src: nat, lay: Layout, cw: Kernels, k: nat, m: nat, h: nat, x: nat, dst: nat, idx: nat)

  function Lengths(b: Buffers): (r: seq<nat>)
    ensures |r| == 4 && forall i :: 0 <= i < 4 ==> r[i] == |b[i]|
  {
    [|b[0]|, |b[1]|, |b[2]|, |b[3]|]
  }

  /** Every buffer cell and every weight that the step reads exists, and so does the cell it stores. */
  ghost predicate InBounds(b: Buffers, st: Step) {
    && st.dst < 4 && st.idx < |b[st.dst]|
    && (forall r :: r in Reads(st) ==> r < 4)
    && ReadsInside(Lengths(b), st)
  }

  ghost predicate ReadsInside(lengths: seq<nat>, st: Step)
    requires |lengths| == 4 && forall r :: r in Reads(st) ==> r < 4
  {
    match st
    case FcStep(lo, hi, split, fw, _, row, _, _) =>
      assert lo in Reads(st) && hi in Reads(st);
      row < fw.rows && split <= fw.cols && split <= lengths[lo] && fw.cols - split <= lengths[hi]
    case ConvStep(src, lay, cw, _, m, h, x, _, _) =>
      assert src in Reads(st);
      m < cw.outC && WindowInside(lay, cw, h, x, lengths[src])
  }

  /** The source cells under the 2x2 pooling window at `(h, x)`, in every channel. */
  ghost predicate WindowInside(lay: Layout, cw: Kernels, h: nat, x: nat, length: nat) {
    forall c, y, z {:trigger lay.At(c, y, z)} ::
      0 <= c < cw.inC && 2 * h <= y < 2 * h + cw.size + 1 && 2 * x <= z < 2 * x + cw.size + 1 ==>
        0 <= lay.At(c, y, z) < length
  }

  function Reads(st: Step): set<nat> {
    match st
    case FcStep(lo, hi, _, _, _, _, _, _) => {lo, hi}
    case ConvStep(src, _, _, _, _, _, _, _, _) => {src}
  }

  function Get(c: Cells, i: int): int8 {
    if 0 <= i < |c| then c[i] else 0
  }

  function VecOf(lo: Cells, hi: Cells, split: nat): Vec {
    i => if i < split then Get(lo, i) else Get(hi, i - split)
  }

  function MapOf(c: Cells, lay: Layout): Tensor {
    (m, y, x) => Get(c, lay.At(m, y, x))
  }

  /** What a step stores. */
  function Value(b: Buffers, st: Step): int8
    requires forall r :: r in Reads(st) ==> r < 4
  {
    match st
    case FcStep(lo, hi, split, fw, k, row, _, _) =>
      assert lo in Reads(st) && hi in Reads(st);
      FcCell(b[lo], b[hi], split, fw, k, row)
    case ConvStep(src, lay, cw, k, m, h, x, _, _) =>
      assert src in Reads(st);
      ConvCell(b[src], lay, cw, k, m, h, x)
  }

  function FcCell(lo: Cells, hi: Cells, split: nat, fw: Matrix, k: nat, row: nat): int8 {
    Wrap8(FcAct(VecOf(lo, hi, split), fw, k, row))
  }

  function ConvCell(src: Cells, lay: Layout, cw: Kernels, k: nat, m: nat, h: nat, x: nat): int8 {
    Wrap8(FusedAct(MapOf(src, lay), cw, k, m, h, x))
  }

  function Store(c: Cells, i: nat, v: int8): Cells
    requires i < |c|
  {
    c[i := v]
  }

  ghost function Exec(b: Buffers, st: Step): (r: Buffers)
    requires InBounds(b, st)
    ensures Lengths(r) == Lengths(b)
  {
    b[st.dst := Store(b[st.dst], st.idx, Value(b, st))]
  }

  ghost predicate AllInBounds(b: Buffers, steps: seq<Step>) {
    forall i :: 0 <= i < |steps| ==> InBounds(b, steps[i])
  }

  ghost function Run(b: Buffers, steps: seq<Step>): (r: Buffers)
    requires AllInBounds(b, steps)
    ensures Lengths(r) == Lengths(b)
    decreases |steps|
  {
    hide ReadsInside;
    if steps == [] then b
    else
      var b' := Exec(b, steps[0]);
      assert forall i :: 0 <= i < |steps[1..]| ==> steps[1..][i] == steps[i + 1];
      Run(b', steps[1..])
  }

  // ----- Independence -----

  /** Neither step reads a buffer the other writes, and they write different cells. */
  predicate Independent(a: Step, b: Step) {
    && a.dst !in Reads(b) && b.dst !in Reads(a)
    && (a.dst != b.dst || a.idx != b.idx)
  }

  predicate AllIndependent(xs: seq<Step>, ys: seq<Step>) {
    forall i, j :: 0 <= i < |xs| && 0 <= j < |ys| ==> Independent(xs[i], ys[j])
  }

  lemma StepsCommute(b: Buffers, s: Step, t: Step)
    requires InBounds(b, s) && InBounds(b, t) && Independent(s, t)
    ensures InBounds(Exec(b, s), t) && InBounds(Exec(b, t), s)
    ensures Exec(Exec(b, s), t) == Exec(Exec(b, t), s)
  {
    hide FcCell, ConvCell, ReadsInside;
    assert Value(Exec(b, s), t) == Value(b, t);
    assert Value(Exec(b, t), s) == Value(b, s);
    var l, r := Exec(Exec(b, s), t), Exec(Exec(b, t), s);
    if s.dst == t.dst {
      StoreSwap(b[s.dst], s.idx, Value(b, s), t.idx, Value(b, t));
    }
    assert forall d :: 0 <= d < 4 ==> l[d] == r[d];
  }

  lemma StoreSwap(c: Cells, i: nat, v: int8, j: nat, u: int8)
    requires i < |c| && j < |c| && i != j
    ensures Store(Store(c, i, v), j, u) == Store(Store(c, j, u), i, v)
  {
  }

  /** A step moves past a whole half it is independent of. */
  lemma {:induction false} MovePast(b: Buffers, s: Step, half: seq<Step>)
    requires InBounds(b, s) && AllInBounds(b, half) && AllIndependent([s], half)
    ensures AllInBounds(Exec(b, s), half) && InBounds(Run(b, half), s)
    ensures Run(Exec(b, s), half) == Exec(Run(b, half), s)
    decreases |half|
  {
    hide Value, ReadsInside;
    if half != [] {
      var t, rest := half[0], half[1..];
      assert Independent([s][0], half[0]);
      StepsCommute(b, s, t);
      assert forall i :: 0 <= i < |rest| ==> rest[i] == half[i + 1];
      assert AllIndependent([s], rest);
      MovePast(Exec(b, t), s, rest);
    }
  }

  /** `zs` runs the steps of `xs` and of `ys`, each in order. */
  ghost predicate IsInterleaving(zs: seq<Step>, xs: seq<Step>, ys: seq<Step>)
    decreases |zs|
  {
    if zs == [] then xs == [] && ys == []
    else
      || (xs != [] && zs[0] == xs[0] && IsInterleaving(zs[1..], xs[1..], ys))
      || (ys != [] && zs[0] == ys[0] && IsInterleaving(zs[1..], xs, ys[1..]))
  }

  lemma {:induction false} InterleavingInBounds(b: Buffers, zs: seq<Step>, xs: seq<Step>, ys: seq<Step>)
    requires IsInterleaving(zs, xs, ys) && AllInBounds(b, xs) && AllInBounds(b, ys)
    ensures AllInBounds(b, zs)
    decreases |zs|
  {
    if zs != [] {
      assert forall i :: 0 < i < |zs| ==> zs[i] == zs[1..][i - 1];
      if xs != [] && zs[0] == xs[0] && IsInterleaving(zs[1..], xs[1..], ys) {
        InterleavingInBounds(b, zs[1..], xs[1..], ys);
      } else {
        InterleavingInBounds(b, zs[1..], xs, ys[1..]);
      }
    }
  }

  /** Every interleaving of two independent halves ends where running them one after the other ends. */
  lemma {:induction false} InterleavingsAgree(b: Buffers, zs: seq<Step>, xs: seq<Step>, ys: seq<Step>)
    requires IsInterleaving(zs, xs, ys) && AllIndependent(xs, ys)
    requires AllInBounds(b, xs) && AllInBounds(b, ys)
    ensures AllInBounds(b, zs) && AllInBounds(Run(b, xs), ys)
    ensures Run(b, zs) == Run(Run(b, xs), ys)
    decreases |zs|
  {
    hide Value, ReadsInside, Reads;
    InterleavingInBounds(b, zs, xs, ys);
    if zs != [] {
      if xs != [] && zs[0] == xs[0] && IsInterleaving(zs[1..], xs[1..], ys) {
        assert forall i :: 0 <= i < |xs[1..]| ==> xs[1..][i] == xs[i + 1];
        InterleavingsAgree(Exec(b, xs[0]), zs[1..], xs[1..], ys);
      } else {
        var y := ys[0];
        assert forall i :: 0 <= i < |ys[1..]| ==> ys[1..][i] == ys[i + 1];
        InterleavingsAgree(Exec(b, y), zs[1..], xs, ys[1..]);
        forall i, j | 0 <= i < 1 && 0 <= j < |xs|
          ensures Independent([y][i], xs[j])
        {
          assert Independent(xs[j], ys[0]);
        }
        MovePast(b, y, xs);
      }
    }
  }

  // ----- What one half leaves -----

  /** The steps of a half write different cells and read no buffer that the half writes. */
  predicate Orderly(steps: seq<Step>) {
    forall i, j :: 0 <= i < |steps| && 0 <= j < |steps| ==>
      steps[i].dst !in Reads(steps[j]) && (i != j ==> steps[i].dst != steps[j].dst || steps[i].idx != steps[j].idx)
  }

  predicate Writes(steps: seq<Step>, d: nat, i: nat) {
    exists n :: 0 <= n < |steps| && steps[n].dst == d && steps[n].idx == i
  }

  lemma WritesMore(steps: seq<Step>, d: nat, i: nat)
    requires steps != []
    ensures Writes(steps[1..], d, i) ==> Writes(steps, d, i)
  {
    if Writes(steps[1..], d, i) {
      var n :| 0 <= n < |steps[1..]| && steps[1..][n].dst == d && steps[1..][n].idx == i;
      assert steps[n + 1].dst == d && steps[n + 1].idx == i;
    }
  }

  /** Every cell an orderly half writes holds its value computed from the start; every other cell is as it was. */
  lemma {:induction false} RunCells(b: Buffers, steps: seq<Step>)
    requires AllInBounds(b, steps) && Orderly(steps)
    ensures forall n :: 0 <= n < |steps| ==> Run(b, steps)[steps[n].dst][steps[n].idx] == Value(b, steps[n])
    ensures forall d: nat, i: nat :: d < 4 && i < |b[d]| && !Writes(steps, d, i) ==> Run(b, steps)[d][i] == b[d][i]
    decreases |steps|
  {
    hide FcCell, ConvCell, ReadsInside;
    if steps != [] {
      var s, rest := steps[0], steps[1..];
      var b' := Exec(b, s);
      assert forall i :: 0 <= i < |rest| ==> rest[i] == steps[i + 1];
      RunCells(b', rest);
      assert !Writes(rest, s.dst, s.idx);
      forall n | 0 <= n < |steps|
        ensures Run(b, steps)[steps[n].dst][steps[n].idx] == Value(b, steps[n])
      {
        if n > 0 {
          assert rest[n - 1] == steps[n];
          assert s.dst !in Reads(steps[n]);
          assert Value(b', steps[n]) == Value(b, steps[n]);
        }
      }
      forall d: nat, i: nat | d < 4 && i < |b[d]| && !Writes(steps, d, i)
        ensures Run(b, steps)[d][i] == b[d][i]
      {
        assert steps[0] == s;
        WritesMore(steps, d, i);
      }
    }
  }

  // ----- The halves of the source -----

  function Fc1_1Steps(w: Weights): (r: seq<Step>)
    ensures |r| == 60
  {
    seq(60, c requires 0 <= c < 60 => FcStep(0, 2, 200, w.fc1, K_FC1, c, 1, c))
  }

  function Fc1_2Steps(w: Weights): (r: seq<Step>)
    ensures |r| == 60
  {
    seq(60, c requires 0 <= c < 60 => FcStep(0, 2, 200, w.fc1, K_FC1, 60 + c, 3, c))
  }

  function Fc2_1Steps(w: Weights): (r: seq<Step>)
    ensures |r| == 42
  {
    seq(42, c requires 0 <= c < 42 => FcStep(1, 3, 60, w.fc2, K_FC2, c, 0, c))
  }

  function Fc2_2Steps(w: Weights): (r: seq<Step>)
    ensures |r| == 42
  {
    seq(42, c requires 0 <= c < 42 => FcStep(1, 3, 60, w.fc2, K_FC2, 42 + c, 2, c))
  }

  /** Output `(m, h, x)` of the second convolution layer, from the given source. */
  function Conv2Step(w: Weights, src: nat, lay: Layout, m: nat, h: nat, x: nat): Step {
    ConvStep(src, lay, w.conv2, K_CONV2, m, h, x, if m >= 8 then 2 else 0, CellOf(m, h, x))
  }

  /** `m*25 + h*5 + w`, or that minus 200 for the upper eight channels. */
  function CellOf(m: nat, h: nat, x: nat): nat {
    (if m >= 8 then m - 8 else m) * 25 + h * 5 + x
  }

  /** A half covers two or three of the five pooled rows. */
  type Rows = r: nat | r == 2 || r == 3 witness 2

  /** The position of step `i` in the loops over channels, rows and five columns. */
  function ChannelAt(rows: Rows, i: nat): nat {
    if rows == 2 then i / 10 else i / 15
  }

  function RowAt(rows: Rows, i: nat): nat {
    if rows == 2 then i % 10 / 5 else i % 15 / 5
  }

  function ColumnAt(i: nat): nat {
    i % 5
  }

  lemma Position(rows: Rows, i: nat)
    requires i < 80 * rows
    ensures ChannelAt(rows, i) < 16 && RowAt(rows, i) < rows && ColumnAt(i) < 5
  {
  }

  lemma PositionInjective(rows: Rows, i: nat, j: nat)
    requires ChannelAt(rows, i) == ChannelAt(rows, j) && RowAt(rows, i) == RowAt(rows, j) && ColumnAt(i) == ColumnAt(j)
    ensures i == j
  {
    if rows == 2 {
      Recompose10(i);
      Recompose10(j);
    } else {
      Recompose15(i);
      Recompose15(j);
    }
  }

  lemma Recompose10(i: nat)
    ensures i == i / 10 * 10 + i % 10 / 5 * 5 + i % 5
  {
    assert i % 10 % 5 == i % 5;
  }

  lemma Recompose15(i: nat)
    ensures i == i / 15 * 15 + i % 15 / 5 * 5 + i % 5
  {
    assert i % 15 % 5 == i % 5;
  }

  lemma PositionOf(rows: Rows, m: nat, r: nat)
    requires r < 5 * rows
    ensures var n := if rows == 2 then m * 10 + r else m * 15 + r;
      ChannelAt(rows, n) == m && RowAt(rows, n) == r / 5 && ColumnAt(n) == r % 5
  {
    assert (m * 10 + r) % 5 == r % 5;
    assert (m * 15 + r) % 5 == r % 5;
  }

  /** Pooled rows `[h0, h0 + rows)`, in loop order. */
  function ConvSteps(w: Weights, src: nat, lay: Layout, h0: nat, rows: Rows): (r: seq<Step>)
    ensures |r| == 80 * rows
  {
    seq(80 * rows, i requires 0 <= i < 80 * rows =>
      Conv2Step(w, src, lay, ChannelAt(rows, i), h0 + RowAt(rows, i), ColumnAt(i)))
  }

  function Conv2_1Steps(w: Weights): seq<Step> {
    ConvSteps(w, 1, TOP, 0, 3)
  }

  function Conv2_2Steps(w: Weights): seq<Step> {
    ConvSteps(w, 3, BOTTOM, 3, 2)
  }

  /** Two outputs in the same buffer share a cell only if they are the same output. */
  lemma SameCell(m: nat, h: nat, x: nat, m': nat, h': nat, x': nat)
    requires h < 5 && x < 5 && h' < 5 && x' < 5
    ensures (m >= 8 <==> m' >= 8) && CellOf(m, h, x) == CellOf(m', h', x') ==> m == m' && h == h' && x == x'
  {
  }

  lemma FcHalvesIndependent(w: Weights)
    ensures AllIndependent(Fc1_1Steps(w), Fc1_2Steps(w))
    ensures AllIndependent(Fc2_1Steps(w), Fc2_2Steps(w))
  {
  }

  lemma Conv2HalvesIndependent(w: Weights)
    ensures AllIndependent(Conv2_1Steps(w), Conv2_2Steps(w))
  {
    hide ChannelAt, RowAt, ColumnAt, CellOf;
    var xs, ys := Conv2_1Steps(w), Conv2_2Steps(w);
    forall i, j | 0 <= i < |xs| && 0 <= j < |ys|
      ensures Independent(xs[i], ys[j])
    {
      Position(3, i);
      Position(2, j);
      SameCell(ChannelAt(3, i), RowAt(3, i), ColumnAt(i), ChannelAt(2, j), 3 + RowAt(2, j), ColumnAt(j));
    }
  }

  predicate Sized(b: Buffers) {
    forall i :: 0 <= i < 4 ==> |b[i]| == 1176
  }

  /** FC1 in parallel, for every schedule of its two halves. */
  lemma Fc1AnySchedule(b: Buffers, zs: seq<Step>, w: Weights)
    requires Sized(b) && w.Shaped() && IsInterleaving(zs, Fc1_1Steps(w), Fc1_2Steps(w))
    ensures AllInBounds(b, zs) && AllInBounds(b, Fc1_1Steps(w)) && AllInBounds(Run(b, Fc1_1Steps(w)), Fc1_2Steps(w))
    ensures Run(b, zs) == Run(Run(b, Fc1_1Steps(w)), Fc1_2Steps(w))
  {
    FcHalvesIndependent(w);
    InterleavingsAgree(b, zs, Fc1_1Steps(w), Fc1_2Steps(w));
  }

  /** FC2 in parallel, for every schedule of its two halves. */
  lemma Fc2AnySchedule(b: Buffers, zs: seq<Step>, w: Weights)
    requires Sized(b) && w.Shaped() && IsInterleaving(zs, Fc2_1Steps(w), Fc2_2Steps(w))
    ensures AllInBounds(b, zs) && AllInBounds(b, Fc2_1Steps(w)) && AllInBounds(Run(b, Fc2_1Steps(w)), Fc2_2Steps(w))
    ensures Run(b, zs) == Run(Run(b, Fc2_1Steps(w)), Fc2_2Steps(w))
  {
    FcHalvesIndependent(w);
    InterleavingsAgree(b, zs, Fc2_1Steps(w), Fc2_2Steps(w));
  }

  /** The second convolution layer in parallel, for every schedule of its two halves. */
  lemma Conv2AnySchedule(b: Buffers, zs: seq<Step>, w: Weights)
    requires Sized(b) && w.Shaped() && IsInterleaving(zs, Conv2_1Steps(w), Conv2_2Steps(w))
    ensures AllInBounds(b, zs) && AllInBounds(b, Conv2_1Steps(w)) && AllInBounds(Run(b, Conv2_1Steps(w)), Conv2_2Steps(w))
    ensures Run(b, zs) == Run(Run(b, Conv2_1Steps(w)), Conv2_2Steps(w))
  {
    Conv2HalvesIndependent(w);
    InterleavingsAgree(b, zs, Conv2_1Steps(w), Conv2_2Steps(w));
  }

  // ----- The methods of the module are these halves -----

  ghost function BuffersOf(l: Lenet): (b: Buffers)
    requires l.Valid()
    reads l.buffer1, l.buffer2, l.buffer3, l.buffer4
    ensures Sized(b)
  {
    [l.buffer1[..], l.buffer2[..], l.buffer3[..], l.buffer4[..]]
  }

  /** The buffers after an orderly half are determined by its values and its footprint. */
  lemma RunIs(b: Buffers, b': Buffers, steps: seq<Step>)
    requires AllInBounds(b, steps) && Orderly(steps)
    requires forall d :: 0 <= d < 4 ==> |b'[d]| == |b[d]|
    requires forall n :: 0 <= n < |steps| ==> b'[steps[n].dst][steps[n].idx] == Value(b, steps[n])
    requires forall d: nat, i: nat :: d < 4 && i < |b[d]| && !Writes(steps, d, i) ==> b'[d][i] == b[d][i]
    ensures b' == Run(b, steps)
  {
    hide FcCell, ConvCell, ReadsInside;
    RunCells(b, steps);
    var r := Run(b, steps);
    forall d: nat, i: nat | d < 4 && i < |b[d]|
      ensures b'[d][i] == r[d][i]
    {
    }
    assert forall d :: 0 <= d < 4 ==> b'[d] == r[d];
  }

  /** Rows `[row, row + |steps|)` of a fully connected layer, stored in the first cells of one buffer. */
  ghost predicate FcHalf(steps: seq<Step>, lo: nat, hi: nat, split: nat, fw: Matrix, k: nat, row: nat, dst: nat) {
    && lo < 4 && hi < 4 && dst < 4 && dst != lo && dst != hi && |steps| <= 1176
    && row + |steps| <= fw.rows && split <= fw.cols <= 1176
    && forall c :: 0 <= c < |steps| ==> steps[c] == FcStep(lo, hi, split, fw, k, row + c, dst, c)
  }

  lemma FcHalfInBounds(b: Buffers, steps: seq<Step>, lo: nat, hi: nat, split: nat, fw: Matrix, k: nat, row: nat, dst: nat)
    requires Sized(b) && FcHalf(steps, lo, hi, split, fw, k, row, dst)
    ensures AllInBounds(b, steps) && Orderly(steps)
    ensures forall i: nat :: i < |steps| ==> Writes(steps, dst, i)
  {
    forall i: nat | i < |steps|
      ensures Writes(steps, dst, i)
    {
      assert steps[i].dst == dst && steps[i].idx == i;
    }
  }

  lemma FcHalfIs(b: Buffers, b': Buffers, steps: seq<Step>, lo: nat, hi: nat, split: nat, fw: Matrix, k: nat, row: nat, dst: nat)
    requires Sized(b) && Sized(b') && FcHalf(steps, lo, hi, split, fw, k, row, dst)
    requires forall c :: 0 <= c < |steps| ==> b'[dst][c] == FcCell(b[lo], b[hi], split, fw, k, row + c)
    requires forall i :: |steps| <= i < 1176 ==> b'[dst][i] == b[dst][i]
    requires forall d :: 0 <= d < 4 && d != dst ==> b'[d] == b[d]
    ensures AllInBounds(b, steps) && b' == Run(b, steps)
  {
    hide FcCell, ConvCell, AllInBounds, Orderly, Run;
    FcHalfInBounds(b, steps, lo, hi, split, fw, k, row, dst);
    RunIs(b, b', steps);
  }

  method Fc1InOrder(l: Lenet)
    requires l.Valid()
    modifies l.buffer2, l.buffer4
    ensures AllInBounds(old(BuffersOf(l)), Fc1_1Steps(l.w))
    ensures AllInBounds(Run(old(BuffersOf(l)), Fc1_1Steps(l.w)), Fc1_2Steps(l.w))
    ensures BuffersOf(l) == Run(Run(old(BuffersOf(l)), Fc1_1Steps(l.w)), Fc1_2Steps(l.w))
  {
    hide FcAct, Run;
    ghost var b := BuffersOf(l);
    ghost var x := VecOf(l.buffer1[..], l.buffer3[..], 200);
    l.FC1_1(x);
    ghost var b1 := BuffersOf(l);
    FcHalfIs(b, b1, Fc1_1Steps(l.w), 0, 2, 200, l.w.fc1, K_FC1, 0, 1);
    l.FC1_2(x);
    ghost var b2 := BuffersOf(l);
    assert forall c :: 0 <= c < 60 ==> b2[3][c] == FcTensor(x, l.w.fc1, K_FC1)(c + 60);
    FcHalfIs(b1, b2, Fc1_2Steps(l.w), 0, 2, 200, l.w.fc1, K_FC1, 60, 3);
  }

  method Fc2InOrder(l: Lenet)
    requires l.Valid()
    modifies l.buffer1, l.buffer3
    ensures AllInBounds(old(BuffersOf(l)), Fc2_1Steps(l.w))
    ensures AllInBounds(Run(old(BuffersOf(l)), Fc2_1Steps(l.w)), Fc2_2Steps(l.w))
    ensures BuffersOf(l) == Run(Run(old(BuffersOf(l)), Fc2_1Steps(l.w)), Fc2_2Steps(l.w))
  {
    hide FcAct, Run;
    ghost var b := BuffersOf(l);
    ghost var x := VecOf(l.buffer2[..], l.buffer4[..], 60);
    l.FC2_1(x);
    ghost var b1 := BuffersOf(l);
    FcHalfIs(b, b1, Fc2_1Steps(l.w), 1, 3, 60, l.w.fc2, K_FC2, 0, 0);
    l.FC2_2(x);
    ghost var b2 := BuffersOf(l);
    assert forall c :: 0 <= c < 42 ==> b2[2][c] == FcTensor(x, l.w.fc2, K_FC2)(c + 42);
    FcHalfIs(b1, b2, Fc2_2Steps(l.w), 1, 3, 60, l.w.fc2, K_FC2, 42, 2);
  }

  /** Rows `[h0, h0 + rows)` of the second convolution layer, eight channels in each result buffer. */
  lemma ConvHalfIs(b: Buffers, b': Buffers, w: Weights, src: nat, lay: Layout, h0: nat, rows: Rows)
    requires Sized(b) && Sized(b') && HalfOf(w, src, lay, h0, rows)
    requires Holds(b'[0], MAP2, FusedTensor(MapOf(b[src], lay), w.conv2, K_CONV2), Box(0, 8, h0, h0 + rows, 5))
    requires Holds(b'[2], MAP2_HIGH, FusedTensor(MapOf(b[src], lay), w.conv2, K_CONV2), Box(8, 16, h0, h0 + rows, 5))
    requires SameOutsideBands(b[0], b'[0], MAP2, 0, 8, h0, h0 + rows)
    requires SameOutsideBands(b[2], b'[2], MAP2_HIGH, 8, 16, h0, h0 + rows)
    requires b'[1] == b[1] && b'[3] == b[3]
    ensures AllInBounds(b, ConvSteps(w, src, lay, h0, rows)) && b' == Run(b, ConvSteps(w, src, lay, h0, rows))
  {
    hide FusedAct, Run, Holds, MapOf, ConvSteps, Value;
    var steps := ConvSteps(w, src, lay, h0, rows);
    ConvValues(b, b', w, src, lay, h0, rows);
    ConvOrderly(w, src, lay, h0, rows);
    forall d: nat, i: nat | d < 4 && i < 1176 && !Writes(steps, d, i)
      ensures b'[d][i] == b[d][i]
    {
      ConvFootprint(w, src, lay, h0, rows, d, i);
    }
    RunIs(b, b', steps);
  }

  lemma ConvValues(b: Buffers, b': Buffers, w: Weights, src: nat, lay: Layout, h0: nat, rows: Rows)
    requires Sized(b) && Sized(b') && HalfOf(w, src, lay, h0, rows)
    requires Holds(b'[0], MAP2, FusedTensor(MapOf(b[src], lay), w.conv2, K_CONV2), Box(0, 8, h0, h0 + rows, 5))
    requires Holds(b'[2], MAP2_HIGH, FusedTensor(MapOf(b[src], lay), w.conv2, K_CONV2), Box(8, 16, h0, h0 + rows, 5))
    ensures var steps := ConvSteps(w, src, lay, h0, rows);
      forall i :: 0 <= i < |steps| ==> InBounds(b, steps[i]) && b'[steps[i].dst][steps[i].idx] == Value(b, steps[i])
  {
    hide FusedAct, Holds, MapOf, ChannelAt, RowAt, ColumnAt, Value;
    forall i | 0 <= i < 80 * rows
      ensures var st := ConvSteps(w, src, lay, h0, rows)[i];
        InBounds(b, st) && b'[st.dst][st.idx] == Value(b, st)
    {
      Position(rows, i);
      ConvCellIs(b, b', w, src, lay, h0, rows, ChannelAt(rows, i), h0 + RowAt(rows, i), ColumnAt(i));
    }
  }

  lemma ConvOrderly(w: Weights, src: nat, lay: Layout, h0: nat, rows: Rows)
    requires (src == 1 || src == 3) && h0 + rows <= 5
    ensures Orderly(ConvSteps(w, src, lay, h0, rows))
  {
    hide ChannelAt, RowAt, ColumnAt, CellOf;
    var steps := ConvSteps(w, src, lay, h0, rows);
    forall i, j | 0 <= i < |steps| && 0 <= j < |steps|
      ensures steps[i].dst !in Reads(steps[j]) && (i != j ==> steps[i].dst != steps[j].dst || steps[i].idx != steps[j].idx)
    {
      Position(rows, i);
      Position(rows, j);
      SameCell(ChannelAt(rows, i), h0 + RowAt(rows, i), ColumnAt(i), ChannelAt(rows, j), h0 + RowAt(rows, j), ColumnAt(j));
      if steps[i].dst == steps[j].dst && steps[i].idx == steps[j].idx {
        PositionInjective(rows, i, j);
      }
    }
  }

  /** The rows that a half of the second layer reads are in its source buffer. */
  lemma ConvReadsInside(w: Weights, src: nat, lay: Layout, m: nat, h: nat, x: nat)
    requires w.Shaped() && src < 4 && m < 16 && x < 5 && ((lay == TOP && h < 3) || (lay == BOTTOM && h < 5))
    ensures ReadsInside([1176, 1176, 1176, 1176], Conv2Step(w, src, lay, m, h, x))
  {
  }

  /** The half that reads `lay`: rows 0 to 2 from the top buffer, rows 3 and 4 from the bottom one. */
  predicate HalfOf(w: Weights, src: nat, lay: Layout, h0: nat, rows: Rows) {
    && w.Shaped() && (src == 1 || src == 3) && h0 + rows <= 5
    && ((lay == TOP && h0 + rows <= 3) || lay == BOTTOM)
  }

  lemma ConvCellIs(b: Buffers, b': Buffers, w: Weights, src: nat, lay: Layout, h0: nat, rows: Rows, m: nat, h: nat, x: nat)
    requires Sized(b) && Sized(b') && HalfOf(w, src, lay, h0, rows)
    requires m < 16 && h0 <= h < h0 + rows && x < 5
    requires Holds(b'[0], MAP2, FusedTensor(MapOf(b[src], lay), w.conv2, K_CONV2), Box(0, 8, h0, h0 + rows, 5))
    requires Holds(b'[2], MAP2_HIGH, FusedTensor(MapOf(b[src], lay), w.conv2, K_CONV2), Box(8, 16, h0, h0 + rows, 5))
    ensures var st := Conv2Step(w, src, lay, m, h, x);
      InBounds(b, st) && b'[st.dst][st.idx] == Value(b, st)
  {
    hide FusedAct, MapOf, ReadsInside;
    ConvReadsInside(w, src, lay, m, h, x);
    assert Lengths(b) == [1176, 1176, 1176, 1176];
    if m < 8 {
      assert MAP2.At(m, h, x) == m * 25 + h * 5 + x;
    } else {
      assert MAP2_HIGH.At(m, h, x) == (m - 8) * 25 + h * 5 + x;
    }
  }

  lemma ConvFootprint(w: Weights, src: nat, lay: Layout, h0: nat, rows: Rows, d: nat, i: nat)
    requires h0 + rows <= 5 && d < 4 && i < 1176
    requires !Writes(ConvSteps(w, src, lay, h0, rows), d, i)
    ensures d == 0 ==> !Touched(MAP2, 0, 8, h0, h0 + rows, i)
    ensures d == 2 ==> !Touched(MAP2_HIGH, 8, 16, h0, h0 + rows, i)
  {
    hide ConvSteps;
    if d == 0 && Touched(MAP2, 0, 8, h0, h0 + rows, i) {
      var m :| 0 <= m < 8 && InBand(MAP2, m, h0, h0 + rows, i);
      CellStep(w, src, lay, h0, rows, m, i - m * 25 - h0 * 5, 0, i);
    }
    if d == 2 && Touched(MAP2_HIGH, 8, 16, h0, h0 + rows, i) {
      var m :| 8 <= m < 16 && InBand(MAP2_HIGH, m, h0, h0 + rows, i);
      CellStep(w, src, lay, h0, rows, m, i - (m - 8) * 25 - h0 * 5, 2, i);
    }
  }

  /** The step that writes offset `r` of channel `m`'s band. */
  lemma CellStep(w: Weights, src: nat, lay: Layout, h0: nat, rows: Rows, m: nat, r: int, d: nat, i: nat)
    requires h0 + rows <= 5 && m < 16 && 0 <= r < 5 * rows
    requires d == (if m >= 8 then 2 else 0) && i == (if m >= 8 then m - 8 else m) * 25 + h0 * 5 + r
    ensures Writes(ConvSteps(w, src, lay, h0, rows), d, i)
  {
    var n := if rows == 2 then m * 10 + r else m * 15 + r;
    var steps := ConvSteps(w, src, lay, h0, rows);
    PositionOf(rows, m, r);
    assert steps[n] == Conv2Step(w, src, lay, m, h0 + r / 5, r % 5);
    assert steps[n].dst == d && steps[n].idx == i;
  }

  method Conv2InOrder(l: Lenet)
    requires l.Valid()
    modifies l.buffer1, l.buffer3
    ensures AllInBounds(old(BuffersOf(l)), Conv2_1Steps(l.w))
    ensures AllInBounds(Run(old(BuffersOf(l)), Conv2_1Steps(l.w)), Conv2_2Steps(l.w))
    ensures BuffersOf(l) == Run(Run(old(BuffersOf(l)), Conv2_1Steps(l.w)), Conv2_2Steps(l.w))
  {
    hide FusedAct, Run, SameOutsideBands;
    ghost var b := BuffersOf(l);
    SourceHolds(b[1], TOP, 0, 10);
    l.FusedConv2_1(MapOf(l.buffer2[..], TOP));
    ghost var b1 := BuffersOf(l);
    ConvHalfIs(b, b1, l.w, 1, TOP, 0, 3);
    SourceHolds(b1[3], BOTTOM, 6, 14);
    l.FusedConv2_2(MapOf(l.buffer4[..], BOTTOM));
    ConvHalfIs(b1, BuffersOf(l), l.w, 3, BOTTOM, 3, 2);
  }

  lemma SourceHolds(c: Cells, lay: Layout, y0: int, y1: int)
    requires |c| == 1176 && ((lay == TOP && y0 == 0 && y1 == 10) || (lay == BOTTOM && y0 == 6 && y1 == 14))
    ensures Holds(c, lay, MapOf(c, lay), Box(0, 6, y0, y1, 14)) && Bounded(MapOf(c, lay), 128)
  {
  }
}
