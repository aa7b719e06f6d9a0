/**
 * The storage condition of the network, seen from its inputs: exactly which first-layer weights keep the first
 * activations within eight bits on every image, and what happens when activations do not fit.
 */
module Activations {
  import opened Arith
  import opened Convolution
  import opened FullyConnected
  import opened Network
  import opened Overflow
  import ExactNetwork

  // ----- The largest window sum that inputs in a range can reach -----

  /** The larger product of the weight with an input in `[lo, hi]`. */
  function Best(v: int, lo: int, hi: int): int {
    if v > 0 then hi * v else lo * v
  }

  function BestTaps(w: Kernels, m: int, c: int, r: int, s: nat, lo: int, hi: int): int {
    if s == 0 then 0 else BestTaps(w, m, c, r, s - 1, lo, hi) + Best(w.at(m, c, r, s - 1), lo, hi)
  }

  function BestRows(w: Kernels, m: int, c: int, r: nat, lo: int, hi: int): int {
    if r == 0 then 0 else BestRows(w, m, c, r - 1, lo, hi) + BestTaps(w, m, c, r - 1, w.size, lo, hi)
  }

  function BestChannels(w: Kernels, m: int, c: nat, lo: int, hi: int): int {
    if c == 0 then 0 else BestChannels(w, m, c - 1, lo, hi) + BestRows(w, m, c - 1, w.size, lo, hi)
  }

  /** Of output channel `m`: `hi` times its positive weights and `lo` times its negative ones. */
  function BestSum(w: Kernels, m: int, lo: int, hi: int): int {
    BestChannels(w, m, w.inC, lo, hi)
  }

  ghost predicate Ranged(img: Tensor, lo: int, hi: int) {
    forall c, y, x :: lo <= img(c, y, x) <= hi
  }

  lemma BestProduct(a: int, v: int, lo: int, hi: int)
    requires lo <= a <= hi
    ensures a * v <= Best(v, lo, hi)
  {
    if v > 0 {
      assert (hi - a) * v >= 0;
    } else {
      assert (a - lo) * (0 - v) >= 0;
    }
  }

  lemma {:induction false} TapsBelow(img: Tensor, w: Kernels, m: int, c: int, y: int, x: int, r: int, s: nat, lo: int, hi: int)
    requires Ranged(img, lo, hi)
    ensures TapSum(img, w, m, c, y, x, r, s) <= BestTaps(w, m, c, r, s, lo, hi)
  {
    if s > 0 {
      TapsBelow(img, w, m, c, y, x, r, s - 1, lo, hi);
      BestProduct(img(c, y + r, x + (s - 1)), w.at(m, c, r, s - 1), lo, hi);
    }
  }

  lemma {:induction false} RowsBelow(img: Tensor, w: Kernels, m: int, c: int, y: int, x: int, r: nat, lo: int, hi: int)
    requires Ranged(img, lo, hi)
    ensures RowSum(img, w, m, c, y, x, r) <= BestRows(w, m, c, r, lo, hi)
  {
    if r > 0 {
      RowsBelow(img, w, m, c, y, x, r - 1, lo, hi);
      TapsBelow(img, w, m, c, y, x, r - 1, w.size, lo, hi);
    }
  }

  /** No input in the range reaches a larger window sum, at any position. */
  lemma {:induction false} SumsBelow(img: Tensor, w: Kernels, m: int, y: int, x: int, c: nat, lo: int, hi: int)
    requires Ranged(img, lo, hi)
    ensures ChannelSum(img, w, m, y, x, c) <= BestChannels(w, m, c, lo, hi)
  {
    if c > 0 {
      SumsBelow(img, w, m, y, x, c - 1, lo, hi);
      RowsBelow(img, w, m, c - 1, y, x, w.size, lo, hi);
    }
  }

  /** The input that reaches it in the window at the origin. */
  function Peak(w: Kernels, m: int, lo: int, hi: int): Tensor {
    (c, y, x) => if w.at(m, c, y, x) > 0 then hi else lo
  }

  lemma {:induction false} PeakTaps(w: Kernels, m: int, c: int, r: int, s: nat, lo: int, hi: int)
    ensures TapSum(Peak(w, m, lo, hi), w, m, c, 0, 0, r, s) == BestTaps(w, m, c, r, s, lo, hi)
  {
    if s > 0 {
      PeakTaps(w, m, c, r, s - 1, lo, hi);
      assert Peak(w, m, lo, hi)(c, 0 + r, 0 + (s - 1)) == Peak(w, m, lo, hi)(c, r, s - 1);
    }
  }

  lemma {:induction false} PeakRows(w: Kernels, m: int, c: int, r: nat, lo: int, hi: int)
    ensures RowSum(Peak(w, m, lo, hi), w, m, c, 0, 0, r) == BestRows(w, m, c, r, lo, hi)
  {
    if r > 0 {
      PeakRows(w, m, c, r - 1, lo, hi);
      PeakTaps(w, m, c, r - 1, w.size, lo, hi);
    }
  }

  lemma {:induction false} PeakSums(w: Kernels, m: int, c: nat, lo: int, hi: int)
    ensures ChannelSum(Peak(w, m, lo, hi), w, m, 0, 0, c) == BestChannels(w, m, c, lo, hi)
  {
    if c > 0 {
      PeakSums(w, m, c - 1, lo, hi);
      PeakRows(w, m, c - 1, w.size, lo, hi);
    }
  }

  // ----- The first layer -----

  /** Checked on the first layer's weights alone: 64527 * 130 is the last product whose upper half is at most 127. */
  predicate Conv1Light(w: Weights) {
    forall m :: 0 <= m < 6 ==> BestSum(w.conv1, m, -0x80, 0x7f) <= 64527
  }

  /** The largest sum that each layer requantises to at most 127. */
  lemma LargestSums(x: int)
    ensures Requant(x, K_CONV1) <= 127 <==> x <= 64527
    ensures Requant(x, K_CONV2) <= 127 <==> x <= 94254
    ensures Requant(x, K_FC1) <= 127 <==> x <= 25040
    ensures Requant(x, K_FC2) <= 127 <==> x <= 26379
  {
  }

  /** The image whose top-left window is the peak of channel `m`. */
  function PeakImage(w: Kernels, m: int): Pixels {
    seq(1024, i requires 0 <= i < 1024 => PeakPixel(w, m, i / 32, i % 32))
  }

  function PeakPixel(w: Kernels, m: int, y: nat, x: nat): int8 {
    if w.at(m, 0, y, x) > 0 then 127 else -128
  }

  /** Its first activation in that channel is at least the requantised best sum. */
  lemma PeakReached(w: Weights, m: int)
    requires w.Shaped() && 0 <= m < 6
    ensures Requant(BestSum(w.conv1, m, -0x80, 0x7f), K_CONV1) <= RefMap1(PeakImage(w.conv1, m), w)(m, 0, 0)
  {
    var img := Image(PeakImage(w.conv1, m));
    PeakSums(w.conv1, m, 1, -0x80, 0x7f);
    forall c, y, x | 0 <= c < 1 && 0 <= y < 32 && 0 <= x < 32
      ensures img(c, y, x) == Peak(w.conv1, m, -0x80, 0x7f)(c, y, x)
    {
      assert (y * 32 + x) / 32 == y && (y * 32 + x) % 32 == x;
    }
    ChannelAgree(img, Peak(w.conv1, m, -0x80, 0x7f), w.conv1, m, 0, 0, 1, 32, 32);
    FirstIsSmaller(img, w.conv1, K_CONV1, m, 0, 0);
    FusedIsPooled(img, w.conv1, K_CONV1, m, 0, 0);
  }

  lemma FirstIsSmaller(img: Tensor, w: Kernels, k: nat, m: int, h: int, x: int)
    ensures Requant(WindowSum(img, w, m, 2 * h, 2 * x), k) <= FusedAct(img, w, k, m, h, x)
  {
    var s := PoolWindow(img, w, m, h, x);
    assert s[0] <= MaxFrom(0, s, 1) <= MaxFrom(0, s, 2) <= MaxFrom(0, s, 3) <= MaxFrom(0, s, 4);
    RequantMonotone(s[0], MaxFrom(0, s, 4), k);
  }

  lemma LightFits(p: Pixels, w: Weights, m: int, h: int, x: int)
    requires w.Shaped() && Conv1Light(w) && 0 <= m < 6
    ensures RefMap1(p, w)(m, h, x) <= 127
  {
    var img := Image(p);
    var s := PoolWindow(img, w.conv1, m, h, x);
    assert Ranged(img, -0x80, 0x7f);
    assert BestSum(w.conv1, m, -0x80, 0x7f) <= 64527;
    SumsBelow(img, w.conv1, m, 2 * h, 2 * x, 1, -0x80, 0x7f);
    SumsBelow(img, w.conv1, m, 2 * h, 2 * x + 1, 1, -0x80, 0x7f);
    SumsBelow(img, w.conv1, m, 2 * h + 1, 2 * x, 1, -0x80, 0x7f);
    SumsBelow(img, w.conv1, m, 2 * h + 1, 2 * x + 1, 1, -0x80, 0x7f);
    MaxFromBound(0, s, 4, 64527);
    LargestSums(MaxFrom(0, s, 4));
    FusedIsPooled(img, w.conv1, K_CONV1, m, h, x);
  }

  /** The first layer's activations fit eight bits on every image exactly when its weights are light. */
  lemma FirstLayerFitsExactly(w: Weights)
    requires w.Shaped()
    ensures (forall p: Pixels :: MapFits(RefMap1(p, w), 6, 14, 14)) <==> Conv1Light(w)
  {
    if Conv1Light(w) {
      forall p: Pixels
        ensures MapFits(RefMap1(p, w), 6, 14, 14)
      {
        forall m, h, x | 0 <= m < 6 && 0 <= h < 14 && 0 <= x < 14
          ensures RefMap1(p, w)(m, h, x) <= 127
        {
          LightFits(p, w, m, h, x);
        }
      }
    } else {
      var m :| 0 <= m < 6 && BestSum(w.conv1, m, -0x80, 0x7f) > 64527;
      PeakReached(w, m);
      LargestSums(BestSum(w.conv1, m, -0x80, 0x7f));
      assert !MapFits(RefMap1(PeakImage(w.conv1, m), w), 6, 14, 14);
    }
  }

  // ----- The later layers -----

  /** A convolution layer's activations fit on all inputs in a range exactly when each channel's best sum does. */
  lemma LayerFitsExactly(w: Kernels, k: nat, lo: int, hi: int, outH: nat, outW: nat)
    requires lo <= hi && outH > 0 && outW > 0
    ensures (forall t: Tensor :: Ranged(t, lo, hi) ==> MapFits(PooledTensor(t, w, k), w.outC, outH, outW))
       <==> (forall m :: 0 <= m < w.outC ==> Requant(BestSum(w, m, lo, hi), k) <= 127)
  {
    if forall m :: 0 <= m < w.outC ==> Requant(BestSum(w, m, lo, hi), k) <= 127 {
      forall t: Tensor | Ranged(t, lo, hi)
        ensures MapFits(PooledTensor(t, w, k), w.outC, outH, outW)
      {
        forall m, h, x | 0 <= m < w.outC && 0 <= h < outH && 0 <= x < outW
          ensures PooledTensor(t, w, k)(m, h, x) <= 127
        {
          PooledBelow(t, w, k, m, h, x, lo, hi);
        }
      }
    } else {
      var m :| 0 <= m < w.outC && Requant(BestSum(w, m, lo, hi), k) > 127;
      var t := Peak(w, m, lo, hi);
      PeakSums(w, m, w.inC, lo, hi);
      FirstIsSmaller(t, w, k, m, 0, 0);
      FusedIsPooled(t, w, k, m, 0, 0);
      assert PooledTensor(t, w, k)(m, 0, 0) > 127;
      assert Ranged(t, lo, hi);
    }
  }

  lemma PooledBelow(t: Tensor, w: Kernels, k: nat, m: int, h: int, x: int, lo: int, hi: int)
    requires Ranged(t, lo, hi)
    ensures PooledTensor(t, w, k)(m, h, x) <= Requant(Max(0, BestSum(w, m, lo, hi)), k) == Requant(BestSum(w, m, lo, hi), k)
  {
    var u := Max(0, BestSum(w, m, lo, hi));
    SumsBelow(t, w, m, 2 * h, 2 * x, w.inC, lo, hi);
    SumsBelow(t, w, m, 2 * h, 2 * x + 1, w.inC, lo, hi);
    SumsBelow(t, w, m, 2 * h + 1, 2 * x, w.inC, lo, hi);
    SumsBelow(t, w, m, 2 * h + 1, 2 * x + 1, w.inC, lo, hi);
    MaxFromBound(0, PoolWindow(t, w, m, h, x), 4, u);
    RequantMonotone(MaxFrom(0, PoolWindow(t, w, m, h, x), 4), u, k);
    FusedIsPooled(t, w, k, m, h, x);
    NegativeIsZero(BestSum(w, m, lo, hi), k);
  }

  lemma NegativeIsZero(x: int, k: nat)
    ensures Requant(Max(0, x), k) == Requant(x, k)
  {
    if x < 0 {
      assert x * k <= 0;
    }
  }

  /** The second layer: on all activations 0 to 127 exactly when no channel's 127-fold positive weights pass 94254. */
  lemma SecondLayerFitsExactly(w: Weights)
    requires w.Shaped()
    ensures (forall t: Tensor :: Ranged(t, 0, 0x7f) ==> MapFits(PooledTensor(t, w.conv2, K_CONV2), 16, 5, 5))
       <==> (forall m :: 0 <= m < 16 ==> BestSum(w.conv2, m, 0, 0x7f) <= 94254)
  {
    LayerFitsExactly(w.conv2, K_CONV2, 0, 0x7f, 5, 5);
    forall m
      ensures Requant(BestSum(w.conv2, m, 0, 0x7f), K_CONV2) <= 127 <==> BestSum(w.conv2, m, 0, 0x7f) <= 94254
    {
      LargestSums(BestSum(w.conv2, m, 0, 0x7f));
    }
  }

  /** A fully connected row's exact activations fit on all inputs 0 to 127 exactly when they do on its peak. */
  lemma RowFitsExactly(w: Matrix, row: int, k: nat)
    ensures (forall x: Vec :: Within(x, w.cols, 0, 0x7f) ==> Requant(Dot(x, w, row, w.cols), k) <= 127)
       <==> Requant(0x7f * Positive(w, row, w.cols), k) <= 127
  {
    var top := Extreme(w, row, 0x7f, 0);
    ExtremeDot(w, row, w.cols, 0x7f, 0);
    assert Within(top, w.cols, 0, 0x7f);
    forall x: Vec | Within(x, w.cols, 0, 0x7f)
      ensures Requant(Dot(x, w, row, w.cols), k) <= Requant(0x7f * Positive(w, row, w.cols), k)
    {
      DotRange(x, w, row, w.cols, 0, 0x7f);
      RequantMonotone(Dot(x, w, row, w.cols), 0x7f * Positive(w, row, w.cols), k);
    }
  }

  /** Rows within limits: what the layer stores before the 8-bit cell is the exact activation. */
  lemma ReferenceRowFits(w: Matrix, row: int, k: nat)
    requires 1 <= k && RowWithinLimits(w, row, k, 0, 0x7f)
    ensures (forall x: Vec :: Within(x, w.cols, 0, 0x7f) ==> FcReference(x, w, k)(row) <= 127)
       <==> Requant(0x7f * Positive(w, row, w.cols), k) <= 127
  {
    RowFitsExactly(w, row, k);
    forall x: Vec | Within(x, w.cols, 0, 0x7f)
      ensures FcReference(x, w, k)(row) == Requant(Dot(x, w, row, w.cols), k)
    {
      NoOverflowIsExact(x, w, k, row, 0, 0x7f);
    }
  }

  /** FC1, on rows within the overflow limits. */
  lemma Fc1FitsExactly(w: Weights, row: int)
    requires w.Shaped() && RowWithinLimits(w.fc1, row, K_FC1, 0, 0x7f)
    ensures (forall x: Vec :: Within(x, 400, 0, 0x7f) ==> FcReference(x, w.fc1, K_FC1)(row) <= 127)
       <==> 0x7f * Positive(w.fc1, row, 400) <= 25040
  {
    ReferenceRowFits(w.fc1, row, K_FC1);
    LargestSums(0x7f * Positive(w.fc1, row, 400));
  }

  /** FC2, on all rows. */
  lemma Fc2FitsExactly(w: Weights, row: int)
    requires w.Shaped()
    ensures (forall x: Vec :: Within(x, 120, 0, 0x7f) ==> FcReference(x, w.fc2, K_FC2)(row) <= 127)
       <==> 0x7f * Positive(w.fc2, row, 120) <= 26379
  {
    ExactNetwork.SmallLayersWithinLimits(w, row);
    ReferenceRowFits(w.fc2, row, K_FC2);
    LargestSums(0x7f * Positive(w.fc2, row, 120));
  }

  // ----- When activations do not fit -----

  /** Channels `[0, channels)`, rows and columns from 0 on, all hold `a`. */
  ghost predicate Flat(img: Tensor, a: int, channels: int, rows: int, cols: int) {
    forall c, y, x :: 0 <= c < channels && 0 <= y < rows && 0 <= x < cols ==> img(c, y, x) == a
  }

  ghost predicate FlatKernels(w: Kernels, v: int) {
    forall m, c, r, s :: w.at(m, c, r, s) == v
  }

  lemma {:induction false} FlatTaps(img: Tensor, w: Kernels, m: int, c: int, y: int, x: int, r: int, s: nat,
                                    a: int, v: int, rows: int, cols: int)
    requires Flat(img, a, w.inC, rows, cols) && FlatKernels(w, v)
    requires 0 <= c < w.inC && 0 <= y + r < rows && 0 <= x && x + s <= cols
    ensures TapSum(img, w, m, c, y, x, r, s) == (a * v) * s
  {
    if s > 0 {
      FlatTaps(img, w, m, c, y, x, r, s - 1, a, v, rows, cols);
      assert img(c, y + r, x + (s - 1)) == a && w.at(m, c, r, s - 1) == v;
    }
  }

  lemma {:induction false} FlatRows(img: Tensor, w: Kernels, m: int, c: int, y: int, x: int, r: nat,
                                    a: int, v: int, rows: int, cols: int)
    requires Flat(img, a, w.inC, rows, cols) && FlatKernels(w, v) && w.size == 5
    requires 0 <= c < w.inC && 0 <= y && y + r <= rows && 0 <= x && x + 5 <= cols
    ensures RowSum(img, w, m, c, y, x, r) == (a * v) * 5 * r
  {
    if r > 0 {
      FlatRows(img, w, m, c, y, x, r - 1, a, v, rows, cols);
      FlatTaps(img, w, m, c, y, x, r - 1, 5, a, v, rows, cols);
    }
  }

  lemma {:induction false} FlatWindow(img: Tensor, w: Kernels, m: int, y: int, x: int, c: nat, a: int, v: int, rows: int, cols: int)
    requires Flat(img, a, w.inC, rows, cols) && FlatKernels(w, v) && w.size == 5
    requires c <= w.inC && 0 <= y && y + 5 <= rows && 0 <= x && x + 5 <= cols
    ensures ChannelSum(img, w, m, y, x, c) == (a * v) * 25 * c
  {
    if c > 0 {
      FlatWindow(img, w, m, y, x, c - 1, a, v, rows, cols);
      FlatRows(img, w, m, c - 1, y, x, 5, a, v, rows, cols);
    }
  }

  /** A layer with equal inputs and equal weights has equal outputs. */
  lemma FlatLayer(img: Tensor, w: Kernels, k: nat, a: int, v: int, outH: nat, outW: nat, sum: nat)
    requires Flat(img, a, w.inC, 2 * outH + 4, 2 * outW + 4) && FlatKernels(w, v) && w.size == 5
    requires sum == (a * v) * 25 * w.inC
    ensures Flat(PooledTensor(img, w, k), Requant(sum, k), w.outC, outH, outW)
    ensures Flat(FusedTensor(img, w, k), Wrap8(Requant(sum, k)), w.outC, outH, outW)
  {
    forall m, h, x | 0 <= m < w.outC && 0 <= h < outH && 0 <= x < outW
      ensures FusedAct(img, w, k, m, h, x) == Requant(sum, k) == PooledTensor(img, w, k)(m, h, x)
    {
      FlatWindow(img, w, m, 2 * h, 2 * x, w.inC, a, v, 2 * outH + 4, 2 * outW + 4);
      FlatWindow(img, w, m, 2 * h, 2 * x + 1, w.inC, a, v, 2 * outH + 4, 2 * outW + 4);
      FlatWindow(img, w, m, 2 * h + 1, 2 * x, w.inC, a, v, 2 * outH + 4, 2 * outW + 4);
      FlatWindow(img, w, m, 2 * h + 1, 2 * x + 1, w.inC, a, v, 2 * outH + 4, 2 * outW + 4);
      FlatMax(PoolWindow(img, w, m, h, x), 4, sum);
      FusedIsPooled(img, w, k, m, h, x);
    }
  }

  lemma FlatMax(s: seq<int>, n: nat, v: nat)
    requires 1 <= n <= |s| && forall i | 0 <= i < |s| :: s[i] == v
    ensures MaxFrom(0, s, n) == v
  {
  }

  ghost predicate FlatVec(x: Vec, a: int, n: nat) {
    forall i :: 0 <= i < n ==> x(i) == a
  }

  lemma {:induction false} FlatDot(x: Vec, w: Matrix, row: int, n: nat, a: int)
    requires FlatVec(x, a, n) && forall r, c :: w.at(r, c) == 1
    ensures Dot(x, w, row, n) == a * n
  {
    if n > 0 {
      FlatDot(x, w, row, n - 1, a);
      assert x(n - 1) == a && w.at(row, n - 1) == 1;
    }
  }

  lemma FlatFlatten(t: Tensor, a: int)
    requires Flat(t, a, 16, 5, 5)
    ensures FlatVec(Flatten(t, 5, 5), a, 400)
  {
    forall i | 0 <= i < 400
      ensures Flatten(t, 5, 5)(i) == a
    {
      assert t(i / 25, i % 25 / 5, i % 25 % 5) == a;
    }
  }

  /** First-layer weights of 127, all others 1. */
  function HeavyWeights(): (w: Weights)
    ensures w.Shaped()
  {
    var ones := (r, c) => 1;
    Weights(Kernels(6, 1, 5, (m, c, r, s) => 127), Kernels(16, 6, 5, (m, c, r, s) => 1),
            Matrix(120, 400, ones), Matrix(84, 120, ones), Matrix(10, 84, ones))
  }

  function White(): Pixels {
    seq(1024, i => 127)
  }

  /** All pixels and all first-layer weights 127: every pooled activation is 799 and is stored as 31. */
  lemma StorageCanWrap()
    ensures Flat(RefMap1(White(), HeavyWeights()), 799, 6, 14, 14)
    ensures Flat(HlsMap1(White(), HeavyWeights()), 31, 6, 14, 14)
  {
    FlatLayer(Image(White()), HeavyWeights().conv1, K_CONV1, 127, 127, 14, 14, 403225);
  }

  lemma HeavyMaps()
    ensures FlatVec(RefIn1(White(), HeavyWeights()), 162, 400) && FlatVec(HlsIn1(White(), HeavyWeights()), 6, 400)
  {
    hide HeavyWeights, White;
    var p, w := White(), HeavyWeights();
    StorageCanWrap();
    HeavyConv2();
    FlatLayer(RefMap1(p, w), w.conv2, K_CONV2, 799, 1, 5, 5, 119850);
    FlatLayer(HlsMap1(p, w), w.conv2, K_CONV2, 31, 1, 5, 5, 4650);
    FlatFlatten(RefMap2(p, w), 162);
    FlatFlatten(HlsMap2(p, w), 6);
  }

  lemma HeavyConv2()
    ensures FlatKernels(HeavyWeights().conv2, 1)
  {
  }

  lemma HeavyFc(x: Vec, row: int, a: nat)
    ensures FlatVec(x, a, 400) ==> Dot(x, HeavyWeights().fc1, row, 400) == a * 400
    ensures FlatVec(x, a, 120) ==> Dot(x, HeavyWeights().fc2, row, 120) == a * 120
    ensures FlatVec(x, a, 84) ==> Dot(x, HeavyWeights().fc3, row, 84) == a * 84
  {
    if FlatVec(x, a, 400) {
      FlatDot(x, HeavyWeights().fc1, row, 400, a);
    }
    if FlatVec(x, a, 120) {
      FlatDot(x, HeavyWeights().fc2, row, 120, a);
    }
    if FlatVec(x, a, 84) {
      FlatDot(x, HeavyWeights().fc3, row, 84, a);
    }
  }

  lemma HeavyIn2(row: int)
    ensures RefIn2(White(), HeavyWeights())(row) == 331 && HlsIn2(White(), HeavyWeights())(row) == 12
  {
    hide White, RefIn1, HlsIn1;
    HeavyMaps();
    HeavyFc(RefIn1(White(), HeavyWeights()), row, 162);
    HeavyFc(HlsIn1(White(), HeavyWeights()), row, 6);
  }

  lemma HeavyIn3(row: int)
    ensures RefIn3(White(), HeavyWeights())(row) == 192 && HlsIn3(White(), HeavyWeights())(row) == 6
  {
    hide White, RefIn2, HlsIn2;
    forall i | 0 <= i < 120
      ensures RefIn2(White(), HeavyWeights())(i) == 331 && HlsIn2(White(), HeavyWeights())(i) == 12
    {
      HeavyIn2(i);
    }
    HeavyFc(RefIn2(White(), HeavyWeights()), row, 331);
    HeavyFc(HlsIn2(White(), HeavyWeights()), row, 12);
  }

  /** There every result differs: the reference answers 16128, the hardware 504. */
  lemma ResultsCanDiffer(c: nat)
    requires c < 10
    ensures RefOut(White(), HeavyWeights())[c] == 16128 && HlsOut(White(), HeavyWeights())[c] == 504
  {
    hide White, RefIn3, HlsIn3;
    forall i | 0 <= i < 84
      ensures RefIn3(White(), HeavyWeights())(i) == 192 && HlsIn3(White(), HeavyWeights())(i) == 6
    {
      HeavyIn3(i);
    }
    HeavyFc(RefIn3(White(), HeavyWeights()), c, 192);
    HeavyFc(HlsIn3(White(), HeavyWeights()), c, 6);
  }
}
