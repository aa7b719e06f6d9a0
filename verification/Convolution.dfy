/**
 * What one convolution-and-pooling layer computes, as functions on unbounded integers: the unfused
 * reference (convolve, requantise, pool) and the fused form (pool the sums, requantise once).
 */
module Convolution {
  import opened Arith

  /** An activation map: channel, row, column. */
  type Tensor = (int, int, int) -> int

  /** `weight[m][c][r][s]`: the weight table of one convolution layer. */
  datatype Kernels = Kernels(outC: nat, inC: nat, size: nat, at: (int, int, int, int) -> int8) {
    function Get(m: int, c: int, r: int, s: int): int8
      requires 0 <= m < outC && 0 <= c < inC && 0 <= r < size && 0 <= s < size
    {
      at(m, c, r, s)
    }
  }

  // ----- The window sum, channel by channel (c, r, s) -----

  /** The first `s` taps of kernel row `r`, applied at output position `(y, x)`. */
  function TapSum(img: Tensor, w: Kernels, m: int, c: int, y: int, x: int, r: int, s: nat): int {
    if s == 0 then 0
    else TapSum(img, w, m, c, y, x, r, s - 1) + img(c, y + r, x + (s - 1)) * w.at(m, c, r, s - 1)
  }

  /** The first `r` kernel rows of channel `c`. */
  function RowSum(img: Tensor, w: Kernels, m: int, c: int, y: int, x: int, r: nat): int {
    if r == 0 then 0
    else RowSum(img, w, m, c, y, x, r - 1) + TapSum(img, w, m, c, y, x, r - 1, w.size)
  }

  /** The first `c` input channels. */
  function ChannelSum(img: Tensor, w: Kernels, m: int, y: int, x: int, c: nat): int {
    if c == 0 then 0
    else ChannelSum(img, w, m, y, x, c - 1) + RowSum(img, w, m, c - 1, y, x, w.size)
  }

  /** The whole window sum of output channel `m` at `(y, x)`. */
  function WindowSum(img: Tensor, w: Kernels, m: int, y: int, x: int): int {
    ChannelSum(img, w, m, y, x, w.inC)
  }

  // ----- The window sum with the channel innermost (r, s, c) -----

  function DepthSum(img: Tensor, w: Kernels, m: int, y: int, x: int, r: int, s: int, c: nat): int {
    if c == 0 then 0
    else DepthSum(img, w, m, y, x, r, s, c - 1) + img(c - 1, y + r, x + s) * w.at(m, c - 1, r, s)
  }

  function DepthRow(img: Tensor, w: Kernels, m: int, y: int, x: int, r: int, c: nat, s: nat): int {
    if s == 0 then 0
    else DepthRow(img, w, m, y, x, r, c, s - 1) + DepthSum(img, w, m, y, x, r, s - 1, c)
  }

  function DepthKernel(img: Tensor, w: Kernels, m: int, y: int, x: int, c: nat, r: nat): int {
    if r == 0 then 0
    else DepthKernel(img, w, m, y, x, c, r - 1) + DepthRow(img, w, m, y, x, r - 1, c, w.size)
  }

  lemma {:induction false} DepthRowStep(img: Tensor, w: Kernels, m: int, y: int, x: int, r: int, c: nat, s: nat)
    ensures DepthRow(img, w, m, y, x, r, c + 1, s)
         == DepthRow(img, w, m, y, x, r, c, s) + TapSum(img, w, m, c, y, x, r, s)
  {
    if s > 0 {
      DepthRowStep(img, w, m, y, x, r, c, s - 1);
    }
  }

  lemma {:induction false} DepthKernelStep(img: Tensor, w: Kernels, m: int, y: int, x: int, c: nat, r: nat)
    ensures DepthKernel(img, w, m, y, x, c + 1, r)
         == DepthKernel(img, w, m, y, x, c, r) + RowSum(img, w, m, c, y, x, r)
  {
    if r > 0 {
      DepthKernelStep(img, w, m, y, x, c, r - 1);
      DepthRowStep(img, w, m, y, x, r - 1, c, w.size);
    }
  }

  lemma {:induction false} DepthKernelZero(img: Tensor, w: Kernels, m: int, y: int, x: int, r: nat)
    ensures DepthKernel(img, w, m, y, x, 0, r) == 0
  {
    if r > 0 {
      DepthKernelZero(img, w, m, y, x, r - 1);
      DepthRowZero(img, w, m, y, x, r - 1, w.size);
    }
  }

  lemma {:induction false} DepthRowZero(img: Tensor, w: Kernels, m: int, y: int, x: int, r: int, s: nat)
    ensures DepthRow(img, w, m, y, x, r, 0, s) == 0
  {
    if s > 0 {
      DepthRowZero(img, w, m, y, x, r, s - 1);
    }
  }

  /** The two loop orders add up the same window. */
  lemma {:induction false} LoopOrdersAgree(img: Tensor, w: Kernels, m: int, y: int, x: int, c: nat)
    ensures DepthKernel(img, w, m, y, x, c, w.size) == ChannelSum(img, w, m, y, x, c)
  {
    if c == 0 {
      DepthKernelZero(img, w, m, y, x, w.size);
    } else {
      LoopOrdersAgree(img, w, m, y, x, c - 1);
      DepthKernelStep(img, w, m, y, x, c - 1, w.size);
    }
  }

  // ----- No accumulation overflows 32 bits -----

  ghost predicate Bounded(img: Tensor, b: nat) {
    forall c, y, x :: 0 - b <= img(c, y, x) <= b
  }

  /** Every product of a window sum, and the requantisation product, fits: checked on the dimensions only. */
  predicate SumsFit(w: Kernels, b: nat, k: nat) {
    w.inC * w.size * w.size * (b * 0x80) * Max(k, 1) <= MAX32
  }

  lemma ProductBound(a: int, b: nat, v: int8)
    requires 0 - b <= a <= b
    ensures -(b * 0x80) <= a * v <= b * 0x80
  {
    var u, a' := if v < 0 then 0 - v else v, if a < 0 then 0 - a else a;
    assert a' * u <= b * u by { MulMonotone(a', b, u); }
    assert u * b <= 0x80 * b by { MulMonotone(u, 0x80, b); }
    assert a * v == a' * u || a * v == 0 - a' * u by { Negate(a', u); Negate(u, a'); Negate(a', v); }
  }

  lemma {:induction false} TapBound(img: Tensor, w: Kernels, m: int, c: int, y: int, x: int, r: int, s: nat, b: nat)
    requires Bounded(img, b)
    ensures -(s * (b * 0x80)) <= TapSum(img, w, m, c, y, x, r, s) <= s * (b * 0x80)
  {
    if s > 0 {
      TapBound(img, w, m, c, y, x, r, s - 1, b);
      ProductBound(img(c, y + r, x + (s - 1)), b, w.at(m, c, r, s - 1));
      assert s * (b * 0x80) == (s - 1) * (b * 0x80) + b * 0x80;
    }
  }

  lemma {:induction false} RowBound(img: Tensor, w: Kernels, m: int, c: int, y: int, x: int, r: nat, b: nat)
    requires Bounded(img, b)
    ensures -(r * (w.size * (b * 0x80))) <= RowSum(img, w, m, c, y, x, r) <= r * (w.size * (b * 0x80))
  {
    if r > 0 {
      RowBound(img, w, m, c, y, x, r - 1, b);
      TapBound(img, w, m, c, y, x, r - 1, w.size, b);
      assert r * (w.size * (b * 0x80)) == (r - 1) * (w.size * (b * 0x80)) + w.size * (b * 0x80);
    }
  }

  lemma {:induction false} ChannelBound(img: Tensor, w: Kernels, m: int, y: int, x: int, c: nat, b: nat)
    requires Bounded(img, b)
    ensures var u := w.size * (w.size * (b * 0x80));
      -(c * u) <= ChannelSum(img, w, m, y, x, c) <= c * u
  {
    if c > 0 {
      var u := w.size * (w.size * (b * 0x80));
      ChannelBound(img, w, m, y, x, c - 1, b);
      RowBound(img, w, m, c - 1, y, x, w.size, b);
      assert c * u == (c - 1) * u + u;
    }
  }

  /** The accumulator after `c` channels, `r` rows and `s` taps. */
  function Prefix(img: Tensor, w: Kernels, m: int, y: int, x: int, c: nat, r: nat, s: nat): int {
    ChannelSum(img, w, m, y, x, c) + RowSum(img, w, m, c, y, x, r) + TapSum(img, w, m, c, y, x, r, s)
  }

  /**
   * Every prefix of every window sum, and that prefix times the multiplier, fits in 32 bits, so
   * none of the C additions or multiplications overflows.
   */
  lemma PrefixFits(img: Tensor, w: Kernels, m: int, y: int, x: int, c: nat, r: nat, s: nat, b: nat, k: nat)
    requires Bounded(img, b) && SumsFit(w, b, k)
    requires c < w.inC && r < w.size && s <= w.size
    ensures Fits32(Prefix(img, w, m, y, x, c, r, s))
    ensures Fits32(Prefix(img, w, m, y, x, c, r, s) * k)
  {
    var t := b * 0x80;
    var u := w.size * t;
    var p := Prefix(img, w, m, y, x, c, r, s);
    TapBound(img, w, m, c, y, x, r, s, b);
    RowBound(img, w, m, c, y, x, r, b);
    ChannelBound(img, w, m, y, x, c, b);
    assert s * t <= u by { MulMonotone(s, w.size, t); }
    assert r * u + u <= w.size * u by { MulMonotone(r + 1, w.size, u); Distribute(r, u); }
    var v := w.size * u;
    assert c * v + v <= w.inC * v by { MulMonotone(c + 1, w.inC, v); Distribute(c, v); }
    ScaleFits(p, w.inC * v, k) by { Regroup(w.inC, w.size, t, Max(k, 1)); }
  }

  /** The finished window sum fits, and so does its product with the multiplier. */
  lemma WindowSumFits(img: Tensor, w: Kernels, m: int, y: int, x: int, b: nat, k: nat)
    requires Bounded(img, b) && SumsFit(w, b, k)
    ensures Fits32(WindowSum(img, w, m, y, x))
    ensures Fits32(WindowSum(img, w, m, y, x) * k)
  {
    var t := b * 0x80;
    ChannelBound(img, w, m, y, x, w.inC, b);
    ScaleFits(WindowSum(img, w, m, y, x), w.inC * (w.size * (w.size * t)), k) by {
      Regroup(w.inC, w.size, t, Max(k, 1));
    }
  }

  /** The accumulator after `r` rows, `s` taps and `c` channels when the channel loop is innermost. */
  function DepthPrefix(img: Tensor, w: Kernels, m: int, y: int, x: int, r: nat, s: nat, c: nat): int {
    DepthKernel(img, w, m, y, x, w.inC, r) + DepthRow(img, w, m, y, x, r, w.inC, s) + DepthSum(img, w, m, y, x, r, s, c)
  }

  lemma {:induction false} DepthBound(img: Tensor, w: Kernels, m: int, y: int, x: int, r: int, s: int, c: nat, b: nat)
    requires Bounded(img, b)
    ensures 0 - c * (b * 0x80) <= DepthSum(img, w, m, y, x, r, s, c) <= c * (b * 0x80)
  {
    if c > 0 {
      DepthBound(img, w, m, y, x, r, s, c - 1, b);
      ProductBound(img(c - 1, y + r, x + s), b, w.at(m, c - 1, r, s));
      Distribute(c - 1, b * 0x80);
    }
  }

  lemma {:induction false} DepthRowBound(img: Tensor, w: Kernels, m: int, y: int, x: int, r: int, s: nat, b: nat)
    requires Bounded(img, b)
    ensures var u := w.inC * (b * 0x80);
      0 - s * u <= DepthRow(img, w, m, y, x, r, w.inC, s) <= s * u
  {
    if s > 0 {
      DepthRowBound(img, w, m, y, x, r, s - 1, b);
      DepthBound(img, w, m, y, x, r, s - 1, w.inC, b);
      Distribute(s - 1, w.inC * (b * 0x80));
    }
  }

  lemma {:induction false} DepthKernelBound(img: Tensor, w: Kernels, m: int, y: int, x: int, r: nat, b: nat)
    requires Bounded(img, b)
    ensures var u := w.size * (w.inC * (b * 0x80));
      0 - r * u <= DepthKernel(img, w, m, y, x, w.inC, r) <= r * u
  {
    if r > 0 {
      DepthKernelBound(img, w, m, y, x, r - 1, b);
      DepthRowBound(img, w, m, y, x, r - 1, w.size, b);
      Distribute(r - 1, w.size * (w.inC * (b * 0x80)));
    }
  }

  /** Every prefix fits in the other loop order, too. */
  lemma DepthPrefixFits(img: Tensor, w: Kernels, m: int, y: int, x: int, r: nat, s: nat, c: nat, b: nat, k: nat)
    requires Bounded(img, b) && SumsFit(w, b, k)
    requires r < w.size && s < w.size && c <= w.inC
    ensures Fits32(DepthPrefix(img, w, m, y, x, r, s, c))
    ensures Fits32(DepthPrefix(img, w, m, y, x, r, s, c) * k)
  {
    var t := b * 0x80;
    var u := w.inC * t;
    var v := w.size * u;
    DepthBound(img, w, m, y, x, r, s, c, b);
    DepthRowBound(img, w, m, y, x, r, s, b);
    DepthKernelBound(img, w, m, y, x, r, b);
    assert c * t <= u by { MulMonotone(c, w.inC, t); }
    assert s * u + u <= v by { MulMonotone(s + 1, w.size, u); Distribute(s, u); }
    assert r * v + v <= w.size * v by { MulMonotone(r + 1, w.size, v); Distribute(r, v); }
    ScaleFits(DepthPrefix(img, w, m, y, x, r, s, c), w.size * v, k) by { RegroupDepth(w.inC, w.size, t, Max(k, 1)); }
  }

  lemma RegroupDepth(a: nat, n: nat, t: nat, k: nat)
    ensures a * n * n * t * k == (n * (n * (a * t))) * k
  {
    assert a * n * n * t == n * (n * (a * t)) by {
      assert (a * n) * n * t == n * ((a * n) * t);
      assert (a * n) * t == n * (a * t);
    }
  }

  /** No C addition or multiplication of the layer overflows, in either loop order. */
  ghost predicate SumsExact(img: Tensor, w: Kernels, k: nat) {
    && (forall m, y, x, c: nat, r: nat, s: nat :: c < w.inC && r < w.size && s <= w.size ==>
          Fits32(Prefix(img, w, m, y, x, c, r, s)))
    && (forall m, y, x, c: nat, r: nat, s: nat :: r < w.size && s < w.size && c <= w.inC ==>
          Fits32(DepthPrefix(img, w, m, y, x, r, s, c)))
    && (forall m, y, x :: Fits32(WindowSum(img, w, m, y, x)) && Fits32(WindowSum(img, w, m, y, x) * k))
  }

  /** A bound on the inputs and a check on the dimensions rule out every overflow. */
  lemma NoOverflow(img: Tensor, w: Kernels, b: nat, k: nat)
    requires Bounded(img, b) && SumsFit(w, b, k)
    ensures SumsExact(img, w, k)
  {
    forall m, y, x, c: nat, r: nat, s: nat | c < w.inC && r < w.size && s <= w.size
      ensures Fits32(Prefix(img, w, m, y, x, c, r, s))
    {
      PrefixFits(img, w, m, y, x, c, r, s, b, k);
    }
    forall m, y, x, c: nat, r: nat, s: nat | r < w.size && s < w.size && c <= w.inC
      ensures Fits32(DepthPrefix(img, w, m, y, x, r, s, c))
    {
      DepthPrefixFits(img, w, m, y, x, r, s, c, b, k);
    }
    forall m, y, x
      ensures Fits32(WindowSum(img, w, m, y, x)) && Fits32(WindowSum(img, w, m, y, x) * k)
    {
      WindowSumFits(img, w, m, y, x, b, k);
    }
  }

  lemma Regroup(a: nat, n: nat, t: nat, k: nat)
    ensures a * n * n * t * k == (a * (n * (n * t))) * k
  {
    assert a * n * n * t == a * (n * (n * t)) by {
      assert (a * n) * n * t == (a * n) * (n * t);
      assert (a * n) * (n * t) == a * (n * (n * t));
    }
  }

  lemma ScaleFits(p: int, bound: nat, k: nat)
    requires 0 - bound <= p <= bound
    requires bound * Max(k, 1) <= MAX32
    ensures Fits32(p) && Fits32(p * k)
  {
    var j := Max(k, 1);
    var q := if p < 0 then 0 - p else p;
    assert q <= q * j by { MulMonotone(1, j, q); }
    assert q * k <= q * j by { MulMonotone(k, j, q); }
    assert q * j <= bound * j by { MulMonotone(q, bound, j); }
    assert p * k == q * k || p * k == 0 - q * k by { Negate(q, k); }
  }

  lemma Negate(q: int, k: int)
    ensures (0 - q) * k == 0 - q * k
  {
  }

  // ----- Pooling -----

  /** The four window sums under the 2x2 pooling window `(h, x)`, in loop order. */
  function PoolWindow(img: Tensor, w: Kernels, m: int, h: int, x: int): (s: seq<int>)
    ensures |s| == 4
  {
    [WindowSum(img, w, m, 2 * h, 2 * x), WindowSum(img, w, m, 2 * h, 2 * x + 1),
     WindowSum(img, w, m, 2 * h + 1, 2 * x), WindowSum(img, w, m, 2 * h + 1, 2 * x + 1)]
  }

  /** `max_val` when the pooling loops reach `(y, z)`. */
  function RunningMax(img: Tensor, w: Kernels, m: int, h: int, x: int, y: int, z: int): int
    requires 0 <= 2 * (y - 2 * h) + (z - 2 * x) <= 4
  {
    MaxFrom(0, PoolWindow(img, w, m, h, x), 2 * (y - 2 * h) + (z - 2 * x))
  }

  lemma RunningMaxStep(img: Tensor, w: Kernels, m: int, h: int, x: int, y: int, z: int)
    requires 2 * h <= y < 2 * h + 2 && 2 * x <= z < 2 * x + 2
    ensures RunningMax(img, w, m, h, x, y, z + 1) == Max(RunningMax(img, w, m, h, x, y, z), WindowSum(img, w, m, y, z))
    ensures RunningMax(img, w, m, h, x, y, 2 * x + 2) == RunningMax(img, w, m, h, x, y + 1, 2 * x)
  {
    var n := 2 * (y - 2 * h) + (z - 2 * x);
    assert PoolWindow(img, w, m, h, x)[n] == WindowSum(img, w, m, y, z);
  }

  /** The fused activation: maximum of zero and the four sums, requantised once. */
  function FusedAct(img: Tensor, w: Kernels, k: nat, m: int, h: int, x: int): nat {
    Requant(MaxFrom(0, PoolWindow(img, w, m, h, x), 4), k)
  }

  /** The state of the pooling loops at `(y, z)`: the running maximum, whose requantisation cannot overflow. */
  ghost predicate PoolState(img: Tensor, w: Kernels, k: nat, m: int, h: int, x: int, y: int, z: int, v: int) {
    && 2 * h <= y <= 2 * h + 2 && 2 * x <= z <= 2 * x + 2 && 2 * (y - 2 * h) + (z - 2 * x) <= 4
    && v == RunningMax(img, w, m, h, x, y, z)
    && Fits32(v * k)
  }

  lemma PoolStep(img: Tensor, w: Kernels, k: nat, m: int, h: int, x: int, y: int, z: int, v: int)
    requires PoolState(img, w, k, m, h, x, y, z, v) && y < 2 * h + 2 && z < 2 * x + 2
    requires SumsExact(img, w, k)
    ensures PoolState(img, w, k, m, h, x, y, z + 1, Max(v, WindowSum(img, w, m, y, z)))
    ensures z == 2 * x + 1 ==> PoolState(img, w, k, m, h, x, y + 1, 2 * x, Max(v, WindowSum(img, w, m, y, z)))
  {
    RunningMaxStep(img, w, m, h, x, y, z);
  }

  lemma PoolDone(img: Tensor, w: Kernels, k: nat, m: int, h: int, x: int, v: int)
    requires PoolState(img, w, k, m, h, x, 2 * h + 2, 2 * x, v)
    ensures Requant32(v, k) == FusedAct(img, w, k, m, h, x)
  {
    Requant32Exact(v, k);
  }

  /** The reference convolution output: one requantised window sum. */
  function ConvAct(img: Tensor, w: Kernels, k: nat, m: int, y: int, x: int): nat {
    Requant(WindowSum(img, w, m, y, x), k)
  }

  /** The convolution output as a feature map. */
  function ConvTensor(img: Tensor, w: Kernels, k: nat): Tensor {
    (m, y, x) => ConvAct(img, w, k, m, y, x)
  }

  /** The four entries of a feature map under a pooling window, in loop order. */
  function Quad(t: Tensor, m: int, h: int, x: int): (s: seq<int>)
    ensures |s| == 4
  {
    [t(m, 2 * h, 2 * x), t(m, 2 * h, 2 * x + 1), t(m, 2 * h + 1, 2 * x), t(m, 2 * h + 1, 2 * x + 1)]
  }

  /** 2x2 max pooling: start from the first entry, then compare all four. */
  function MaxPool(t: Tensor): Tensor {
    (m, h, x) => MaxFrom(t(m, 2 * h, 2 * x), Quad(t, m, h, x), 4)
  }

  /** What the reference leaves in its `int` array. */
  function PooledTensor(img: Tensor, w: Kernels, k: nat): Tensor {
    MaxPool(ConvTensor(img, w, k))
  }

  /** Fused convolution-and-pooling computes the reference's pooled activation, everywhere. */
  lemma FusedIsPooled(img: Tensor, w: Kernels, k: nat, m: int, h: int, x: int)
    ensures FusedAct(img, w, k, m, h, x) == PooledTensor(img, w, k)(m, h, x)
  {
    var s := PoolWindow(img, w, m, h, x);
    FuseCommutes(s, k);
    assert RequantAll(s, k) == Quad(ConvTensor(img, w, k), m, h, x);
  }

  /** What the fused layer leaves in its 8-bit buffer. */
  function FusedTensor(img: Tensor, w: Kernels, k: nat): Tensor {
    (m, h, x) => Wrap8(FusedAct(img, w, k, m, h, x))
  }

  // ----- A window sum depends only on the window -----

  ghost predicate AgreeOn(a: Tensor, b: Tensor, channels: int, rows: int, cols: int) {
    forall c, y, x :: 0 <= c < channels && 0 <= y < rows && 0 <= x < cols ==> a(c, y, x) == b(c, y, x)
  }

  lemma {:induction false} TapAgree(a: Tensor, b: Tensor, w: Kernels, m: int, c: int, y: int, x: int, r: int, s: nat, rows: int, cols: int)
    requires AgreeOn(a, b, w.inC, rows, cols)
    requires 0 <= c < w.inC && 0 <= y + r < rows && 0 <= x && x + s <= cols
    ensures TapSum(a, w, m, c, y, x, r, s) == TapSum(b, w, m, c, y, x, r, s)
  {
    if s > 0 {
      TapAgree(a, b, w, m, c, y, x, r, s - 1, rows, cols);
      assert a(c, y + r, x + (s - 1)) == b(c, y + r, x + (s - 1));
    }
  }

  lemma {:induction false} RowAgree(a: Tensor, b: Tensor, w: Kernels, m: int, c: int, y: int, x: int, r: nat, rows: int, cols: int)
    requires AgreeOn(a, b, w.inC, rows, cols)
    requires 0 <= c < w.inC && 0 <= y && y + r <= rows && 0 <= x && x + w.size <= cols
    ensures RowSum(a, w, m, c, y, x, r) == RowSum(b, w, m, c, y, x, r)
  {
    if r > 0 {
      RowAgree(a, b, w, m, c, y, x, r - 1, rows, cols);
      TapAgree(a, b, w, m, c, y, x, r - 1, w.size, rows, cols);
    }
  }

  lemma {:induction false} ChannelAgree(a: Tensor, b: Tensor, w: Kernels, m: int, y: int, x: int, c: nat, rows: int, cols: int)
    requires AgreeOn(a, b, w.inC, rows, cols) && c <= w.inC
    requires 0 <= y && y + w.size <= rows && 0 <= x && x + w.size <= cols
    ensures ChannelSum(a, w, m, y, x, c) == ChannelSum(b, w, m, y, x, c)
  {
    if c > 0 {
      ChannelAgree(a, b, w, m, y, x, c - 1, rows, cols);
      RowAgree(a, b, w, m, c - 1, y, x, w.size, rows, cols);
    }
  }

  /** Inputs that agree on the window give the same pooled activation. */
  lemma FusedAgree(a: Tensor, b: Tensor, w: Kernels, k: nat, m: int, h: int, x: int, rows: int, cols: int)
    requires AgreeOn(a, b, w.inC, rows, cols)
    requires 0 <= h && 2 * h + 1 + w.size <= rows && 0 <= x && 2 * x + 1 + w.size <= cols
    ensures FusedAct(a, w, k, m, h, x) == FusedAct(b, w, k, m, h, x)
  {
    ChannelAgree(a, b, w, m, 2 * h, 2 * x, w.inC, rows, cols);
    ChannelAgree(a, b, w, m, 2 * h, 2 * x + 1, w.inC, rows, cols);
    ChannelAgree(a, b, w, m, 2 * h + 1, 2 * x, w.inC, rows, cols);
    ChannelAgree(a, b, w, m, 2 * h + 1, 2 * x + 1, w.inC, rows, cols);
    assert PoolWindow(a, w, m, h, x) == PoolWindow(b, w, m, h, x);
  }

  /** Pooled activations of a bounded input are bounded. */
  lemma PooledBound(img: Tensor, w: Kernels, k: nat, b: nat, bound: nat, m: int, h: int, x: int)
    requires Bounded(img, b)
    requires w.inC * w.size * w.size * (b * 0x80) * k <= bound * 0x1_0000
    ensures 0 <= FusedAct(img, w, k, m, h, x) <= bound
  {
    var u := w.inC * (w.size * (w.size * (b * 0x80)));
    Regroup(w.inC, w.size, b * 0x80, k);
    ChannelBound(img, w, m, 2 * h, 2 * x, w.inC, b);
    ChannelBound(img, w, m, 2 * h, 2 * x + 1, w.inC, b);
    ChannelBound(img, w, m, 2 * h + 1, 2 * x, w.inC, b);
    ChannelBound(img, w, m, 2 * h + 1, 2 * x + 1, w.inC, b);
    MaxFromBound(0, PoolWindow(img, w, m, h, x), 4, u);
    RequantBound(MaxFrom(0, PoolWindow(img, w, m, h, x), 4), u, k, bound);
  }

  lemma MaxFromBound(a: int, s: seq<int>, n: nat, u: int)
    requires n <= |s| && a <= u
    requires forall i | 0 <= i < |s| :: s[i] <= u
    ensures MaxFrom(a, s, n) <= u
  {
  }

  lemma RequantBound(x: int, u: int, k: nat, bound: nat)
    requires x <= u && u * k <= bound * 0x1_0000
    ensures Requant(x, k) <= bound
  {
    RequantMonotone(x, u, k);
  }
}
