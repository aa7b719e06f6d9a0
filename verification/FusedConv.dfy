/**
 * The fused convolution-and-pooling loops of hls/Lenet.cpp on flat 8-bit buffers, for any dimensions,
 * weights, multiplier, row range and buffer layout.
 */
module FusedConv {
  import opened Arith
  import opened Convolution

  /** Where element `(c, y, x)` lives in a flat buffer. */
  datatype Layout = Layout(base: int, channelStride: int, rowWidth: int) {
    function At(c: int, y: int, x: int): int {
      base + c * channelStride + y * rowWidth + x
    }
  }

  /** Channels `[c0, c1)`, rows `[y0, y1)`, columns `[0, cols)`. */
  datatype Box = Box(c0: int, c1: int, y0: int, y1: int, cols: int) {
    predicate Contains(c: int, y: int, x: int) {
      c0 <= c < c1 && y0 <= y < y1 && 0 <= x < cols
    }
  }

  ghost predicate Holds(cells: seq<int8>, lay: Layout, img: Tensor, box: Box) {
    forall c, y, x {:trigger lay.At(c, y, x)} :: box.Contains(c, y, x) ==>
      0 <= lay.At(c, y, x) < |cells| && cells[lay.At(c, y, x)] == img(c, y, x)
  }

  ghost predicate SameOutside(was: seq<int8>, now: seq<int8>, lo: int, hi: int) {
    |was| == |now| && forall i | 0 <= i < |now| && !(lo <= i < hi) :: now[i] == was[i]
  }

  lemma SameOutsideJoin(a: seq<int8>, b: seq<int8>, c: seq<int8>, lo: int, mid: int, hi: int)
    requires lo <= mid <= hi && SameOutside(a, b, lo, mid) && SameOutside(b, c, mid, hi)
    ensures SameOutside(a, c, lo, hi)
  {
  }

  /** The order in which the two convolution layers nest their accumulation loops. */
  datatype LoopOrder = ChannelsInnermost | ChannelsOutermost

  /** Rows and columns of the source that pooled rows `[h0, h1)` read. */
  function Needed(w: Kernels, h0: int, h1: int, outW: int): Box {
    Box(0, w.inC, 2 * h0, 2 * h1 + w.size - 1, 2 * outW + w.size - 1)
  }

  // ----- One window sum -----

  /** `sc_int<8> data = buffer[...]` */
  method Load(src: array<int8>, sl: Layout, ghost img: Tensor, ghost box: Box, c: int, y: int, x: int)
    returns (data: int8)
    requires Holds(src[..], sl, img, box) && box.Contains(c, y, x)
    ensures data == img(c, y, x)
  {
    data := src[sl.At(c, y, x)];
  }

  /** `p_sum += data * weight` on a 32-bit accumulator. */
  method Accumulate(pSum: int32, data: int32, weight: int8) returns (r: int32)
    ensures Fits32(pSum + data * weight) ==> r == pSum + data * weight
  {
    r := Wrap32(pSum + data * weight);
  }

  /** The innermost loop over the taps of one kernel row. */
  method AddTaps(src: array<int8>, sl: Layout, ghost img: Tensor, w: Kernels, ghost k: nat,
                 m: int, y: int, x: int, c: nat, r: nat, start: int32)
    returns (pSum: int32)
    requires 0 <= m < w.outC && c < w.inC && r < w.size && 0 <= x
    requires Holds(src[..], sl, img, Box(0, w.inC, y, y + w.size, x + w.size))
    requires SumsExact(img, w, k) && start == Prefix(img, w, m, y, x, c, r, 0)
    ensures pSum == Prefix(img, w, m, y, x, c, r, w.size)
  {
    hide ChannelSum, RowSum;
    pSum := start;
    for s := 0 to w.size
      invariant pSum == Prefix(img, w, m, y, x, c, r, s)
    {
      var data := Load(src, sl, img, Box(0, w.inC, y, y + w.size, x + w.size), c, y + r, x + s);
      var weight := w.Get(m, c, r, s);
      assert Fits32(Prefix(img, w, m, y, x, c, r, s + 1));
      pSum := Accumulate(pSum, data, weight);
    }
  }

  method SumChannelsOutermost(src: array<int8>, sl: Layout, ghost img: Tensor, w: Kernels, ghost k: nat,
                              m: int, y: int, x: int)
    returns (pSum: int32)
    requires 0 <= m < w.outC && 0 <= x
    requires Holds(src[..], sl, img, Box(0, w.inC, y, y + w.size, x + w.size))
    requires SumsExact(img, w, k)
    ensures pSum == WindowSum(img, w, m, y, x)
  {
    hide Holds, SumsExact;
    pSum := 0;
    for c := 0 to w.inC
      invariant pSum == ChannelSum(img, w, m, y, x, c)
    {
      for r := 0 to w.size
        invariant pSum == Prefix(img, w, m, y, x, c, r, 0)
      {
        pSum := AddTaps(src, sl, img, w, k, m, y, x, c, r, pSum);
      }
    }
  }

  /** The innermost loop over the channels of one tap. */
  method AddDepth(src: array<int8>, sl: Layout, ghost img: Tensor, w: Kernels, ghost k: nat,
                  m: int, y: int, x: int, r: nat, s: nat, start: int32)
    returns (pSum: int32)
    requires 0 <= m < w.outC && r < w.size && s < w.size && 0 <= x
    requires Holds(src[..], sl, img, Box(0, w.inC, y, y + w.size, x + w.size))
    requires SumsExact(img, w, k) && start == DepthPrefix(img, w, m, y, x, r, s, 0)
    ensures pSum == DepthPrefix(img, w, m, y, x, r, s, w.inC)
  {
    pSum := start;
    for c := 0 to w.inC
      invariant pSum == DepthPrefix(img, w, m, y, x, r, s, c)
    {
      var data := Load(src, sl, img, Box(0, w.inC, y, y + w.size, x + w.size), c, y + r, x + s);
      var weight := w.Get(m, c, r, s);
      assert Fits32(DepthPrefix(img, w, m, y, x, r, s, c + 1));
      pSum := Accumulate(pSum, data, weight);
    }
  }

  method SumChannelsInnermost(src: array<int8>, sl: Layout, ghost img: Tensor, w: Kernels, ghost k: nat,
                              m: int, y: int, x: int)
    returns (pSum: int32)
    requires 0 <= m < w.outC && 0 <= x
    requires Holds(src[..], sl, img, Box(0, w.inC, y, y + w.size, x + w.size))
    requires SumsExact(img, w, k)
    ensures pSum == WindowSum(img, w, m, y, x)
  {
    hide Holds, SumsExact;
    pSum := 0;
    for r := 0 to w.size
      invariant pSum == DepthKernel(img, w, m, y, x, w.inC, r)
    {
      for s := 0 to w.size
        invariant pSum == DepthPrefix(img, w, m, y, x, r, s, 0)
      {
        pSum := AddDepth(src, sl, img, w, k, m, y, x, r, s, pSum);
      }
    }
    LoopOrdersAgree(img, w, m, y, x, w.inC);
  }

  // ----- One pooled output -----

  method SumWindow(order: LoopOrder, src: array<int8>, sl: Layout, ghost img: Tensor,
                   w: Kernels, ghost k: nat, m: int, y: int, x: int)
    returns (pSum: int32)
    requires 0 <= m < w.outC && 0 <= x
    requires Holds(src[..], sl, img, Box(0, w.inC, y, y + w.size, x + w.size))
    requires SumsExact(img, w, k)
    ensures pSum == WindowSum(img, w, m, y, x)
  {
    if order == ChannelsInnermost {
      pSum := SumChannelsInnermost(src, sl, img, w, k, m, y, x);
    } else {
      pSum := SumChannelsOutermost(src, sl, img, w, k, m, y, x);
    }
  }

  /** The 2x2 window starting at `(2h, 2x)`: maximum of the sums from zero, then one requantisation. */
  method FusedPoint(order: LoopOrder, src: array<int8>, sl: Layout, ghost img: Tensor,
                    w: Kernels, k: nat, m: int, h: int, x: int)
    returns (act: int32)
    requires 0 <= m < w.outC && 0 <= x
    requires Holds(src[..], sl, img, Needed(w, h, h + 1, x + 1))
    requires SumsExact(img, w, k)
    ensures act == FusedAct(img, w, k, m, h, x)
  {
    hide SumsExact;
    var maxVal: int32 := 0;
    for y := 2 * h to 2 * h + 2
      invariant PoolState(img, w, k, m, h, x, y, 2 * x, maxVal)
    {
      for z := 2 * x to 2 * x + 2
        invariant PoolState(img, w, k, m, h, x, y, z, maxVal)
        invariant z == 2 * x + 2 ==> PoolState(img, w, k, m, h, x, y + 1, 2 * x, maxVal)
      {
        var pSum := SumWindow(order, src, sl, img, w, k, m, y, z);
        PoolStep(img, w, k, m, h, x, y, z, maxVal);
        if maxVal < pSum {
          maxVal := pSum;
        }
      }
    }
    act := Requantise(maxVal, k);
    PoolDone(img, w, k, m, h, x, maxVal);
  }

  /** `(((v * k) >> 16) > 0) ? ((v * k) >> 16) : 0` */
  method Requantise(v: int32, k: nat) returns (r: int32)
    ensures r == Requant32(v, k)
  {
    r := if Shr16(Wrap32(v * k)) > 0 then Shr16(Wrap32(v * k)) else 0;
  }

  // ----- Rows, channels, layers -----

  /** Columns `[0, outW)` of pooled row `h`, stored from `off` on. */
  method FusedRow(order: LoopOrder, src: array<int8>, sl: Layout, ghost img: Tensor,
                  w: Kernels, k: nat, m: int, h: int, outW: nat, dst: array<int8>, off: int)
    requires src != dst
    requires 0 <= m < w.outC && 0 <= off && off + outW <= dst.Length
    requires Holds(src[..], sl, img, Needed(w, h, h + 1, outW))
    requires SumsExact(img, w, k)
    modifies dst
    ensures forall x | 0 <= x < outW :: dst[off + x] == FusedTensor(img, w, k)(m, h, x)
    ensures SameOutside(old(dst[..]), dst[..], off, off + outW)
  {
    hide FusedAct;
    for x := 0 to outW
      invariant Holds(src[..], sl, img, Needed(w, h, h + 1, outW))
      invariant forall z | 0 <= z < x :: dst[off + z] == FusedTensor(img, w, k)(m, h, z)
      invariant SameOutside(old(dst[..]), dst[..], off, off + x)
    {
      var act := FusedPoint(order, src, sl, img, w, k, m, h, x);
      dst[off + x] := Wrap8(act);
    }
  }

  /** Row `h` of channel `m` joins the rows already stored. */
  lemma RowJoins(was: seq<int8>, now: seq<int8>, dl: Layout, out: Tensor, m: int, h0: int, h: int)
    requires |was| == |now| && h0 <= h && 0 <= dl.rowWidth
    requires 0 <= dl.At(m, h, 0) && dl.At(m, h, 0) + dl.rowWidth <= |now|
    requires Holds(was, dl, out, Box(m, m + 1, h0, h, dl.rowWidth))
    requires forall x | 0 <= x < dl.rowWidth :: now[dl.At(m, h, 0) + x] == out(m, h, x)
    requires SameOutside(was, now, dl.At(m, h, 0), dl.At(m, h, 0) + dl.rowWidth)
    ensures Holds(now, dl, out, Box(m, m + 1, h0, h + 1, dl.rowWidth))
  {
    forall c, y, x | Box(m, m + 1, h0, h + 1, dl.rowWidth).Contains(c, y, x)
      ensures 0 <= dl.At(c, y, x) < |now| && now[dl.At(c, y, x)] == out(c, y, x)
    {
      if y < h {
        RowsApart(y, h, dl.rowWidth, x);
        assert was[dl.At(c, y, x)] == out(c, y, x);
      } else {
        assert dl.At(c, y, x) == dl.At(m, h, 0) + x;
      }
    }
  }

  lemma RowInside(dl: Layout, m: int, h0: int, h: int, h1: int)
    requires h0 <= h < h1 && 0 <= dl.rowWidth
    ensures dl.At(m, h0, 0) <= dl.At(m, h, 0)
    ensures dl.At(m, h + 1, 0) == dl.At(m, h, 0) + dl.rowWidth <= dl.At(m, h1, 0)
  {
    MulMonotone(0, h - h0, dl.rowWidth);
    MulMonotone(0, h1 - h - 1, dl.rowWidth);
    assert h * dl.rowWidth == h0 * dl.rowWidth + (h - h0) * dl.rowWidth;
    assert h1 * dl.rowWidth == h * dl.rowWidth + dl.rowWidth + (h1 - h - 1) * dl.rowWidth;
  }

  /** Pooled rows `[h0, h1)` of output channel `m`. */
  method FusedChannel(order: LoopOrder, src: array<int8>, sl: Layout, ghost img: Tensor,
                      w: Kernels, k: nat, m: int, h0: int, h1: int, dst: array<int8>, dl: Layout)
    requires src != dst
    requires 0 <= m < w.outC && h0 <= h1 && 0 <= dl.rowWidth
    requires 0 <= dl.At(m, h0, 0) && dl.At(m, h1, 0) <= dst.Length
    requires Holds(src[..], sl, img, Needed(w, h0, h1, dl.rowWidth))
    requires SumsExact(img, w, k)
    modifies dst
    ensures Holds(dst[..], dl, FusedTensor(img, w, k), Box(m, m + 1, h0, h1, dl.rowWidth))
    ensures SameOutside(old(dst[..]), dst[..], dl.At(m, h0, 0), dl.At(m, h1, 0))
  {
    var start, off := dl.At(m, h0, 0), dl.At(m, h0, 0);
    hide FusedAct;
    ghost var out := FusedTensor(img, w, k);
    for h := h0 to h1
      invariant off == dl.At(m, h, 0)
      invariant Holds(src[..], sl, img, Needed(w, h0, h1, dl.rowWidth))
      invariant Holds(dst[..], dl, out, Box(m, m + 1, h0, h, dl.rowWidth))
      invariant SameOutside(old(dst[..]), dst[..], start, off)
    {
      RowInside(dl, m, h0, h, h1);
      ghost var was := dst[..];
      FusedRow(order, src, sl, img, w, k, m, h, dl.rowWidth, dst, off);
      RowJoins(was, dst[..], dl, out, m, h0, h);
      SameOutsideJoin(old(dst[..]), was, dst[..], start, off, off + dl.rowWidth);
      off := off + dl.rowWidth;
    }
  }

  /** Cell `i` belongs to rows `[h0, h1)` of channel `m`. */
  predicate InBand(dl: Layout, m: int, h0: int, h1: int, i: int) {
    dl.At(m, h0, 0) <= i < dl.At(m, h1, 0)
  }

  /** Cell `i` belongs to rows `[h0, h1)` of some channel in `[m0, m1)`. */
  ghost predicate Touched(dl: Layout, m0: int, m1: int, h0: int, h1: int, i: int) {
    exists m :: m0 <= m < m1 && InBand(dl, m, h0, h1, i)
  }

  /** Layouts whose channels do not overlap on rows `[h0, h1)`, and that stay inside the buffer. */
  predicate Fitting(dl: Layout, m0: int, m1: int, h0: int, h1: int, length: nat) {
    && m0 <= m1 && h0 <= h1 && 0 <= dl.rowWidth
    && (h1 - h0) * dl.rowWidth <= dl.channelStride
    && (m0 < m1 ==> 0 <= dl.At(m0, h0, 0) && dl.At(m1 - 1, h1, 0) <= length)
  }

  lemma ChannelInside(dl: Layout, m0: int, m1: int, h0: int, h1: int, length: nat, m: int)
    requires Fitting(dl, m0, m1, h0, h1, length) && m0 <= m < m1
    ensures 0 <= dl.At(m, h0, 0) <= dl.At(m, h1, 0) <= length
  {
    assert h1 * dl.rowWidth == h0 * dl.rowWidth + (h1 - h0) * dl.rowWidth;
    assert (h1 - h0) * dl.rowWidth >= 0;
    MulMonotone(0, m - m0, dl.channelStride);
    assert m * dl.channelStride == m0 * dl.channelStride + (m - m0) * dl.channelStride;
    MulMonotone(0, m1 - 1 - m, dl.channelStride);
    assert (m1 - 1) * dl.channelStride == m * dl.channelStride + (m1 - 1 - m) * dl.channelStride;
  }

  /** The layout is injective: the bands of two channels are disjoint. */
  lemma BandsDisjoint(dl: Layout, h0: int, h1: int, m: int, m': int)
    requires h0 <= h1 && 0 <= dl.rowWidth && (h1 - h0) * dl.rowWidth <= dl.channelStride
    requires m < m'
    ensures dl.At(m, h1, 0) <= dl.At(m', h0, 0)
  {
    assert 0 <= (h1 - h0) * dl.rowWidth;
    MulMonotone(1, m' - m, dl.channelStride);
    assert m' * dl.channelStride == m * dl.channelStride + (m' - m) * dl.channelStride;
    assert h1 * dl.rowWidth == h0 * dl.rowWidth + (h1 - h0) * dl.rowWidth;
  }

  lemma InItsBand(dl: Layout, c: int, y: int, x: int, h0: int, h1: int)
    requires h0 <= y < h1 && 0 <= x < dl.rowWidth
    ensures InBand(dl, c, h0, h1, dl.At(c, y, x))
  {
    RowsApart(y, h1, dl.rowWidth, x);
    if h0 < y {
      RowsApart(h0, y, dl.rowWidth, 0);
    }
  }

  /** No two elements on rows `[h0, h1)` share a cell. */
  lemma LayoutInjective(dl: Layout, h0: int, h1: int, c: int, y: int, x: int, c': int, y': int, x': int)
    requires (h1 - h0) * dl.rowWidth <= dl.channelStride
    requires h0 <= y < h1 && h0 <= y' < h1 && 0 <= x < dl.rowWidth && 0 <= x' < dl.rowWidth
    requires dl.At(c, y, x) == dl.At(c', y', x')
    ensures c == c' && y == y' && x == x'
  {
    InItsBand(dl, c, y, x, h0, h1);
    InItsBand(dl, c', y', x', h0, h1);
    if c < c' {
      BandsDisjoint(dl, h0, h1, c, c');
    } else if c' < c {
      BandsDisjoint(dl, h0, h1, c', c);
    } else if y < y' {
      RowsApart(y, y', dl.rowWidth, x);
    } else if y' < y {
      RowsApart(y', y, dl.rowWidth, x');
    }
  }

  /** Writing one channel's band keeps what the other channels' bands hold. */
  lemma KeepsOtherChannels(was: seq<int8>, now: seq<int8>, dl: Layout, out: Tensor, box: Box, m: int)
    requires |was| == |now| && box.cols == dl.rowWidth
    requires box.y0 <= box.y1 && 0 <= dl.rowWidth && (box.y1 - box.y0) * dl.rowWidth <= dl.channelStride
    requires !(box.c0 <= m < box.c1)
    requires Holds(was, dl, out, box)
    requires SameOutside(was, now, dl.At(m, box.y0, 0), dl.At(m, box.y1, 0))
    ensures Holds(now, dl, out, box)
  {
    forall c, y, x | box.Contains(c, y, x)
      ensures 0 <= dl.At(c, y, x) < |now| && now[dl.At(c, y, x)] == out(c, y, x)
    {
      InItsBand(dl, c, y, x, box.y0, box.y1);
      if c < m {
        BandsDisjoint(dl, box.y0, box.y1, c, m);
      } else {
        BandsDisjoint(dl, box.y0, box.y1, m, c);
      }
    }
  }

  lemma ChannelsJoin(cells: seq<int8>, dl: Layout, out: Tensor, c0: int, m: int, y0: int, y1: int, cols: int)
    requires c0 <= m
    requires Holds(cells, dl, out, Box(c0, m, y0, y1, cols)) && Holds(cells, dl, out, Box(m, m + 1, y0, y1, cols))
    ensures Holds(cells, dl, out, Box(c0, m + 1, y0, y1, cols))
  {
  }

  ghost predicate SameOutsideBands(was: seq<int8>, now: seq<int8>, dl: Layout, m0: int, m1: int, h0: int, h1: int) {
    |was| == |now| && forall i | 0 <= i < |now| && !Touched(dl, m0, m1, h0, h1, i) :: now[i] == was[i]
  }

  lemma BandJoins(a: seq<int8>, b: seq<int8>, c: seq<int8>, dl: Layout, m0: int, m: int, h0: int, h1: int)
    requires m0 <= m && SameOutsideBands(a, b, dl, m0, m, h0, h1)
    requires SameOutside(b, c, dl.At(m, h0, 0), dl.At(m, h1, 0))
    ensures SameOutsideBands(a, c, dl, m0, m + 1, h0, h1)
  {
    forall i | 0 <= i < |c| && !Touched(dl, m0, m + 1, h0, h1, i)
      ensures c[i] == a[i]
    {
      assert !InBand(dl, m, h0, h1, i);
      assert !Touched(dl, m0, m, h0, h1, i);
    }
  }

  /** A whole layer stored in one buffer: the loop nest of Fused_Conv1, Fused_Conv1_1 and Fused_Conv1_2. */
  method FusedLayer(order: LoopOrder, src: array<int8>, sl: Layout, ghost img: Tensor,
                    w: Kernels, k: nat, h0: int, h1: int, dst: array<int8>, dl: Layout)
    requires src != dst
    requires Fitting(dl, 0, w.outC, h0, h1, dst.Length)
    requires Holds(src[..], sl, img, Needed(w, h0, h1, dl.rowWidth))
    requires SumsExact(img, w, k)
    modifies dst
    ensures Holds(dst[..], dl, FusedTensor(img, w, k), Box(0, w.outC, h0, h1, dl.rowWidth))
    ensures SameOutsideBands(old(dst[..]), dst[..], dl, 0, w.outC, h0, h1)
  {
    hide FusedAct;
    ghost var out := FusedTensor(img, w, k);
    for m := 0 to w.outC
      invariant Holds(src[..], sl, img, Needed(w, h0, h1, dl.rowWidth))
      invariant Holds(dst[..], dl, out, Box(0, m, h0, h1, dl.rowWidth))
      invariant SameOutsideBands(old(dst[..]), dst[..], dl, 0, m, h0, h1)
    {
      ChannelOf(order, src, sl, img, w, k, 0, m, w.outC, h0, h1, dst, dl, old(dst[..]));
    }
  }

  /**
   * A layer whose upper half of the output channels goes to a second buffer: the loop nest of
   * Fused_Conv2, Fused_Conv2_1 and Fused_Conv2_2.
   */
  method FusedSplitLayer(order: LoopOrder, src: array<int8>, sl: Layout, ghost img: Tensor,
                         w: Kernels, k: nat, h0: int, h1: int, half: nat,
                         lo: array<int8>, ll: Layout, hi: array<int8>, hl: Layout)
    requires src != lo && src != hi && lo != hi && half <= w.outC && ll.rowWidth == hl.rowWidth
    requires Fitting(ll, 0, half, h0, h1, lo.Length) && Fitting(hl, half, w.outC, h0, h1, hi.Length)
    requires Holds(src[..], sl, img, Needed(w, h0, h1, ll.rowWidth))
    requires SumsExact(img, w, k)
    modifies lo, hi
    ensures Holds(lo[..], ll, FusedTensor(img, w, k), Box(0, half, h0, h1, ll.rowWidth))
    ensures Holds(hi[..], hl, FusedTensor(img, w, k), Box(half, w.outC, h0, h1, hl.rowWidth))
    ensures SameOutsideBands(old(lo[..]), lo[..], ll, 0, half, h0, h1)
    ensures SameOutsideBands(old(hi[..]), hi[..], hl, half, w.outC, h0, h1)
  {
    hide FusedAct;
    ghost var out := FusedTensor(img, w, k);
    for m := 0 to w.outC
      invariant Holds(src[..], sl, img, Needed(w, h0, h1, ll.rowWidth))
      invariant Holds(lo[..], ll, out, Box(0, Min(m, half), h0, h1, ll.rowWidth))
      invariant Holds(hi[..], hl, out, Box(half, Max(m, half), h0, h1, hl.rowWidth))
      invariant SameOutsideBands(old(lo[..]), lo[..], ll, 0, Min(m, half), h0, h1)
      invariant SameOutsideBands(old(hi[..]), hi[..], hl, half, Max(m, half), h0, h1)
    {
      if m >= half {
        ChannelOf(order, src, sl, img, w, k, half, m, w.outC, h0, h1, hi, hl, old(hi[..]));
      } else {
        ChannelOf(order, src, sl, img, w, k, 0, m, half, h0, h1, lo, ll, old(lo[..]));
      }
    }
  }

  function Min(a: int, b: int): int {
    if a < b then a else b
  }

  /** Channel `m` joins the channels `[m0, m)` already stored in `dst`. */
  method ChannelOf(order: LoopOrder, src: array<int8>, sl: Layout, ghost img: Tensor, w: Kernels, k: nat,
                   ghost m0: nat, m: nat, ghost m1: nat, h0: int, h1: int,
                   dst: array<int8>, dl: Layout, ghost initial: seq<int8>)
    requires src != dst && m0 <= m < m1 <= w.outC
    requires Fitting(dl, m0, m1, h0, h1, dst.Length)
    requires Holds(src[..], sl, img, Needed(w, h0, h1, dl.rowWidth))
    requires SumsExact(img, w, k)
    requires Holds(dst[..], dl, FusedTensor(img, w, k), Box(m0, m, h0, h1, dl.rowWidth))
    requires SameOutsideBands(initial, dst[..], dl, m0, m, h0, h1)
    modifies dst
    ensures Holds(dst[..], dl, FusedTensor(img, w, k), Box(m0, m + 1, h0, h1, dl.rowWidth))
    ensures SameOutsideBands(initial, dst[..], dl, m0, m + 1, h0, h1)
  {
    hide FusedAct;
    ghost var out := FusedTensor(img, w, k);
    ghost var was := dst[..];
    ChannelInside(dl, m0, m1, h0, h1, dst.Length, m);
    FusedChannel(order, src, sl, img, w, k, m, h0, h1, dst, dl);
    KeepsOtherChannels(was, dst[..], dl, out, Box(m0, m, h0, h1, dl.rowWidth), m);
    ChannelsJoin(dst[..], dl, out, m0, m, h0, h1, dl.rowWidth);
    BandJoins(initial, was, dst[..], dl, m0, m, h0, h1);
  }
}
