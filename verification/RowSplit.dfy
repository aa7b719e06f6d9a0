/**
 * Splitting two fused layers by rows. The first layer is computed twice, into two buffers whose rows overlap
 * by the halo the second layer needs: rows `[0, 2t + size - 1)` into one and rows `[2t, H)` into the other.
 * The second layer then computes pooled rows `[0, t)` from the first and `[t, outH)` from the second.
 */
module RowSplit {
  import opened Arith
  import opened Convolution
  import opened FusedConv

  /** Two layers and the sizes of the second layer's output. */
  datatype Stack = Stack(w1: Kernels, k1: nat, w2: Kernels, k2: nat, outH: nat, outW: nat) {
    predicate Valid() {
      w2.inC == w1.outC && w2.size >= 1 && outH >= 1
    }

    /** Rows and columns of the first layer's output. */
    function Rows(): int {
      2 * outH + w2.size - 1
    }

    function Cols(): int {
      2 * outW + w2.size - 1
    }

    function Middle(img: Tensor): Tensor {
      FusedTensor(img, w1, k1)
    }

    function Final(img: Tensor): Tensor {
      FusedTensor(Middle(img), w2, k2)
    }

    /** No overflow in either layer. */
    ghost predicate Exact(img: Tensor) {
      SumsExact(img, w1, k1) && SumsExact(Middle(img), w2, k2)
    }

    /** The top buffer keeps rows `[0, 2t + size - 1)` of each channel, back to back. */
    function TopRows(t: nat): int {
      2 * t + w2.size - 1
    }

    function TopLayout(t: nat): Layout {
      Layout(0, TopRows(t) * Cols(), Cols())
    }

    /** The bottom buffer keeps rows `[2t, H)`, at their own row offsets but with a shorter channel stride. */
    function BottomLayout(t: nat): Layout {
      Layout(0, (Rows() - 2 * t) * Cols(), Cols())
    }
  }

  /** The two result buffers hold every channel of the second layer. */
  ghost predicate Result(s: Stack, img: Tensor, half: nat, lo: seq<int8>, ll: Layout, hi: seq<int8>, hl: Layout) {
    && Holds(lo, ll, s.Final(img), Box(0, half, 0, s.outH, s.outW))
    && Holds(hi, hl, s.Final(img), Box(half, s.w2.outC, 0, s.outH, s.outW))
  }

  /** The unsplit order: the whole first layer, then the whole second layer. */
  method WholeLayers(order: LoopOrder, s: Stack, src: array<int8>, sl: Layout, ghost img: Tensor, mid: array<int8>,
                     half: nat, lo: array<int8>, ll: Layout, hi: array<int8>, hl: Layout)
    requires s.Valid() && s.Exact(img) && half <= s.w2.outC
    requires src != mid && mid != lo && mid != hi && lo != hi
    requires Fitting(Layout(0, s.Rows() * s.Cols(), s.Cols()), 0, s.w1.outC, 0, s.Rows(), mid.Length)
    requires ll.rowWidth == hl.rowWidth == s.outW
    requires Fitting(ll, 0, half, 0, s.outH, lo.Length) && Fitting(hl, half, s.w2.outC, 0, s.outH, hi.Length)
    requires Holds(src[..], sl, img, Needed(s.w1, 0, s.Rows(), s.Cols()))
    modifies mid, lo, hi
    ensures Result(s, img, half, lo[..], ll, hi[..], hl)
  {
    hide SumsExact;
    var ml := Layout(0, s.Rows() * s.Cols(), s.Cols());
    FusedLayer(order, src, sl, img, s.w1, s.k1, 0, s.Rows(), mid, ml);
    FusedSplitLayer(ChannelsOutermost, mid, ml, s.Middle(img), s.w2, s.k2, 0, s.outH, half, lo, ll, hi, hl);
  }

  /**
   * The split order, for any split row `t`: the same result buffers as the unsplit order. Every row the
   * second layer reads has been written, because it is one the corresponding buffer holds.
   */
  method SplitLayers(order: LoopOrder, s: Stack, t: nat, src: array<int8>, sl: Layout, ghost img: Tensor,
                     top: array<int8>, bottom: array<int8>,
                     half: nat, lo: array<int8>, ll: Layout, hi: array<int8>, hl: Layout)
    requires s.Valid() && s.Exact(img) && half <= s.w2.outC && t <= s.outH
    requires src != top && src != bottom && top != bottom && lo != hi
    requires top != lo && top != hi && bottom != lo && bottom != hi
    requires Fitting(s.TopLayout(t), 0, s.w1.outC, 0, s.TopRows(t), top.Length)
    requires Fitting(s.BottomLayout(t), 0, s.w1.outC, 2 * t, s.Rows(), bottom.Length)
    requires ll.rowWidth == hl.rowWidth == s.outW
    requires Fitting(ll, 0, half, 0, s.outH, lo.Length) && Fitting(hl, half, s.w2.outC, 0, s.outH, hi.Length)
    requires Holds(src[..], sl, img, Needed(s.w1, 0, s.Rows(), s.Cols()))
    modifies top, bottom, lo, hi
    ensures Result(s, img, half, lo[..], ll, hi[..], hl)
  {
    hide SumsExact;
    FusedLayer(order, src, sl, img, s.w1, s.k1, 0, s.TopRows(t), top, s.TopLayout(t));
    FusedLayer(order, src, sl, img, s.w1, s.k1, 2 * t, s.Rows(), bottom, s.BottomLayout(t));
    SplitSecondLayer(s, t, img, top, bottom, half, lo, ll, hi, hl);
  }

  method SplitSecondLayer(s: Stack, t: nat, ghost img: Tensor, top: array<int8>, bottom: array<int8>,
                          half: nat, lo: array<int8>, ll: Layout, hi: array<int8>, hl: Layout)
    requires s.Valid() && s.Exact(img) && half <= s.w2.outC && t <= s.outH
    requires top != lo && top != hi && bottom != lo && bottom != hi && lo != hi
    requires ll.rowWidth == hl.rowWidth == s.outW
    requires Fitting(ll, 0, half, 0, s.outH, lo.Length) && Fitting(hl, half, s.w2.outC, 0, s.outH, hi.Length)
    requires Holds(top[..], s.TopLayout(t), s.Middle(img), Needed(s.w2, 0, t, s.outW))
    requires Holds(bottom[..], s.BottomLayout(t), s.Middle(img), Needed(s.w2, t, s.outH, s.outW))
    modifies lo, hi
    ensures Result(s, img, half, lo[..], ll, hi[..], hl)
  {
    hide SumsExact, FusedAct;
    FittingParts(ll, 0, half, t, s.outH, lo.Length);
    FittingParts(hl, half, s.w2.outC, t, s.outH, hi.Length);
    FusedSplitLayer(ChannelsOutermost, top, s.TopLayout(t), s.Middle(img), s.w2, s.k2, 0, t, half, lo, ll, hi, hl);
    ghost var lo1, hi1 := lo[..], hi[..];
    FusedSplitLayer(ChannelsOutermost, bottom, s.BottomLayout(t), s.Middle(img), s.w2, s.k2, t, s.outH, half, lo, ll, hi, hl);
    RowsJoin(lo1, lo[..], ll, s.Final(img), 0, half, t, s.outH);
    RowsJoin(hi1, hi[..], hl, s.Final(img), half, s.w2.outC, t, s.outH);
  }

  /** A layout that fits all the rows fits each part of them. */
  lemma FittingParts(dl: Layout, m0: int, m1: int, t: int, h: int, length: nat)
    requires Fitting(dl, m0, m1, 0, h, length) && 0 <= t <= h
    ensures Fitting(dl, m0, m1, 0, t, length) && Fitting(dl, m0, m1, t, h, length)
  {
    MulMonotone(t, h, dl.rowWidth);
    MulMonotone(h - t, h, dl.rowWidth);
    MulMonotone(0, t, dl.rowWidth);
    if m0 < m1 {
      ChannelInside(dl, m0, m1, 0, h, length, m0);
    }
  }

  /** Writing rows `[t, h)` keeps rows `[0, t)`, in every channel. */
  lemma RowsJoin(was: seq<int8>, now: seq<int8>, dl: Layout, out: Tensor, m0: int, m1: int, t: int, h: int)
    requires 0 <= t <= h && 0 <= dl.rowWidth && h * dl.rowWidth <= dl.channelStride
    requires Holds(was, dl, out, Box(m0, m1, 0, t, dl.rowWidth))
    requires Holds(now, dl, out, Box(m0, m1, t, h, dl.rowWidth))
    requires SameOutsideBands(was, now, dl, m0, m1, t, h)
    ensures Holds(now, dl, out, Box(m0, m1, 0, h, dl.rowWidth))
  {
    forall c, y, x | Box(m0, m1, 0, h, dl.rowWidth).Contains(c, y, x)
      ensures 0 <= dl.At(c, y, x) < |now| && now[dl.At(c, y, x)] == out(c, y, x)
    {
      if y < t {
        forall m | m0 <= m < m1
          ensures !InBand(dl, m, t, h, dl.At(c, y, x))
        {
          OutsideBand(dl, c, y, x, m, t, h);
        }
      }
    }
  }

  lemma OutsideBand(dl: Layout, c: int, y: int, x: int, m: int, t: int, h: int)
    requires 0 <= y < t <= h && 0 <= x < dl.rowWidth && h * dl.rowWidth <= dl.channelStride
    ensures !InBand(dl, m, t, h, dl.At(c, y, x))
  {
    RowsApart(y, t, dl.rowWidth, x);
    MulMonotone(t, h, dl.rowWidth);
    InItsBand(dl, c, y, x, 0, h);
    if c < m {
      BandsDisjoint(dl, 0, h, c, m);
      MulMonotone(0, t, dl.rowWidth);
    } else if m < c {
      BandsDisjoint(dl, 0, h, m, c);
    }
  }
}
