/**
 * The sliding-window form of the fused layer (Fused_Buf_Conv1 and Fused_Buf_Conv2): a window of
 * `size + 1` by `size + 1` activations per channel moves right by two columns at a time, and the kernel of
 * the current output channel is copied into a buffer of its own.
 */
module SlidingWindow {
  import opened Arith
  import opened Convolution
  import opened FusedConv

  /** In channels `[0, ch)`, columns `[lo, hi)` of the window hold the source at row offset `row0` and column offset `col0`. */
  ghost predicate WindowHolds(act: array3<int8>, ch: int, img: Tensor, lo: int, hi: int, row0: int, col0: int)
    reads act
  {
    ch <= act.Length0 && 0 <= lo && hi <= act.Length2 &&
    forall c, i, j :: 0 <= c < ch && 0 <= i < act.Length1 && lo <= j < hi ==>
      act[c, i, j] == img(c, row0 + i, col0 + j)
  }

  ghost predicate Source(src: seq<int8>, sl: Layout, img: Tensor, channels: int, rows: int, cols: int) {
    Holds(src, sl, img, Box(0, channels, 0, rows, cols))
  }

  /** Loads window columns `[j0, size + 1)` of one window row from the source. */
  method LoadRow(act: array3<int8>, ghost ch: nat, src: array<int8>, sl: Layout, ghost img: Tensor, ghost rows: int, ghost cols: int,
                 k: nat, i: nat, j0: nat, row0: nat, col0: nat)
    requires k < ch <= act.Length0 && i < act.Length1 && j0 <= act.Length2
    requires Source(src[..], sl, img, ch, rows, cols) && row0 + i < rows && col0 + act.Length2 <= cols
    modifies act
    ensures forall j | j0 <= j < act.Length2 :: act[k, i, j] == img(k, row0 + i, col0 + j)
    ensures forall c, i', j | 0 <= c < act.Length0 && 0 <= i' < act.Length1 && 0 <= j < act.Length2 && (c != k || i' != i || j < j0) ::
      act[c, i', j] == old(act[c, i', j])
  {
    for j := j0 to act.Length2
      invariant forall z | j0 <= z < j :: act[k, i, z] == img(k, row0 + i, col0 + z)
      invariant forall c, i', z | 0 <= c < act.Length0 && 0 <= i' < act.Length1 && 0 <= z < act.Length2 && (c != k || i' != i || z < j0) ::
        act[c, i', z] == old(act[c, i', z])
    {
      act[k, i, j] := Load(src, sl, img, Box(0, ch, 0, rows, cols), k, row0 + i, col0 + j);
    }
  }

  /** Loads window columns `[j0, size + 1)` of every channel and row. */
  method LoadColumns(act: array3<int8>, ch: nat, src: array<int8>, sl: Layout, ghost img: Tensor, ghost rows: int, ghost cols: int,
                     j0: nat, row0: nat, col0: nat)
    requires j0 <= act.Length2 && ch <= act.Length0
    requires Source(src[..], sl, img, ch, rows, cols) && row0 + act.Length1 <= rows && col0 + act.Length2 <= cols
    requires WindowHolds(act, ch, img, 0, j0, row0, col0)
    modifies act
    ensures WindowHolds(act, ch, img, 0, act.Length2, row0, col0)
  {
    for k := 0 to ch
      invariant WindowHolds(act, ch, img, 0, j0, row0, col0)
      invariant forall c, i, j | 0 <= c < k && 0 <= i < act.Length1 && j0 <= j < act.Length2 :: act[c, i, j] == img(c, row0 + i, col0 + j)
    {
      for i := 0 to act.Length1
        invariant WindowHolds(act, ch, img, 0, j0, row0, col0)
        invariant forall c, i', j | 0 <= c < k && 0 <= i' < act.Length1 && j0 <= j < act.Length2 :: act[c, i', j] == img(c, row0 + i', col0 + j)
        invariant forall i', j | 0 <= i' < i && j0 <= j < act.Length2 :: act[k, i', j] == img(k, row0 + i', col0 + j)
      {
        LoadRow(act, ch, src, sl, img, rows, cols, k, i, j0, row0, col0);
      }
    }
  }

  /** The in-place two-column shift of one window row: each cell is read before it is overwritten. */
  method ShiftWindowRow(act: array3<int8>, k: nat, i: nat)
    requires k < act.Length0 && i < act.Length1 && 2 <= act.Length2
    modifies act
    ensures forall j | 0 <= j < act.Length2 - 2 :: act[k, i, j] == old(act[k, i, j + 2])
    ensures forall c, i', j | 0 <= c < act.Length0 && 0 <= i' < act.Length1 && 0 <= j < act.Length2 && (c != k || i' != i) ::
      act[c, i', j] == old(act[c, i', j])
  {
    for j := 0 to act.Length2 - 2
      invariant forall z | 0 <= z < j :: act[k, i, z] == old(act[k, i, z + 2])
      invariant forall z | j <= z < act.Length2 :: act[k, i, z] == old(act[k, i, z])
      invariant forall c, i', z | 0 <= c < act.Length0 && 0 <= i' < act.Length1 && 0 <= z < act.Length2 && (c != k || i' != i) ::
        act[c, i', z] == old(act[c, i', z])
    {
      act[k, i, j] := act[k, i, j + 2];
    }
  }

  /** One channel's rows move left by two columns; the other channels stay. */
  method ShiftChannel(act: array3<int8>, ghost img: Tensor, k: nat, ghost row0: int, ghost col0: int)
    requires k < act.Length0 && 2 <= act.Length2
    requires forall i, j | 0 <= i < act.Length1 && 0 <= j < act.Length2 :: act[k, i, j] == img(k, row0 + i, col0 + j)
    modifies act
    ensures forall i, j | 0 <= i < act.Length1 && 0 <= j < act.Length2 - 2 :: act[k, i, j] == img(k, row0 + i, col0 + 2 + j)
    ensures forall c, i, j | 0 <= c < act.Length0 && 0 <= i < act.Length1 && 0 <= j < act.Length2 && c != k ::
      act[c, i, j] == old(act[c, i, j])
  {
    for i := 0 to act.Length1
      invariant forall i', j | 0 <= i' < i && 0 <= j < act.Length2 - 2 :: act[k, i', j] == img(k, row0 + i', col0 + 2 + j)
      invariant forall i', j | i <= i' < act.Length1 && 0 <= j < act.Length2 :: act[k, i', j] == img(k, row0 + i', col0 + j)
      invariant forall c, i, j | 0 <= c < act.Length0 && 0 <= i < act.Length1 && 0 <= j < act.Length2 && c != k ::
        act[c, i, j] == old(act[c, i, j])
    {
      label before:
      ShiftWindowRow(act, k, i);
      forall j | 0 <= j < act.Length2 - 2
        ensures act[k, i, j] == img(k, row0 + i, col0 + 2 + j)
      {
        var from := j + 2;
        assert old@before(act[k, i, from]) == img(k, row0 + i, col0 + from);
        assert col0 + from == col0 + 2 + j;
      }
    }
  }

  method ShiftWindow(act: array3<int8>, ch: nat, ghost img: Tensor, ghost row0: int, ghost col0: int)
    requires 2 <= act.Length2 && WindowHolds(act, ch, img, 0, act.Length2, row0, col0)
    modifies act
    ensures WindowHolds(act, ch, img, 0, act.Length2 - 2, row0, col0 + 2)
  {
    for k := 0 to ch
      invariant forall c, i, j | 0 <= c < k && 0 <= i < act.Length1 && 0 <= j < act.Length2 - 2 :: act[c, i, j] == img(c, row0 + i, col0 + 2 + j)
      invariant forall c, i, j | k <= c < ch && 0 <= i < act.Length1 && 0 <= j < act.Length2 :: act[c, i, j] == img(c, row0 + i, col0 + j)
    {
      ShiftChannel(act, img, k, row0, col0);
    }
  }

  /**
   * The window at pooled position `(h, x)`: a full load at the left edge, otherwise the shift and two new
   * columns. Afterwards entry `(c, i, j)` is source element `(c, 2h + i, 2x + j)`.
   */
  method Slide(act: array3<int8>, ch: nat, src: array<int8>, sl: Layout, ghost img: Tensor, ghost rows: int, ghost cols: int, h: nat, x: nat)
    requires 2 <= act.Length2 && ch <= act.Length0
    requires Source(src[..], sl, img, ch, rows, cols) && 2 * h + act.Length1 <= rows && 2 * x + act.Length2 <= cols
    requires x > 0 ==> WindowHolds(act, ch, img, 0, act.Length2, 2 * h, 2 * (x - 1))
    modifies act
    ensures WindowHolds(act, ch, img, 0, act.Length2, 2 * h, 2 * x)
  {
    if x == 0 {
      LoadColumns(act, ch, src, sl, img, rows, cols, 0, 2 * h, 2 * x);
    } else {
      ShiftWindow(act, ch, img, 2 * h, 2 * (x - 1));
      LoadColumns(act, ch, src, sl, img, rows, cols, act.Length2 - 2, 2 * h, 2 * x);
    }
  }

  // ----- The kernel copy -----

  ghost predicate KernelCopied(wbuf: array3<int8>, w: Kernels, m: int)
    reads wbuf
  {
    && w.inC <= wbuf.Length0 && wbuf.Length1 == wbuf.Length2 == w.size
    && forall c, r, s :: 0 <= c < w.inC && 0 <= r < w.size && 0 <= s < w.size ==> wbuf[c, r, s] == w.at(m, c, r, s)
  }

  method CopyKernel(wbuf: array3<int8>, w: Kernels, m: int)
    requires 0 <= m < w.outC && w.inC <= wbuf.Length0 && wbuf.Length1 == wbuf.Length2 == w.size
    modifies wbuf
    ensures KernelCopied(wbuf, w, m)
  {
    for k := 0 to w.inC
      invariant forall c, r, s | 0 <= c < k && 0 <= r < w.size && 0 <= s < w.size :: wbuf[c, r, s] == w.at(m, c, r, s)
    {
      for i := 0 to w.size
        invariant forall c, r, s | 0 <= c < k && 0 <= r < w.size && 0 <= s < w.size :: wbuf[c, r, s] == w.at(m, c, r, s)
        invariant forall r, s | 0 <= r < i && 0 <= s < w.size :: wbuf[k, r, s] == w.at(m, k, r, s)
      {
        for j := 0 to w.size
          invariant forall c, r, s | 0 <= c < k && 0 <= r < w.size && 0 <= s < w.size :: wbuf[c, r, s] == w.at(m, c, r, s)
          invariant forall r, s | 0 <= r < i && 0 <= s < w.size :: wbuf[k, r, s] == w.at(m, k, r, s)
          invariant forall s | 0 <= s < j :: wbuf[k, i, s] == w.at(m, k, i, s)
        {
          wbuf[k, i, j] := w.Get(m, k, i, j);
        }
      }
    }
  }

  // ----- Sums from the window -----

  ghost predicate WindowReady(act: array3<int8>, wbuf: array3<int8>, img: Tensor, w: Kernels, m: int, h: int, x: int)
    reads act, wbuf
  {
    && 0 <= m < w.outC
    && w.inC <= act.Length0 && act.Length1 == act.Length2 == w.size + 1
    && WindowHolds(act, w.inC, img, 0, w.size + 1, 2 * h, 2 * x) && KernelCopied(wbuf, w, m)
  }

  method AddWindowTaps(act: array3<int8>, wbuf: array3<int8>, ghost img: Tensor, w: Kernels, ghost k: nat, ghost m: int,
                       ghost h: int, ghost x: int, y: nat, z: nat, c: nat, r: nat, start: int32)
    returns (pSum: int32)
    requires y < 2 && z < 2 && c < w.inC && r < w.size
    requires WindowReady(act, wbuf, img, w, m, h, x) && SumsExact(img, w, k)
    requires start == Prefix(img, w, m, 2 * h + y, 2 * x + z, c, r, 0)
    ensures pSum == Prefix(img, w, m, 2 * h + y, 2 * x + z, c, r, w.size)
  {
    hide ChannelSum, RowSum;
    pSum := start;
    for s := 0 to w.size
      invariant pSum == Prefix(img, w, m, 2 * h + y, 2 * x + z, c, r, s)
    {
      var data := act[c, y + r, z + s];
      assert data == img(c, 2 * h + (y + r), 2 * x + (z + s));
      assert 2 * h + (y + r) == 2 * h + y + r && 2 * x + (z + s) == 2 * x + z + s;
      assert Fits32(Prefix(img, w, m, 2 * h + y, 2 * x + z, c, r, s + 1));
      pSum := Accumulate(pSum, data, wbuf[c, r, s]);
    }
  }

  method SumFromWindow(act: array3<int8>, wbuf: array3<int8>, ghost img: Tensor, w: Kernels, ghost k: nat, ghost m: int,
                       ghost h: int, ghost x: int, y: nat, z: nat)
    returns (pSum: int32)
    requires y < 2 && z < 2
    requires WindowReady(act, wbuf, img, w, m, h, x) && SumsExact(img, w, k)
    ensures pSum == WindowSum(img, w, m, 2 * h + y, 2 * x + z)
  {
    hide WindowReady, SumsExact;
    pSum := 0;
    for c := 0 to w.inC
      invariant pSum == ChannelSum(img, w, m, 2 * h + y, 2 * x + z, c)
    {
      for r := 0 to w.size
        invariant pSum == Prefix(img, w, m, 2 * h + y, 2 * x + z, c, r, 0)
      {
        pSum := AddWindowTaps(act, wbuf, img, w, k, m, h, x, y, z, c, r, pSum);
      }
    }
  }

  method WindowPoint(act: array3<int8>, wbuf: array3<int8>, ghost img: Tensor, w: Kernels, k: nat, ghost m: int, ghost h: int, ghost x: int)
    returns (r: int32)
    requires WindowReady(act, wbuf, img, w, m, h, x) && SumsExact(img, w, k)
    ensures r == FusedAct(img, w, k, m, h, x)
  {
    hide WindowReady, SumsExact;
    var maxVal: int32 := 0;
    for y := 0 to 2
      invariant PoolState(img, w, k, m, h, x, 2 * h + y, 2 * x, maxVal)
    {
      for z := 0 to 2
        invariant PoolState(img, w, k, m, h, x, 2 * h + y, 2 * x + z, maxVal)
        invariant z == 2 ==> PoolState(img, w, k, m, h, x, 2 * h + y + 1, 2 * x, maxVal)
      {
        var pSum := SumFromWindow(act, wbuf, img, w, k, m, h, x, y, z);
        PoolStep(img, w, k, m, h, x, 2 * h + y, 2 * x + z, maxVal);
        if maxVal < pSum {
          maxVal := pSum;
        }
      }
    }
    r := Requantise(maxVal, k);
    PoolDone(img, w, k, m, h, x, maxVal);
  }

  /** One pooled output: slide the window, then compute. */
  method WindowStep(act: array3<int8>, wbuf: array3<int8>, src: array<int8>, sl: Layout, ghost img: Tensor, w: Kernels, k: nat,
                    ghost m: int, h: nat, x: nat, ghost rows: int, ghost cols: int)
    returns (r: int32)
    requires 0 <= m < w.outC && act != wbuf
    requires w.inC <= act.Length0 && act.Length1 == act.Length2 == w.size + 1 >= 2 && KernelCopied(wbuf, w, m)
    requires Source(src[..], sl, img, w.inC, rows, cols) && 2 * h + w.size + 1 <= rows && 2 * x + w.size + 1 <= cols
    requires x > 0 ==> WindowHolds(act, w.inC, img, 0, act.Length2, 2 * h, 2 * (x - 1))
    requires SumsExact(img, w, k)
    modifies act
    ensures WindowHolds(act, w.inC, img, 0, act.Length2, 2 * h, 2 * x)
    ensures r == FusedAct(img, w, k, m, h, x)
  {
    Slide(act, w.inC, src, sl, img, rows, cols, h, x);
    r := WindowPoint(act, wbuf, img, w, k, m, h, x);
  }

  method WindowRow(act: array3<int8>, wbuf: array3<int8>, src: array<int8>, sl: Layout, ghost img: Tensor, w: Kernels, k: nat,
                   ghost m: int, h: nat, ghost rows: int, ghost cols: int, outW: nat, dst: array<int8>, off: int)
    requires src != dst && 0 <= m < w.outC && act != wbuf
    requires w.inC <= act.Length0 && act.Length1 == act.Length2 == w.size + 1 >= 2 && KernelCopied(wbuf, w, m)
    requires Source(src[..], sl, img, w.inC, rows, cols) && 2 * h + w.size + 1 <= rows && 2 * outW + w.size - 1 <= cols
    requires 0 <= off && off + outW <= dst.Length
    requires SumsExact(img, w, k)
    modifies act, dst
    ensures forall x | 0 <= x < outW :: dst[off + x] == FusedTensor(img, w, k)(m, h, x)
    ensures SameOutside(old(dst[..]), dst[..], off, off + outW)
  {
    hide FusedAct;
    for x := 0 to outW
      invariant Source(src[..], sl, img, w.inC, rows, cols) && KernelCopied(wbuf, w, m)
      invariant x > 0 ==> WindowHolds(act, w.inC, img, 0, act.Length2, 2 * h, 2 * (x - 1))
      invariant forall z | 0 <= z < x :: dst[off + z] == FusedTensor(img, w, k)(m, h, z)
      invariant SameOutside(old(dst[..]), dst[..], off, off + x)
    {
      var r := WindowStep(act, wbuf, src, sl, img, w, k, m, h, x, rows, cols);
      dst[off + x] := Wrap8(r);
    }
  }

  method WindowChannel(act: array3<int8>, wbuf: array3<int8>, src: array<int8>, sl: Layout, ghost img: Tensor, w: Kernels, k: nat,
                       m: int, outH: nat, dst: array<int8>, dl: Layout)
    requires src != dst && act != wbuf && 0 <= m < w.outC && 0 <= dl.rowWidth
    requires w.inC <= act.Length0 && act.Length1 == act.Length2 == w.size + 1 >= 2
    requires w.inC <= wbuf.Length0 && wbuf.Length1 == wbuf.Length2 == w.size
    requires 0 <= dl.At(m, 0, 0) && dl.At(m, outH, 0) <= dst.Length
    requires Source(src[..], sl, img, w.inC, 2 * outH + w.size - 1, 2 * dl.rowWidth + w.size - 1)
    requires SumsExact(img, w, k)
    modifies act, wbuf, dst
    ensures Holds(dst[..], dl, FusedTensor(img, w, k), Box(m, m + 1, 0, outH, dl.rowWidth))
    ensures SameOutside(old(dst[..]), dst[..], dl.At(m, 0, 0), dl.At(m, outH, 0))
  {
    var start, off := dl.At(m, 0, 0), dl.At(m, 0, 0);
    hide FusedAct;
    ghost var out := FusedTensor(img, w, k);
    ghost var rows, cols := 2 * outH + w.size - 1, 2 * dl.rowWidth + w.size - 1;
    CopyKernel(wbuf, w, m);
    for h := 0 to outH
      invariant off == dl.At(m, h, 0)
      invariant Source(src[..], sl, img, w.inC, rows, cols) && KernelCopied(wbuf, w, m)
      invariant Holds(dst[..], dl, out, Box(m, m + 1, 0, h, dl.rowWidth))
      invariant SameOutside(old(dst[..]), dst[..], start, off)
    {
      RowInside(dl, m, 0, h, outH);
      ghost var was := dst[..];
      WindowRow(act, wbuf, src, sl, img, w, k, m, h, rows, cols, dl.rowWidth, dst, off);
      RowJoins(was, dst[..], dl, out, m, 0, h);
      SameOutsideJoin(old(dst[..]), was, dst[..], start, off, off + dl.rowWidth);
      off := off + dl.rowWidth;
    }
  }

  /**
   * The whole layer in sliding-window form leaves in `dst` exactly what the direct form (`FusedLayer`)
   * leaves there, for any source, weights and dimensions.
   */
  method WindowLayer(act: array3<int8>, wbuf: array3<int8>, src: array<int8>, sl: Layout, ghost img: Tensor, w: Kernels, k: nat,
                     outH: nat, dst: array<int8>, dl: Layout)
    requires src != dst && act != wbuf
    requires w.inC <= act.Length0 && act.Length1 == act.Length2 == w.size + 1 >= 2
    requires w.inC <= wbuf.Length0 && wbuf.Length1 == wbuf.Length2 == w.size
    requires Fitting(dl, 0, w.outC, 0, outH, dst.Length)
    requires Source(src[..], sl, img, w.inC, 2 * outH + w.size - 1, 2 * dl.rowWidth + w.size - 1)
    requires SumsExact(img, w, k)
    modifies act, wbuf, dst
    ensures Holds(dst[..], dl, FusedTensor(img, w, k), Box(0, w.outC, 0, outH, dl.rowWidth))
    ensures SameOutsideBands(old(dst[..]), dst[..], dl, 0, w.outC, 0, outH)
  {
    hide FusedAct;
    ghost var out := FusedTensor(img, w, k);
    for m := 0 to w.outC
      invariant Source(src[..], sl, img, w.inC, 2 * outH + w.size - 1, 2 * dl.rowWidth + w.size - 1)
      invariant Holds(dst[..], dl, out, Box(0, m, 0, outH, dl.rowWidth))
      invariant SameOutsideBands(old(dst[..]), dst[..], dl, 0, m, 0, outH)
    {
      ghost var was := dst[..];
      ChannelInside(dl, 0, w.outC, 0, outH, dst.Length, m);
      WindowChannel(act, wbuf, src, sl, img, w, k, m, outH, dst, dl);
      KeepsOtherChannels(was, dst[..], dl, out, Box(0, m, 0, outH, dl.rowWidth), m);
      ChannelsJoin(dst[..], dl, out, 0, m, 0, outH, dl.rowWidth);
      BandJoins(old(dst[..]), was, dst[..], dl, 0, m, 0, outH);
    }
  }
}
