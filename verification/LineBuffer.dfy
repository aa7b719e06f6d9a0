/**
 * The line-buffer form of the fused layer (Fused_LineBuf_Conv1 and Fused_LineBuf_Conv2): `size + 1` rows
 * per channel are kept in a buffer that shifts up by two rows for each pooled row.
 */
module LineBuffer {
  import opened Arith
  import opened Convolution
  import opened FusedConv

  /** Slots `[lo, hi)` of every channel hold rows `row0 + lo .. row0 + hi` of the source. */
  ghost predicate SlotsHold(line: array3<int8>, img: Tensor, lo: int, hi: int, row0: int)
    reads line
  {
    0 <= lo && hi <= line.Length1 &&
    forall c, i, j :: 0 <= c < line.Length0 && lo <= i < hi && 0 <= j < line.Length2 ==>
      line[c, i, j] == img(c, row0 + i, j)
  }

  ghost predicate SourceRows(src: seq<int8>, sl: Layout, img: Tensor, line: array3<int8>, y0: int, y1: int) {
    Holds(src, sl, img, Box(0, line.Length0, y0, y1, line.Length2))
  }

  /** Before the first pooled row: slots 2, 3, ... take rows 0, 1, ... */
  method Preload(line: array3<int8>, src: array<int8>, sl: Layout, ghost img: Tensor)
    requires line.Length1 >= 2
    requires SourceRows(src[..], sl, img, line, 0, line.Length1 - 2)
    modifies line
    ensures SlotsHold(line, img, 2, line.Length1, -2)
  {
    for k := 0 to line.Length0
      invariant forall c, i, j | 0 <= c < k && 2 <= i < line.Length1 && 0 <= j < line.Length2 :: line[c, i, j] == img(c, i - 2, j)
    {
      for i := 2 to line.Length1
        invariant forall c, i, j | 0 <= c < k && 2 <= i < line.Length1 && 0 <= j < line.Length2 :: line[c, i, j] == img(c, i - 2, j)
        invariant forall i', j | 2 <= i' < i && 0 <= j < line.Length2 :: line[k, i', j] == img(k, i' - 2, j)
      {
        CopyRow(line, k, i, src, sl, img, i - 2, line.Length1 - 2);
      }
    }
  }

  /** One source row into one slot. */
  method CopyRow(line: array3<int8>, k: nat, slot: nat, src: array<int8>, sl: Layout, ghost img: Tensor, row: nat, ghost rows: nat)
    requires k < line.Length0 && slot < line.Length1 && row < rows
    requires SourceRows(src[..], sl, img, line, 0, rows)
    modifies line
    ensures forall j | 0 <= j < line.Length2 :: line[k, slot, j] == img(k, row, j)
    ensures forall c, i, j | 0 <= c < line.Length0 && 0 <= i < line.Length1 && 0 <= j < line.Length2 && (c != k || i != slot) ::
      line[c, i, j] == old(line[c, i, j])
  {
    for j := 0 to line.Length2
      invariant forall z | 0 <= z < j :: line[k, slot, z] == img(k, row, z)
      invariant forall c, i, j | 0 <= c < line.Length0 && 0 <= i < line.Length1 && 0 <= j < line.Length2 && (c != k || i != slot) ::
        line[c, i, j] == old(line[c, i, j])
    {
      line[k, slot, j] := Load(src, sl, img, Box(0, line.Length0, 0, rows, line.Length2), k, row, j);
    }
  }

  /** The in-place shift by two slots. Each slot is read before it is overwritten. */
  method Shift(line: array3<int8>, ghost img: Tensor, ghost h: int)
    requires line.Length1 >= 2 && SlotsHold(line, img, 2, line.Length1, 2 * h - 2)
    modifies line
    ensures SlotsHold(line, img, 0, line.Length1 - 2, 2 * h)
  {
    for k := 0 to line.Length0
      invariant forall c, i, j | 0 <= c < k && 0 <= i < line.Length1 - 2 && 0 <= j < line.Length2 :: line[c, i, j] == img(c, 2 * h + i, j)
      invariant forall c, i, j | k <= c < line.Length0 && 2 <= i < line.Length1 && 0 <= j < line.Length2 :: line[c, i, j] == img(c, 2 * h - 2 + i, j)
    {
      for i := 2 to line.Length1
        invariant forall c, i, j | 0 <= c < k && 0 <= i < line.Length1 - 2 && 0 <= j < line.Length2 :: line[c, i, j] == img(c, 2 * h + i, j)
        invariant forall i', j | 0 <= i' < i - 2 && 0 <= j < line.Length2 :: line[k, i', j] == img(k, 2 * h + i', j)
        invariant forall i', j | i <= i' < line.Length1 && 0 <= j < line.Length2 :: line[k, i', j] == img(k, 2 * h - 2 + i', j)
        invariant forall c, i, j | k < c < line.Length0 && 2 <= i < line.Length1 && 0 <= j < line.Length2 :: line[c, i, j] == img(c, 2 * h - 2 + i, j)
      {
        var target := i - 2;
        label before:
        ShiftRow(line, k, i, target);
        forall j | 0 <= j < line.Length2
          ensures line[k, target, j] == img(k, 2 * h + target, j)
        {
          assert old@before(line[k, i, j]) == img(k, 2 * h - 2 + i, j);
        }
      }
    }
  }

  method ShiftRow(line: array3<int8>, k: nat, slot: nat, target: nat)
    requires k < line.Length0 && slot < line.Length1 && target < slot
    modifies line
    ensures forall j | 0 <= j < line.Length2 :: line[k, target, j] == old(line[k, slot, j])
    ensures forall c, i, j | 0 <= c < line.Length0 && 0 <= i < line.Length1 && 0 <= j < line.Length2 && (c != k || i != target) ::
      line[c, i, j] == old(line[c, i, j])
  {
    for j := 0 to line.Length2
      invariant forall z | 0 <= z < j :: line[k, target, z] == old(line[k, slot, z])
      invariant forall c, i, j | 0 <= c < line.Length0 && 0 <= i < line.Length1 && 0 <= j < line.Length2 && (c != k || i != target) ::
        line[c, i, j] == old(line[c, i, j])
    {
      line[k, target, j] := line[k, slot, j];
    }
  }

  /** The two newest rows go into the last two slots. */
  method Refill(line: array3<int8>, src: array<int8>, sl: Layout, ghost img: Tensor, h: nat)
    requires line.Length1 >= 2 && SlotsHold(line, img, 0, line.Length1 - 2, 2 * h)
    requires SourceRows(src[..], sl, img, line, 0, 2 * h + line.Length1)
    modifies line
    ensures SlotsHold(line, img, 0, line.Length1, 2 * h)
  {
    var last := line.Length1 - 1;
    for k := 0 to line.Length0
      invariant SlotsHold(line, img, 0, last - 1, 2 * h)
      invariant forall c, i, j | 0 <= c < k && last - 1 <= i <= last && 0 <= j < line.Length2 :: line[c, i, j] == img(c, 2 * h + i, j)
    {
      RefillChannel(line, src, sl, img, h, k, last);
    }
  }

  method RefillChannel(line: array3<int8>, src: array<int8>, sl: Layout, ghost img: Tensor, h: nat, k: nat, last: nat)
    requires k < line.Length0 && 1 <= last == line.Length1 - 1
    requires SourceRows(src[..], sl, img, line, 0, 2 * h + line.Length1)
    modifies line
    ensures forall i, j | last - 1 <= i <= last && 0 <= j < line.Length2 :: line[k, i, j] == img(k, 2 * h + i, j)
    ensures forall c, i, j | 0 <= c < line.Length0 && 0 <= i < line.Length1 && 0 <= j < line.Length2 && (c != k || i < last - 1) ::
      line[c, i, j] == old(line[c, i, j])
  {
    for i := 0 to line.Length2
      invariant forall s, j | last - 1 <= s <= last && 0 <= j < i :: line[k, s, j] == img(k, 2 * h + s, j)
      invariant forall c, i, j | 0 <= c < line.Length0 && 0 <= i < line.Length1 && 0 <= j < line.Length2 && (c != k || i < last - 1) ::
        line[c, i, j] == old(line[c, i, j])
    {
      var inH := h * 2 + (last - 1);
      var upper := Load(src, sl, img, Box(0, line.Length0, 0, 2 * h + line.Length1, line.Length2), k, inH, i);
      var lower := Load(src, sl, img, Box(0, line.Length0, 0, 2 * h + line.Length1, line.Length2), k, inH + 1, i);
      assert upper == img(k, 2 * h + (last - 1), i) && lower == img(k, 2 * h + last, i);
      line[k, last - 1, i] := upper;
      line[k, last, i] := lower;
    }
  }

  // ----- Sums from the slots -----

  ghost predicate Ready(line: array3<int8>, img: Tensor, w: Kernels, h: int)
    reads line
  {
    && line.Length0 == w.inC && line.Length1 == w.size + 1
    && SlotsHold(line, img, 0, w.size + 1, 2 * h)
  }

  method SumFromLines(line: array3<int8>, ghost img: Tensor, w: Kernels, ghost k: nat, m: int, ghost h: int, y: nat, z: nat)
    returns (pSum: int32)
    requires 0 <= m < w.outC && y < 2 && z + w.size <= line.Length2
    requires Ready(line, img, w, h) && SumsExact(img, w, k)
    ensures pSum == WindowSum(img, w, m, 2 * h + y, z)
  {
    pSum := 0;
    for c := 0 to w.inC
      invariant pSum == ChannelSum(img, w, m, 2 * h + y, z, c)
    {
      for r := 0 to w.size
        invariant pSum == Prefix(img, w, m, 2 * h + y, z, c, r, 0)
      {
        pSum := AddLineTaps(line, img, w, k, m, h, y, z, c, r, pSum);
      }
    }
  }

  method AddLineTaps(line: array3<int8>, ghost img: Tensor, w: Kernels, ghost k: nat, m: int, ghost h: int,
                     y: nat, z: nat, c: nat, r: nat, start: int32)
    returns (pSum: int32)
    requires 0 <= m < w.outC && y < 2 && z + w.size <= line.Length2 && c < w.inC && r < w.size
    requires Ready(line, img, w, h) && SumsExact(img, w, k)
    requires start == Prefix(img, w, m, 2 * h + y, z, c, r, 0)
    ensures pSum == Prefix(img, w, m, 2 * h + y, z, c, r, w.size)
  {
    hide ChannelSum, RowSum;
    pSum := start;
    for s := 0 to w.size
      invariant pSum == Prefix(img, w, m, 2 * h + y, z, c, r, s)
    {
      var data := line[c, y + r, z + s];
      assert data == img(c, 2 * h + (y + r), z + s);
      assert 2 * h + (y + r) == 2 * h + y + r;
      assert Fits32(Prefix(img, w, m, 2 * h + y, z, c, r, s + 1));
      pSum := Accumulate(pSum, data, w.Get(m, c, r, s));
    }
  }

  method LinePoint(line: array3<int8>, ghost img: Tensor, w: Kernels, k: nat, m: int, ghost h: int, x: nat)
    returns (act: int32)
    requires 0 <= m < w.outC && 2 * x + 1 + w.size <= line.Length2
    requires Ready(line, img, w, h) && SumsExact(img, w, k)
    ensures act == FusedAct(img, w, k, m, h, x)
  {
    var maxVal: int32 := 0;
    for y := 0 to 2
      invariant PoolState(img, w, k, m, h, x, 2 * h + y, 2 * x, maxVal)
    {
      for z := 2 * x to 2 * x + 2
        invariant PoolState(img, w, k, m, h, x, 2 * h + y, z, maxVal)
        invariant z == 2 * x + 2 ==> PoolState(img, w, k, m, h, x, 2 * h + y + 1, 2 * x, maxVal)
      {
        var pSum := SumFromLines(line, img, w, k, m, h, y, z);
        PoolStep(img, w, k, m, h, x, 2 * h + y, z, maxVal);
        if maxVal < pSum {
          maxVal := pSum;
        }
      }
    }
    act := Requantise(maxVal, k);
    PoolDone(img, w, k, m, h, x, maxVal);
  }

  method LineRow(line: array3<int8>, ghost img: Tensor, w: Kernels, k: nat, m: int, ghost h: int, outW: nat,
                 dst: array<int8>, off: int)
    requires 0 <= m < w.outC && 2 * outW + w.size - 1 <= line.Length2
    requires 0 <= off && off + outW <= dst.Length
    requires Ready(line, img, w, h) && SumsExact(img, w, k)
    modifies dst
    ensures forall x | 0 <= x < outW :: dst[off + x] == FusedTensor(img, w, k)(m, h, x)
    ensures SameOutside(old(dst[..]), dst[..], off, off + outW)
  {
    hide FusedAct;
    for x := 0 to outW
      invariant Ready(line, img, w, h)
      invariant forall z | 0 <= z < x :: dst[off + z] == FusedTensor(img, w, k)(m, h, z)
      invariant SameOutside(old(dst[..]), dst[..], off, off + x)
    {
      var act := LinePoint(line, img, w, k, m, h, x);
      dst[off + x] := Wrap8(act);
    }
  }

  /** One pooled row: shift, refill, compute. */
  method LineStep(line: array3<int8>, src: array<int8>, sl: Layout, ghost img: Tensor, w: Kernels, k: nat,
                  m: int, h: nat, ghost outH: nat, outW: nat, dst: array<int8>, off: int)
    requires src != dst && 0 <= m < w.outC && h < outH
    requires line.Length0 == w.inC && line.Length1 == w.size + 1 >= 2 && line.Length2 >= 2 * outW + w.size - 1
    requires SourceRows(src[..], sl, img, line, 0, 2 * outH + w.size - 1)
    requires SlotsHold(line, img, 2, line.Length1, 2 * h - 2)
    requires 0 <= off && off + outW <= dst.Length
    requires SumsExact(img, w, k)
    modifies line, dst
    ensures SlotsHold(line, img, 0, line.Length1, 2 * h)
    ensures forall x | 0 <= x < outW :: dst[off + x] == FusedTensor(img, w, k)(m, h, x)
    ensures SameOutside(old(dst[..]), dst[..], off, off + outW)
  {
    Shift(line, img, h);
    Refill(line, src, sl, img, h);
    LineRow(line, img, w, k, m, h, outW, dst, off);
  }

  /** One output channel: preload, then one step for each pooled row. */
  method LineChannel(line: array3<int8>, src: array<int8>, sl: Layout, ghost img: Tensor, w: Kernels, k: nat,
                     m: int, outH: nat, dst: array<int8>, dl: Layout)
    requires src != dst && 0 <= m < w.outC && 0 <= dl.rowWidth
    requires line.Length0 == w.inC && line.Length1 == w.size + 1 >= 2 && line.Length2 >= 2 * dl.rowWidth + w.size - 1
    requires 0 <= dl.At(m, 0, 0) && dl.At(m, outH, 0) <= dst.Length
    requires outH >= 1 && SourceRows(src[..], sl, img, line, 0, 2 * outH + w.size - 1)
    requires SumsExact(img, w, k)
    modifies line, dst
    ensures Holds(dst[..], dl, FusedTensor(img, w, k), Box(m, m + 1, 0, outH, dl.rowWidth))
    ensures SameOutside(old(dst[..]), dst[..], dl.At(m, 0, 0), dl.At(m, outH, 0))
  {
    hide SumsExact;
    var start, off := dl.At(m, 0, 0), dl.At(m, 0, 0);
    hide FusedAct;
    ghost var out := FusedTensor(img, w, k);
    Preload(line, src, sl, img);
    for h := 0 to outH
      invariant off == dl.At(m, h, 0)
      invariant SlotsHold(line, img, 2, line.Length1, 2 * h - 2)
      invariant SourceRows(src[..], sl, img, line, 0, 2 * outH + w.size - 1)
      invariant Holds(dst[..], dl, out, Box(m, m + 1, 0, h, dl.rowWidth))
      invariant SameOutside(old(dst[..]), dst[..], start, off)
    {
      RowInside(dl, m, 0, h, outH);
      ghost var was := dst[..];
      LineStep(line, src, sl, img, w, k, m, h, outH, dl.rowWidth, dst, off);
      RowJoins(was, dst[..], dl, out, m, 0, h);
      SameOutsideJoin(old(dst[..]), was, dst[..], start, off, off + dl.rowWidth);
      off := off + dl.rowWidth;
    }
  }

  /**
   * The whole layer in line-buffer form leaves in `dst` exactly what the direct form (`FusedLayer`) leaves
   * there, for any source, weights and dimensions.
   */
  method LineLayer(line: array3<int8>, src: array<int8>, sl: Layout, ghost img: Tensor, w: Kernels, k: nat,
                   outH: nat, dst: array<int8>, dl: Layout)
    requires src != dst && outH >= 1
    requires line.Length0 == w.inC && line.Length1 == w.size + 1 >= 2 && line.Length2 >= 2 * dl.rowWidth + w.size - 1
    requires Fitting(dl, 0, w.outC, 0, outH, dst.Length)
    requires SourceRows(src[..], sl, img, line, 0, 2 * outH + w.size - 1)
    requires SumsExact(img, w, k)
    modifies line, dst
    ensures Holds(dst[..], dl, FusedTensor(img, w, k), Box(0, w.outC, 0, outH, dl.rowWidth))
    ensures SameOutsideBands(old(dst[..]), dst[..], dl, 0, w.outC, 0, outH)
  {
    hide FusedAct;
    ghost var out := FusedTensor(img, w, k);
    for m := 0 to w.outC
      invariant SourceRows(src[..], sl, img, line, 0, 2 * outH + w.size - 1)
      invariant Holds(dst[..], dl, out, Box(0, m, 0, outH, dl.rowWidth))
      invariant SameOutsideBands(old(dst[..]), dst[..], dl, 0, m, 0, outH)
    {
      ghost var was := dst[..];
      ChannelInside(dl, 0, w.outC, 0, outH, dst.Length, m);
      LineChannel(line, src, sl, img, w, k, m, outH, dst, dl);
      KeepsOtherChannels(was, dst[..], dl, out, Box(0, m, 0, outH, dl.rowWidth), m);
      ChannelsJoin(dst[..], dl, out, 0, m, 0, outH, dl.rowWidth);
      BandJoins(old(dst[..]), was, dst[..], dl, 0, m, 0, outH);
    }
  }
}
