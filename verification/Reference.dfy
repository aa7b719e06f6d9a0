/**
 * The reference accelerator of vp/lenet.h: unfused layers on `int` arrays. The batch dimension, always 1
 * there, is dropped.
 */
module Reference {
  import opened Arith
  import opened Convolution
  import opened FullyConnected
  import opened FusedConv

  /** `a[c][y][x]` holds the tensor, everywhere. */
  ghost predicate Holds3(a: array3<int32>, t: Tensor)
    reads a
  {
    forall c, y, x :: 0 <= c < a.Length0 && 0 <= y < a.Length1 && 0 <= x < a.Length2 ==> a[c, y, x] == t(c, y, x)
  }

  /** The entries that loops over `c`, `y`, `x` have written when they reach `(m, p, q)` hold the tensor. */
  ghost predicate HoldsUpTo(a: array3<int32>, t: Tensor, m: int, p: int, q: int)
    reads a
  {
    forall c, y, x :: 0 <= c < a.Length0 && 0 <= y < a.Length1 && 0 <= x < a.Length2 && Before(c, y, x, m, p, q) ==>
      a[c, y, x] == t(c, y, x)
  }

  predicate Before(c: int, y: int, x: int, m: int, p: int, q: int) {
    c < m || (c == m && (y < p || (y == p && x < q)))
  }

  /** `img` with one channel stored in rows of `width`. */
  ghost predicate HoldsImage(src: seq<int8>, width: nat, img: Tensor, rows: nat) {
    Holds(src, Layout(0, 0, width), img, Box(0, 1, 0, rows, width))
  }

  // ----- Window sums -----

  /** Conv1: rows, taps, then the single channel. */
  method SumOverImage(src: array<int8>, width: nat, ghost img: Tensor, w: Kernels, ghost k: nat, m: int, p: nat, q: nat)
    returns (pSum: int32)
    requires 0 <= m < w.outC && w.inC == 1 && q + w.size <= width
    requires HoldsImage(src[..], width, img, p + w.size) && SumsExact(img, w, k)
    ensures pSum == WindowSum(img, w, m, p, q)
  {
    hide HoldsImage, SumsExact;
    pSum := 0;
    for r := 0 to w.size
      invariant pSum == DepthKernel(img, w, m, p, q, w.inC, r)
    {
      for s := 0 to w.size
        invariant pSum == DepthPrefix(img, w, m, p, q, r, s, 0)
      {
        pSum := AddPixel(src, width, img, w, k, m, p, q, r, s, pSum);
      }
    }
    LoopOrdersAgree(img, w, m, p, q, w.inC);
  }

  method AddPixel(src: array<int8>, width: nat, ghost img: Tensor, w: Kernels, ghost k: nat, m: int, p: nat, q: nat,
                  r: nat, s: nat, start: int32)
    returns (pSum: int32)
    requires 0 <= m < w.outC && w.inC == 1 && q + w.size <= width && r < w.size && s < w.size
    requires HoldsImage(src[..], width, img, p + w.size) && SumsExact(img, w, k)
    requires start == DepthPrefix(img, w, m, p, q, r, s, 0)
    ensures pSum == DepthPrefix(img, w, m, p, q, r, s, w.inC)
  {
    pSum := start;
    for c := 0 to w.inC
      invariant pSum == DepthPrefix(img, w, m, p, q, r, s, c)
    {
      var data := Load(src, Layout(0, 0, width), img, Box(0, 1, 0, p + w.size, width), 0, p + r, q + s);
      assert Fits32(DepthPrefix(img, w, m, p, q, r, s, c + 1));
      pSum := Accumulate(pSum, data, w.Get(m, c, r, s));
    }
  }

  /** Conv2: channels, rows, then taps. */
  method SumOverMaps(src: array3<int32>, ghost img: Tensor, w: Kernels, ghost k: nat, m: int, p: nat, q: nat)
    returns (pSum: int32)
    requires 0 <= m < w.outC && src.Length0 == w.inC && p + w.size <= src.Length1 && q + w.size <= src.Length2
    requires Holds3(src, img) && SumsExact(img, w, k)
    ensures pSum == WindowSum(img, w, m, p, q)
  {
    hide Holds3, SumsExact;
    pSum := 0;
    for c := 0 to w.inC
      invariant pSum == ChannelSum(img, w, m, p, q, c)
    {
      for r := 0 to w.size
        invariant pSum == Prefix(img, w, m, p, q, c, r, 0)
      {
        pSum := AddMapTaps(src, img, w, k, m, p, q, c, r, pSum);
      }
    }
  }

  method AddMapTaps(src: array3<int32>, ghost img: Tensor, w: Kernels, ghost k: nat, m: int, p: nat, q: nat,
                    c: nat, r: nat, start: int32)
    returns (pSum: int32)
    requires 0 <= m < w.outC && src.Length0 == w.inC && p + w.size <= src.Length1 && q + w.size <= src.Length2
    requires c < w.inC && r < w.size
    requires Holds3(src, img) && SumsExact(img, w, k)
    requires start == Prefix(img, w, m, p, q, c, r, 0)
    ensures pSum == Prefix(img, w, m, p, q, c, r, w.size)
  {
    hide ChannelSum, RowSum;
    pSum := start;
    for s := 0 to w.size
      invariant pSum == Prefix(img, w, m, p, q, c, r, s)
    {
      var data := src[c, p + r, q + s];
      assert data == img(c, p + r, q + s);
      assert Fits32(Prefix(img, w, m, p, q, c, r, s + 1));
      pSum := Accumulate(pSum, data, w.Get(m, c, r, s));
    }
  }

  // ----- Convolution -----

  method ConvImage(src: array<int8>, width: nat, ghost img: Tensor, w: Kernels, k: nat, out: array3<int32>)
    requires w.inC == 1 && w.size >= 1 && out.Length0 == w.outC && width == out.Length2 + w.size - 1
    requires HoldsImage(src[..], width, img, out.Length1 + w.size - 1) && SumsExact(img, w, k)
    modifies out
    ensures Holds3(out, ConvTensor(img, w, k))
  {
    for m := 0 to w.outC
      invariant HoldsImage(src[..], width, img, out.Length1 + w.size - 1)
      invariant HoldsUpTo(out, ConvTensor(img, w, k), m, 0, 0)
    {
      for p := 0 to out.Length1
        invariant HoldsImage(src[..], width, img, out.Length1 + w.size - 1)
        invariant HoldsUpTo(out, ConvTensor(img, w, k), m, p, 0)
      {
        ConvImageRow(src, width, img, w, k, out, m, p);
      }
    }
  }

  method ConvImageRow(src: array<int8>, width: nat, ghost img: Tensor, w: Kernels, k: nat, out: array3<int32>, m: nat, p: nat)
    requires w.inC == 1 && w.size >= 1 && out.Length0 == w.outC && width == out.Length2 + w.size - 1
    requires m < w.outC && p < out.Length1
    requires HoldsImage(src[..], width, img, out.Length1 + w.size - 1) && SumsExact(img, w, k)
    requires HoldsUpTo(out, ConvTensor(img, w, k), m, p, 0)
    modifies out
    ensures HoldsUpTo(out, ConvTensor(img, w, k), m, p + 1, 0)
  {
    hide Requant;
    for q := 0 to out.Length2
      invariant HoldsImage(src[..], width, img, out.Length1 + w.size - 1)
      invariant HoldsUpTo(out, ConvTensor(img, w, k), m, p, q)
    {
      var pSum := SumOverImage(src, width, img, w, k, m, p, q);
      out[m, p, q] := Requantise(pSum, k);
      Requant32Exact(pSum, k);
    }
  }

  method ConvMaps(src: array3<int32>, ghost img: Tensor, w: Kernels, k: nat, out: array3<int32>)
    requires src != out && w.size >= 1 && src.Length0 == w.inC && out.Length0 == w.outC
    requires src.Length1 == out.Length1 + w.size - 1 && src.Length2 == out.Length2 + w.size - 1
    requires Holds3(src, img) && SumsExact(img, w, k)
    modifies out
    ensures Holds3(out, ConvTensor(img, w, k))
  {
    for m := 0 to w.outC
      invariant Holds3(src, img) && HoldsUpTo(out, ConvTensor(img, w, k), m, 0, 0)
    {
      for p := 0 to out.Length1
        invariant Holds3(src, img) && HoldsUpTo(out, ConvTensor(img, w, k), m, p, 0)
      {
        ConvMapsRow(src, img, w, k, out, m, p);
      }
    }
  }

  method ConvMapsRow(src: array3<int32>, ghost img: Tensor, w: Kernels, k: nat, out: array3<int32>, m: nat, p: nat)
    requires src != out && w.size >= 1 && src.Length0 == w.inC && out.Length0 == w.outC
    requires src.Length1 == out.Length1 + w.size - 1 && src.Length2 == out.Length2 + w.size - 1
    requires m < w.outC && p < out.Length1
    requires Holds3(src, img) && SumsExact(img, w, k)
    requires HoldsUpTo(out, ConvTensor(img, w, k), m, p, 0)
    modifies out
    ensures HoldsUpTo(out, ConvTensor(img, w, k), m, p + 1, 0)
  {
    hide Requant;
    for q := 0 to out.Length2
      invariant Holds3(src, img) && HoldsUpTo(out, ConvTensor(img, w, k), m, p, q)
    {
      var pSum := SumOverMaps(src, img, w, k, m, p, q);
      out[m, p, q] := Requantise(pSum, k);
      Requant32Exact(pSum, k);
    }
  }

  // ----- Pooling -----

  /** The entries the pooling loops have seen when they reach `(y, z)`. */
  function Seen(h: int, x: int, y: int, z: int): int {
    2 * (y - 2 * h) + (z - 2 * x)
  }

  lemma PoolEntry(t: Tensor, m: int, h: int, x: int, y: int, z: int)
    requires 2 * h <= y < 2 * h + 2 && 2 * x <= z < 2 * x + 2
    ensures 0 <= Seen(h, x, y, z) < 4
    ensures Quad(t, m, h, x)[Seen(h, x, y, z)] == t(m, y, z)
  {
  }

  /** One pooled value, starting from the window's first entry and comparing all four. */
  method PoolPoint(conv: array3<int32>, ghost t: Tensor, m: nat, h: nat, x: nat) returns (maxVal: int32)
    requires m < conv.Length0 && 2 * h + 2 <= conv.Length1 && 2 * x + 2 <= conv.Length2
    requires Holds3(conv, t)
    ensures maxVal == MaxPool(t)(m, h, x)
  {
    ghost var s := Quad(t, m, h, x);
    PoolEntry(t, m, h, x, 2 * h, 2 * x);
    maxVal := conv[m, h * 2, x * 2];
    for y := h * 2 to h * 2 + 2
      invariant maxVal == MaxFrom(t(m, 2 * h, 2 * x), s, Seen(h, x, y, 2 * x))
    {
      for z := x * 2 to x * 2 + 2
        invariant maxVal == MaxFrom(t(m, 2 * h, 2 * x), s, Seen(h, x, y, z))
      {
        PoolEntry(t, m, h, x, y, z);
        if maxVal < conv[m, y, z] {
          maxVal := conv[m, y, z];
        }
      }
    }
  }

  method Pool(conv: array3<int32>, ghost t: Tensor, pooled: array3<int32>)
    requires conv != pooled && conv.Length0 == pooled.Length0
    requires 2 * pooled.Length1 <= conv.Length1 && 2 * pooled.Length2 <= conv.Length2
    requires Holds3(conv, t)
    modifies pooled
    ensures Holds3(pooled, MaxPool(t))
  {
    for c := 0 to pooled.Length0
      invariant Holds3(conv, t) && HoldsUpTo(pooled, MaxPool(t), c, 0, 0)
    {
      for h := 0 to pooled.Length1
        invariant Holds3(conv, t) && HoldsUpTo(pooled, MaxPool(t), c, h, 0)
      {
        PoolRow(conv, t, pooled, c, h);
      }
    }
  }

  method PoolRow(conv: array3<int32>, ghost t: Tensor, pooled: array3<int32>, c: nat, h: nat)
    requires conv != pooled && conv.Length0 == pooled.Length0 && c < pooled.Length0 && h < pooled.Length1
    requires 2 * pooled.Length1 <= conv.Length1 && 2 * pooled.Length2 <= conv.Length2
    requires Holds3(conv, t) && HoldsUpTo(pooled, MaxPool(t), c, h, 0)
    modifies pooled
    ensures HoldsUpTo(pooled, MaxPool(t), c, h + 1, 0)
  {
    hide MaxPool;
    for x := 0 to pooled.Length2
      invariant Holds3(conv, t) && HoldsUpTo(pooled, MaxPool(t), c, h, x)
    {
      pooled[c, h, x] := PoolPoint(conv, t, c, h, x);
    }
  }

  /** Row `h` of channel `c` occupies `flat[base .. base + cols)`. */
  ghost predicate RowOf(v: Vec, t: Tensor, base: int, c: int, h: int, cols: int) {
    forall x :: 0 <= x < cols ==> v(base + x) == t(c, h, x)
  }

  lemma FlattenRow(t: Tensor, rows: nat, cols: nat, c: nat, h: nat, base: int)
    requires h < rows && cols > 0 && base == c * (rows * cols) + h * cols
    ensures RowOf(Flatten(t, rows, cols), t, base, c, h, cols)
  {
    forall x | 0 <= x < cols
      ensures Flatten(t, rows, cols)(base + x) == t(c, h, x)
    {
      FlattenAt(t, rows, cols, c, h, x);
    }
  }

  ghost predicate FlatUpTo(flat: seq<int32>, n: int, v: Vec) {
    n <= |flat| && forall i :: 0 <= i < n ==> flat[i] == v(i)
  }

  /** The pooling loops of Conv2, which also lay the maps out flat for FC1. */
  method PoolAndFlatten(conv: array3<int32>, ghost t: Tensor, pooled: array3<int32>, flat: array<int32>)
    requires conv != pooled && conv.Length0 == pooled.Length0 && pooled.Length1 > 0 && pooled.Length2 > 0
    requires 2 * pooled.Length1 <= conv.Length1 && 2 * pooled.Length2 <= conv.Length2
    requires pooled.Length0 * (pooled.Length1 * pooled.Length2) <= flat.Length
    requires Holds3(conv, t)
    modifies pooled, flat
    ensures Holds3(pooled, MaxPool(t))
    ensures FlatUpTo(flat[..], pooled.Length0 * (pooled.Length1 * pooled.Length2),
                     Flatten(MaxPool(t), pooled.Length1, pooled.Length2))
  {
    hide MaxPool, Flatten;
    ghost var v := Flatten(MaxPool(t), pooled.Length1, pooled.Length2);
    var size := pooled.Length1 * pooled.Length2;
    for c := 0 to pooled.Length0
      invariant Holds3(conv, t) && HoldsUpTo(pooled, MaxPool(t), c, 0, 0) && FlatUpTo(flat[..], c * size, v)
    {
      MulMonotone(c + 1, pooled.Length0, size);
      Distribute(c, size);
      forall h | 0 <= h < pooled.Length1
        ensures RowOf(v, MaxPool(t), c * size + h * pooled.Length2, c, h, pooled.Length2)
      {
        FlattenRow(MaxPool(t), pooled.Length1, pooled.Length2, c, h, c * size + h * pooled.Length2);
      }
      PoolFlatChannel(conv, t, pooled, flat, v, c, c * size);
    }
  }

  method PoolFlatChannel(conv: array3<int32>, ghost t: Tensor, pooled: array3<int32>, flat: array<int32>, ghost v: Vec, c: nat, base: nat)
    requires conv != pooled && conv.Length0 == pooled.Length0 && c < pooled.Length0
    requires 2 * pooled.Length1 <= conv.Length1 && 2 * pooled.Length2 <= conv.Length2
    requires base + pooled.Length1 * pooled.Length2 <= flat.Length
    requires Holds3(conv, t) && HoldsUpTo(pooled, MaxPool(t), c, 0, 0) && FlatUpTo(flat[..], base, v)
    requires forall h | 0 <= h < pooled.Length1 :: RowOf(v, MaxPool(t), base + h * pooled.Length2, c, h, pooled.Length2)
    modifies pooled, flat
    ensures HoldsUpTo(pooled, MaxPool(t), c + 1, 0, 0)
    ensures FlatUpTo(flat[..], base + pooled.Length1 * pooled.Length2, v)
  {
    hide MaxPool;
    var next := base;
    for h := 0 to pooled.Length1
      invariant next == base + h * pooled.Length2
      invariant Holds3(conv, t) && HoldsUpTo(pooled, MaxPool(t), c, h, 0) && FlatUpTo(flat[..], next, v)
    {
      MulMonotone(h + 1, pooled.Length1, pooled.Length2);
      Distribute(h, pooled.Length2);
      PoolFlatRow(conv, t, pooled, flat, v, c, h, next);
      next := next + pooled.Length2;
    }
  }

  method PoolFlatRow(conv: array3<int32>, ghost t: Tensor, pooled: array3<int32>, flat: array<int32>, ghost v: Vec,
                     c: nat, h: nat, base: nat)
    requires conv != pooled && conv.Length0 == pooled.Length0 && c < pooled.Length0 && h < pooled.Length1
    requires 2 * pooled.Length1 <= conv.Length1 && 2 * pooled.Length2 <= conv.Length2
    requires base + pooled.Length2 <= flat.Length
    requires Holds3(conv, t) && HoldsUpTo(pooled, MaxPool(t), c, h, 0) && FlatUpTo(flat[..], base, v)
    requires RowOf(v, MaxPool(t), base, c, h, pooled.Length2)
    modifies pooled, flat
    ensures HoldsUpTo(pooled, MaxPool(t), c, h + 1, 0)
    ensures FlatUpTo(flat[..], base + pooled.Length2, v)
  {
    hide MaxPool;
    for x := 0 to pooled.Length2
      invariant Holds3(conv, t) && HoldsUpTo(pooled, MaxPool(t), c, h, x)
      invariant FlatUpTo(flat[..], base + x, v)
    {
      var maxVal := PoolPoint(conv, t, c, h, x);
      assert v(base + x) == MaxPool(t)(c, h, x);
      pooled[c, h, x] := maxVal;
      flat[base + x] := maxVal;
    }
  }

  // ----- Fully connected layers -----

  ghost predicate HoldsVec(src: seq<int32>, n: nat, x: Vec) {
    n <= |src| && forall i :: 0 <= i < n ==> src[i] == x(i)
  }

  method DotRow(src: array<int32>, ghost x: Vec, w: Matrix, row: int) returns (pSum: int32)
    requires 0 <= row < w.rows && HoldsVec(src[..], w.cols, x)
    ensures pSum == FcSum(x, w, row)
  {
    pSum := 0;
    for i := 0 to w.cols
      invariant pSum == Wrap32(Dot(x, w, row, i))
    {
      assert src[i] == x(i);
      pSum := AccumulateWrapping(pSum, src[i], w.Get(row, i), Dot(x, w, row, i));
    }
  }

  /** FC1 and FC2. */
  method FcLayer(src: array<int32>, ghost x: Vec, w: Matrix, k: nat, dst: array<int32>)
    requires src != dst && w.rows <= dst.Length && HoldsVec(src[..], w.cols, x)
    modifies dst
    ensures HoldsVec(dst[..], w.rows, FcReference(x, w, k))
  {
    for c := 0 to w.rows
      invariant HoldsVec(src[..], w.cols, x)
      invariant HoldsVec(dst[..], c, FcReference(x, w, k))
    {
      var pSum := DotRow(src, x, w, c);
      dst[c] := Requantise(pSum, k);
    }
  }

  /** FC3. */
  method FcLast(src: array<int32>, ghost x: Vec, w: Matrix, dst: array<int32>)
    requires src != dst && w.rows <= dst.Length && HoldsVec(src[..], w.cols, x)
    modifies dst
    ensures forall c | 0 <= c < w.rows :: dst[c] == FcSum(x, w, c)
  {
    for c := 0 to w.rows
      invariant HoldsVec(src[..], w.cols, x)
      invariant forall d | 0 <= d < c :: dst[d] == FcSum(x, w, d)
    {
      dst[c] := DotRow(src, x, w, c);
    }
  }
}
