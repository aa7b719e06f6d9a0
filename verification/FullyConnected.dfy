/**
 * The fully connected layers of hls/Lenet.cpp: the halves split over ping-pong buffers, and the PE-tiled
 * forms. Accumulators wrap at 32 bits, as the hardware's do; `Overflow.dfy` says exactly when they never do.
 */
module FullyConnected {
  import opened Arith
  import opened Convolution

  /** An activation vector. */
  type Vec = int -> int

  /** `weight[c][w]`: the weight table of one fully connected layer. */
  datatype Matrix = Matrix(rows: nat, cols: nat, at: (int, int) -> int8) {
    function Get(r: int, c: int): int8
      requires 0 <= r < rows && 0 <= c < cols
    {
      at(r, c)
    }
  }

  /** The first `n` products of row `row`, added up on unbounded integers. */
  function Dot(x: Vec, w: Matrix, row: int, n: nat): int {
    if n == 0 then 0 else Dot(x, w, row, n - 1) + x(n - 1) * w.at(row, n - 1)
  }

  /** One output of a 32-bit accumulator. */
  function FcSum(x: Vec, w: Matrix, row: int): int32 {
    Wrap32(Dot(x, w, row, w.cols))
  }

  /** One output after ReLU and requantisation. */
  function FcAct(x: Vec, w: Matrix, k: nat, row: int): nat {
    Requant32(FcSum(x, w, row), k)
  }

  /** What a layer leaves in its 8-bit buffer. */
  function FcTensor(x: Vec, w: Matrix, k: nat): Vec {
    row => Wrap8(FcAct(x, w, k, row))
  }

  /** What the reference leaves in its `int` array. */
  function FcReference(x: Vec, w: Matrix, k: nat): Vec {
    row => FcAct(x, w, k, row)
  }

  /** What the tiled form leaves there: its accumulators are `sc_int<32>`, so it requantises in 64 bits. */
  function FcWideTensor(x: Vec, w: Matrix, k: nat): Vec {
    row => Wrap8(Requant(FcSum(x, w, row), k))
  }

  lemma {:induction false} DotAgree(x: Vec, y: Vec, w: Matrix, row: int, n: nat)
    requires forall i | 0 <= i < n :: x(i) == y(i)
    ensures Dot(x, w, row, n) == Dot(y, w, row, n)
  {
    if n > 0 {
      DotAgree(x, y, w, row, n - 1);
      assert x(n - 1) == y(n - 1);
    }
  }

  /** The feature maps in the order FC1 reads them: `fc1_in[c * 25 + h * 5 + w]`. */
  function Flatten(t: Tensor, rows: nat, cols: nat): Vec
    requires rows > 0 && cols > 0
  {
    i => t(i / (rows * cols), i % (rows * cols) / cols, i % (rows * cols) % cols)
  }

  lemma DivideBack(q: nat, n: nat, r: nat)
    requires r < n
    ensures (q * n + r) / n == q && (q * n + r) % n == r
  {
    var d := (q * n + r) / n;
    assert d * n <= q * n + r < d * n + n;
    if d < q {
      MulMonotone(d + 1, q, n);
      Distribute(d, n);
    }
    if q < d {
      RowsApart(q, d, n, r);
    }
  }

  lemma FlattenAt(t: Tensor, rows: nat, cols: nat, c: nat, h: nat, x: nat)
    requires h < rows && x < cols
    ensures Flatten(t, rows, cols)(c * (rows * cols) + h * cols + x) == t(c, h, x)
  {
    RowsApart(h, rows, cols, x);
    DivideBack(c, rows * cols, h * cols + x);
    DivideBack(h, cols, x);
  }

  // ----- Layers split over two buffers -----

  /** Activations `[0, split)` sit in `lo`, the rest of the `n` in `hi`. */
  ghost predicate SplitHolds(lo: seq<int8>, hi: seq<int8>, split: nat, n: nat, x: Vec) {
    split <= |lo| && n - split <= |hi| &&
    forall i :: 0 <= i < n ==> (if i < split then lo[i] else hi[i - split]) == x(i)
  }

  /** `p_sum += data * weight` on an accumulator that has wrapped around any number of times. */
  method AccumulateWrapping(pSum: int32, data: int32, weight: int8, ghost exact: int) returns (r: int32)
    requires pSum == Wrap32(exact)
    ensures r == Wrap32(exact + data * weight)
  {
    WrapAdd(exact, data * weight);
    r := Wrap32(pSum + data * weight);
  }

  method SplitDot(lo: array<int8>, hi: array<int8>, split: nat, ghost x: Vec, w: Matrix, row: int)
    returns (pSum: int32)
    requires 0 <= row < w.rows && SplitHolds(lo[..], hi[..], split, w.cols, x)
    ensures pSum == FcSum(x, w, row)
  {
    pSum := 0;
    for i := 0 to w.cols
      invariant pSum == Wrap32(Dot(x, w, row, i))
    {
      var data;
      if i < split {
        data := lo[i];
      } else {
        data := hi[i - split];
      }
      assert data == x(i);
      pSum := AccumulateWrapping(pSum, data, w.Get(row, i), Dot(x, w, row, i));
    }
  }

  /** Rows `[c0, c1)` into `dst[c - off]`: the loops of FC1_1, FC1_2, FC2_1 and FC2_2. */
  method FcRows(lo: array<int8>, hi: array<int8>, split: nat, ghost x: Vec, w: Matrix, k: nat,
                c0: nat, c1: nat, dst: array<int8>, off: nat)
    requires dst != lo && dst != hi && off <= c0 <= c1 <= w.rows && c1 - off <= dst.Length
    requires SplitHolds(lo[..], hi[..], split, w.cols, x)
    modifies dst
    ensures forall c | c0 <= c < c1 :: dst[c - off] == FcTensor(x, w, k)(c)
    ensures forall i | 0 <= i < dst.Length && !(c0 - off <= i < c1 - off) :: dst[i] == old(dst[i])
  {
    for c := c0 to c1
      invariant SplitHolds(lo[..], hi[..], split, w.cols, x)
      invariant forall d | c0 <= d < c :: dst[d - off] == FcTensor(x, w, k)(d)
      invariant forall i | 0 <= i < dst.Length && !(c0 - off <= i < c - off) :: dst[i] == old(dst[i])
    {
      var pSum := SplitDot(lo, hi, split, x, w, c);
      dst[c - off] := Wrap8(if Shr16(Wrap32(pSum * k)) > 0 then Shr16(Wrap32(pSum * k)) else 0);
    }
  }

  /** FC3: the sums themselves, without ReLU or requantisation. */
  method FcOutputs(lo: array<int8>, hi: array<int8>, split: nat, ghost x: Vec, w: Matrix, dst: array<int32>)
    requires w.rows <= dst.Length && SplitHolds(lo[..], hi[..], split, w.cols, x)
    modifies dst
    ensures forall c | 0 <= c < w.rows :: dst[c] == FcSum(x, w, c)
  {
    for c := 0 to w.rows
      invariant SplitHolds(lo[..], hi[..], split, w.cols, x)
      invariant forall d | 0 <= d < c :: dst[d] == FcSum(x, w, d)
    {
      dst[c] := SplitDot(lo, hi, split, x, w, c);
    }
  }

  // ----- PE tiling -----

  ghost predicate VecHolds(src: seq<int8>, n: nat, x: Vec) {
    n <= |src| && forall i :: 0 <= i < n ==> src[i] == x(i)
  }

  /** `FC_ACC[0 .. PE_SIZE)` holds the sums of rows `c, c + 1, ...` over the first `n` inputs. */
  ghost predicate Lanes(acc: seq<int32>, live: nat, x: Vec, w: Matrix, c: int, n: nat) {
    live <= |acc| && forall p :: 0 <= p < live ==> acc[p] == Wrap32(Dot(x, w, c + p, n))
  }

  method ClearLanes(acc: array<int32>, ghost x: Vec, w: Matrix, ghost c: int)
    modifies acc
    ensures Lanes(acc[..], acc.Length, x, w, c, 0)
  {
    for i := 0 to acc.Length
      invariant forall p | 0 <= p < i :: acc[p] == 0
    {
      acc[i] := 0;
    }
  }

  /** One input broadcast to every PE whose row exists. */
  method BroadcastGuarded(acc: array<int32>, src: array<int8>, ghost x: Vec, w: Matrix, c: nat, i: nat)
    requires i < w.cols && VecHolds(src[..], w.cols, x)
    requires Lanes(acc[..], LiveLanes(acc.Length, w, c), x, w, c, i)
    modifies acc
    ensures Lanes(acc[..], LiveLanes(acc.Length, w, c), x, w, c, i + 1)
  {
    hide Wrap32;
    for p := 0 to acc.Length
      invariant VecHolds(src[..], w.cols, x)
      invariant forall q | 0 <= q < p && c + q < w.rows :: acc[q] == Wrap32(Dot(x, w, c + q, i + 1))
      invariant forall q | p <= q < acc.Length && c + q < w.rows :: acc[q] == Wrap32(Dot(x, w, c + q, i))
    {
      if c + p < w.rows {
        acc[p] := AccumulateWrapping(acc[p], src[i], w.Get(c + p, i), Dot(x, w, c + p, i));
      }
    }
  }

  /** The number of PEs that have a row to work on in the tile starting at row `c`. */
  function LiveLanes(lanes: nat, w: Matrix, c: nat): nat {
    if c + lanes <= w.rows then lanes else if c <= w.rows then w.rows - c else 0
  }

  /** FC3_PE: tiles of any size, guarded by the row bound in the accumulation and in the store. */
  method FcOutputsTiled(acc: array<int32>, src: array<int8>, ghost x: Vec, w: Matrix, dst: array<int32>)
    requires acc.Length >= 1 && acc != dst
    requires w.rows <= dst.Length && VecHolds(src[..], w.cols, x)
    modifies acc, dst
    ensures forall c | 0 <= c < w.rows :: dst[c] == FcSum(x, w, c)
  {
    var c := 0;
    while c < w.rows
      invariant VecHolds(src[..], w.cols, x)
      invariant forall d | 0 <= d < c && d < w.rows :: dst[d] == FcSum(x, w, d)
    {
      SumTileGuarded(acc, src, x, w, c);
      for i := 0 to acc.Length
        invariant VecHolds(src[..], w.cols, x)
        invariant Lanes(acc[..], LiveLanes(acc.Length, w, c), x, w, c, w.cols)
        invariant forall d | 0 <= d < c + i && d < w.rows :: dst[d] == FcSum(x, w, d)
      {
        if c + i < w.rows {
          dst[c + i] := acc[i];
        }
      }
      c := c + acc.Length;
    }
  }

  method SumTileGuarded(acc: array<int32>, src: array<int8>, ghost x: Vec, w: Matrix, c: nat)
    requires VecHolds(src[..], w.cols, x)
    modifies acc
    ensures Lanes(acc[..], LiveLanes(acc.Length, w, c), x, w, c, w.cols)
  {
    ClearLanes(acc, x, w, c);
    for i := 0 to w.cols
      invariant VecHolds(src[..], w.cols, x)
      invariant Lanes(acc[..], LiveLanes(acc.Length, w, c), x, w, c, i)
    {
      BroadcastGuarded(acc, src, x, w, c, i);
    }
  }

  /** The tile loop of FC1_PE, whose accumulation has no row guard. */
  method SumTile(acc: array<int32>, src: array<int8>, ghost x: Vec, w: Matrix, c: nat)
    requires c + acc.Length <= w.rows && VecHolds(src[..], w.cols, x)
    modifies acc
    ensures Lanes(acc[..], acc.Length, x, w, c, w.cols)
  {
    ClearLanes(acc, x, w, c);
    for i := 0 to w.cols
      invariant VecHolds(src[..], w.cols, x)
      invariant Lanes(acc[..], acc.Length, x, w, c, i)
    {
      Broadcast(acc, src, x, w, c, i);
    }
  }

  method Broadcast(acc: array<int32>, src: array<int8>, ghost x: Vec, w: Matrix, c: nat, i: nat)
    requires c + acc.Length <= w.rows && i < w.cols && VecHolds(src[..], w.cols, x)
    requires Lanes(acc[..], acc.Length, x, w, c, i)
    modifies acc
    ensures Lanes(acc[..], acc.Length, x, w, c, i + 1)
  {
    hide Wrap32;
    for p := 0 to acc.Length
      invariant VecHolds(src[..], w.cols, x)
      invariant forall q | 0 <= q < p :: acc[q] == Wrap32(Dot(x, w, c + q, i + 1))
      invariant forall q | p <= q < acc.Length :: acc[q] == Wrap32(Dot(x, w, c + q, i))
    {
      acc[p] := AccumulateWrapping(acc[p], src[i], w.Get(c + p, i), Dot(x, w, c + p, i));
    }
  }

  /** FC1_PE: defined when the tile size divides the number of rows (`UnguardedTilesInBounds`). */
  method FcRowsTiled(acc: array<int32>, src: array<int8>, ghost x: Vec, w: Matrix, k: nat, dst: array<int8>)
    requires acc.Length >= 1 && src != dst && w.rows % acc.Length == 0 && k <= MAX32
    requires w.rows <= dst.Length && VecHolds(src[..], w.cols, x)
    modifies acc, dst
    ensures forall c | 0 <= c < w.rows :: dst[c] == FcWideTensor(x, w, k)(c)
    ensures forall i | w.rows <= i < dst.Length :: dst[i] == old(dst[i])
  {
    var c := 0;
    ghost var t, n := 0, w.rows / acc.Length;
    while c < w.rows
      invariant 0 <= c == t * acc.Length <= w.rows == n * acc.Length
      invariant VecHolds(src[..], w.cols, x)
      invariant forall d | 0 <= d < c :: dst[d] == FcWideTensor(x, w, k)(d)
      invariant forall i | w.rows <= i < dst.Length :: dst[i] == old(dst[i])
    {
      TileFits(t, n, acc.Length);
      SumTile(acc, src, x, w, c);
      StoreTile(acc, x, w, k, c, dst);
      c, t := c + acc.Length, t + 1;
    }
  }

  /** The requantising store of one finished tile: `FC_ACC[i] * k` is a 64-bit product. */
  method StoreTile(acc: array<int32>, ghost x: Vec, w: Matrix, k: nat, c: nat, dst: array<int8>)
    requires c + acc.Length <= w.rows <= dst.Length && k <= MAX32
    requires Lanes(acc[..], acc.Length, x, w, c, w.cols)
    modifies dst
    ensures forall d | c <= d < c + acc.Length :: dst[d] == FcWideTensor(x, w, k)(d)
    ensures forall i | 0 <= i < dst.Length && !(c <= i < c + acc.Length) :: dst[i] == old(dst[i])
  {
    for i := 0 to acc.Length
      invariant Lanes(acc[..], acc.Length, x, w, c, w.cols)
      invariant forall d | c <= d < c + i :: dst[d] == FcWideTensor(x, w, k)(d)
      invariant forall j | 0 <= j < dst.Length && !(c <= j < c + i) :: dst[j] == old(dst[j])
    {
      if c + i < w.rows {
        assert acc[..][i] == FcSum(x, w, c + i);
        WideProductFits(acc[i], k);
        var product: int64 := acc[i] * k;
        dst[c + i] := Wrap8(if Shr16(product) > 0 then Shr16(product) else 0);
      }
    }
  }

  lemma TileFits(t: nat, n: nat, pe: nat)
    requires t * pe < n * pe
    ensures (t + 1) * pe == t * pe + pe <= n * pe
  {
    assert t < n by {
      if n <= t {
        MulMonotone(n, t, pe);
      }
    }
    assert n * pe == (t + 1) * pe + (n - t - 1) * pe;
    assert (n - t - 1) * pe >= 0;
  }

  /** Lane `p` of tile `t` reads a row of the table. */
  predicate ReadsTable(t: int, p: int, pe: int, rows: int) {
    t * pe + p < rows
  }

  /**
   * The unguarded weight read of FC1_PE stays inside the table, for every lane of every tile, exactly when
   * the tile size divides the number of rows.
   */
  lemma UnguardedTilesInBounds(pe: nat, rows: nat)
    requires pe >= 1
    ensures (forall t, p :: 0 <= t && t * pe < rows && 0 <= p < pe ==> ReadsTable(t, p, pe, rows)) <==> rows % pe == 0
  {
    var n := rows / pe;
    assert rows == n * pe + rows % pe;
    if rows % pe == 0 {
      forall t, p | 0 <= t && t * pe < rows && 0 <= p < pe
        ensures ReadsTable(t, p, pe, rows)
      {
        TileFits(t, n, pe);
      }
    } else {
      assert !ReadsTable(n, pe - 1, pe, rows);
    }
  }
}
