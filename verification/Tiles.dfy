/**
 * When the tiled FC1 equals the row-by-row FC1. Both accumulate in 32 bits; the row-by-row form multiplies its
 * `int` sum by the multiplier in 32 bits, the tiled form its `sc_int<32>` sum in 64.
 */
module Tiles {
  import opened Arith
  import opened FullyConnected
  import opened Network
  import opened Overflow

  /** 400 products of 8-bit values, and that sum times the multiplier. */
  lemma Fc1SumBound(x: Vec, w: Matrix, row: int)
    requires w.cols == 400 && Within(x, 400, -0x80, 0x7f)
    ensures -6553600 <= Dot(x, w, row, 400) <= 6553600
    ensures FcSum(x, w, row) == Dot(x, w, row, 400)
  {
    DotRange(x, w, row, 400, -0x80, 0x7f);
    WeightMass(w, row, 400);
  }

  /** The tiled layer never loses anything to 32 bits: it stores the exact requantised dot product. */
  lemma TiledIsExact(x: Vec, w: Matrix, row: int)
    requires w.cols == 400 && Within(x, 400, -0x80, 0x7f)
    ensures FcWideTensor(x, w, K_FC1)(row) == Wrap8(Requant(Dot(x, w, row, 400), K_FC1))
  {
    Fc1SumBound(x, w, row);
  }

  /** On one input the two forms store the same exactly when the product fits, or differs by a multiple of 256. */
  lemma TiledAgreesExactly(x: Vec, w: Matrix, row: int)
    requires w.cols == 400 && Within(x, 400, -0x80, 0x7f)
    ensures var p := Dot(x, w, row, 400) * K_FC1;
            FcTensor(x, w, K_FC1)(row) == FcWideTensor(x, w, K_FC1)(row) <==> Fits32(p) || Shr16(p) % 0x100 == 0
  {
    Fc1SumBound(x, w, row);
    StoredRequantExactlyWhen(Dot(x, w, row, 400), K_FC1);
  }

  /** Before the 8-bit store, the row-by-row form is exact on all inputs exactly when the row is within limits. */
  lemma RowByRowIsExactExactly(w: Matrix, row: int)
    requires w.cols == 400
    ensures (forall x: Vec :: Within(x, 400, -0x80, 0x7f) ==> FcAct(x, w, K_FC1, row) == Requant(Dot(x, w, row, 400), K_FC1))
       <==> RowWithinLimits(w, row, K_FC1, -0x80, 0x7f)
  {
    if RowWithinLimits(w, row, K_FC1, -0x80, 0x7f) {
      forall x: Vec | Within(x, 400, -0x80, 0x7f)
        ensures FcAct(x, w, K_FC1, row) == Requant(Dot(x, w, row, 400), K_FC1)
      {
        NoOverflowIsExact(x, w, K_FC1, row, -0x80, 0x7f);
      }
    } else {
      var top, bottom := Extreme(w, row, 0x7f, -0x80), Extreme(w, row, -0x80, 0x7f);
      assert Within(top, 400, -0x80, 0x7f) && Within(bottom, 400, -0x80, 0x7f);
      ExtremeDot(w, row, 400, 0x7f, -0x80);
      ExtremeDot(w, row, 400, -0x80, 0x7f);
      Fc1SumBound(top, w, row);
      Fc1SumBound(bottom, w, row);
      Requant32ExactlyWhen(Dot(top, w, row, 400), K_FC1);
      Requant32ExactlyWhen(Dot(bottom, w, row, 400), K_FC1);
    }
  }

  /** Within the limits for a range of 8-bit inputs around zero the tiled FC1 is FC1, on every such input. */
  lemma TiledIsFc1(x: Vec, w: Matrix, row: int, lo: int, hi: int)
    requires -0x80 <= lo <= 0 <= hi <= 0x7f
    requires w.cols == 400 && Within(x, 400, lo, hi) && RowWithinLimits(w, row, K_FC1, lo, hi)
    ensures FcWideTensor(x, w, K_FC1)(row) == FcTensor(x, w, K_FC1)(row)
  {
    NoOverflowIsExact(x, w, K_FC1, row, lo, hi);
    TiledIsExact(x, w, row);
  }

  /** Beyond them it need not be: 400 activations of 127 and a row of weights 127. */
  lemma TiledCanDiffer(row: int)
    ensures var x: Vec := i => 127;
            var w := Matrix(120, 400, (r, c) => 127);
            FcTensor(x, w, K_FC1)(row) == 0 && FcWideTensor(x, w, K_FC1)(row) == -46
  {
    var x: Vec := i => 127;
    var w := Matrix(120, 400, (r, c) => 127);
    UniformMass(w, row, 400);
    DotRange(x, w, row, 400, 127, 127);
    assert Dot(x, w, row, 400) == 6451600;
  }
}
