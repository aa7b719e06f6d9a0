/**
 * The network on unbounded integers, and when both accelerators compute it without any 32-bit sum or product
 * overflowing.
 */
module ExactNetwork {
  import opened Arith
  import opened Convolution
  import opened FullyConnected
  import opened Network
  import opened Overflow

  function ExactFc(x: Vec, w: Matrix, k: nat): Vec {
    row => Requant(Dot(x, w, row, w.cols), k)
  }

  function ExactIn2(p: Pixels, w: Weights): Vec {
    ExactFc(RefIn1(p, w), w.fc1, K_FC1)
  }

  function ExactIn3(p: Pixels, w: Weights): Vec {
    ExactFc(ExactIn2(p, w), w.fc2, K_FC2)
  }

  /** No machine width anywhere: the convolution maps of the reference are unbounded already. */
  function ExactOut(p: Pixels, w: Weights): (r: seq<int>)
    ensures |r| == 10
  {
    seq(10, c => Dot(ExactIn3(p, w), w.fc3, c, w.fc3.cols))
  }

  /** Every prefix of a row's sum, and its product with the multiplier, fits 32 bits. */
  ghost predicate RowFits(x: Vec, w: Matrix, k: nat, row: int) {
    forall n: nat :: n <= w.cols ==> Fits32(Dot(x, w, row, n)) && Fits32(Dot(x, w, row, n) * k)
  }

  ghost predicate LayerFits(x: Vec, w: Matrix, k: nat) {
    forall row :: 0 <= row < w.rows ==> RowFits(x, w, k, row)
  }

  /** Checked on the weights of FC1 alone, for activations between 0 and 127. */
  predicate Fc1WithinLimits(w: Weights) {
    forall row :: 0 <= row < 120 ==> RowWithinLimits(w.fc1, row, K_FC1, 0, 0x7f)
  }

  /** A layer whose rows are within limits fits, and both programs' versions of it are exact. */
  lemma LayerIsExact(x: Vec, w: Matrix, k: nat)
    requires 1 <= k && Within(x, w.cols, 0, 0x7f)
    requires forall row :: 0 <= row < w.rows ==> RowWithinLimits(w, row, k, 0, 0x7f)
    ensures LayerFits(x, w, k)
    ensures VecAgree(FcReference(x, w, k), ExactFc(x, w, k), w.rows)
    ensures forall row :: 0 <= row < w.rows ==> FcSum(x, w, row) == Dot(x, w, row, w.cols)
  {
    forall row | 0 <= row < w.rows
      ensures FcSum(x, w, row) == Dot(x, w, row, w.cols) && FcAct(x, w, k, row) == Requant(Dot(x, w, row, w.cols), k)
      ensures RowFits(x, w, k, row)
    {
      OverflowCondition(w, row, k, 0, 0x7f);
      NoOverflowIsExact(x, w, k, row, 0, 0x7f);
    }
  }

  /** FC2 and FC3 are always within limits. */
  lemma SmallLayersWithinLimits(w: Weights, row: int)
    requires w.Shaped()
    ensures RowWithinLimits(w.fc2, row, K_FC2, 0, 0x7f) && RowWithinLimits(w.fc3, row, 1, 0, 0x7f)
  {
    Fc2AndFc3NeverOverflow(w.fc2, row);
    Fc2AndFc3NeverOverflow(w.fc3, row);
    Narrower(w.fc2, row, K_FC2);
    Narrower(w.fc3, row, 1);
  }

  /** A row that never overflows on all 8-bit inputs never does on the non-negative ones. */
  lemma Narrower(w: Matrix, row: int, k: nat)
    requires 1 <= k && RowNeverOverflows(w, row, k, -0x80, 0x7f)
    ensures RowWithinLimits(w, row, k, 0, 0x7f)
  {
    assert RowNeverOverflows(w, row, k, 0, 0x7f) by {
      forall x: Vec, n: nat | Within(x, w.cols, 0, 0x7f) && n <= w.cols
        ensures Fits32(Dot(x, w, row, n)) && Fits32(Dot(x, w, row, n) * k)
      {
        assert Within(x, w.cols, -0x80, 0x7f);
      }
    }
    OverflowCondition(w, row, k, 0, 0x7f);
  }

  lemma ActivationsWithin(p: Pixels, w: Weights)
    requires w.Shaped() && ActivationsFit(p, w)
    ensures Within(RefIn1(p, w), 400, 0, 0x7f) && Within(RefIn2(p, w), 120, 0, 0x7f) && Within(RefIn3(p, w), 84, 0, 0x7f)
  {
    forall i | 0 <= i < 400
      ensures 0 <= RefIn1(p, w)(i) <= 0x7f
    {
      var c, y, x := i / 25, i % 25 / 5, i % 25 % 5;
      FusedIsPooled(RefMap1(p, w), w.conv2, K_CONV2, c, y, x);
      assert RefMap2(p, w)(c, y, x) <= 127;
    }
  }

  lemma AgreeingLayerFits(x: Vec, y: Vec, w: Matrix, k: nat)
    requires VecAgree(x, y, w.cols) && LayerFits(y, w, k)
    ensures LayerFits(x, w, k)
  {
    forall row | 0 <= row < w.rows
      ensures RowFits(x, w, k, row)
    {
      forall n: nat | n <= w.cols
        ensures Fits32(Dot(x, w, row, n)) && Fits32(Dot(x, w, row, n) * k)
      {
        DotAgree(x, y, w, row, n);
        assert RowFits(y, w, k, row);
      }
    }
  }

  /** When activations fit eight bits, the reference's fully connected layers are the exact ones. */
  lemma ReferenceIsExact(p: Pixels, w: Weights)
    requires w.Shaped() && ActivationsFit(p, w) && Fc1WithinLimits(w)
    ensures LayerFits(RefIn1(p, w), w.fc1, K_FC1) && LayerFits(RefIn2(p, w), w.fc2, K_FC2) && LayerFits(RefIn3(p, w), w.fc3, 1)
    ensures RefOut(p, w) == ExactOut(p, w)
  {
    hide RefIn1, ActivationsFit, FcReference, LayerFits, Within, RowWithinLimits;
    forall row | 0 <= row < 120
      ensures RowWithinLimits(w.fc2, row, K_FC2, 0, 0x7f) && RowWithinLimits(w.fc3, row, 1, 0, 0x7f)
    {
      SmallLayersWithinLimits(w, row);
    }
    ActivationsWithin(p, w);
    LayerIsExact(RefIn1(p, w), w.fc1, K_FC1);
    LayerIsExact(RefIn2(p, w), w.fc2, K_FC2);
    LayerIsExact(RefIn3(p, w), w.fc3, 1);
    ExactFcAgree(RefIn2(p, w), ExactIn2(p, w), w.fc2, K_FC2);
    forall c | 0 <= c < 10
      ensures RefOut(p, w)[c] == ExactOut(p, w)[c]
    {
      DotAgree(RefIn3(p, w), ExactIn3(p, w), w.fc3, c, 84);
    }
  }

  lemma ExactFcAgree(x: Vec, y: Vec, w: Matrix, k: nat)
    requires VecAgree(x, y, w.cols)
    ensures VecAgree(ExactFc(x, w, k), ExactFc(y, w, k), w.rows)
  {
    forall row | 0 <= row < w.rows
      ensures ExactFc(x, w, k)(row) == ExactFc(y, w, k)(row)
    {
      DotAgree(x, y, w, row, w.cols);
    }
  }

  /**
   * With activations that fit eight bits and FC1 rows within limits, no prefix of any sum and no product
   * overflows 32 bits in either accelerator, and both compute the network of the unbounded integers.
   */
  lemma BothAreExact(p: Pixels, w: Weights)
    requires w.Shaped() && ActivationsFit(p, w) && Fc1WithinLimits(w)
    ensures SumsExact(Image(p), w.conv1, K_CONV1)
    ensures SumsExact(RefMap1(p, w), w.conv2, K_CONV2) && SumsExact(HlsMap1(p, w), w.conv2, K_CONV2)
    ensures LayerFits(RefIn1(p, w), w.fc1, K_FC1) && LayerFits(HlsIn1(p, w), w.fc1, K_FC1)
    ensures LayerFits(RefIn2(p, w), w.fc2, K_FC2) && LayerFits(HlsIn2(p, w), w.fc2, K_FC2)
    ensures LayerFits(RefIn3(p, w), w.fc3, 1) && LayerFits(HlsIn3(p, w), w.fc3, 1)
    ensures HlsOut(p, w) == RefOut(p, w) == ExactOut(p, w)
  {
    hide LayerFits, SumsExact, ActivationsFit, Fc1WithinLimits, RefOut, HlsOut, ExactOut, HlsIn2, HlsIn3, RefIn2, RefIn3;
    Conv1Exact(p, w);
    RefConv2Exact(p, w);
    StoredBounded(Image(p), w.conv1, K_CONV1);
    Conv2Exact(HlsMap1(p, w), w);
    ReferenceIsExact(p, w);
    EndToEnd(p, w);
    BuffersAgreeExactly(p, w);
    FlattenAgree(HlsMap2(p, w), RefMap2(p, w));
    AgreeingLayerFits(HlsIn1(p, w), RefIn1(p, w), w.fc1, K_FC1);
    AgreeingLayerFits(HlsIn2(p, w), RefIn2(p, w), w.fc2, K_FC2);
    AgreeingLayerFits(HlsIn3(p, w), RefIn3(p, w), w.fc3, 1);
  }

  /** The results with the source's own numbers: which inputs meet which weights, and what each layer divides by. */
  lemma ResultsWrittenOut(p: Pixels, w: Weights, c: nat, row2: nat, row3: nat)
    requires w.Shaped() && ActivationsFit(p, w) && Fc1WithinLimits(w) && c < 10 && row2 < 120 && row3 < 84
    ensures RefOut(p, w)[c] == HlsOut(p, w)[c] == Dot(RefIn3(p, w), w.fc3, c, 84)
    ensures RefIn3(p, w)(row3) == HlsIn3(p, w)(row3) == Max(0, Dot(RefIn2(p, w), w.fc2, row3, 120) * 318 / 0x1_0000)
    ensures RefIn2(p, w)(row2) == HlsIn2(p, w)(row2) == Max(0, Dot(RefIn1(p, w), w.fc1, row2, 400) * 335 / 0x1_0000)
  {
    hide RefIn1, ActivationsFit, LayerFits, Within, RowWithinLimits;
    forall row | 0 <= row < 120
      ensures RowWithinLimits(w.fc2, row, K_FC2, 0, 0x7f) && RowWithinLimits(w.fc3, row, 1, 0, 0x7f)
    {
      SmallLayersWithinLimits(w, row);
    }
    ActivationsWithin(p, w);
    LayerIsExact(RefIn1(p, w), w.fc1, K_FC1);
    LayerIsExact(RefIn2(p, w), w.fc2, K_FC2);
    LayerIsExact(RefIn3(p, w), w.fc3, 1);
    BuffersAgreeExactly(p, w);
    EndToEnd(p, w);
  }

  /** The maps with the source's own numbers, at every position: no condition for the reference. */
  lemma MapsWrittenOut(p: Pixels, w: Weights, m: int, h: int, x: int)
    requires 0 <= h < 14 && 0 <= x < 14
    ensures RefMap1(p, w)(m, h, x) == PooledTensor((c, i, j) => if 0 <= i < 32 && 0 <= j < 32 then p[i * 32 + j] else 0, w.conv1, 130)(m, h, x)
    ensures RefMap2(p, w)(m, h, x) == PooledTensor(RefMap1(p, w), w.conv2, 89)(m, h, x)
  {
    assert Image(p) == ((c, i, j) => if 0 <= i < 32 && 0 <= j < 32 then p[i * 32 + j] else 0);
  }
}
