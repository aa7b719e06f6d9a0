/**
 * The whole network as functions of the image and the weights: what the reference accelerator computes, and
 * what the hardware computes with every activation stored in eight bits.
 */
module Network {
  import opened Arith
  import opened Convolution
  import opened FullyConnected

  /** `filter_def.h` / `lenet_weight.h`. */
  datatype Weights = Weights(conv1: Kernels, conv2: Kernels, fc1: Matrix, fc2: Matrix, fc3: Matrix) {
    predicate Shaped() {
      && conv1.outC == 6 && conv1.inC == 1 && conv1.size == 5
      && conv2.outC == 16 && conv2.inC == 6 && conv2.size == 5
      && fc1.rows == 120 && fc1.cols == 400
      && fc2.rows == 84 && fc2.cols == 120
      && fc3.rows == 10 && fc3.cols == 84
    }
  }

  const K_CONV1 := 130
  const K_CONV2 := 89
  const K_FC1 := 335
  const K_FC2 := 318

  type Pixels = s: seq<int8> | |s| == 1024 witness seq(1024, i => 0)

  /** `input_img[h * 32 + w]` */
  function Image(p: Pixels): Tensor {
    (c, y, x) => if 0 <= y < 32 && 0 <= x < 32 then p[y * 32 + x] else 0
  }

  // ----- The reference -----

  function RefMap1(p: Pixels, w: Weights): Tensor {
    PooledTensor(Image(p), w.conv1, K_CONV1)
  }

  function RefMap2(p: Pixels, w: Weights): Tensor {
    PooledTensor(RefMap1(p, w), w.conv2, K_CONV2)
  }

  function RefIn1(p: Pixels, w: Weights): Vec {
    Flatten(RefMap2(p, w), 5, 5)
  }

  function RefIn2(p: Pixels, w: Weights): Vec {
    FcReference(RefIn1(p, w), w.fc1, K_FC1)
  }

  function RefIn3(p: Pixels, w: Weights): Vec {
    FcReference(RefIn2(p, w), w.fc2, K_FC2)
  }

  function RefOut(p: Pixels, w: Weights): (r: seq<int32>)
    ensures |r| == 10
  {
    seq(10, c => FcSum(RefIn3(p, w), w.fc3, c))
  }

  // ----- The hardware -----

  function HlsMap1(p: Pixels, w: Weights): Tensor {
    FusedTensor(Image(p), w.conv1, K_CONV1)
  }

  function HlsMap2(p: Pixels, w: Weights): Tensor {
    FusedTensor(HlsMap1(p, w), w.conv2, K_CONV2)
  }

  function HlsIn1(p: Pixels, w: Weights): Vec {
    Flatten(HlsMap2(p, w), 5, 5)
  }

  function HlsIn2(p: Pixels, w: Weights): Vec {
    FcTensor(HlsIn1(p, w), w.fc1, K_FC1)
  }

  function HlsIn3(p: Pixels, w: Weights): Vec {
    FcTensor(HlsIn2(p, w), w.fc2, K_FC2)
  }

  function HlsOut(p: Pixels, w: Weights): (r: seq<int32>)
    ensures |r| == 10
  {
    seq(10, c => FcSum(HlsIn3(p, w), w.fc3, c))
  }

  // ----- No convolution overflows, in either -----

  lemma ImageBounded(p: Pixels)
    ensures Bounded(Image(p), 128)
  {
  }

  lemma StoredBounded(img: Tensor, w: Kernels, k: nat)
    ensures Bounded(FusedTensor(img, w, k), 128)
  {
  }

  lemma RefMap1Bounded(p: Pixels, w: Weights)
    requires w.Shaped()
    ensures Bounded(RefMap1(p, w), 813)
  {
    forall m, h, x
      ensures 0 - 813 <= RefMap1(p, w)(m, h, x) <= 813
    {
      ImageBounded(p);
      PooledBound(Image(p), w.conv1, K_CONV1, 128, 813, m, h, x);
      FusedIsPooled(Image(p), w.conv1, K_CONV1, m, h, x);
    }
  }

  lemma Conv1Exact(p: Pixels, w: Weights)
    requires w.Shaped()
    ensures SumsExact(Image(p), w.conv1, K_CONV1)
  {
    ImageBounded(p);
    NoOverflow(Image(p), w.conv1, 128, K_CONV1);
  }

  /** On any 8-bit source. */
  lemma Conv2Exact(t: Tensor, w: Weights)
    requires w.Shaped() && Bounded(t, 128)
    ensures SumsExact(t, w.conv2, K_CONV2)
  {
    NoOverflow(t, w.conv2, 128, K_CONV2);
  }

  /** The reference does not wrap its activations, and still Conv2 cannot overflow. */
  lemma RefConv2Exact(p: Pixels, w: Weights)
    requires w.Shaped()
    ensures SumsExact(RefMap1(p, w), w.conv2, K_CONV2)
  {
    RefMap1Bounded(p, w);
    NoOverflow(RefMap1(p, w), w.conv2, 813, K_CONV2);
  }

  // ----- End to end -----

  ghost predicate MapFits(t: Tensor, channels: nat, rows: nat, cols: nat) {
    forall c, y, x :: 0 <= c < channels && 0 <= y < rows && 0 <= x < cols ==> t(c, y, x) <= 127
  }

  ghost predicate VecFits(v: Vec, n: nat) {
    forall i :: 0 <= i < n ==> v(i) <= 127
  }

  /** Every activation that the hardware has to store in eight bits is at most 127 in the reference. */
  ghost predicate ActivationsFit(p: Pixels, w: Weights) {
    && MapFits(RefMap1(p, w), 6, 14, 14)
    && MapFits(RefMap2(p, w), 16, 5, 5)
    && VecFits(RefIn2(p, w), 120)
    && VecFits(RefIn3(p, w), 84)
  }

  ghost predicate VecAgree(a: Vec, b: Vec, n: nat) {
    forall i :: 0 <= i < n ==> a(i) == b(i)
  }

  /** Every buffer the hardware fills equals the reference's array. */
  ghost predicate BuffersAgree(p: Pixels, w: Weights) {
    && AgreeOn(HlsMap1(p, w), RefMap1(p, w), 6, 14, 14)
    && AgreeOn(HlsMap2(p, w), RefMap2(p, w), 16, 5, 5)
    && VecAgree(HlsIn2(p, w), RefIn2(p, w), 120)
    && VecAgree(HlsIn3(p, w), RefIn3(p, w), 84)
  }

  lemma StoredMap(a: Tensor, b: Tensor, w: Kernels, k: nat, rows: nat, cols: nat)
    requires AgreeOn(a, b, w.inC, 2 * rows + w.size - 1, 2 * cols + w.size - 1)
    ensures AgreeOn(FusedTensor(a, w, k), PooledTensor(b, w, k), w.outC, rows, cols)
       <==> MapFits(PooledTensor(b, w, k), w.outC, rows, cols)
  {
    forall m, h, x | 0 <= m < w.outC && 0 <= h < rows && 0 <= x < cols
      ensures FusedTensor(a, w, k)(m, h, x) == PooledTensor(b, w, k)(m, h, x) <==> PooledTensor(b, w, k)(m, h, x) <= 127
    {
      FusedAgree(a, b, w, k, m, h, x, 2 * rows + w.size - 1, 2 * cols + w.size - 1);
      FusedIsPooled(b, w, k, m, h, x);
    }
  }

  lemma StoredVec(a: Vec, b: Vec, w: Matrix, k: nat)
    requires VecAgree(a, b, w.cols)
    ensures VecAgree(FcTensor(a, w, k), FcReference(b, w, k), w.rows) <==> VecFits(FcReference(b, w, k), w.rows)
  {
    forall c | 0 <= c < w.rows
      ensures FcTensor(a, w, k)(c) == FcReference(b, w, k)(c) <==> FcReference(b, w, k)(c) <= 127
    {
      DotAgree(a, b, w, c, w.cols);
    }
  }

  lemma FlattenAgree(a: Tensor, b: Tensor)
    requires AgreeOn(a, b, 16, 5, 5)
    ensures VecAgree(Flatten(a, 5, 5), Flatten(b, 5, 5), 400)
  {
    forall i | 0 <= i < 400
      ensures Flatten(a, 5, 5)(i) == Flatten(b, 5, 5)(i)
    {
      assert a(i / 25, i % 25 / 5, i % 25 % 5) == b(i / 25, i % 25 / 5, i % 25 % 5);
    }
  }

  /**
   * The hardware's buffers hold the reference's activations exactly when those fit eight bits: for every
   * image and all weights, with no condition on overflow.
   */
  lemma BuffersAgreeExactly(p: Pixels, w: Weights)
    requires w.Shaped()
    ensures BuffersAgree(p, w) <==> ActivationsFit(p, w)
  {
    StoredMap(Image(p), Image(p), w.conv1, K_CONV1, 14, 14);
    if AgreeOn(HlsMap1(p, w), RefMap1(p, w), 6, 14, 14) {
      StoredMap(HlsMap1(p, w), RefMap1(p, w), w.conv2, K_CONV2, 5, 5);
      if AgreeOn(HlsMap2(p, w), RefMap2(p, w), 16, 5, 5) {
        FlattenAgree(HlsMap2(p, w), RefMap2(p, w));
        StoredVec(HlsIn1(p, w), RefIn1(p, w), w.fc1, K_FC1);
        if VecAgree(HlsIn2(p, w), RefIn2(p, w), 120) {
          StoredVec(HlsIn2(p, w), RefIn2(p, w), w.fc2, K_FC2);
        }
      }
    }
  }

  /** End to end: the hardware's ten results are the reference's. */
  lemma EndToEnd(p: Pixels, w: Weights)
    requires w.Shaped() && ActivationsFit(p, w)
    ensures HlsOut(p, w) == RefOut(p, w)
  {
    BuffersAgreeExactly(p, w);
    forall c | 0 <= c < 10
      ensures HlsOut(p, w)[c] == RefOut(p, w)[c]
    {
      DotAgree(HlsIn3(p, w), RefIn3(p, w), w.fc3, c, 84);
    }
  }
}
