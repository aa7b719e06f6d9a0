/** The hardware module of hls/Lenet.h and hls/Lenet.cpp, at its own dimensions and multipliers. */
module HlsLenet {
  import opened Arith
  import opened Convolution
  import opened FullyConnected
  import opened FusedConv
  import opened Network
  import LineBuffer
  import SlidingWindow
  import RowSplit

  /** `sc_uint<32>` */
  type uint32 = x: int | 0 <= x < 0x1_0000_0000

  // ----- Pixel words -----

  const SHIFT: seq<nat> := [1, 0x100, 0x1_0000, 0x100_0000]

  /** `img.range(8j + 7, 8j)` read into an `sc_int<8>` */
  function Byte(word: uint32, j: nat): int8
    requires j < 4
  {
    Wrap8(word / SHIFT[j] % 0x100)
  }

  /** The pixels that 256 words carry. */
  function Unpack(words: seq<uint32>): Pixels
    requires |words| == 256
  {
    seq(1024, i requires 0 <= i < 1024 => Byte(words[i / 4], i % 4))
  }

  /** The byte that the testbench puts into a word for a pixel. */
  function Octet(v: int8): nat {
    if v < 0 then v + 0x100 else v
  }

  function PackWord(a: int8, b: int8, c: int8, d: int8): uint32 {
    Octet(a) + Octet(b) * 0x100 + Octet(c) * 0x1_0000 + Octet(d) * 0x100_0000
  }

  /** The words that the testbench sends for an image. */
  function Pack(p: Pixels): (words: seq<uint32>)
    ensures |words| == 256
  {
    seq(256, i requires 0 <= i < 256 => PackWord(p[4 * i], p[4 * i + 1], p[4 * i + 2], p[4 * i + 3]))
  }

  lemma OctetBack(v: int8)
    ensures Wrap8(Octet(v)) == v && 0 <= Octet(v) < 0x100
  {
  }

  lemma BytesOfWord(a: int8, b: int8, c: int8, d: int8)
    ensures var w := PackWord(a, b, c, d);
      Byte(w, 0) == a && Byte(w, 1) == b && Byte(w, 2) == c && Byte(w, 3) == d
  {
    hide Wrap8;
    var w := PackWord(a, b, c, d);
    OctetBack(a);
    OctetBack(b);
    OctetBack(c);
    OctetBack(d);
    assert w / 0x100 == Octet(b) + Octet(c) * 0x100 + Octet(d) * 0x1_0000;
    assert w / 0x1_0000 == Octet(c) + Octet(d) * 0x100;
    assert w / 0x100_0000 == Octet(d);
  }

  /** Every image survives the packed stream. */
  lemma UnpackPack(p: Pixels)
    ensures Unpack(Pack(p)) == p
  {
    forall i | 0 <= i < 1024
      ensures Unpack(Pack(p))[i] == p[i]
    {
      var n := i / 4;
      BytesOfWord(p[4 * n], p[4 * n + 1], p[4 * n + 2], p[4 * n + 3]);
      assert i == 4 * n + i % 4;
    }
  }

  /** Pixel `4i + j` is byte `j` of word `i`, the lowest byte first. */
  lemma UnpackedBytes(words: seq<uint32>, i: nat)
    requires |words| == 256 && i < 256
    ensures (words[i] - Unpack(words)[4 * i]) % 0x100 == 0
    ensures (words[i] / 0x100 - Unpack(words)[4 * i + 1]) % 0x100 == 0
    ensures (words[i] / 0x1_0000 - Unpack(words)[4 * i + 2]) % 0x100 == 0
    ensures (words[i] / 0x100_0000 - Unpack(words)[4 * i + 3]) % 0x100 == 0
  {
    hide Wrap8;
    LowByte(words[i]);
    LowByte(words[i] / 0x100);
    LowByte(words[i] / 0x1_0000);
    LowByte(words[i] / 0x100_0000);
    assert (4 * i) / 4 == i && (4 * i + 1) / 4 == i && (4 * i + 2) / 4 == i && (4 * i + 3) / 4 == i;
  }

  lemma LowByte(v: int)
    ensures (v - Wrap8(v % 0x100)) % 0x100 == 0
  {
  }

  // ----- Buffer layouts -----

  const IMAGE := Layout(0, 1024, 32)
  /** `m*14*14 + h*14 + w` */
  const MAP1 := Layout(0, 196, 14)
  /** `m*25 + h*5 + w` */
  const MAP2 := Layout(0, 25, 5)
  /** `m*25 + h*5 + w - 200` */
  const MAP2_HIGH := Layout(-200, 25, 5)

  ghost predicate ImageIn(cells: seq<int8>, p: Pixels) {
    Holds(cells, IMAGE, Image(p), Box(0, 1, 0, 32, 32))
  }

  ghost predicate Map1In(cells: seq<int8>, p: Pixels, w: Weights) {
    Holds(cells, MAP1, HlsMap1(p, w), Box(0, 6, 0, 14, 14))
  }

  /** The second layer's maps, eight channels in each of two buffers. */
  ghost predicate Map2In(lo: seq<int8>, hi: seq<int8>, p: Pixels, w: Weights) {
    && Holds(lo, MAP2, HlsMap2(p, w), Box(0, 8, 0, 5, 5))
    && Holds(hi, MAP2_HIGH, HlsMap2(p, w), Box(8, 16, 0, 5, 5))
  }

  /** Read as FC1 reads them, the two buffers are the flattened maps. */
  lemma FlatIn(lo: seq<int8>, hi: seq<int8>, p: Pixels, w: Weights)
    requires Map2In(lo, hi, p, w)
    ensures SplitHolds(lo, hi, 200, 400, HlsIn1(p, w))
  {
    hide HlsMap2;
    assert MAP2.At(7, 4, 4) == 199 && MAP2_HIGH.At(15, 4, 4) == 199;
    forall i | 0 <= i < 400
      ensures |lo| >= 200 && |hi| >= 200 && (if i < 200 then lo[i] else hi[i - 200]) == HlsIn1(p, w)(i)
    {
      var c, h, x := i / 25, i % 25 / 5, i % 25 % 5;
      assert MAP2.At(c, h, x) == i && MAP2_HIGH.At(c, h, x) == i - 200;
    }
  }

  /**
   * The 400 outputs that the line-buffer and window forms leave in one buffer are the two halves that
   * Fused_Conv2 leaves in two, one after the other.
   */
  lemma WholeIsHalves(whole: seq<int8>, lo: seq<int8>, hi: seq<int8>, t: Tensor)
    requires Holds(whole, MAP2, t, Box(0, 16, 0, 5, 5))
    requires Holds(lo, MAP2, t, Box(0, 8, 0, 5, 5)) && Holds(hi, MAP2_HIGH, t, Box(8, 16, 0, 5, 5))
    ensures |whole| >= 400 && |lo| >= 200 && |hi| >= 200 && whole[..400] == lo[..200] + hi[..200]
  {
    assert MAP2.At(15, 4, 4) == 399 && MAP2.At(7, 4, 4) == 199 && MAP2_HIGH.At(15, 4, 4) == 199;
    forall i | 0 <= i < 400
      ensures |whole| >= 400 && whole[i] == if i < 200 then lo[i] else hi[i - 200]
    {
      var c, h, x := i / 25, i % 25 / 5, i % 25 % 5;
      assert MAP2.At(c, h, x) == i && MAP2_HIGH.At(c, h, x) == i - 200;
    }
  }

  const TOP := Layout(0, 140, 14)
  const BOTTOM := Layout(0, 112, 14)

  /** The index expressions of the source. */
  lemma Indices(p: Pixels, m: int, h: int, x: int)
    ensures MAP1.At(m, h, x) == m * 14 * 14 + h * 14 + x
    ensures TOP.At(m, h, x) == m * 10 * 14 + h * 14 + x && BOTTOM.At(m, h, x) == m * 8 * 14 + h * 14 + x
    ensures MAP2.At(m, h, x) == m * 25 + h * 5 + x && MAP2_HIGH.At(m, h, x) == m * 25 + h * 5 + x - 200
    ensures 0 <= h < 32 && 0 <= x < 32 ==> IMAGE.At(0, h, x) == h * 32 + x && Image(p)(0, h, x) == p[h * 32 + x]
  {
  }

  /** The layouts of the two halves are those of a split at row 3 of the second layer. */
  lemma SplitAtThree(w: Weights)
    requires w.Shaped()
    ensures var s := RowSplit.Stack(w.conv1, K_CONV1, w.conv2, K_CONV2, 5, 5);
      && s.TopLayout(3) == TOP && s.BottomLayout(3) == BOTTOM && s.TopRows(3) == 10 && s.Rows() == s.Cols() == 14
  {
  }

  /** Every layer's output has room in its buffer, without overlaps. */
  lemma LayoutsFit()
    ensures Fitting(MAP1, 0, 6, 0, 14, 1176)
    ensures Fitting(TOP, 0, 6, 0, 10, 1176) && Fitting(BOTTOM, 0, 6, 6, 14, 1176)
    ensures Fitting(MAP2, 0, 8, 0, 5, 1176) && Fitting(MAP2_HIGH, 8, 16, 0, 5, 1176)
    ensures Fitting(MAP2, 0, 8, 0, 3, 1176) && Fitting(MAP2_HIGH, 8, 16, 0, 3, 1176)
    ensures Fitting(MAP2, 0, 8, 3, 5, 1176) && Fitting(MAP2_HIGH, 8, 16, 3, 5, 1176)
    ensures Fitting(MAP2, 0, 16, 0, 5, 1176)
  {
  }

  class Lenet {
    const w: Weights
    const inputImg: array<int8>
    const buffer1: array<int8>
    const buffer2: array<int8>
    const buffer3: array<int8>
    const buffer4: array<int8>
    const lineBuffer: array3<int8>
    const lineBuffer2: array3<int8>
    const bufferConvAct: array3<int8>
    const bufferConvWeight: array3<int8>
    const fcAcc: array<int32>
    const fc3Out: array<int32>

    constructor (weights: Weights, peSize: nat)
      requires weights.Shaped() && peSize >= 1
      ensures Valid() && w == weights && fcAcc.Length == peSize
      ensures fresh(inputImg) && fresh(buffer1) && fresh(buffer2) && fresh(buffer3) && fresh(buffer4)
      ensures fresh(lineBuffer) && fresh(lineBuffer2) && fresh(bufferConvAct) && fresh(bufferConvWeight)
      ensures fresh(fcAcc) && fresh(fc3Out)
    {
      w := weights;
      inputImg := new int8[1024];
      buffer1, buffer2, buffer3, buffer4 := new int8[1176], new int8[1176], new int8[1176], new int8[1176];
      lineBuffer := new int8[1, 6, 32];
      lineBuffer2 := new int8[6, 6, 14];
      bufferConvAct := new int8[6, 6, 6];
      bufferConvWeight := new int8[6, 5, 5];
      fcAcc := new int32[peSize];
      fc3Out := new int32[10];
    }

    /** The array sizes of the header; the arrays are distinct. */
    ghost predicate Valid() {
      && w.Shaped()
      && inputImg.Length == 1024 && fc3Out.Length == 10
      && buffer1.Length == buffer2.Length == buffer3.Length == buffer4.Length == 1176
      && inputImg != buffer1 && inputImg != buffer2 && inputImg != buffer3 && inputImg != buffer4
      && buffer1 != buffer2 && buffer1 != buffer3 && buffer1 != buffer4
      && buffer2 != buffer3 && buffer2 != buffer4 && buffer3 != buffer4
      && fcAcc.Length >= 1 && fcAcc != fc3Out
      && lineBuffer.Length0 == 1 && lineBuffer.Length1 == 6 && lineBuffer.Length2 == 32
      && lineBuffer2.Length0 == 6 && lineBuffer2.Length1 == 6 && lineBuffer2.Length2 == 14
      && bufferConvAct.Length0 == bufferConvAct.Length1 == bufferConvAct.Length2 == 6
      && bufferConvWeight.Length0 == 6 && bufferConvWeight.Length1 == bufferConvWeight.Length2 == 5
      && bufferConvAct != bufferConvWeight
    }

    // ----- Convolution layers, direct form -----

    method FusedConv1(ghost p: Pixels)
      requires Valid() && ImageIn(inputImg[..], p)
      modifies buffer2
      ensures Map1In(buffer2[..], p, w)
    {
      hide SumsExact, FusedTensor, Image, Fitting;
      LayoutsFit();
      Conv1Exact(p, w);
      FusedLayer(ChannelsInnermost, inputImg, IMAGE, Image(p), w.conv1, K_CONV1, 0, 14, buffer2, MAP1);
    }

    method FusedConv2(ghost t: Tensor)
      requires Valid() && Bounded(t, 128) && Holds(buffer2[..], MAP1, t, Box(0, 6, 0, 14, 14))
      modifies buffer1, buffer3
      ensures Holds(buffer1[..], MAP2, FusedTensor(t, w.conv2, K_CONV2), Box(0, 8, 0, 5, 5))
      ensures Holds(buffer3[..], MAP2_HIGH, FusedTensor(t, w.conv2, K_CONV2), Box(8, 16, 0, 5, 5))
    {
      hide SumsExact, FusedTensor, Image, Holds, Fitting;
      LayoutsFit();
      Conv2Exact(t, w);
      FusedSplitLayer(ChannelsOutermost, buffer2, MAP1, t, w.conv2, K_CONV2, 0, 5, 8, buffer1, MAP2, buffer3, MAP2_HIGH);
    }

    // ----- Convolution layers, split by rows -----

    /** Rows 0 to 9, ten rows per channel. */
    method FusedConv1_1(ghost p: Pixels)
      requires Valid() && ImageIn(inputImg[..], p)
      modifies buffer2
      ensures Holds(buffer2[..], TOP, HlsMap1(p, w), Box(0, 6, 0, 10, 14))
    {
      hide SumsExact, FusedTensor, Image, Fitting;
      LayoutsFit();
      Conv1Exact(p, w);
      FusedLayer(ChannelsInnermost, inputImg, IMAGE, Image(p), w.conv1, K_CONV1, 0, 10, buffer2, TOP);
    }

    /** Rows 6 to 13, eight rows per channel, at their own row offsets. */
    method FusedConv1_2(ghost p: Pixels)
      requires Valid() && ImageIn(inputImg[..], p)
      modifies buffer4
      ensures Holds(buffer4[..], BOTTOM, HlsMap1(p, w), Box(0, 6, 6, 14, 14))
    {
      hide SumsExact, FusedTensor, Image, Fitting;
      LayoutsFit();
      Conv1Exact(p, w);
      FusedLayer(ChannelsInnermost, inputImg, IMAGE, Image(p), w.conv1, K_CONV1, 6, 14, buffer4, BOTTOM);
    }

    /** Pooled rows 0 to 2. */
    method FusedConv2_1(ghost t: Tensor)
      requires Valid() && Bounded(t, 128) && Holds(buffer2[..], TOP, t, Box(0, 6, 0, 10, 14))
      modifies buffer1, buffer3
      ensures Holds(buffer1[..], MAP2, FusedTensor(t, w.conv2, K_CONV2), Box(0, 8, 0, 3, 5))
      ensures Holds(buffer3[..], MAP2_HIGH, FusedTensor(t, w.conv2, K_CONV2), Box(8, 16, 0, 3, 5))
      ensures SameOutsideBands(old(buffer1[..]), buffer1[..], MAP2, 0, 8, 0, 3)
      ensures SameOutsideBands(old(buffer3[..]), buffer3[..], MAP2_HIGH, 8, 16, 0, 3)
    {
      hide SumsExact, FusedTensor, Image, Holds, Fitting;
      LayoutsFit();
      Conv2Exact(t, w);
      FusedSplitLayer(ChannelsOutermost, buffer2, TOP, t, w.conv2, K_CONV2, 0, 3, 8, buffer1, MAP2, buffer3, MAP2_HIGH);
    }

    /** Pooled rows 3 and 4. */
    method FusedConv2_2(ghost t: Tensor)
      requires Valid() && Bounded(t, 128) && Holds(buffer4[..], BOTTOM, t, Box(0, 6, 6, 14, 14))
      modifies buffer1, buffer3
      ensures Holds(buffer1[..], MAP2, FusedTensor(t, w.conv2, K_CONV2), Box(0, 8, 3, 5, 5))
      ensures Holds(buffer3[..], MAP2_HIGH, FusedTensor(t, w.conv2, K_CONV2), Box(8, 16, 3, 5, 5))
      ensures SameOutsideBands(old(buffer1[..]), buffer1[..], MAP2, 0, 8, 3, 5)
      ensures SameOutsideBands(old(buffer3[..]), buffer3[..], MAP2_HIGH, 8, 16, 3, 5)
    {
      hide SumsExact, FusedTensor, Image, Holds, Fitting;
      LayoutsFit();
      Conv2Exact(t, w);
      FusedSplitLayer(ChannelsOutermost, buffer4, BOTTOM, t, w.conv2, K_CONV2, 3, 5, 8, buffer1, MAP2, buffer3, MAP2_HIGH);
    }

    /** The four halves in order leave the same maps as FusedConv1 and FusedConv2. */
    method SplitConvolutions(ghost p: Pixels)
      requires Valid() && ImageIn(inputImg[..], p)
      modifies buffer1, buffer2, buffer3, buffer4
      ensures Map2In(buffer1[..], buffer3[..], p, w)
    {
      hide SumsExact, FusedTensor, Image, Fitting;
      LayoutsFit();
      StoredBounded(Image(p), w.conv1, K_CONV1);
      FusedConv1_1(p);
      FusedConv1_2(p);
      FusedConv2_1(HlsMap1(p, w));
      ghost var lo, hi := buffer1[..], buffer3[..];
      FusedConv2_2(HlsMap1(p, w));
      RowSplit.RowsJoin(lo, buffer1[..], MAP2, HlsMap2(p, w), 0, 8, 3, 5);
      RowSplit.RowsJoin(hi, buffer3[..], MAP2_HIGH, HlsMap2(p, w), 8, 16, 3, 5);
    }

    // ----- Convolution layers, line-buffer and window forms -----

    /** Reads its image from buffer 1. */
    method FusedLineBufConv1(ghost p: Pixels)
      requires Valid() && ImageIn(buffer1[..], p)
      modifies lineBuffer, buffer2
      ensures Map1In(buffer2[..], p, w)
    {
      hide SumsExact, FusedTensor, Image, Fitting;
      LayoutsFit();
      Conv1Exact(p, w);
      LineBuffer.LineLayer(lineBuffer, buffer1, IMAGE, Image(p), w.conv1, K_CONV1, 14, buffer2, MAP1);
    }

    method FusedLineBufConv2(ghost t: Tensor)
      requires Valid() && Bounded(t, 128) && Holds(buffer2[..], MAP1, t, Box(0, 6, 0, 14, 14))
      modifies lineBuffer2, buffer1
      ensures Holds(buffer1[..], MAP2, FusedTensor(t, w.conv2, K_CONV2), Box(0, 16, 0, 5, 5))
    {
      hide SumsExact, FusedTensor, Image, Holds, Fitting;
      LayoutsFit();
      Conv2Exact(t, w);
      LineBuffer.LineLayer(lineBuffer2, buffer2, MAP1, t, w.conv2, K_CONV2, 5, buffer1, MAP2);
    }

    /** Reads its image from buffer 1. */
    method FusedBufConv1(ghost p: Pixels)
      requires Valid() && ImageIn(buffer1[..], p)
      modifies bufferConvAct, bufferConvWeight, buffer2
      ensures Map1In(buffer2[..], p, w)
    {
      hide SumsExact, FusedTensor, Image, Fitting;
      LayoutsFit();
      Conv1Exact(p, w);
      SlidingWindow.WindowLayer(bufferConvAct, bufferConvWeight, buffer1, IMAGE, Image(p), w.conv1, K_CONV1, 14, buffer2, MAP1);
    }

    method FusedBufConv2(ghost t: Tensor)
      requires Valid() && Bounded(t, 128) && Holds(buffer2[..], MAP1, t, Box(0, 6, 0, 14, 14))
      modifies bufferConvAct, bufferConvWeight, buffer1
      ensures Holds(buffer1[..], MAP2, FusedTensor(t, w.conv2, K_CONV2), Box(0, 16, 0, 5, 5))
    {
      hide SumsExact, FusedTensor, Image, Holds, Fitting;
      LayoutsFit();
      Conv2Exact(t, w);
      SlidingWindow.WindowLayer(bufferConvAct, bufferConvWeight, buffer2, MAP1, t, w.conv2, K_CONV2, 5, buffer1, MAP2);
    }

    // ----- Fully connected layers -----

    method FC1_1(ghost x: Vec)
      requires Valid() && SplitHolds(buffer1[..], buffer3[..], 200, 400, x)
      modifies buffer2
      ensures forall c | 0 <= c < 60 :: buffer2[c] == FcTensor(x, w.fc1, K_FC1)(c)
      ensures forall i | 60 <= i < 1176 :: buffer2[i] == old(buffer2[i])
    {
      FcRows(buffer1, buffer3, 200, x, w.fc1, K_FC1, 0, 60, buffer2, 0);
    }

    method FC1_2(ghost x: Vec)
      requires Valid() && SplitHolds(buffer1[..], buffer3[..], 200, 400, x)
      modifies buffer4
      ensures forall c | 60 <= c < 120 :: buffer4[c - 60] == FcTensor(x, w.fc1, K_FC1)(c)
      ensures forall i | 60 <= i < 1176 :: buffer4[i] == old(buffer4[i])
    {
      FcRows(buffer1, buffer3, 200, x, w.fc1, K_FC1, 60, 120, buffer4, 60);
    }

    method FC2_1(ghost x: Vec)
      requires Valid() && SplitHolds(buffer2[..], buffer4[..], 60, 120, x)
      modifies buffer1
      ensures forall c | 0 <= c < 42 :: buffer1[c] == FcTensor(x, w.fc2, K_FC2)(c)
      ensures forall i | 42 <= i < 1176 :: buffer1[i] == old(buffer1[i])
    {
      FcRows(buffer2, buffer4, 60, x, w.fc2, K_FC2, 0, 42, buffer1, 0);
    }

    method FC2_2(ghost x: Vec)
      requires Valid() && SplitHolds(buffer2[..], buffer4[..], 60, 120, x)
      modifies buffer3
      ensures forall c | 42 <= c < 84 :: buffer3[c - 42] == FcTensor(x, w.fc2, K_FC2)(c)
      ensures forall i | 42 <= i < 1176 :: buffer3[i] == old(buffer3[i])
    {
      FcRows(buffer2, buffer4, 60, x, w.fc2, K_FC2, 42, 84, buffer3, 42);
    }

    method FC3(ghost x: Vec)
      requires Valid() && SplitHolds(buffer1[..], buffer3[..], 42, 84, x)
      modifies fc3Out
      ensures forall c | 0 <= c < 10 :: fc3Out[c] == FcSum(x, w.fc3, c)
    {
      FcOutputs(buffer1, buffer3, 42, x, w.fc3, fc3Out);
    }

    /** For tile sizes that divide the 120 rows; `Tiles` says when this is FC1. */
    method FC1_PE(ghost x: Vec)
      requires Valid() && 120 % fcAcc.Length == 0 && VecHolds(buffer1[..], 400, x)
      modifies fcAcc, buffer2
      ensures forall c | 0 <= c < 120 :: buffer2[c] == FcWideTensor(x, w.fc1, K_FC1)(c)
    {
      FcRowsTiled(fcAcc, buffer1, x, w.fc1, K_FC1, buffer2);
    }

    /** For every tile size. */
    method FC3_PE(ghost x: Vec)
      requires Valid() && VecHolds(buffer1[..], 84, x)
      modifies fcAcc, fc3Out
      ensures forall c | 0 <= c < 10 :: fc3Out[c] == FcSum(x, w.fc3, c)
    {
      FcOutputsTiled(fcAcc, buffer1, x, w.fc3, fc3Out);
    }

    // ----- One image -----

    method LoadImage(words: seq<uint32>)
      requires Valid() && |words| == 256
      modifies inputImg
      ensures inputImg[..] == Unpack(words)
    {
      for i := 0 to 256
        invariant forall j | 0 <= j < 4 * i :: inputImg[j] == Unpack(words)[j]
      {
        inputImg[4 * i] := Byte(words[i], 0);
        inputImg[4 * i + 1] := Byte(words[i], 1);
        inputImg[4 * i + 2] := Byte(words[i], 2);
        inputImg[4 * i + 3] := Byte(words[i], 3);
      }
    }

    /** The fully connected half of the network: every layer reads the two buffers the one before it wrote. */
    method FullyConnectedLayers(ghost p: Pixels)
      requires Valid() && Map2In(buffer1[..], buffer3[..], p, w)
      modifies buffer1, buffer2, buffer3, buffer4, fc3Out
      ensures fc3Out[..] == HlsOut(p, w)
    {
      hide HlsMap2, FcAct, HlsIn1, Map2In;
      FlatIn(buffer1[..], buffer3[..], p, w);
      FC1_1(HlsIn1(p, w));
      FC1_2(HlsIn1(p, w));
      assert SplitHolds(buffer2[..], buffer4[..], 60, 120, HlsIn2(p, w));
      FC2_1(HlsIn2(p, w));
      FC2_2(HlsIn2(p, w));
      assert SplitHolds(buffer1[..], buffer3[..], 42, 84, HlsIn3(p, w));
      FC3(HlsIn3(p, w));
    }

    /** One round of do_filter: read an image, run every layer, emit ten results. */
    method DoFilter(words: seq<uint32>) returns (out: seq<int32>)
      requires Valid() && |words| == 256
      modifies inputImg, buffer1, buffer2, buffer3, buffer4, fc3Out
      ensures out == HlsOut(Unpack(words), w)
    {
      LoadImage(words);
      ImageLoaded(inputImg[..], Unpack(words));
      StoredBounded(Image(Unpack(words)), w.conv1, K_CONV1);
      FusedConv1(Unpack(words));
      FusedConv2(HlsMap1(Unpack(words), w));
      FullyConnectedLayers(Unpack(words));
      out := fc3Out[..];
    }

    /** The same round with the convolution layers split by rows. */
    method DoFilterSplit(words: seq<uint32>) returns (out: seq<int32>)
      requires Valid() && |words| == 256
      modifies inputImg, buffer1, buffer2, buffer3, buffer4, fc3Out
      ensures out == HlsOut(Unpack(words), w)
    {
      LoadImage(words);
      ImageLoaded(inputImg[..], Unpack(words));
      SplitConvolutions(Unpack(words));
      FullyConnectedLayers(Unpack(words));
      out := fc3Out[..];
    }
  }

  lemma ImageLoaded(cells: seq<int8>, p: Pixels)
    requires cells == p
    ensures ImageIn(cells, p)
  {
  }
}
