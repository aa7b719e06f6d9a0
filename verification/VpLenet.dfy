/** The reference accelerator of vp/lenet.h, at its own dimensions and multipliers. */
module VpLenet {
  import opened Arith
  import opened Convolution
  import opened FullyConnected
  import opened FusedConv
  import opened Network
  import opened Reference

  class Lenet {
    const w: Weights
    const inputImg: array<int8>
    const conv1Out: array3<int32>
    const maxpoolOut: array3<int32>
    const conv2Out: array3<int32>
    const maxpool2Out: array3<int32>
    const fc1In: array<int32>
    const fc2In: array<int32>
    const fc3In: array<int32>
    const fc3Out: array<int32>

    constructor (weights: Weights)
      requires weights.Shaped()
      ensures Valid() && w == weights
      ensures fresh(inputImg) && fresh(conv1Out) && fresh(maxpoolOut) && fresh(conv2Out) && fresh(maxpool2Out)
      ensures fresh(fc1In) && fresh(fc2In) && fresh(fc3In) && fresh(fc3Out)
    {
      w := weights;
      inputImg := new int8[1024];
      conv1Out := new int32[6, 28, 28];
      maxpoolOut := new int32[6, 14, 14];
      conv2Out := new int32[16, 10, 10];
      maxpool2Out := new int32[16, 5, 5];
      fc1In, fc2In, fc3In, fc3Out := new int32[400], new int32[120], new int32[84], new int32[10];
    }

    ghost predicate Valid() {
      && w.Shaped()
      && inputImg.Length == 1024
      && conv1Out.Length0 == 6 && conv1Out.Length1 == 28 && conv1Out.Length2 == 28
      && maxpoolOut.Length0 == 6 && maxpoolOut.Length1 == 14 && maxpoolOut.Length2 == 14
      && conv2Out.Length0 == 16 && conv2Out.Length1 == 10 && conv2Out.Length2 == 10
      && maxpool2Out.Length0 == 16 && maxpool2Out.Length1 == 5 && maxpool2Out.Length2 == 5
      && conv1Out != maxpoolOut && maxpoolOut != conv2Out && conv2Out != maxpool2Out
      && fc1In.Length == 400 && fc2In.Length == 120 && fc3In.Length == 84 && fc3Out.Length == 10
      && fc1In != fc2In && fc2In != fc3In && fc3In != fc3Out
    }

    method Conv1(ghost p: Pixels)
      requires Valid() && inputImg[..] == p
      modifies conv1Out, maxpoolOut
      ensures Holds3(maxpoolOut, RefMap1(p, w))
    {
      hide SumsExact, ConvAct;
      Conv1Exact(p, w);
      ConvImage(inputImg, 32, Image(p), w.conv1, K_CONV1, conv1Out);
      Pool(conv1Out, ConvTensor(Image(p), w.conv1, K_CONV1), maxpoolOut);
    }

    method Conv2(ghost p: Pixels)
      requires Valid() && Holds3(maxpoolOut, RefMap1(p, w))
      modifies conv2Out, maxpool2Out, fc1In
      ensures Holds3(maxpool2Out, RefMap2(p, w)) && HoldsVec(fc1In[..], 400, RefIn1(p, w))
    {
      hide SumsExact, ConvAct, RefMap1;
      RefConv2Exact(p, w);
      ConvMaps(maxpoolOut, RefMap1(p, w), w.conv2, K_CONV2, conv2Out);
      PoolAndFlatten(conv2Out, ConvTensor(RefMap1(p, w), w.conv2, K_CONV2), maxpool2Out, fc1In);
    }

    method FC1(ghost p: Pixels)
      requires Valid() && HoldsVec(fc1In[..], 400, RefIn1(p, w))
      modifies fc2In
      ensures HoldsVec(fc2In[..], 120, RefIn2(p, w))
    {
      FcLayer(fc1In, RefIn1(p, w), w.fc1, K_FC1, fc2In);
    }

    method FC2(ghost p: Pixels)
      requires Valid() && HoldsVec(fc2In[..], 120, RefIn2(p, w))
      modifies fc3In
      ensures HoldsVec(fc3In[..], 84, RefIn3(p, w))
    {
      FcLayer(fc2In, RefIn2(p, w), w.fc2, K_FC2, fc3In);
    }

    method FC3(ghost p: Pixels)
      requires Valid() && HoldsVec(fc3In[..], 84, RefIn3(p, w))
      modifies fc3Out
      ensures fc3Out[..] == RefOut(p, w)
    {
      FcLast(fc3In, RefIn3(p, w), w.fc3, fc3Out);
    }

    /** The compute part of do_filter. */
    method Compute(ghost p: Pixels)
      requires Valid() && inputImg[..] == p
      modifies conv1Out, maxpoolOut, conv2Out, maxpool2Out, fc1In, fc2In, fc3In, fc3Out
      ensures fc3Out[..] == RefOut(p, w)
    {
      Conv1(p);
      Conv2(p);
      FC1(p);
      FC2(p);
      FC3(p);
    }
  }
}
