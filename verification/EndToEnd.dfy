/** Both accelerators on one image. */
module EndToEnd {
  import opened Arith
  import opened ExactNetwork
  import opened Network
  import HlsLenet
  import VpLenet

  method RunHardware(p: Pixels, w: Weights, split: bool) returns (out: seq<int32>)
    requires w.Shaped()
    ensures out == HlsOut(p, w)
  {
    hide HlsOut, HlsLenet.Pack, HlsLenet.Unpack;
    HlsLenet.UnpackPack(p);
    var hls := new HlsLenet.Lenet(w, 2);
    if split {
      out := hls.DoFilterSplit(HlsLenet.Pack(p));
    } else {
      out := hls.DoFilter(HlsLenet.Pack(p));
    }
  }

  method RunReference(p: Pixels, w: Weights) returns (out: seq<int32>)
    requires w.Shaped()
    ensures out == RefOut(p, w)
  {
    hide RefOut;
    var vp := new VpLenet.Lenet(w);
    for i := 0 to 1024
      invariant forall j | 0 <= j < i :: vp.inputImg[j] == p[j]
    {
      vp.inputImg[i] := p[i];
    }
    vp.Compute(p);
    out := vp.fc3Out[..];
  }

  /**
   * Feeds the same pixels to the hardware (packed four to a word) and to the reference. For every image and
   * all weights the ten results are equal whenever the reference's activations fit eight bits; if also the
   * rows of FC1 are within limits, nothing overflowed and they are those of the unbounded integers.
   */
  method RunBoth(p: Pixels, w: Weights, split: bool) returns (hardware: seq<int32>, reference: seq<int32>)
    requires w.Shaped()
    ensures hardware == HlsOut(p, w) && reference == RefOut(p, w)
    ensures ActivationsFit(p, w) ==> hardware == reference
    ensures ActivationsFit(p, w) && Fc1WithinLimits(w) ==> hardware == ExactOut(p, w)
  {
    hide HlsOut, RefOut, ExactOut, ActivationsFit, Fc1WithinLimits;
    hardware := RunHardware(p, w, split);
    reference := RunReference(p, w);
    if ActivationsFit(p, w) {
      EndToEnd(p, w);
      if Fc1WithinLimits(w) {
        BothAreExact(p, w);
      }
    }
  }
}
