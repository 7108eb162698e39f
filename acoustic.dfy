/** The acoustic model: an encoder turns the symbolic input and its alignment
    into a frame-level condition, and one spectrogram diffusion head either
    samples a mel-spectrogram from it (inference) or scores a ground-truth one
    (training). A sampled spectrogram is zeroed in place at padding frames. */
module Acoustic {
  import opened Common
  import opened Config
  import opened Diffusion
  import opened Alignment

  /** The named arguments of the acoustic forward pass that reach the encoder;
      the extra keyword arguments it also forwards are not modelled. */
  datatype AcousticInput = AcousticInput(
    tokens: seq<nat>,
    mel2ph: seq<nat>,
    f0: seq<real>,
    keyShift: Option<seq<real>>,
    speed: Option<seq<real>>,
    spkEmbedId: Option<nat>)

  datatype AcousticOutput = Mel(frames: Frames) | SpecLoss(loss: real)

  /** The learned parts: the acoustic encoder, the spectrogram head called in
      inference (`diffusion(condition, infer=True)`) and the same head called in
      training (`diffusion(condition, gt_spec=gt_mel, infer=False)`). */
  datatype AcousticNetworks = AcousticNetworks(
    fs2: AcousticInput -> Frames,
    sample: Frames -> Frames,
    loss: (Frames, Option<Frames>) -> real)

  /** The shapes the learned parts produce: one condition frame per alignment
      entry, and one sampled frame per condition frame. */
  ghost predicate NetworksShaped(nets: AcousticNetworks)
  {
    && (forall x :: |nets.fs2(x)| == |x.mel2ph|)
    && (forall c :: |nets.sample(c)| == |c|)
  }

  /** `(mel2ph > 0).float()`: 1 at frames that belong to a unit, 0 at padding. */
  function Indicator(keep: bool): (r: real)
    ensures keep <==> r == 1.0
    ensures !keep <==> r == 0.0
  {
    if keep then 1.0 else 0.0
  }

  /** `mel * (mel2ph > 0)[:, :, None]`: every element of padding frames becomes
      zero and every other frame is left as it is. */
  function Masked(mel: Frames, mel2ph: seq<nat>): (r: Frames)
    requires |mel| == |mel2ph|
    ensures |r| == |mel|
    ensures forall f :: 0 <= f < |mel| && mel2ph[f] == 0 ==> r[f] == Zeros(|mel[f]|)
    ensures forall f :: 0 <= f < |mel| && mel2ph[f] > 0 ==> r[f] == mel[f]
  {
    seq(|mel|, f requires 0 <= f < |mel| => ScaleVector(mel[f], Indicator(mel2ph[f] > 0)))
  }

  /** The expanded variance condition already satisfies the acoustic mask: the
      zero sentinel makes every padding frame zero. */
  lemma ExpandIsMasked(units: Frames, mel2ph: seq<nat>, h: nat)
    requires Rectangular(units, h)
    requires AlignmentFits(mel2ph, |units|)
    ensures Masked(Expand(units, mel2ph, h), mel2ph) == Expand(units, mel2ph, h)
  {
  }

  /** The in-place `mel *= mask` over a buffer holding one frame per cell. */
  method MaskInPlace(mel: array<Vector>, mel2ph: seq<nat>)
    requires mel.Length == |mel2ph|
    modifies mel
    ensures mel[..] == Masked(old(mel[..]), mel2ph)
  {
    var f := 0;
    while f < mel.Length
      invariant 0 <= f <= mel.Length
      invariant forall g :: 0 <= g < f ==> mel[g] == ScaleVector(old(mel[g]), Indicator(mel2ph[g] > 0))
      invariant forall g :: f <= g < mel.Length ==> mel[g] == old(mel[g])
    {
      mel[f] := ScaleVector(mel[f], Indicator(mel2ph[f] > 0));
      f := f + 1;
    }
  }

  class AcousticModel {
    const fs2: AcousticInput -> Frames
    const diffusion: Head
    const sample: Frames -> Frames
    const loss: (Frames, Option<Frames>) -> real

    ghost predicate Valid()
    {
      NetworksShaped(AcousticNetworks(fs2, sample, loss))
    }

    /** Builds the encoder and a spectrogram head with `out_dims` channels, the
        global schedule and residual stack, and the spectrogram range. */
    constructor (hp: HParams, outDims: nat, nets: AcousticNetworks)
      requires NetworksShaped(nets)
      ensures Valid()
      ensures fs2 == nets.fs2 && sample == nets.sample && loss == nets.loss
      ensures diffusion == Gaussian(outDims, hp.specMin, hp.specMax,
                                    ScheduleFor(hp, hp.residualLayers, hp.residualChannels))
    {
      fs2 := nets.fs2;
      diffusion := Gaussian(outDims, hp.specMin, hp.specMax,
                            ScheduleFor(hp, hp.residualLayers, hp.residualChannels));
      sample := nets.sample;
      loss := nets.loss;
    }

    /** Inference returns the sampled spectrogram with padding frames zeroed
        and every other frame exactly as sampled; training returns the head's
        loss against the ground truth, unmasked. */
    method Forward(inp: AcousticInput, gtMel: Option<Frames>, infer: bool) returns (r: AcousticOutput)
      requires Valid()
      ensures infer ==> r.Mel? && |r.frames| == |inp.mel2ph|
      ensures infer ==> forall f :: 0 <= f < |inp.mel2ph| && inp.mel2ph[f] == 0 ==>
                          r.frames[f] == Zeros(|sample(fs2(inp))[f]|)
      ensures infer ==> forall f :: 0 <= f < |inp.mel2ph| && inp.mel2ph[f] > 0 ==>
                          r.frames[f] == sample(fs2(inp))[f]
      ensures !infer ==> r == SpecLoss(loss(fs2(inp), gtMel))
    {
      var condition := fs2(inp);
      if infer {
        var sampled := sample(condition);
        var mel := new Vector[|sampled|](i requires 0 <= i < |sampled| => sampled[i]);
        assert mel[..] == sampled;
        MaskInPlace(mel, inp.mel2ph);
        r := Mel(mel[..]);
      } else {
        r := SpecLoss(loss(condition, gtMel));
      }
    }
  }
}
