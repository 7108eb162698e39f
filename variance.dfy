/** The variance model: an encoder predicts phoneme durations and a unit-level
    condition; when pitch or energy prediction is configured, the condition is
    expanded to frame level by the given alignment, and the pitch head and then
    the energy head are called on it, each with a pitch curve embedded into
    hidden space and added to the condition. */
module Variance {
  import opened Common
  import opened Config
  import opened Diffusion
  import opened Alignment

  /** The arguments of the forward pass that reach the variance encoder. */
  datatype EncoderInput = EncoderInput(
    tokens: seq<nat>,
    midi: seq<nat>,
    ph2word: seq<nat>,
    phDur: Option<seq<nat>>,
    wordDur: Option<seq<nat>>,
    infer: bool)

  /** `encoder_out` (one row per phoneme) and `dur_pred_out`. */
  datatype EncoderOutput = EncoderOutput(encoderOut: Frames, durPredOut: seq<real>)

  /** All arguments of the variance forward pass; `None` stands for an argument
      left at its default. */
  datatype VarianceInput = VarianceInput(
    tokens: seq<nat>,
    midi: seq<nat>,
    ph2word: seq<nat>,
    phDur: Option<seq<nat>>,
    wordDur: Option<seq<nat>>,
    mel2ph: Option<seq<nat>>,
    basePitch: Option<seq<real>>,
    deltaPitch: Option<seq<real>>,
    energy: Option<seq<real>>,
    infer: bool)

  /** `(dur_pred_out, pitch_pred_out, energy_pred_out)`. */
  type Outputs = (seq<real>, Option<Prediction>, Option<Prediction>)

  /** The learned parts the constructor may install: the encoder, the two
      `Linear(1, hidden_size)` pitch embeddings and the learned behaviour of the
      pitch and energy heads. */
  datatype VarianceNetworks = VarianceNetworks(
    fs2: EncoderInput -> EncoderOutput,
    basePitchEmbed: Linear,
    pitchEmbed: Linear,
    pitchCall: HeadCall,
    energyCall: HeadCall)

  /** The encoder gives one row of hidden width per phoneme. */
  ghost predicate EncoderShaped(fs2: EncoderInput -> EncoderOutput, h: nat)
  {
    forall x :: |fs2(x).encoderOut| == |x.tokens| && Rectangular(fs2(x).encoderOut, h)
  }

  ghost predicate NetworksShaped(nets: VarianceNetworks, h: nat)
  {
    && EncoderShaped(nets.fs2, h)
    && LinearFits(nets.basePitchEmbed, h)
    && LinearFits(nets.pitchEmbed, h)
  }

  function EncoderInputOf(inp: VarianceInput): EncoderInput
  {
    EncoderInput(inp.tokens, inp.midi, inp.ph2word, inp.phDur, inp.wordDur, inp.infer)
  }

  /** `condition + embed(base_pitch[:, :, None])`. */
  function PitchCondition(condition: Frames, embed: Linear, basePitch: seq<real>): (c: Frames)
    requires |embed.weight| == |embed.bias|
    requires |basePitch| == |condition| && Rectangular(condition, |embed.weight|)
    ensures |c| == |condition| && Rectangular(c, |embed.weight|)
    ensures forall f, k :: 0 <= f < |c| && 0 <= k < |embed.weight| ==>
              c[f][k] == condition[f][k] + (basePitch[f] * embed.weight[k] + embed.bias[k])
  {
    AddFrames(condition, EmbedCurve(embed, basePitch))
  }

  /** `condition + embed((base_pitch + delta_pitch)[:, :, None])`. */
  function EnergyCondition(condition: Frames, embed: Linear, basePitch: seq<real>, deltaPitch: seq<real>): (c: Frames)
    requires |embed.weight| == |embed.bias|
    requires |basePitch| == |condition| == |deltaPitch| && Rectangular(condition, |embed.weight|)
    ensures |c| == |condition| && Rectangular(c, |embed.weight|)
    ensures forall f, k :: 0 <= f < |c| && 0 <= k < |embed.weight| ==>
              c[f][k] == condition[f][k] + ((basePitch[f] + deltaPitch[f]) * embed.weight[k] + embed.bias[k])
  {
    AddFrames(condition, EmbedCurve(embed, AddVectors(basePitch, deltaPitch)))
  }

  /** The energy condition is the pitch condition built with the same
      projection, shifted at every frame by that frame's pitch delta times the
      projection's weight: the pitch delta reaches the energy head additively. */
  lemma {:induction false} EnergyConditionShiftsPitchCondition(
    condition: Frames, embed: Linear, basePitch: seq<real>, deltaPitch: seq<real>)
    requires |embed.weight| == |embed.bias|
    requires |basePitch| == |condition| == |deltaPitch| && Rectangular(condition, |embed.weight|)
    ensures forall f :: 0 <= f < |condition| ==>
              EnergyCondition(condition, embed, basePitch, deltaPitch)[f]
              == AddVectors(PitchCondition(condition, embed, basePitch)[f], ScaleVector(embed.weight, deltaPitch[f]))
  {
    var e := EnergyCondition(condition, embed, basePitch, deltaPitch);
    var p := PitchCondition(condition, embed, basePitch);
    forall f | 0 <= f < |condition|
      ensures e[f] == AddVectors(p[f], ScaleVector(embed.weight, deltaPitch[f]))
    {
      ApplyLinearShift(embed, basePitch[f], deltaPitch[f]);
      var shifted := ApplyLinear(embed, basePitch[f] + deltaPitch[f]);
      var plain := ApplyLinear(embed, basePitch[f]);
      var step := ScaleVector(embed.weight, deltaPitch[f]);
      assert AddVectors(basePitch, deltaPitch)[f] == basePitch[f] + deltaPitch[f];
      assert e[f] == AddVectors(condition[f], shifted);
      assert p[f] == AddVectors(condition[f], plain);
      forall k | 0 <= k < |embed.weight|
        ensures e[f][k] == AddVectors(p[f], step)[k]
      {
        assert shifted[k] == plain[k] + step[k];
      }
    }
  }

  class VarianceModel {
    const hp: HParams
    const fs2: EncoderInput -> EncoderOutput
    const basePitchEmbed: Option<Linear>
    const pitchPredictor: Option<Predictor>
    const pitchEmbed: Option<Linear>
    const energyPredictor: Option<Predictor>

    /** The sub-modules present are those the flags ask for; `pitch_embed`
        belongs to the energy stage even though the pitch stage reads it. */
    ghost predicate Valid()
    {
      && EncoderShaped(fs2, hp.hiddenSize)
      && (basePitchEmbed.Some? <==> hp.predictPitch)
      && (pitchPredictor.Some? <==> hp.predictPitch)
      && (pitchEmbed.Some? <==> hp.predictEnergy)
      && (energyPredictor.Some? <==> hp.predictEnergy)
      && (basePitchEmbed.Some? ==> LinearFits(basePitchEmbed.value, hp.hiddenSize))
      && (pitchEmbed.Some? ==> LinearFits(pitchEmbed.value, hp.hiddenSize))
    }

    /** Installs the encoder, then the pitch embedding and the given pitch head
        when pitch is predicted, then `pitch_embed` and a repetitive energy head
        when energy is predicted. The pitch head must be the one the configured
        mode selects; `Build` checks the mode first. */
    constructor (hp: HParams, nets: VarianceNetworks, pow10: real -> real, pitchHead: Option<Head>)
      requires NetworksShaped(nets, hp.hiddenSize)
      requires hp.predictPitch ==> pitchHead.Some? && PitchHeadFor(hp) == Success(pitchHead.value)
      ensures Valid()
      ensures this.hp == hp && fs2 == nets.fs2
      ensures basePitchEmbed == (if hp.predictPitch then Some(nets.basePitchEmbed) else None)
      ensures pitchPredictor == (if hp.predictPitch then Some(Predictor(pitchHead.value, nets.pitchCall)) else None)
      ensures pitchEmbed == (if hp.predictEnergy then Some(nets.pitchEmbed) else None)
      ensures energyPredictor ==
                (if hp.predictEnergy then Some(Predictor(EnergyHeadFor(hp, pow10), nets.energyCall)) else None)
    {
      this.hp := hp;
      fs2 := nets.fs2;
      if hp.predictPitch {
        basePitchEmbed := Some(nets.basePitchEmbed);
        pitchPredictor := Some(Predictor(pitchHead.value, nets.pitchCall));
      } else {
        basePitchEmbed := None;
        pitchPredictor := None;
      }
      if hp.predictEnergy {
        pitchEmbed := Some(nets.pitchEmbed);
        energyPredictor := Some(Predictor(EnergyHeadFor(hp, pow10), nets.energyCall));
      } else {
        pitchEmbed := None;
        energyPredictor := None;
      }
    }

    /** The whole constructor: fails exactly when pitch is predicted with an
        unknown `diff_predictor_mode`, and otherwise builds a model whose pitch
        head is the one the mode selects. */
    static method Build(hp: HParams, nets: VarianceNetworks, pow10: real -> real) returns (r: Result<VarianceModel>)
      requires NetworksShaped(nets, hp.hiddenSize)
      ensures r.Failure? <==> hp.predictPitch && hp.pitchArgs.diffPredictorMode !in PitchModes
      ensures r.Failure? ==> r.error == UnknownPredictorMode(hp.pitchArgs.diffPredictorMode)
      ensures r.Success? ==> fresh(r.value) && r.value.Valid() && r.value.hp == hp && r.value.fs2 == nets.fs2
      ensures r.Success? && hp.predictPitch ==>
                r.value.pitchPredictor == Some(Predictor(PitchHeadFor(hp).value, nets.pitchCall))
      ensures r.Success? && hp.predictEnergy ==>
                r.value.energyPredictor == Some(Predictor(EnergyHeadFor(hp, pow10), nets.energyCall))
                && r.value.pitchEmbed == Some(nets.pitchEmbed)
    {
      var head := None;
      if hp.predictPitch {
        var chosen := PitchHeadFor(hp);
        if chosen.Failure? {
          return Failure(chosen.error);
        }
        head := Some(chosen.value);
      }
      var model := new VarianceModel(hp, nets, pow10, head);
      r := Success(model);
    }

    /** The inputs the forward pass indexes: when a stage will run, every
        alignment entry names a phoneme or the sentinel, and the pitch curves
        that are given have one value per frame. */
    predicate InputFits(inp: VarianceInput)
    {
      (hp.predictPitch || hp.predictEnergy) && inp.mel2ph.Some? ==>
        && AlignmentFits(inp.mel2ph.value, |inp.tokens|)
        && (inp.basePitch.Some? ==> |inp.basePitch.value| == |inp.mel2ph.value|)
        && (inp.deltaPitch.Some? ==> |inp.deltaPitch.value| == |inp.mel2ph.value|)
    }

    /** The frame-level condition: the encoder output expanded by `mel2ph`. */
    function FrameCondition(inp: VarianceInput): (c: Frames)
      requires Valid() && InputFits(inp)
      requires hp.predictPitch || hp.predictEnergy
      requires inp.mel2ph.Some?
      ensures |c| == |inp.mel2ph.value| && Rectangular(c, hp.hiddenSize)
      ensures forall f :: 0 <= f < |c| && inp.mel2ph.value[f] == 0 ==> c[f] == Zeros(hp.hiddenSize)
      ensures forall f :: 0 <= f < |c| && inp.mel2ph.value[f] > 0 ==>
                c[f] == fs2(EncoderInputOf(inp)).encoderOut[inp.mel2ph.value[f] - 1]
    {
      Expand(fs2(EncoderInputOf(inp)).encoderOut, inp.mel2ph.value, hp.hiddenSize)
    }

    /** The pitch stage: nothing when pitch is not predicted; otherwise the
        pitch head called on the condition plus the embedded base pitch. */
    function PitchStage(condition: Frames, inp: VarianceInput): (r: Result<Option<Prediction>>)
      requires Valid() && InputFits(inp)
      requires inp.mel2ph.Some? && |condition| == |inp.mel2ph.value| && Rectangular(condition, hp.hiddenSize)
      ensures !hp.predictPitch <==> r == Success(None)
      // The missing `pitch_embed` is found before the missing `base_pitch`.
      ensures hp.predictPitch && !hp.predictEnergy ==> r == Failure(MissingAttribute("pitch_embed"))
      ensures hp.predictPitch && hp.predictEnergy && inp.basePitch.None? ==> r == Failure(MissingInput("base_pitch"))
      ensures hp.predictPitch && hp.predictEnergy && inp.basePitch.Some? ==>
                r == Success(Some(pitchPredictor.value.call(
                  PitchCondition(condition, pitchEmbed.value, inp.basePitch.value), inp.deltaPitch, inp.infer)))
    {
      if !hp.predictPitch then Success(None)
      else if pitchEmbed.None? then Failure(MissingAttribute("pitch_embed"))
      else if inp.basePitch.None? then Failure(MissingInput("base_pitch"))
      else
        var cond := PitchCondition(condition, pitchEmbed.value, inp.basePitch.value);
        Success(Some(pitchPredictor.value.call(cond, inp.deltaPitch, inp.infer)))
    }

    /** The energy stage: nothing when energy is not predicted; otherwise the
        energy head called on the condition plus the embedded sum of the base
        pitch and the `delta_pitch` argument. */
    function EnergyStage(condition: Frames, inp: VarianceInput): (r: Result<Option<Prediction>>)
      requires Valid() && InputFits(inp)
      requires inp.mel2ph.Some? && |condition| == |inp.mel2ph.value| && Rectangular(condition, hp.hiddenSize)
      ensures !hp.predictEnergy <==> r == Success(None)
      ensures hp.predictEnergy && inp.basePitch.None? ==> r == Failure(MissingInput("base_pitch"))
      ensures hp.predictEnergy && inp.basePitch.Some? && inp.deltaPitch.None? ==>
                r == Failure(MissingInput("delta_pitch"))
      // The caller's `delta_pitch`, whatever the pitch stage returned.
      ensures hp.predictEnergy && inp.basePitch.Some? && inp.deltaPitch.Some? ==>
                r == Success(Some(energyPredictor.value.call(
                  EnergyCondition(condition, pitchEmbed.value, inp.basePitch.value, inp.deltaPitch.value),
                  inp.energy, inp.infer)))
    {
      if !hp.predictEnergy then Success(None)
      else if inp.basePitch.None? then Failure(MissingInput("base_pitch"))
      else if inp.deltaPitch.None? then Failure(MissingInput("delta_pitch"))
      else
        var cond := EnergyCondition(condition, pitchEmbed.value, inp.basePitch.value, inp.deltaPitch.value);
        Success(Some(energyPredictor.value.call(cond, inp.energy, inp.infer)))
    }

    /** The variance forward pass. */
    function Forward(inp: VarianceInput): (r: Result<Outputs>)
      requires Valid() && InputFits(inp)
      // Nothing to predict: the durations alone, and no alignment is needed.
      ensures !hp.predictPitch && !hp.predictEnergy ==>
                r == Success((fs2(EncoderInputOf(inp)).durPredOut, None, None))
      // Deriving the alignment from predicted durations is not implemented.
      ensures (hp.predictPitch || hp.predictEnergy) && (inp.mel2ph.None? || hp.durCascade) ==>
                r == Failure(NotImplemented)
      // Pitch without energy reaches for `pitch_embed`, which was never built.
      ensures hp.predictPitch && !hp.predictEnergy && inp.mel2ph.Some? && !hp.durCascade ==>
                r == Failure(MissingAttribute("pitch_embed"))
      // Exactly when the pass succeeds.
      ensures r.Success? <==>
                || (!hp.predictPitch && !hp.predictEnergy)
                || (&& inp.mel2ph.Some? && !hp.durCascade
                    && (hp.predictPitch ==> hp.predictEnergy)
                    && inp.basePitch.Some?
                    && (hp.predictEnergy ==> inp.deltaPitch.Some?))
      // Always a triple led by the encoder's durations; a stage's output is
      // absent exactly when the stage is switched off.
      ensures r.Success? ==>
                && r.value.0 == fs2(EncoderInputOf(inp)).durPredOut
                && (r.value.1.None? <==> !hp.predictPitch)
                && (r.value.2.None? <==> !hp.predictEnergy)
      // The pitch head sees the expanded condition plus the embedded base pitch.
      ensures r.Success? && hp.predictPitch ==>
                r.value.1 == Some(pitchPredictor.value.call(
                  PitchCondition(FrameCondition(inp), pitchEmbed.value, inp.basePitch.value),
                  inp.deltaPitch, inp.infer))
      // The energy head sees the expanded condition plus the embedded sum of the
      // base pitch and the `delta_pitch` argument, not the pitch head's output.
      ensures r.Success? && hp.predictEnergy ==>
                r.value.2 == Some(energyPredictor.value.call(
                  EnergyCondition(FrameCondition(inp), pitchEmbed.value, inp.basePitch.value, inp.deltaPitch.value),
                  inp.energy, inp.infer))
    {
      var encoded := fs2(EncoderInputOf(inp));
      if !hp.predictPitch && !hp.predictEnergy then
        Success((encoded.durPredOut, None, None))
      else if inp.mel2ph.None? || hp.durCascade then
        Failure(NotImplemented)
      else
        var condition := Expand(encoded.encoderOut, inp.mel2ph.value, hp.hiddenSize);
        var pitchOut := PitchStage(condition, inp);
        if pitchOut.Failure? then Failure(pitchOut.error)
        else
          var energyOut := EnergyStage(condition, inp);
          if energyOut.Failure? then Failure(energyOut.error)
          else Success((encoded.durPredOut, pitchOut.value, energyOut.value))
    }
  }

  /** The energy output does not depend on the pitch head: two models that
      differ only in their pitch predictor give the same energy output, because
      the energy stage embeds the caller's `delta_pitch`. */
  lemma EnergyIgnoresPitchHead(m1: VarianceModel, m2: VarianceModel, inp: VarianceInput)
    requires m1.Valid() && m1.InputFits(inp) && m2.Valid()
    requires m1.hp == m2.hp && m1.fs2 == m2.fs2
    requires m1.pitchEmbed == m2.pitchEmbed && m1.energyPredictor == m2.energyPredictor
    requires m1.hp.predictPitch && m1.hp.predictEnergy
    ensures m2.InputFits(inp)
    ensures m1.Forward(inp).Success? <==> m2.Forward(inp).Success?
    ensures m1.Forward(inp).Success? ==> m1.Forward(inp).value.2 == m2.Forward(inp).value.2
  {
  }
}
