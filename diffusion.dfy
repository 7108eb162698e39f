/** The diffusion heads as the top-level models construct them. A head is
    described by the constructor arguments it receives; what it computes when
    called (training loss or reverse-diffusion sample) is a learned network and
    is a function-typed parameter, `HeadCall`. */
module Diffusion {
  import opened Common
  import opened Config

  /** The noise schedule and denoiser shape every head receives. */
  datatype Schedule = Schedule(
    timesteps: nat,
    kStep: nat,
    denoiserType: string,
    residualLayers: nat,
    residualChannels: nat)

  /** The four diffusion classes, each with the arguments it is built with. */
  datatype Head =
    | Gaussian(outDims: nat, specMin: seq<real>, specMax: seq<real>, schedule: Schedule)
    | Repetitive(vmin: real, vmax: real, repeatBins: nat, schedule: Schedule)
    | Curve1d(vmin: real, vmax: real, schedule: Schedule)
    | Curve2d(vmin: real, vmax: real, numBins: nat, deviation: real, schedule: Schedule)

  /** What a variance head returns: a training loss or a sampled curve. */
  datatype Prediction = Loss(loss: real) | Curve(values: seq<real>)

  /** A variance head called as `head(condition, target, infer)`. */
  type HeadCall = (Frames, Option<seq<real>>, bool) -> Prediction

  /** A constructed head: its arguments and its learned behaviour. */
  datatype Predictor = Predictor(head: Head, call: HeadCall)

  /** The values of `diff_predictor_mode` the pitch head accepts. */
  const PitchModes: set<string> := {"repeat", "1d", "2d"}

  /** Global timesteps, `K_step` and decoder type, with the residual stack of
      the head being built. */
  function ScheduleFor(hp: HParams, layers: nat, channels: nat): Schedule
  {
    Schedule(hp.timesteps, hp.kStep, hp.diffDecoderType, layers, channels)
  }

  /** The pitch head chosen by `diff_predictor_mode`: `repeat` builds a
      repetitive head with `num_pitch_bins` bins, `1d` a one-channel curve head,
      `2d` a soft-binned curve head with `num_pitch_bins` bins and `deviation`.
      Every other string is an error. All three share the pitch-delta bounds and
      the pitch head's residual stack. */
  function PitchHeadFor(hp: HParams): (r: Result<Head>)
    ensures r.Success? <==> hp.pitchArgs.diffPredictorMode in PitchModes
    ensures r.Failure? ==> r.error == UnknownPredictorMode(hp.pitchArgs.diffPredictorMode)
    ensures r.Success? ==>
              && (r.value.Repetitive? <==> hp.pitchArgs.diffPredictorMode == "repeat")
              && (r.value.Curve1d? <==> hp.pitchArgs.diffPredictorMode == "1d")
              && (r.value.Curve2d? <==> hp.pitchArgs.diffPredictorMode == "2d")
    ensures r.Success? ==>
              && !r.value.Gaussian?
              && r.value.vmin == hp.pitchArgs.pitchDeltaVmin
              && r.value.vmax == hp.pitchArgs.pitchDeltaVmax
              && r.value.schedule == ScheduleFor(hp, hp.pitchArgs.residualLayers, hp.pitchArgs.residualChannels)
    ensures r.Success? && r.value.Repetitive? ==> r.value.repeatBins == hp.pitchArgs.numPitchBins
    ensures r.Success? && r.value.Curve2d? ==>
              r.value.numBins == hp.pitchArgs.numPitchBins && r.value.deviation == hp.pitchArgs.deviation
  {
    var args := hp.pitchArgs;
    var schedule := ScheduleFor(hp, args.residualLayers, args.residualChannels);
    if args.diffPredictorMode == "repeat" then
      Success(Repetitive(args.pitchDeltaVmin, args.pitchDeltaVmax, args.numPitchBins, schedule))
    else if args.diffPredictorMode == "1d" then
      Success(Curve1d(args.pitchDeltaVmin, args.pitchDeltaVmax, schedule))
    else if args.diffPredictorMode == "2d" then
      Success(Curve2d(args.pitchDeltaVmin, args.pitchDeltaVmax, args.numPitchBins, args.deviation, schedule))
    else
      Failure(UnknownPredictorMode(args.diffPredictorMode))
  }

  ghost predicate StrictlyIncreasing(g: real -> real)
  {
    forall x, y :: x < y ==> g(x) < g(y)
  }

  /** The energy head: a repetitive head whose bounds are the decibel bounds
      converted to amplitude, `pow10(db / 20)`, with `pow10` standing for
      `10 ** x`. For any increasing conversion a well-ordered decibel range
      gives a well-ordered amplitude range. */
  function EnergyHeadFor(hp: HParams, pow10: real -> real): (h: Head)
    ensures h.Repetitive?
    ensures h.vmin == pow10(hp.energyArgs.dbVmin / 20.0) && h.vmax == pow10(hp.energyArgs.dbVmax / 20.0)
    ensures h.repeatBins == hp.energyArgs.numRepeatBins
    ensures h.schedule == ScheduleFor(hp, hp.energyArgs.residualLayers, hp.energyArgs.residualChannels)
    ensures StrictlyIncreasing(pow10) && hp.energyArgs.dbVmin < hp.energyArgs.dbVmax ==> h.vmin < h.vmax
  {
    var args := hp.energyArgs;
    Repetitive(pow10(args.dbVmin / 20.0), pow10(args.dbVmax / 20.0), args.numRepeatBins,
               ScheduleFor(hp, args.residualLayers, args.residualChannels))
  }
}
