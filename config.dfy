/** The hyperparameters the top-level models read. In the original program they
    sit in a process-wide dictionary; here they are one immutable record passed
    to each constructor. Only the keys the top-level models read are present. */
module Config {

  /** `hparams['pitch_prediction_args']`. */
  datatype PitchArgs = PitchArgs(
    diffPredictorMode: string,
    pitchDeltaVmin: real,
    pitchDeltaVmax: real,
    numPitchBins: nat,
    deviation: real,
    residualLayers: nat,
    residualChannels: nat)

  /** `hparams['energy_prediction_args']`; the bounds are in decibels. */
  datatype EnergyArgs = EnergyArgs(
    dbVmin: real,
    dbVmax: real,
    numRepeatBins: nat,
    residualLayers: nat,
    residualChannels: nat)

  datatype HParams = HParams(
    hiddenSize: nat,
    timesteps: nat,
    kStep: nat,
    diffDecoderType: string,
    residualLayers: nat,
    residualChannels: nat,
    specMin: seq<real>,
    specMax: seq<real>,
    predictPitch: bool,
    predictEnergy: bool,
    durCascade: bool,
    pitchArgs: PitchArgs,
    energyArgs: EnergyArgs)
}
