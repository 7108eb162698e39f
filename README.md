# DiffSinger top-level models in Dafny

This project models the orchestration layer of DiffSinger's two top-level
models, `DiffSingerAcoustic` and `DiffSingerVariance` (`modules/toplevel.py`).
The neural parts are parameters of function type: the FastSpeech2 encoders and
the learned behaviour of the diffusion heads. The model covers the logic around
those parts:

- which diffusion heads are built from the configuration, and with what
  arguments. An unknown `diff_predictor_mode` is an error.
- the acoustic forward pass. Inference samples a spectrogram and zeroes its
  padding frames in place (`mel *= mel2ph > 0`). Training returns the head's
  loss unmasked.
- the variance forward pass. It exits early when nothing is predicted. It fails
  with "not implemented" when no alignment is given or `dur_cascade` is set.
  Otherwise it pads the phoneme-level encoder output with a zero row and gathers
  it by `mel2ph`, then runs the pitch stage and the energy stage. Each stage's
  condition is the expanded condition plus an embedded pitch curve.

Modules:

- `Common`: `Option`, `Result`, the `Error` values for the exceptions raised,
  vectors and frame tensors, and `Linear(1, H)` as explicit weights and bias.
- `Config`: the hyperparameters the two models read, as one immutable record.
- `Diffusion`: head descriptors, the pitch-mode factory and the energy head.
- `Alignment`: the pad-and-gather expansion.
- `Acoustic`: the mask, the in-place masking loop and `AcousticModel`.
- `Variance`: the stage conditions and `VarianceModel` with its forward pass.

Three behaviours of the code a reader might not expect; the model follows the code:

- The energy stage embeds the caller's `delta_pitch`, not the pitch head's output.
- The pitch stage uses `pitch_embed`, which is only built when energy is
  predicted. So with pitch predicted and energy not, the forward pass fails with
  `MissingAttribute("pitch_embed")` once it gets past the alignment check.
- `base_pitch_embed` is built but never used.

## Model

| member | source | states |
|---|---|---|
| `Common.ApplyLinearShift` | modules/toplevel.py:115 | the `Linear(1, H)` pitch projection is affine: shifting the input by `d` adds `d * weight` to the output |
| `Common.ApplyLinear` | modules/toplevel.py:115 | `Linear(1, H)` on a scalar `x` gives, at each hidden index `i`, `x * weight[i] + bias[i]` |
| `Common.EmbedCurve` | modules/toplevel.py:161 | embedding a curve gives one row per frame, of the layer's width, and row `f` is the layer applied to `curve[f]` |
| `Diffusion.PitchHeadFor` | modules/toplevel.py:62-103 | the pitch head exists exactly for `repeat`, `1d` and `2d`, and any other mode is `UnknownPredictorMode`. `repeat` gives a repetitive head with `num_pitch_bins` bins, `1d` a 1-D curve head, and `2d` a 2-D curve head with `num_pitch_bins` and `deviation`. All three carry the pitch-delta bounds and the pitch head's residual stack with the global schedule |
| `Diffusion.EnergyHeadFor` | modules/toplevel.py:116-128 | the energy head is repetitive with `num_repeat_bins` bins and the energy residual stack. Its bounds are exactly `10 ** (db_vmin / 20)` and `10 ** (db_vmax / 20)`, with the power as the parameter `pow10`, and they stay ordered for any increasing `pow10` |
| `Alignment.PadUnits` | modules/toplevel.py:156 | padding adds one zero row before the units: row 0 is zeros and row `u + 1` is unit `u` |
| `Alignment.Gather` | modules/toplevel.py:157-158 | gathering gives one row per index, and row `f` is the source row `index[f]` |
| `Alignment.Expand` | modules/toplevel.py:156-158 | the expanded condition has one row of hidden width per `mel2ph` entry. A 0 entry gives zeros. Entry `u > 0` gives encoder row `u - 1` |
| `Alignment.ExpandConcat` | modules/toplevel.py:156-158 | expansion is frame-local: expanding a concatenated alignment equals concatenating the two expansions |
| `Alignment.ExpandReadsOnlyNamedUnits` | modules/toplevel.py:156-158 | the expansion depends only on the encoder rows that some frame names |
| `Acoustic.Masked` | modules/toplevel.py:44 | multiplying by the indicator `mel2ph > 0` zeroes every element of padding frames and leaves every other frame unchanged |
| `Acoustic.Indicator` | modules/toplevel.py:44 | the mask factor is 1 exactly for frames that belong to a unit and 0 exactly for padding frames |
| `Acoustic.ExpandIsMasked` | modules/toplevel.py:156-158 | the zero sentinel makes the expanded condition invariant under the acoustic mask |
| `Acoustic.MaskInPlace` | modules/toplevel.py:44 | the in-place loop leaves the buffer equal to the mask applied to its old contents |
| `Acoustic.AcousticModel.constructor` | modules/toplevel.py:16-32 | installs the encoder and a spectrogram head built with `out_dims`, the global schedule and residual stack, and `spec_min`/`spec_max` |
| `Acoustic.AcousticModel.Forward` | modules/toplevel.py:38-48 | in inference, returns one frame per alignment entry: padding frames are zero and the others equal the diffusion sample. In training, returns exactly the head's loss on `(condition, gt_mel)`, unmasked |
| `Variance.PitchCondition` | modules/toplevel.py:161 | the pitch condition at frame `f`, hidden index `k` is `condition[f][k] + base_pitch[f] * weight[k] + bias[k]` |
| `Variance.EnergyCondition` | modules/toplevel.py:167-168 | the energy condition at frame `f`, hidden index `k` is `condition[f][k] + (base_pitch[f] + delta_pitch[f]) * weight[k] + bias[k]` |
| `Variance.EnergyConditionShiftsPitchCondition` | modules/toplevel.py:160-168 | with the same projection, the energy condition is the pitch condition shifted at each frame by `delta_pitch[f] * weight` |
| `Variance.VarianceModel.constructor` | modules/toplevel.py:52-128 | `base_pitch_embed` and the pitch head exist exactly when pitch is predicted. `pitch_embed` and the repetitive energy head exist exactly when energy is predicted |
| `Variance.VarianceModel.Build` | modules/toplevel.py:59-103 | construction fails exactly when pitch is predicted with an unknown mode. Otherwise the pitch head is the one the mode selects |
| `Variance.VarianceModel.FrameCondition` | modules/toplevel.py:156-158 | the condition has one hidden-width row per `mel2ph` entry: zeros for a 0 entry, encoder row `u - 1` for entry `u > 0` |
| `Variance.VarianceModel.PitchStage` | modules/toplevel.py:160-164 | no output exactly when pitch is not predicted. Otherwise a missing `pitch_embed` (energy not predicted) fails first, with `MissingAttribute`, and then a missing `base_pitch` fails with `MissingInput`. Else the pitch head is called on the pitch condition with the caller's `delta_pitch` and `infer` |
| `Variance.VarianceModel.EnergyStage` | modules/toplevel.py:166-171 | no output exactly when energy is not predicted. Otherwise a missing `base_pitch`, then a missing `delta_pitch`, fails with `MissingInput`. Else the energy head is called on the energy condition built from the caller's `delta_pitch`, with `energy` and `infer` |
| `Variance.VarianceModel.Forward` | modules/toplevel.py:142-173 | with no stage enabled, returns `(dur_pred_out, None, None)` and ignores the alignment. With a stage enabled, a missing `mel2ph` or `dur_cascade` gives `NotImplemented`, and pitch without energy gives `MissingAttribute`. States exactly when the pass succeeds. On success, the first component is the encoder's durations, and each stage's output is absent exactly when its flag is off. The pitch head gets condition + embed(base_pitch). The energy head gets condition + embed(base_pitch + delta_pitch), built from the argument |
| `Variance.EnergyIgnoresPitchHead` | modules/toplevel.py:166-169 | two models that differ only in the pitch head give the same energy output |

## Left out

- Encoder internals: `FastSpeech2Acoustic` and `FastSpeech2Variance` are function-typed parameters. Their shape promises are a class invariant: one row of hidden width per phoneme, and one condition frame per alignment entry.
- Diffusion internals: `GaussianDiffusion`, `RepetitiveDiffusion`, `CurveDiffusion1d` and `CurveDiffusion2d` are descriptors of their constructor arguments plus a function-typed call. Not modelled: the noise schedule, the sampling loop, the `K_step` horizon and the target encodings.
- `10 ** (db / 20)` is a parameter `pow10`. Floating-point exponentiation is not modelled.
- The Xavier initialisation of the `Linear` layers is not modelled. Their weights are parameters.
- `LengthRegulator` is built but never called, so it is not part of this model.
- The commented-out `PitchPredictor` and `VariancePredictor` are dead code.
- The `category` properties are constant tags with no behaviour.
- `vocab_size` only reaches the encoders.
- The extra keyword arguments (`**kwargs`) the acoustic forward pass passes on to its encoder are not modelled: they reach only the encoder, which is a parameter here.
- Batch axis and broadcasting: one item is modelled. Curves must have one value per frame, and alignment entries must be at most the phoneme count. Size-1 broadcasting is not modelled.
- Floating point: reals are exact. NaN and infinity, where `x * 0` is not 0, are not modelled.
- Acoustic.MaskInPlace: the spectrogram is a buffer of frame rows, and each row is replaced by its rescaled copy rather than updated element by element.
