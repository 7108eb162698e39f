/** Values shared by every part of the model: optional values, the outcome of a
    forward pass that may raise, per-frame vectors, and the one-input linear
    projection that embeds a pitch curve into hidden space. The batch axis of
    the original tensors is dropped: every value here is one item. */
module Common {

  datatype Option<+T> = None | Some(value: T)

  /** The exceptions the orchestration code raises, as values. */
  datatype Error =
      /** `NotImplementedError` raised while building the variance model for an
          unrecognised `diff_predictor_mode`. */
    | UnknownPredictorMode(mode: string)
      /** `NotImplementedError` raised by the variance forward pass when no
          alignment is given or `dur_cascade` is requested. */
    | NotImplemented
      /** `AttributeError` on a sub-module the constructor did not create. */
    | MissingAttribute(name: string)
      /** `TypeError` from using an argument that was left as `None`. */
    | MissingInput(name: string)

  datatype Result<+R> = Success(value: R) | Failure(error: Error)

  /** One frame (or one unit) of a tensor: a vector of reals. */
  type Vector = seq<real>

  /** A tensor of shape [frames, width] with the batch axis dropped. */
  type Frames = seq<Vector>

  function Zeros(n: nat): (z: Vector)
    ensures |z| == n
    ensures forall i :: 0 <= i < n ==> z[i] == 0.0
  {
    seq(n, _ => 0.0)
  }

  /** Every row of `x` has width `w`. */
  predicate Rectangular(x: Frames, w: nat)
  {
    forall i :: 0 <= i < |x| ==> |x[i]| == w
  }

  /** Element-wise sum of two vectors (or two curves) of equal length. */
  function AddVectors(a: Vector, b: Vector): (c: Vector)
    requires |a| == |b|
    ensures |c| == |a|
    ensures forall i :: 0 <= i < |a| ==> c[i] == a[i] + b[i]
  {
    seq(|a|, i requires 0 <= i < |a| => a[i] + b[i])
  }

  /** Element-wise sum of two tensors of the same shape, `a + b`. */
  function AddFrames(a: Frames, b: Frames): (c: Frames)
    requires |a| == |b|
    requires forall f :: 0 <= f < |a| ==> |a[f]| == |b[f]|
    ensures |c| == |a|
    ensures forall f :: 0 <= f < |a| ==> c[f] == AddVectors(a[f], b[f])
  {
    seq(|a|, f requires 0 <= f < |a| => AddVectors(a[f], b[f]))
  }

  /** `c * v` for a scalar `c`. */
  function ScaleVector(v: Vector, c: real): (w: Vector)
    ensures |w| == |v|
  {
    seq(|v|, i requires 0 <= i < |v| => c * v[i])
  }

  /** A `Linear(1, H)` layer: the output for input `x` is `x * weight + bias`.
      Its weights come from initialisation and training and are parameters here. */
  datatype Linear = Linear(weight: Vector, bias: Vector)

  /** The layer maps into a hidden space of width `h`. */
  predicate LinearFits(l: Linear, h: nat)
  {
    |l.weight| == h && |l.bias| == h
  }

  function ApplyLinear(l: Linear, x: real): (y: Vector)
    requires |l.weight| == |l.bias|
    ensures |y| == |l.weight|
    ensures forall i :: 0 <= i < |y| ==> y[i] == x * l.weight[i] + l.bias[i]
  {
    seq(|l.weight|, i requires 0 <= i < |l.weight| => x * l.weight[i] + l.bias[i])
  }

  /** `l(curve[:, :, None])`: the layer applied to every frame of a scalar curve. */
  function EmbedCurve(l: Linear, curve: seq<real>): (e: Frames)
    requires |l.weight| == |l.bias|
    ensures |e| == |curve|
    ensures Rectangular(e, |l.weight|)
    ensures forall f :: 0 <= f < |curve| ==> e[f] == ApplyLinear(l, curve[f])
  {
    seq(|curve|, f requires 0 <= f < |curve| => ApplyLinear(l, curve[f]))
  }

  /** The projection is affine: shifting its input by `d` shifts its output by
      `d * weight`, whatever the bias. */
  lemma ApplyLinearShift(l: Linear, x: real, d: real)
    requires |l.weight| == |l.bias|
    ensures ApplyLinear(l, x + d) == AddVectors(ApplyLinear(l, x), ScaleVector(l.weight, d))
  {
  }
}
