/** Expansion of a unit-level condition to frame level by an alignment map
    `mel2ph`: entry `f` names the unit (counted from 1) that frame `f` belongs
    to, and 0 marks a padding frame. The unit rows get one zero row prepended,
    so that index 0 reads zeros, and the frames are gathered from the result. */
module Alignment {
  import opened Common

  /** Every entry of the alignment names the sentinel or one of `units` units. */
  predicate AlignmentFits(mel2ph: seq<nat>, units: nat)
  {
    forall f :: 0 <= f < |mel2ph| ==> mel2ph[f] <= units
  }

  /** `F.pad(encoder_out, [0, 0, 1, 0])`: one row of zeros before the first unit. */
  function PadUnits(units: Frames, h: nat): (p: Frames)
    ensures |p| == |units| + 1
    ensures p[0] == Zeros(h)
    ensures forall u :: 0 <= u < |units| ==> p[u + 1] == units[u]
  {
    [Zeros(h)] + units
  }

  /** `torch.gather` along the frame axis: output row `f` is `src[index[f]]`. */
  function Gather(src: Frames, index: seq<nat>): (g: Frames)
    requires forall f :: 0 <= f < |index| ==> index[f] < |src|
    ensures |g| == |index|
    ensures forall f :: 0 <= f < |index| ==> g[f] == src[index[f]]
  {
    seq(|index|, f requires 0 <= f < |index| => src[index[f]])
  }

  /** The frame-level condition: one row per alignment entry, of hidden width;
      a padding frame is all zeros and frame `f` of unit `u >= 1` is the
      encoder row `u - 1`. */
  function Expand(units: Frames, mel2ph: seq<nat>, h: nat): (cond: Frames)
    requires Rectangular(units, h)
    requires AlignmentFits(mel2ph, |units|)
    ensures |cond| == |mel2ph|
    ensures Rectangular(cond, h)
    ensures forall f :: 0 <= f < |mel2ph| && mel2ph[f] == 0 ==> cond[f] == Zeros(h)
    ensures forall f :: 0 <= f < |mel2ph| && mel2ph[f] > 0 ==> cond[f] == units[mel2ph[f] - 1]
  {
    Gather(PadUnits(units, h), mel2ph)
  }

  /** Expansion works frame by frame: expanding two pieces of an alignment and
      concatenating gives the expansion of the concatenated alignment. */
  lemma ExpandConcat(units: Frames, a: seq<nat>, b: seq<nat>, h: nat)
    requires Rectangular(units, h)
    requires AlignmentFits(a, |units|) && AlignmentFits(b, |units|)
    ensures AlignmentFits(a + b, |units|)
    ensures Expand(units, a + b, h) == Expand(units, a, h) + Expand(units, b, h)
  {
  }

  /** The condition reads only the encoder rows some frame names: two unit
      tensors that agree on those rows expand to the same condition. */
  lemma ExpandReadsOnlyNamedUnits(u1: Frames, u2: Frames, mel2ph: seq<nat>, h: nat)
    requires Rectangular(u1, h) && Rectangular(u2, h)
    requires AlignmentFits(mel2ph, |u1|) && AlignmentFits(mel2ph, |u2|)
    requires forall f :: 0 <= f < |mel2ph| && mel2ph[f] > 0 ==> u1[mel2ph[f] - 1] == u2[mel2ph[f] - 1]
    ensures Expand(u1, mel2ph, h) == Expand(u2, mel2ph, h)
  {
  }
}
