/** The tensor shapes and the two shape-checked tensor operations the codec
    glue uses between its networks: concatenation along the channel axis
    (torch.cat(..., dim=1)) and a linear layer applied frame by frame
    (nn.Linear on the channel axis).  Both raise on mismatched shapes, which
    the model turns into an Err value.  Transposes are axis bookkeeping and
    are not represented: a Tensor names its axes. */
module Tensors {

  /** The channel vector of one frame. */
  type Vec = seq<real>

  datatype Error =
    | ConcatMismatch(leftBatch: nat, leftFrames: nat, rightBatch: nat, rightFrames: nat)
    | ChannelMismatch(expected: nat, actual: nat)

  datatype Result<T> = Ok(value: T) | Err(error: Error) {
    predicate IsFailure() { Err? }

    function PropagateFailure<U>(): Result<U>
      requires Err?
    {
      Err(error)
    }

    function Extract(): T
      requires Ok?
    {
      value
    }
  }

  /** A [batch, channels, frames] tensor; data[i][n] is the channel vector of
      frame n in batch row i. */
  datatype Tensor = Tensor(batch: nat, channels: nat, frames: nat, data: seq<seq<Vec>>) {
    predicate Valid() {
      && |data| == batch
      && (forall i :: 0 <= i < batch ==> |data[i]| == frames)
      && (forall i, n :: 0 <= i < batch && 0 <= n < frames ==> |data[i][n]| == channels)
    }
  }

  /** A [batch, frames] matrix of codebook indices. */
  datatype Codes = Codes(batch: nat, frames: nat, indices: seq<seq<int>>) {
    predicate Valid() {
      |indices| == batch && forall i :: 0 <= i < batch ==> |indices[i]| == frames
    }
  }

  /** torch.cat([a, b], dim=1): the channel vectors of each frame are joined;
      batch size and frame count must agree. */
  function Concat(a: Tensor, b: Tensor): (r: Result<Tensor>)
    requires a.Valid() && b.Valid()
    ensures r.Ok? <==> a.batch == b.batch && a.frames == b.frames
    ensures r.Err? ==> r.error == ConcatMismatch(a.batch, a.frames, b.batch, b.frames)
    ensures r.Ok? ==> r.value.Valid() && r.value.batch == a.batch && r.value.frames == a.frames
    ensures r.Ok? ==> r.value.channels == a.channels + b.channels
    ensures r.Ok? ==> forall i, n :: 0 <= i < a.batch && 0 <= n < a.frames ==>
                        r.value.data[i][n][..a.channels] == a.data[i][n] &&
                        r.value.data[i][n][a.channels..] == b.data[i][n]
  {
    if a.batch != b.batch || a.frames != b.frames then
      Err(ConcatMismatch(a.batch, a.frames, b.batch, b.frames))
    else
      Ok(Tensor(a.batch, a.channels + b.channels, a.frames,
                seq(a.batch, i requires 0 <= i < a.batch =>
                  seq(a.frames, n requires 0 <= n < a.frames => a.data[i][n] + b.data[i][n]))))
  }

  /** An nn.Linear layer: its declared feature counts and the per-vector map
      its weights compute (the weights themselves are not modelled). */
  datatype Linear = Linear(inFeatures: nat, outFeatures: nat, apply: Vec -> Vec) {
    ghost predicate Valid() {
      forall v: Vec :: |v| == inFeatures ==> |apply(v)| == outFeatures
    }
  }

  /** The layer applied to the channel vector of every frame; the channel
      count must be the layer's input feature count. */
  function ApplyLinear(l: Linear, x: Tensor): (r: Result<Tensor>)
    requires l.Valid() && x.Valid()
    ensures r.Ok? <==> x.channels == l.inFeatures
    ensures r.Err? ==> r.error == ChannelMismatch(l.inFeatures, x.channels)
    ensures r.Ok? ==> r.value.Valid() && r.value.batch == x.batch && r.value.frames == x.frames
    ensures r.Ok? ==> r.value.channels == l.outFeatures
    ensures r.Ok? ==> forall i, n :: 0 <= i < x.batch && 0 <= n < x.frames ==>
                        r.value.data[i][n] == l.apply(x.data[i][n])
  {
    if x.channels != l.inFeatures then
      Err(ChannelMismatch(l.inFeatures, x.channels))
    else
      Ok(Tensor(x.batch, l.outFeatures, x.frames,
                seq(x.batch, i requires 0 <= i < x.batch =>
                  seq(x.frames, n requires 0 <= n < x.frames => l.apply(x.data[i][n])))))
  }
}
