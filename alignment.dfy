/** The waveform aligner that opens every encoding entry point of the codec:
    the input is padded on the right with zeros up to a whole number of
    320-sample frames, and the semantic branch additionally sees a copy with
    160 zeros of context on each side.  The sample type is a parameter; the
    codec itself uses real amplitudes with zero 0.0. */
module Alignment {

  /** Samples per code frame (20 ms at 16 kHz). */
  const FrameStride: nat := 320

  /** Zeros put on each side of the semantic-branch input. */
  const ContextPad: nat := 160

  /** A [batch, time] waveform tensor.  `len` is the time dimension; it is
      kept explicitly because a tensor has it even when the batch is empty. */
  datatype Batch<S> = Batch(len: nat, rows: seq<seq<S>>) {
    predicate Rectangular() {
      forall i :: 0 <= i < |rows| ==> |rows[i]| == len
    }
  }

  function Zeros<S>(n: nat, zero: S): (z: seq<S>)
    ensures |z| == n
    ensures forall k :: 0 <= k < n ==> z[k] == zero
  {
    seq(n, _ => zero)
  }

  /** Constant padding of one row on its last axis, as F.pad(x, (left, right)). */
  function PadRow<S>(row: seq<S>, left: nat, right: nat, zero: S): (r: seq<S>)
    ensures |r| == left + |row| + right
    ensures r[left..left + |row|] == row
    ensures forall k :: 0 <= k < left ==> r[k] == zero
    ensures forall k :: left + |row| <= k < |r| ==> r[k] == zero
  {
    Zeros(left, zero) + row + Zeros(right, zero)
  }

  /** F.pad applied to a whole [batch, time] tensor: every row gets the same padding. */
  function PadBatch<S>(b: Batch<S>, left: nat, right: nat, zero: S): (r: Batch<S>)
    requires b.Rectangular()
    ensures r.Rectangular()
    ensures r.len == left + b.len + right && |r.rows| == |b.rows|
    ensures forall i :: 0 <= i < |b.rows| ==> r.rows[i] == PadRow(b.rows[i], left, right, zero)
  {
    Batch(left + b.len + right,
          seq(|b.rows|, i requires 0 <= i < |b.rows| => PadRow(b.rows[i], left, right, zero)))
  }

  /** pad_for_wav: never 0, a whole extra frame when t is already a multiple. */
  function PadAmount(t: nat): (p: nat)
    ensures 1 <= p <= FrameStride
    ensures (t + p) % FrameStride == 0
    ensures p == FrameStride <==> t % FrameStride == 0
  {
    FrameStride - t % FrameStride
  }

  /** The aligned waveform: zeros appended on the right of every row, the pad
      being derived from the tensor's time dimension. */
  function Align<S>(wav: Batch<S>, zero: S): (a: Batch<S>)
    requires wav.Rectangular()
    ensures a.Rectangular() && |a.rows| == |wav.rows|
    ensures a.len == wav.len + PadAmount(wav.len)
    ensures a.len % FrameStride == 0 && wav.len < a.len
    ensures forall i :: 0 <= i < |wav.rows| ==> a.rows[i][..wav.len] == wav.rows[i]
    ensures forall i, k :: 0 <= i < |a.rows| && wav.len <= k < a.len ==> a.rows[i][k] == zero
  {
    PadBatch(wav, 0, PadAmount(wav.len), zero)
  }

  /** The semantic-branch input: ContextPad zeros on both sides of the aligned waveform. */
  function ContextPadded<S>(aligned: Batch<S>, zero: S): (c: Batch<S>)
    requires aligned.Rectangular()
    ensures c.Rectangular() && |c.rows| == |aligned.rows|
    ensures c.len == aligned.len + 2 * ContextPad
    ensures forall i :: 0 <= i < |aligned.rows| ==>
              c.rows[i][ContextPad..ContextPad + aligned.len] == aligned.rows[i]
    ensures forall i, k :: 0 <= i < |c.rows| && 0 <= k < ContextPad ==> c.rows[i][k] == zero
    ensures forall i, k :: 0 <= i < |c.rows| && ContextPad + aligned.len <= k < c.len ==>
              c.rows[i][k] == zero
  {
    PadBatch(aligned, ContextPad, ContextPad, zero)
  }

  /** The first n samples of every row: the inverse of alignment. */
  function Trim<S>(b: Batch<S>, n: nat): (r: Batch<S>)
    requires b.Rectangular() && n <= b.len
    ensures r.Rectangular() && r.len == n && |r.rows| == |b.rows|
  {
    Batch(n, seq(|b.rows|, i requires 0 <= i < |b.rows| => b.rows[i][..n]))
  }

  /** The aligned length is the next multiple of the frame stride under
      integer division, so the frame count is t / FrameStride + 1. */
  lemma AlignedLength(t: nat)
    ensures t + PadAmount(t) == (t / FrameStride + 1) * FrameStride
    ensures (t + PadAmount(t)) / FrameStride == t / FrameStride + 1
  {
    var q, r := t / FrameStride, t % FrameStride;
    assert t == q * FrameStride + r;
    assert t + PadAmount(t) == q * FrameStride + FrameStride;
  }

  /** Independent characterisation: the aligned length is the least multiple
      of the frame stride that is strictly greater than t. */
  lemma AlignedIsLeastMultipleAbove(t: nat, m: nat)
    requires m % FrameStride == 0 && t < m
    ensures t < t + PadAmount(t) <= m
  {
    AlignedLength(t);
    var q, k := t / FrameStride, m / FrameStride;
    assert m == k * FrameStride;
    assert t < (q + 1) * FrameStride;
  }

  /** The frames of the aligned waveform that hold no input sample, only padding. */
  ghost function PaddingOnlyFrames(t: nat): set<nat>
  {
    set n: nat | n < (t + PadAmount(t)) / FrameStride && t <= n * FrameStride
  }

  /** The edge case at frame level: alignment adds a frame of pure padding,
      the last one, exactly when t is already a whole number of frames;
      otherwise every frame holds some input. */
  lemma {:induction false} PaddingOnlyFramesCount(t: nat)
    ensures PaddingOnlyFrames(t) == if t % FrameStride == 0 then {t / FrameStride} else {}
    ensures |PaddingOnlyFrames(t)| == if t % FrameStride == 0 then 1 else 0
  {
    AlignedLength(t);
    var q := t / FrameStride;
    forall n: nat | n in PaddingOnlyFrames(t) ensures n == q && t % FrameStride == 0 {
      assert n <= q;
      assert n * FrameStride <= q * FrameStride;
      assert t == q * FrameStride + t % FrameStride;
    }
    if t % FrameStride == 0 {
      assert q in PaddingOnlyFrames(t);
      assert PaddingOnlyFrames(t) == {q};
    } else {
      assert PaddingOnlyFrames(t) == {};
    }
  }

  /** The frames of the aligned waveform that hold at least one input sample. */
  ghost function InputFrames(t: nat): set<nat>
  {
    set n: nat | n < (t + PadAmount(t)) / FrameStride && n * FrameStride < t
  }

  /** The frame indices 0 .. k - 1. */
  ghost function FrameIndices(k: nat): (s: set<nat>)
    ensures |s| == k
    ensures forall n: nat :: n in s <==> n < k
  {
    if k == 0 then {} else FrameIndices(k - 1) + {k - 1}
  }

  /** Frame census of the aligned waveform: ceil(t / FrameStride) frames
      hold input, and with the frames of pure padding they make up all
      t / FrameStride + 1 frames. */
  lemma {:induction false} FrameCensus(t: nat)
    ensures |InputFrames(t)| == (t + FrameStride - 1) / FrameStride
    ensures InputFrames(t) !! PaddingOnlyFrames(t)
    ensures |InputFrames(t)| + |PaddingOnlyFrames(t)| == t / FrameStride + 1
  {
    AlignedLength(t);
    var c := (t + FrameStride - 1) / FrameStride;
    assert InputFrames(t) == FrameIndices(c);
    PaddingOnlyFramesCount(t);
  }

  /** Alignment loses nothing: trimming back to the original length gives the input. */
  lemma AlignThenTrim<S>(wav: Batch<S>, zero: S)
    requires wav.Rectangular()
    ensures Trim(Align(wav, zero), wav.len) == wav
  {
    var a := Align(wav, zero);
    var t := Trim(a, wav.len);
    assert |t.rows| == |wav.rows|;
    forall i | 0 <= i < |wav.rows| ensures t.rows[i] == wav.rows[i] {
      assert t.rows[i] == a.rows[i][..wav.len];
    }
  }

  /** Row by row, the semantic branch sees ContextPad zeros, the original
      samples, then PadAmount + ContextPad zeros. */
  lemma SemanticInputLayout<S>(wav: Batch<S>, zero: S, i: nat)
    requires wav.Rectangular() && i < |wav.rows|
    ensures ContextPadded(Align(wav, zero), zero).rows[i]
            == Zeros(ContextPad, zero) + wav.rows[i] + Zeros(PadAmount(wav.len) + ContextPad, zero)
  {
    var p := PadAmount(wav.len);
    var a := Align(wav, zero);
    assert Zeros(0, zero) == [];
    assert a.rows[i] == wav.rows[i] + Zeros(p, zero);
    assert ContextPadded(a, zero).rows[i] == Zeros(ContextPad, zero) + a.rows[i] + Zeros(ContextPad, zero);
    assert Zeros(p, zero) + Zeros(ContextPad, zero) == Zeros(p + ContextPad, zero);
  }

  /** The demonstration input of two rows of 16000 samples: already a whole
      number of frames, it still gets a full frame of zeros and becomes
      16320 samples, that is 51 frames: 50 of input and frame 50 of pure
      padding. */
  lemma DemoAlignment(wav: Batch<real>)
    requires wav.Rectangular() && wav.len == 16000 && |wav.rows| == 2
    ensures PadAmount(wav.len) == FrameStride
    ensures Align(wav, 0.0).len == 16320 && Align(wav, 0.0).len / FrameStride == 51
    ensures forall i, k :: 0 <= i < 2 && 16000 <= k < 16320 ==> Align(wav, 0.0).rows[i][k] == 0.0
    ensures ContextPadded(Align(wav, 0.0), 0.0).len == 16640
    ensures |InputFrames(wav.len)| == 50 && PaddingOnlyFrames(wav.len) == {50}
  {
    FrameCensus(wav.len);
  }
}
