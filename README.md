# XCodec2 encode/decode orchestration, modelled in Dafny

XCodec2 is a neural speech codec. It turns a batch of 16 kHz waveforms into one
codebook index per 20 ms frame and turns those codes back into audio. This
project models the orchestration in `XCodec2Model`, without the networks:

- **Waveform alignment** (`alignment.dfy`, module `Alignment`). `forward`,
  `encode_feats` and `encode_code` (and `encode_qfeats` through
  `encode_feats`) pad the input on the right with `320 - T % 320` zeros. This pad is
  never 0: an input that is already a whole number of frames gets one more
  full frame. The semantic branch gets its own copy with 160 zeros on each
  side. The model is generic in the sample type and its zero, and proves the
  length, divisibility, prefix and zero-fill facts. It also proves that the
  aligned length is the least multiple of 320 strictly above `T`, and that
  trimming undoes alignment. It also counts frames: ceil(T/320) frames hold
  input, and exactly one more frame of pure padding appears when `T` is a
  multiple of 320.
- **Shape-checked tensor glue** (`tensors.dfy`, module `Tensors`).
  `torch.cat(..., dim=1)` joins channel vectors frame by frame. It raises
  unless the batch size and frame count agree. `nn.Linear` maps each frame's
  channel vector. It raises unless the channel count equals its input width.
  Both raises become `Err` values.
- **Stage composition** (`xcodec2.dfy`, module `XCodec2`). Each network is an
  opaque function held by the `XCodec2Model` record:
  - the feature extractor plus the semantic model's layer 16;
  - `SemanticEncoder_module`;
  - `CodecEnc`;
  - `generator(…, vq=True)`;
  - `get_output_from_indices`;
  - `generator(…, vq=False)`.

  The two linear layers keep their declared widths (2048→2048 and
  2048→1024). `XCodec2Model.Valid()` gathers the shape contracts the code
  relies on: batch sizes are kept and channel counts are fixed. The frame
  counts of the two branches are left free. The pretrained semantic model's
  output width is its own field, apart from `semantic_hidden_size`, the width
  `SemanticEncoder_module` is built for.

  `forward`, `encode_feats`, `encode_code`, `encode_qfeats` and
  `decode_code` are written out stage by stage, as the class writes them.
  Lemmas show how they relate:
  - `encode_code` and `encode_qfeats` are the two outputs of one quantizer
    call on `encode_feats`;
  - `forward` is `decode_code` after `encode_code`;
  - two inputs with the same codes reconstruct identically.

  Encoding succeeds exactly when three things hold:
  - the semantic model's width equals `semantic_hidden_size`; otherwise
    `SemanticEncoder_module` rejects its input;
  - that width is 1024, so that 1024 + 1024 channels meet `fc_prior`'s 2048;
  - the two branches agree on frame count.

  The demo input of 2 × 16000 samples is treated under two length contracts
  of the networks: `CodecEnc` gives one frame per 320 samples, and the
  vocoder gives 320 samples per frame. It then encodes exactly when the widths
  fit and the semantic branch also yields 51 frames. In that case it gives
  2 × 51 codes. These decode exactly when the lookup yields 2048 channels, and
  then to 2 × 16320 samples.

Calls are deterministic because they are Dafny functions. The pipeline keeps
no state between calls. The networks are fields of an immutable record that
is built once.

Where the code and its comments differ, the model follows the code:
- The comment at `xcodec2/modeling_xcodec2.py:216` gives the looked-up
  embedding 1024 channels. `fc_post_a` is `nn.Linear(2048, 1024)`, so as
  written decoding needs 2048 channels there. `DecodeCode` succeeds exactly
  when the lookup yields 2048 channels. Otherwise it returns
  `ChannelMismatch(2048, …)`.
- `decode_code` checks no code index (xcodec2/modeling_xcodec2.py:213-215),
  so the model has no invalid-code error.
- A frame-count mismatch between the branches is not checked separately.
  It surfaces where `torch.cat` raises, as `ConcatMismatch`.

## Model

| member | source | states |
|---|---|---|
| `Alignment.PadAmount` | xcodec2/modeling_xcodec2.py:60 | the pad lies in [1, 320] and is never 0; T + pad is a multiple of 320; the pad is a full 320 exactly when T is already a multiple of 320 |
| `Alignment.Align` | xcodec2/modeling_xcodec2.py:59-62 | every row gets the same pad, derived from the time dimension; the aligned length is T + pad, a multiple of 320 and greater than T; the original samples are an unchanged prefix of each row and everything after them is zero |
| `Alignment.ContextPadded` | xcodec2/modeling_xcodec2.py:65 | the semantic-branch copy is 320 samples longer; the aligned row sits at offset 160; the first 160 and last 160 samples of each row are zero |
| `Alignment.AlignedLength` | xcodec2/modeling_xcodec2.py:60-62 | T + pad equals (T / 320 + 1) * 320 under integer division, so the aligned waveform has T / 320 + 1 frames |
| `Alignment.AlignedIsLeastMultipleAbove` | xcodec2/modeling_xcodec2.py:60-62 | the aligned length is no greater than any multiple of 320 that exceeds T, so it is the least multiple of 320 strictly above T |
| `Alignment.PaddingOnlyFramesCount` | xcodec2/modeling_xcodec2.py:60-62 | the frames of the aligned waveform that hold only padding are exactly {T / 320} when T is a multiple of 320 and none otherwise, so the edge case adds exactly one frame of pure zeros |
| `Alignment.FrameCensus` | xcodec2/modeling_xcodec2.py:60-62 | ceil(T / 320) aligned frames hold input samples; no frame is both an input frame and a padding-only frame; input frames and padding-only frames together make up all T / 320 + 1 frames |
| `Alignment.AlignThenTrim` | xcodec2/modeling_xcodec2.py:62 | alignment loses nothing: cutting every aligned row back to T samples gives back the input batch |
| `Alignment.SemanticInputLayout` | xcodec2/modeling_xcodec2.py:60-65 | each row of the semantic input is 160 zeros, then the original samples, then pad + 160 zeros |
| `Alignment.DemoAlignment` | xcodec2/modeling_xcodec2.py:272-273 | for 2 rows of 16000 samples, the pad is a full 320 frame; the result is 16320 samples, which is 51 frames, with zeros from 16000 on; the semantic input is 16640 samples; 50 frames hold input and frame 50 is pure padding |
| `Tensors.Concat` | xcodec2/modeling_xcodec2.py:86-88 | the concatenation succeeds exactly when batch size and frame count agree, and otherwise reports both shapes; each frame's channels are the semantic channels followed by the acoustic ones, so channel counts add up |
| `Tensors.ApplyLinear` | xcodec2/modeling_xcodec2.py:90-91 | the layer succeeds exactly when the channel count is its input width, and otherwise reports the mismatch; batch and frames are kept; every frame is mapped by the same layer to the output width |
| `XCodec2.XCodec2Model.Valid` | xcodec2/modeling_xcodec2.py:17-44 | the networks built by the constructor keep the batch size and emit their fixed channel counts; fc_prior is 2048→2048 and fc_post_a 2048→1024, so the two 1024-channel streams exactly fill fc_prior's input and fc_post_a takes the width fc_prior emits |
| `XCodec2.SemanticBranch` | xcodec2/modeling_xcodec2.py:64-78 | the semantic branch runs on the context-padded copy; it succeeds exactly when the semantic model's width is semantic_hidden_size, and otherwise reports that SemanticEncoder_module expected semantic_hidden_size channels; on success it yields a well-formed tensor with the input's batch size, semantic_hidden_size channels and the semantic model's frame count |
| `XCodec2.AcousticBranch` | xcodec2/modeling_xcodec2.py:81-83 | the acoustic branch runs on the aligned waveform without context padding and yields the input's batch size with 1024 channels |
| `XCodec2.Quantize` | xcodec2/modeling_xcodec2.py:198 | the quantized features and the codes keep the fused latents' batch size and frame count |
| `XCodec2.Lookup` | xcodec2/modeling_xcodec2.py:213-216 | the embedding lookup yields one vector per code, with the codes' batch size and frame count |
| `XCodec2.Synthesize` | xcodec2/modeling_xcodec2.py:224-226 | the vocoder yields one waveform row per batch row |
| `XCodec2.EncodeFeats` | xcodec2/modeling_xcodec2.py:108-142 | encode_feats succeeds exactly when the semantic model's width is semantic_hidden_size, that size is 1024, and the two branches have the same frame count; the first failing stage reports the error: a width mismatch at SemanticEncoder_module, then a frame mismatch at the concatenation, then a hidden size other than 1024 at fc_prior as 2048 expected; on success the fused latents have the input's batch size, the acoustic frame count and 2048 channels |
| `XCodec2.EncodeQFeats` | xcodec2/modeling_xcodec2.py:144-147 | encode_qfeats succeeds exactly when encode_feats does and keeps its batch size and frame count |
| `XCodec2.EncodeCode` | xcodec2/modeling_xcodec2.py:149-200 | encode_code succeeds under the same condition as encode_feats; its codes have one row per input row and one code per acoustic frame |
| `XCodec2.DecodeCode` | xcodec2/modeling_xcodec2.py:202-227 | decode_code succeeds exactly when the looked-up embeddings have fc_post_a's 2048 input channels, and otherwise reports the mismatch; it yields one waveform row per code row; no index is validated |
| `XCodec2.Forward` | xcodec2/modeling_xcodec2.py:46-106 | forward succeeds only when the widths fit as for encode_feats and the two branches agree on frame count; it then yields one reconstructed row per input row |
| `XCodec2.EncodeCodeQuantizesFeats` | xcodec2/modeling_xcodec2.py:144-200 | encode_code and encode_qfeats succeed exactly when encode_feats does; on failure encode_code reports encode_feats' error; on success the one quantizer call on encode_feats' output returns exactly (encode_qfeats, encode_code) |
| `XCodec2.ForwardIsDecodeOfEncode` | xcodec2/modeling_xcodec2.py:57-104 | forward returns encode_code's error when encoding fails, and otherwise returns exactly decode_code of encode_code |
| `XCodec2.SameCodesSameReconstruction` | xcodec2/modeling_xcodec2.py:202-227 | decode_code depends only on the codes: two inputs, at any sample rates, whose encodings are equal (the same codes, or the same error) give the same forward result |
| `XCodec2.CodeFrameCount` | xcodec2/modeling_xcodec2.py:161-200 | if CodecEnc emits one frame per 320 samples, encode_code emits one code per aligned frame, which is T / 320 + 1 codes per row |
| `XCodec2.ReconstructionLength` | xcodec2/modeling_xcodec2.py:57-106 | if CodecEnc downsamples by 320 and the vocoder upsamples by 320, forward returns one row per input row, each of length T + pad; the alignment padding is not removed |
| `XCodec2.DemoEncodeDecode` | xcodec2/modeling_xcodec2.py:272-274 | under the same two length contracts and the default sample rate, 2 rows of 16000 samples encode exactly when the widths fit and the semantic branch yields 51 frames, and then to 2 × 51 codes; these decode exactly when the lookup yields 2048 channels, and then to 2 rows of 16320 samples |

## Left out

- Network internals: the semantic model, `SemanticEncoder`,
  `CodecEncoder_Transformer`, `CodecDecoderVocos` and its quantizer are
  opaque functions. Only their shape contracts are kept, in
  `XCodec2Model.Valid()`. Their floating-point computation is not shown and
  not modelled. Samples and features are `real`, with no rounding.
- The frame count of the semantic branch is determined by the external
  feature extractor, so the model leaves it free. The feature extractor and
  the semantic model are one opaque stage here, and choosing hidden layer 16
  happens inside it.
- The downsampling of `CodecEnc` and the upsampling of the vocoder by 320 are
  not visible in this code. They are hypotheses of the length lemmas
  (`AcousticDownsamples`, `SynthesisUpsamples`), not part of `Valid()`.
- The quantizer's nearest-codebook choice, the range of the indices, and the
  codebook itself are internal to the generator and are not modelled. Codes
  are a [batch, frames] matrix of integers. The quantizer-count axis that
  `transpose(1, 2)` moves is dropped. The generator's third output is
  ignored, as in the code.
- The weights of `fc_prior` and `fc_post_a`: each layer is a per-vector map
  with its declared widths.
- Loading pretrained weights and the feature extractor (network and disk
  input/output).
- Device placement, `torch.no_grad`, `transpose`, `unbind` and `unsqueeze`
  only move data or switch off gradients. A tensor here names its axes
  instead of ordering them.
- `sample_rate` defaults to 16000, as in the code, and is passed to the
  semantic stage unchanged. The code never validates it.
- `encode_batch_feats` (xcodec2/modeling_xcodec2.py:229-265) is not modelled.
  It takes caller-prepared features and a waveform with no alignment. After
  that it runs the same concatenation, `fc_prior` and quantizer stages as
  `EncodeCode`.
- The `__main__` demo's loading, random input and printing. Only its input
  shape is used, in `DemoAlignment` and `DemoEncodeDecode`.
- The reconstruction quality of a decode/encode round trip is not modelled.
  That quality is a property of the trained networks.
