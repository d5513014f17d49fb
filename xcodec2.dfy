/** XCodec2Model's public entry points as compositions of its stages.  Every
    network is an opaque function held by the model record (they are set
    once when the model is built and only read afterwards) and is known only
    through the shape contract gathered in XCodec2Model.Valid().  The stage
    chains are written out per entry point, as the model class does, and the
    lemmas at the end show that the copies agree. */
module XCodec2 {
  import opened Alignment
  import opened Tensors

  /** Channels of the acoustic encoder's embeddings. */
  const AcousticChannels: nat := 1024
  /** fc_prior = nn.Linear(2048, 2048). */
  const FusedChannels: nat := 2048
  /** fc_post_a = nn.Linear(2048, 1024). */
  const PostChannels: nat := 1024

  /** The model's networks, as built once by its constructor. */
  datatype XCodec2Model = XCodec2Model(
    /** config.semantic_hidden_size, the width SemanticEncoder_module is built for */
    semanticHiddenSize: nat,
    /** channels of the pretrained semantic model's hidden states */
    semanticModelWidth: nat,
    /** feature extractor on the context-padded rows at the given sample
        rate, then the semantic model's hidden layer 16 */
    semanticModel: (Batch<real>, nat) -> Tensor,
    /** SemanticEncoder_module, on inputs of semanticHiddenSize channels */
    semanticEncoder: Tensor -> Tensor,
    /** CodecEnc, on the aligned waveform */
    codecEnc: Batch<real> -> Tensor,
    fcPrior: Linear,
    /** generator(x, vq=True): the quantized features and the codes */
    quantize: Tensor -> (Tensor, Codes),
    /** generator.quantizer.get_output_from_indices */
    lookup: Codes -> Tensor,
    fcPostA: Linear,
    /** generator(x, vq=False)[0] */
    synthesize: Tensor -> Batch<real>
  ) {
    /** The layer sizes fixed by the constructor and the shape contracts of
        the opaque networks.  The two 1024-channel streams exactly fill
        fc_prior's input, and fc_post_a takes the width fc_prior emits. */
    ghost predicate Valid()
      ensures Valid() ==> fcPrior.inFeatures == 2 * AcousticChannels
      ensures Valid() ==> fcPostA.inFeatures == fcPrior.outFeatures
    {
      && fcPrior.inFeatures == FusedChannels && fcPrior.outFeatures == FusedChannels && fcPrior.Valid()
      && fcPostA.inFeatures == FusedChannels && fcPostA.outFeatures == PostChannels && fcPostA.Valid()
      && (forall w: Batch<real>, sr: nat {:trigger semanticModel(w, sr)} :: w.Rectangular() ==>
            semanticModel(w, sr).Valid() && semanticModel(w, sr).batch == |w.rows|
            && semanticModel(w, sr).channels == semanticModelWidth)
      && (forall h: Tensor {:trigger semanticEncoder(h)} :: h.Valid() && h.channels == semanticHiddenSize ==>
            semanticEncoder(h).Valid() && semanticEncoder(h).batch == h.batch
            && semanticEncoder(h).frames == h.frames && semanticEncoder(h).channels == semanticHiddenSize)
      && (forall w: Batch<real> {:trigger codecEnc(w)} :: w.Rectangular() ==>
            codecEnc(w).Valid() && codecEnc(w).batch == |w.rows| && codecEnc(w).channels == AcousticChannels)
      && (forall x: Tensor {:trigger quantize(x)} :: x.Valid() ==>
            quantize(x).0.Valid() && quantize(x).0.batch == x.batch && quantize(x).0.frames == x.frames
            && quantize(x).1.Valid() && quantize(x).1.batch == x.batch && quantize(x).1.frames == x.frames)
      && (forall c: Codes {:trigger lookup(c)} :: c.Valid() ==>
            lookup(c).Valid() && lookup(c).batch == c.batch && lookup(c).frames == c.frames)
      && (forall x: Tensor {:trigger synthesize(x)} :: x.Valid() ==>
            synthesize(x).Rectangular() && |synthesize(x).rows| == x.batch)
    }

    /** The acoustic encoder emits one frame per FrameStride samples. */
    ghost predicate AcousticDownsamples() {
      forall w: Batch<real> {:trigger codecEnc(w)} :: w.Rectangular() ==> codecEnc(w).frames == w.len / FrameStride
    }

    /** The synthesizer emits FrameStride samples per frame. */
    ghost predicate SynthesisUpsamples() {
      forall x: Tensor {:trigger synthesize(x)} :: x.Valid() ==> synthesize(x).len == x.frames * FrameStride
    }
  }

  /** The semantic branch: feature extraction on the context-padded copy,
      the semantic model's hidden layer 16, then SemanticEncoder_module,
      which rejects hidden states that are not semanticHiddenSize wide. */
  function SemanticBranch(m: XCodec2Model, aligned: Batch<real>, sampleRate: nat): (r: Result<Tensor>)
    requires m.Valid() && aligned.Rectangular()
    ensures r.Ok? <==> m.semanticModelWidth == m.semanticHiddenSize
    ensures r.Err? ==> r.error == ChannelMismatch(m.semanticHiddenSize, m.semanticModelWidth)
    ensures r.Ok? ==> r.value.Valid() && r.value.batch == |aligned.rows|
                      && r.value.channels == m.semanticHiddenSize
                      && r.value.frames == m.semanticModel(ContextPadded(aligned, 0.0), sampleRate).frames
  {
    var hidden := m.semanticModel(ContextPadded(aligned, 0.0), sampleRate);
    if hidden.channels != m.semanticHiddenSize then
      Err(ChannelMismatch(m.semanticHiddenSize, hidden.channels))
    else
      Ok(m.semanticEncoder(hidden))
  }

  /** The acoustic branch: CodecEnc on the aligned waveform itself, without
      the context padding. */
  function AcousticBranch(m: XCodec2Model, aligned: Batch<real>): (e: Tensor)
    requires m.Valid() && aligned.Rectangular()
    ensures e.Valid() && e.batch == |aligned.rows| && e.channels == AcousticChannels
  {
    m.codecEnc(aligned)
  }

  /** generator(x, vq=True): quantized features and codes, frame for frame. */
  function Quantize(m: XCodec2Model, x: Tensor): (q: (Tensor, Codes))
    requires m.Valid() && x.Valid()
    ensures q.0.Valid() && q.0.batch == x.batch && q.0.frames == x.frames
    ensures q.1.Valid() && q.1.batch == x.batch && q.1.frames == x.frames
  {
    m.quantize(x)
  }

  /** get_output_from_indices: one embedding per code, frame for frame. */
  function Lookup(m: XCodec2Model, code: Codes): (e: Tensor)
    requires m.Valid() && code.Valid()
    ensures e.Valid() && e.batch == code.batch && e.frames == code.frames
  {
    m.lookup(code)
  }

  /** generator(x, vq=False)[0]: one waveform row per batch row. */
  function Synthesize(m: XCodec2Model, x: Tensor): (w: Batch<real>)
    requires m.Valid() && x.Valid()
    ensures w.Rectangular() && |w.rows| == x.batch
  {
    m.synthesize(x)
  }

  /** Frames of the semantic branch for this input. */
  ghost function SemanticFrames(m: XCodec2Model, wav: Batch<real>, sampleRate: nat): nat
    requires m.Valid() && wav.Rectangular()
  {
    m.semanticModel(ContextPadded(Align(wav, 0.0), 0.0), sampleRate).frames
  }

  /** Frames of the acoustic branch for this input. */
  ghost function AcousticFrames(m: XCodec2Model, wav: Batch<real>): nat
    requires m.Valid() && wav.Rectangular()
  {
    AcousticBranch(m, Align(wav, 0.0)).frames
  }

  /** What fusion needs of the two branches: the semantic model's width is the
      one SemanticEncoder_module is built for, that width plus the acoustic
      1024 channels is fc_prior's 2048, and the frame counts agree. */
  ghost predicate BranchesFit(m: XCodec2Model, wav: Batch<real>, sampleRate: nat)
    requires m.Valid() && wav.Rectangular()
  {
    && m.semanticModelWidth == m.semanticHiddenSize
    && m.semanticHiddenSize == AcousticChannels
    && SemanticFrames(m, wav, sampleRate) == AcousticFrames(m, wav)
  }

  /** encode_feats: align, run both branches, concatenate, fc_prior. */
  function EncodeFeats(m: XCodec2Model, wav: Batch<real>, sampleRate: nat := 16000): (r: Result<Tensor>)
    requires m.Valid() && wav.Rectangular()
    ensures r.Ok? <==> BranchesFit(m, wav, sampleRate)
    ensures m.semanticModelWidth != m.semanticHiddenSize ==>
              r == Err(ChannelMismatch(m.semanticHiddenSize, m.semanticModelWidth))
    ensures m.semanticModelWidth == m.semanticHiddenSize
            && SemanticFrames(m, wav, sampleRate) != AcousticFrames(m, wav) ==>
              r == Err(ConcatMismatch(|wav.rows|, SemanticFrames(m, wav, sampleRate),
                                      |wav.rows|, AcousticFrames(m, wav)))
    ensures m.semanticModelWidth == m.semanticHiddenSize
            && SemanticFrames(m, wav, sampleRate) == AcousticFrames(m, wav)
            && m.semanticHiddenSize != AcousticChannels ==>
              r == Err(ChannelMismatch(FusedChannels, m.semanticHiddenSize + AcousticChannels))
    ensures r.Ok? ==> r.value.Valid() && r.value.batch == |wav.rows|
                      && r.value.frames == AcousticFrames(m, wav) && r.value.channels == FusedChannels
  {
    var aligned := Align(wav, 0.0);
    var semanticEncoded :- SemanticBranch(m, aligned, sampleRate);
    var vqEmb := AcousticBranch(m, aligned);
    var concatEmb :- Concat(semanticEncoded, vqEmb);
    ApplyLinear(m.fcPrior, concatEmb)
  }

  /** encode_qfeats: the quantized features of encode_feats. */
  function EncodeQFeats(m: XCodec2Model, wav: Batch<real>, sampleRate: nat := 16000): (r: Result<Tensor>)
    requires m.Valid() && wav.Rectangular()
    ensures r.Ok? <==> EncodeFeats(m, wav, sampleRate).Ok?
    ensures r.Ok? ==> r.value.Valid() && r.value.batch == |wav.rows| && r.value.frames == AcousticFrames(m, wav)
  {
    var feats :- EncodeFeats(m, wav, sampleRate);
    Ok(Quantize(m, feats).0)
  }

  /** encode_code: the same alignment and fusion as encode_feats, then the
      codes of the quantizer. */
  function EncodeCode(m: XCodec2Model, wav: Batch<real>, sampleRate: nat := 16000): (r: Result<Codes>)
    requires m.Valid() && wav.Rectangular()
    ensures r.Ok? <==> BranchesFit(m, wav, sampleRate)
    ensures r.Ok? ==> r.value.Valid() && r.value.batch == |wav.rows| && r.value.frames == AcousticFrames(m, wav)
  {
    var aligned := Align(wav, 0.0);
    var semanticEncoded :- SemanticBranch(m, aligned, sampleRate);
    var vqEmb := AcousticBranch(m, aligned);
    var concatEmb :- Concat(semanticEncoded, vqEmb);
    var fused :- ApplyLinear(m.fcPrior, concatEmb);
    Ok(Quantize(m, fused).1)
  }

  /** decode_code: look the codes up, fc_post_a, synthesize.  No index is
      validated. */
  function DecodeCode(m: XCodec2Model, code: Codes): (r: Result<Batch<real>>)
    requires m.Valid() && code.Valid()
    ensures r.Ok? <==> Lookup(m, code).channels == FusedChannels
    ensures r.Err? ==> r.error == ChannelMismatch(FusedChannels, Lookup(m, code).channels)
    ensures r.Ok? ==> r.value.Rectangular() && |r.value.rows| == code.batch
  {
    var vqPostEmb := Lookup(m, code);
    var projected :- ApplyLinear(m.fcPostA, vqPostEmb);
    Ok(Synthesize(m, projected))
  }

  /** forward: the whole chain, from waveform through the codes back to a waveform. */
  function Forward(m: XCodec2Model, wav: Batch<real>, sampleRate: nat := 16000): (r: Result<Batch<real>>)
    requires m.Valid() && wav.Rectangular()
    ensures r.Ok? ==> BranchesFit(m, wav, sampleRate)
    ensures r.Ok? ==> r.value.Rectangular() && |r.value.rows| == |wav.rows|
  {
    var aligned := Align(wav, 0.0);
    var semanticEncoded :- SemanticBranch(m, aligned, sampleRate);
    var vqEmb := AcousticBranch(m, aligned);
    var concatEmb :- Concat(semanticEncoded, vqEmb);
    var fused :- ApplyLinear(m.fcPrior, concatEmb);
    var vqCode := Quantize(m, fused).1;
    var vqPostEmb := Lookup(m, vqCode);
    var projected :- ApplyLinear(m.fcPostA, vqPostEmb);
    Ok(Synthesize(m, projected))
  }

  /** encode_code and encode_qfeats are the two components of one quantizer
      call on the output of encode_feats. */
  lemma EncodeCodeQuantizesFeats(m: XCodec2Model, wav: Batch<real>, sampleRate: nat)
    requires m.Valid() && wav.Rectangular()
    ensures EncodeCode(m, wav, sampleRate).Ok? <==> EncodeFeats(m, wav, sampleRate).Ok?
    ensures EncodeQFeats(m, wav, sampleRate).Ok? <==> EncodeFeats(m, wav, sampleRate).Ok?
    ensures EncodeFeats(m, wav, sampleRate).Err? ==>
              EncodeCode(m, wav, sampleRate).error == EncodeFeats(m, wav, sampleRate).error
    ensures EncodeFeats(m, wav, sampleRate).Ok? ==>
              Quantize(m, EncodeFeats(m, wav, sampleRate).value)
              == (EncodeQFeats(m, wav, sampleRate).value, EncodeCode(m, wav, sampleRate).value)
  {
  }

  /** forward runs exactly decode_code after encode_code. */
  lemma ForwardIsDecodeOfEncode(m: XCodec2Model, wav: Batch<real>, sampleRate: nat)
    requires m.Valid() && wav.Rectangular()
    ensures EncodeCode(m, wav, sampleRate).Err? ==>
              Forward(m, wav, sampleRate) == Err(EncodeCode(m, wav, sampleRate).error)
    ensures EncodeCode(m, wav, sampleRate).Ok? ==>
              Forward(m, wav, sampleRate) == DecodeCode(m, EncodeCode(m, wav, sampleRate).value)
  {
  }

  /** Decoding sees only the codes: two inputs (at any sample rates) whose
      encodings are equal, the same codes or the same error, give the same
      forward result. */
  lemma SameCodesSameReconstruction(m: XCodec2Model, wav1: Batch<real>, sr1: nat, wav2: Batch<real>, sr2: nat)
    requires m.Valid() && wav1.Rectangular() && wav2.Rectangular()
    requires EncodeCode(m, wav1, sr1) == EncodeCode(m, wav2, sr2)
    ensures Forward(m, wav1, sr1) == Forward(m, wav2, sr2)
  {
    ForwardIsDecodeOfEncode(m, wav1, sr1);
    ForwardIsDecodeOfEncode(m, wav2, sr2);
  }

  /** With an acoustic encoder that downsamples by FrameStride, there is one
      code per frame of the aligned waveform: T / 320 + 1 codes per row. */
  lemma CodeFrameCount(m: XCodec2Model, wav: Batch<real>, sampleRate: nat)
    requires m.Valid() && m.AcousticDownsamples() && wav.Rectangular()
    requires EncodeCode(m, wav, sampleRate).Ok?
    ensures EncodeCode(m, wav, sampleRate).value.frames
            == Align(wav, 0.0).len / FrameStride == wav.len / FrameStride + 1
  {
    AlignedLength(wav.len);
  }

  /** With both length contracts, forward returns one row per input row, each
      as long as the aligned input (the alignment padding is not removed). */
  lemma ReconstructionLength(m: XCodec2Model, wav: Batch<real>, sampleRate: nat)
    requires m.Valid() && m.AcousticDownsamples() && m.SynthesisUpsamples() && wav.Rectangular()
    requires Forward(m, wav, sampleRate).Ok?
    ensures |Forward(m, wav, sampleRate).value.rows| == |wav.rows|
    ensures Forward(m, wav, sampleRate).value.len == wav.len + PadAmount(wav.len)
  {
    ForwardIsDecodeOfEncode(m, wav, sampleRate);
    CodeFrameCount(m, wav, sampleRate);
    AlignedLength(wav.len);
  }

  /** The demonstration call at the default sample rate: two rows of 16000
      samples encode exactly when the widths fit and the semantic branch
      also yields 51 frames; the codes are then two rows of 51, and they
      decode, exactly when the lookup yields 2048 channels, to two rows of
      16320 samples. */
  lemma DemoEncodeDecode(m: XCodec2Model, wav: Batch<real>)
    requires m.Valid() && m.AcousticDownsamples() && m.SynthesisUpsamples()
    requires wav.Rectangular() && wav.len == 16000 && |wav.rows| == 2
    ensures EncodeCode(m, wav).Ok? <==>
              m.semanticModelWidth == m.semanticHiddenSize == AcousticChannels
              && SemanticFrames(m, wav, 16000) == 51
    ensures EncodeCode(m, wav).Ok? ==>
              var code := EncodeCode(m, wav).value;
              && code.batch == 2 && code.frames == 51
              && (DecodeCode(m, code).Ok? <==> Lookup(m, code).channels == FusedChannels)
              && (DecodeCode(m, code).Ok? ==>
                    |DecodeCode(m, code).value.rows| == 2 && DecodeCode(m, code).value.len == 16320)
  {
    AlignedLength(wav.len);
    if EncodeCode(m, wav).Ok? {
      CodeFrameCount(m, wav, 16000);
      ForwardIsDecodeOfEncode(m, wav, 16000);
      if Forward(m, wav, 16000).Ok? {
        ReconstructionLength(m, wav, 16000);
      }
    }
  }
}
