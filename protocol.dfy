/**
 * The exported C surface as a whole: any sequence of calls a caller makes,
 * each with the engine's answer to it. A caller that breaks the boundary's
 * contract (a handle used after it was freed, a declared length beyond its
 * buffer, a message released twice) makes the run undefined, shown as `None`.
 */
module Protocol {
  import opened Wrappers
  import opened Engine
  import opened World
  import opened Records
  import opened CStrings
  import opened Guard
  import opened Adapter
  import opened DecoderApi
  import opened EncoderApi

  /** One call through the C surface with its arguments (`None`: a null pointer) and the engine's answer. */
  datatype ApiCall =
    | NewDecoderCall(channels: uint32, sampleRate: uint32, result: Option<Option<HandleId>>,
                     error: Option<Rec>, created: Outcome<()>)
    | DecodeCall(float: bool, decoder: Option<HandleId>, packet: Option<seq<uint8>>, inputSize: uint32,
                 output: Option<nat>, outputSize: uint32, fec: bool, size: Option<nat>,
                 error: Option<Rec>, answer: Outcome<nat>)
    | FreeDecoderCall(handle: Option<HandleId>)
    | NewEncoderCall(channels: uint32, sampleRate: uint32, application: uint32, result: Option<Option<HandleId>>,
                     error: Option<Rec>, created: Outcome<()>)
    | EncodeCall(encoder: Option<HandleId>, pcm: Option<seq<int16>>, inputSize: uint32,
                 output: Option<nat>, outputSize: uint32, size: Option<nat>,
                 error: Option<Rec>, answer: Outcome<nat>)
    | EncodeFloatCall(encoder: Option<HandleId>, floatPcm: Option<seq<Float32>>, inputSize: uint32,
                      output: Option<nat>, outputSize: uint32, size: Option<nat>,
                      error: Option<Rec>, answer: Outcome<nat>)
    | FreeEncoderCall(handle: Option<HandleId>)
    | FreeCStringCall(slot: Option<Rec>)
    | FreeOpusErrorCall(record: Option<Rec>)

  /** The caller's side of the contract for one call, which the layer cannot check. */
  predicate Allowed(m: Mem, c: ApiCall) {
    match c
    case NewDecoderCall(_, _, _, _, _) => true
    case DecodeCall(_, decoder, packet, inputSize, output, outputSize, _, _, _, _) =>
      && (decoder.Some? ==> decoder.value in m.decoders)
      && (packet.Some? ==> inputSize as nat <= |packet.value|)
      && (output.Some? ==> outputSize as nat <= output.value)
    case FreeDecoderCall(handle) => handle.Some? ==> handle.value in m.decoders
    case NewEncoderCall(_, _, _, _, _, _) => true
    case EncodeCall(encoder, pcm, inputSize, output, outputSize, _, _, _) =>
      && (encoder.Some? ==> encoder.value in m.encoders)
      && (pcm.Some? ==> inputSize as nat <= |pcm.value|)
      && (output.Some? ==> outputSize as nat <= output.value)
    case EncodeFloatCall(encoder, floatPcm, inputSize, output, outputSize, _, _, _) =>
      && (encoder.Some? ==> encoder.value in m.encoders)
      && (floatPcm.Some? ==> inputSize as nat <= |floatPcm.value|)
      && (output.Some? ==> outputSize as nat <= output.value)
    case FreeEncoderCall(handle) => handle.Some? ==> handle.value in m.encoders
    case FreeCStringCall(slot) => Releasable(m, slot)
    case FreeOpusErrorCall(record) => Releasable(m, record)
  }

  /** The state after one allowed call. */
  function Step(m: Mem, c: ApiCall): (r: Mem)
    requires m.Valid() && Allowed(m, c)
    ensures r.Valid()
  {
    match c
    case NewDecoderCall(channels, sampleRate, result, error, created) =>
      NewDecoderSpec(m, channels, sampleRate, result, error, created).ret.mem
    case DecodeCall(float, decoder, packet, inputSize, output, outputSize, fec, size, error, answer) =>
      DecodeSpec(m, float, decoder, packet, inputSize, output, outputSize, fec, size, error, answer).ret.mem
    case FreeDecoderCall(handle) =>
      FreeDecoderSpec(m, handle)
    case NewEncoderCall(channels, sampleRate, application, result, error, created) =>
      NewEncoderSpec(m, channels, sampleRate, application, result, error, created).ret.mem
    case EncodeCall(encoder, pcm, inputSize, output, outputSize, size, error, answer) =>
      EncodeSpec(m, encoder, pcm, inputSize, output, outputSize, size, error, answer).ret.mem
    case EncodeFloatCall(encoder, floatPcm, inputSize, output, outputSize, size, error, answer) =>
      EncodeFloatSpec(m, encoder, floatPcm, inputSize, output, outputSize, size, error, answer).ret.mem
    case FreeEncoderCall(handle) =>
      FreeEncoderSpec(m, handle)
    case FreeCStringCall(slot) =>
      FreeCStringSpec(m, slot).0
    case FreeOpusErrorCall(record) =>
      FreeOpusErrorSpec(m, record)
  }

  /** The state after a sequence of calls, or `None` once the caller breaks the contract. */
  function Run(m: Mem, cs: seq<ApiCall>): (r: Option<Mem>)
    requires m.Valid()
    ensures r.Some? ==> r.value.Valid()
    ensures r.Some? ==> |r.value.calls| >= |m.calls|
    decreases |cs|
  {
    if cs == [] then Some(m)
    else if !Allowed(m, cs[0]) then None
    else Run(Step(m, cs[0]), cs[1..])
  }

  /** A call that boxes a new decoder: a non-null result slot and an engine that succeeds. */
  predicate OpensDecoder(c: ApiCall) {
    c.NewDecoderCall? && c.result.Some? && c.created.Done?
  }

  predicate ClosesDecoder(c: ApiCall) {
    c.FreeDecoderCall? && c.handle.Some?
  }

  predicate OpensEncoder(c: ApiCall) {
    c.NewEncoderCall? && c.result.Some? && c.created.Done?
  }

  predicate ClosesEncoder(c: ApiCall) {
    c.FreeEncoderCall? && c.handle.Some?
  }

  /** A call that passes its null checks and so enters the engine. */
  predicate EntersEngine(c: ApiCall) {
    match c
    case NewDecoderCall(_, _, result, _, _) => result.Some?
    case NewEncoderCall(_, _, _, result, _, _) => result.Some?
    case DecodeCall(_, decoder, packet, _, output, _, _, size, _, _) => AllNonNull(decoder, packet, output, size)
    case EncodeCall(encoder, pcm, _, output, _, size, _, _) => AllNonNull(encoder, pcm, output, size)
    case EncodeFloatCall(encoder, floatPcm, _, output, _, size, _, _) => AllNonNull(encoder, floatPcm, output, size)
    case _ => false
  }

  /** A call that fails (does not return 0) while the caller supplied an error record: it reports one new string. */
  predicate AllocatesString(c: ApiCall) {
    match c
    case NewDecoderCall(_, _, result, error, created) => error.Some? && !(result.Some? && created.Done?)
    case NewEncoderCall(_, _, _, result, error, created) => error.Some? && !(result.Some? && created.Done?)
    case DecodeCall(_, _, _, _, _, _, _, _, error, answer) => error.Some? && !(EntersEngine(c) && answer.Done?)
    case EncodeCall(_, _, _, _, _, _, error, answer) => error.Some? && !(EntersEngine(c) && answer.Done?)
    case EncodeFloatCall(_, _, _, _, _, _, error, answer) => error.Some? && !(EntersEngine(c) && answer.Done?)
    case _ => false
  }

  /** A release call that finds a non-null message. */
  predicate ReleasesString(c: ApiCall) {
    match c
    case FreeCStringCall(slot) => Held(slot) != {}
    case FreeOpusErrorCall(record) => Held(record) != {}
    case _ => false
  }

  /** How many calls of `cs` satisfy `p`. */
  function Count(cs: seq<ApiCall>, p: ApiCall -> bool): nat {
    if cs == [] then 0 else (if p(cs[0]) then 1 else 0) + Count(cs[1..], p)
  }

  function Bit(b: bool): nat {
    if b then 1 else 0
  }

  /** The books balance for one call `c` that took `m` to `r`. */
  predicate Balanced(m: Mem, c: ApiCall, r: Mem) {
    && |r.decoders| + Bit(ClosesDecoder(c)) == |m.decoders| + Bit(OpensDecoder(c))
    && |r.encoders| + Bit(ClosesEncoder(c)) == |m.encoders| + Bit(OpensEncoder(c))
    && |r.strings| + Bit(ReleasesString(c)) == |m.strings| + Bit(AllocatesString(c))
    && |r.calls| == |m.calls| + Bit(EntersEngine(c))
  }

  /** One call changes each live population by exactly what it opens, closes, allocates or releases. */
  lemma StepAccounting(m: Mem, c: ApiCall)
    requires m.Valid() && Allowed(m, c)
    ensures Balanced(m, c, Step(m, c))
  {
    match c
    case NewDecoderCall(channels, sampleRate, result, error, created) =>
      NewDecoderBalanced(m, channels, sampleRate, result, error, created);
    case NewEncoderCall(channels, sampleRate, application, result, error, created) =>
      NewEncoderBalanced(m, channels, sampleRate, application, result, error, created);
    case DecodeCall(float, decoder, packet, inputSize, output, outputSize, fec, size, error, answer) =>
      DecodeBalanced(m, float, decoder, packet, inputSize, output, outputSize, fec, size, error, answer);
    case EncodeCall(encoder, pcm, inputSize, output, outputSize, size, error, answer) =>
      EncodeBalanced(m, encoder, pcm, inputSize, output, outputSize, size, error, answer);
    case EncodeFloatCall(encoder, floatPcm, inputSize, output, outputSize, size, error, answer) =>
      EncodeFloatBalanced(m, encoder, floatPcm, inputSize, output, outputSize, size, error, answer);
    case FreeDecoderCall(handle) =>
    case FreeEncoderCall(handle) =>
    case FreeCStringCall(slot) =>
    case FreeOpusErrorCall(record) =>
  }

  lemma NewDecoderBalanced(m: Mem, channels: uint32, sampleRate: uint32, result: Option<Option<HandleId>>,
                           error: Option<Rec>, created: Outcome<()>)
    requires m.Valid()
    ensures Balanced(m, NewDecoderCall(channels, sampleRate, result, error, created),
                     NewDecoderSpec(m, channels, sampleRate, result, error, created).ret.mem)
  {
    var r := NewDecoderSpec(m, channels, sampleRate, result, error, created);
    if r.ret.code == 0 {
      assert |r.ret.mem.decoders| == |m.decoders| + 1;
    }
  }

  lemma NewEncoderBalanced(m: Mem, channels: uint32, sampleRate: uint32, application: uint32,
                           result: Option<Option<HandleId>>, error: Option<Rec>, created: Outcome<()>)
    requires m.Valid()
    ensures Balanced(m, NewEncoderCall(channels, sampleRate, application, result, error, created),
                     NewEncoderSpec(m, channels, sampleRate, application, result, error, created).ret.mem)
  {
    var r := NewEncoderSpec(m, channels, sampleRate, application, result, error, created);
    if r.ret.code == 0 {
      assert |r.ret.mem.encoders| == |m.encoders| + 1;
    }
  }

  lemma DecodeBalanced(m: Mem, float: bool, decoder: Option<HandleId>, packet: Option<seq<uint8>>, inputSize: uint32,
                       output: Option<nat>, outputSize: uint32, fec: bool, size: Option<nat>,
                       error: Option<Rec>, answer: Outcome<nat>)
    requires m.Valid() && Allowed(m, DecodeCall(float, decoder, packet, inputSize, output, outputSize, fec, size, error, answer))
    ensures Balanced(m, DecodeCall(float, decoder, packet, inputSize, output, outputSize, fec, size, error, answer),
                     DecodeSpec(m, float, decoder, packet, inputSize, output, outputSize, fec, size, error, answer).ret.mem)
  {
  }

  lemma EncodeBalanced(m: Mem, encoder: Option<HandleId>, pcm: Option<seq<int16>>, inputSize: uint32,
                       output: Option<nat>, outputSize: uint32, size: Option<nat>,
                       error: Option<Rec>, answer: Outcome<nat>)
    requires m.Valid() && Allowed(m, EncodeCall(encoder, pcm, inputSize, output, outputSize, size, error, answer))
    ensures Balanced(m, EncodeCall(encoder, pcm, inputSize, output, outputSize, size, error, answer),
                     EncodeSpec(m, encoder, pcm, inputSize, output, outputSize, size, error, answer).ret.mem)
  {
  }

  lemma EncodeFloatBalanced(m: Mem, encoder: Option<HandleId>, floatPcm: Option<seq<Float32>>, inputSize: uint32,
                            output: Option<nat>, outputSize: uint32, size: Option<nat>,
                            error: Option<Rec>, answer: Outcome<nat>)
    requires m.Valid() && Allowed(m, EncodeFloatCall(encoder, floatPcm, inputSize, output, outputSize, size, error, answer))
    ensures Balanced(m, EncodeFloatCall(encoder, floatPcm, inputSize, output, outputSize, size, error, answer),
                     EncodeFloatSpec(m, encoder, floatPcm, inputSize, output, outputSize, size, error, answer).ret.mem)
  {
  }

  /**
   * Handle, message and engine-call accounting over any run: the live
   * decoders (encoders) at the end are those at the start plus one per
   * successful `new_decoder` (`new_encoder`) minus one per non-null free;
   * the live messages grow by one per failing call that was given a record
   * and shrink by one per release that finds a message; the engine is
   * entered once per call that passes its null checks.
   */
  lemma {:induction false} RunAccounting(m: Mem, cs: seq<ApiCall>)
    requires m.Valid() && Run(m, cs).Some?
    ensures var r := Run(m, cs).value;
      && |r.decoders| + Count(cs, ClosesDecoder) == |m.decoders| + Count(cs, OpensDecoder)
      && |r.encoders| + Count(cs, ClosesEncoder) == |m.encoders| + Count(cs, OpensEncoder)
      && |r.strings| + Count(cs, ReleasesString) == |m.strings| + Count(cs, AllocatesString)
      && |r.calls| == |m.calls| + Count(cs, EntersEngine)
    decreases |cs|
  {
    if cs != [] {
      StepAccounting(m, cs[0]);
      RunAccounting(Step(m, cs[0]), cs[1..]);
    }
  }
}
