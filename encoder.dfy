/**
 * rust/src/encoder.rs: `new_encoder`, `encode`, `encode_float` and
 * `free_encoder`. A handle is the raw pointer of a boxed engine encoder.
 */
module EncoderApi {
  import opened Wrappers
  import opened Engine
  import opened World
  import opened Records
  import opened Guard
  import opened Config
  import opened Adapter

  /**
   * `new_encoder(channels, sample_rate, application, result, error)`. A null
   * result slot is rejected before the engine is entered. Otherwise the
   * engine is asked for an encoder with the given rate and the mapped
   * channel layout and mode; on success the slot receives a fresh live
   * handle and the call returns 0; on failure the slot is not written and no
   * handle is allocated.
   */
  function NewEncoderSpec(m: Mem, channels: uint32, sampleRate: uint32, application: uint32,
                          result: Option<Option<HandleId>>, error: Option<Rec>, answer: Outcome<()>): (r: Created)
    requires m.Valid()
    ensures r.ret.mem.Valid() && r.ret.mem.decoders == m.decoders
    ensures result.None? ==>
      && r.result.None? && r.ret.mem.calls == m.calls && r.ret.mem.encoders == m.encoders
      && Reported(m, error, INVALID_INPUT, "Invalid input", r.ret)
    ensures result.Some? ==>
      r.ret.mem.calls == m.calls + [EncoderNew(sampleRate, ChannelsOf(channels), ApplicationOf(application))]
    ensures r.ret.code == 0 <==> result.Some? && answer.Done?
    ensures r.ret.code == 0 ==>
      && r.result.Some? && r.result.value.Some?
      && r.result.value.value !in m.encoders && r.result.value.value !in m.decoders
      && r.ret.mem.encoders == m.encoders + {r.result.value.value}
      && r.ret.err == error && r.ret.mem.strings == m.strings
    ensures r.ret.code != 0 ==> r.result == result && r.ret.mem.encoders == m.encoders
    ensures result.Some? && answer.Failed? ==>
      Reported(m.Enter(EncoderNew(sampleRate, ChannelsOf(channels), ApplicationOf(application))), error,
               answer.error.code.Code(), answer.error.description, r.ret)
    ensures result.Some? && answer.Panicked? ==>
      Reported(m.Enter(EncoderNew(sampleRate, ChannelsOf(channels), ApplicationOf(application))), error,
               INTERNAL_FAULT, "Rust panic occurred", r.ret)
    ensures |r.ret.mem.strings| == |m.strings| + (if error.Some? && r.ret.code != 0 then 1 else 0)
  {
    if result.None? then
      Created(InvalidInputSpec(m, error), result)
    else
      var m1 := m.Enter(EncoderNew(sampleRate, ChannelsOf(channels), ApplicationOf(application)));
      if answer.Done? then
        var (m2, h) := m1.AddEncoder();
        Created(FfiExecSpec(m2, error, answer), Some(Some(h)))
      else
        Created(FfiExecSpec(m1, error, answer), result)
  }

  /**
   * `encode`: any null among encoder, input, output and size slot is
   * rejected before the engine is entered. Otherwise the engine encodes
   * exactly `inputSize` samples into a view of `outputSize` bytes, and the
   * size slot receives the engine's byte count only on success.
   */
  function EncodeSpec(m: Mem, encoder: Option<HandleId>, input: Option<seq<int16>>, inputSize: uint32,
                      output: Option<nat>, outputSize: uint32, encodedSize: Option<nat>,
                      error: Option<Rec>, answer: Outcome<nat>): (r: Processed)
    requires m.Valid()
    requires encoder.Some? ==> encoder.value in m.encoders
    requires input.Some? ==> inputSize as nat <= |input.value|
    requires output.Some? ==> outputSize as nat <= output.value
    ensures r.ret.mem.Valid() && r.ret.mem.decoders == m.decoders && r.ret.mem.encoders == m.encoders
    ensures !AllNonNull(encoder, input, output, encodedSize) ==>
      && r.size == encodedSize && r.ret.mem.calls == m.calls
      && Reported(m, error, INVALID_INPUT, "Invalid input", r.ret)
    ensures AllNonNull(encoder, input, output, encodedSize) ==>
      r.ret.mem.calls == m.calls + [EncoderEncode(encoder.value, input.value[..inputSize], outputSize as nat)]
    ensures r.size == if AllNonNull(encoder, input, output, encodedSize) && answer.Done? then Some(answer.value) else encodedSize
    ensures r.ret.code == 0 <==> AllNonNull(encoder, input, output, encodedSize) && answer.Done?
    ensures AllNonNull(encoder, input, output, encodedSize) && answer.Done? ==>
      r.ret.err == error && r.ret.mem.strings == m.strings
    ensures AllNonNull(encoder, input, output, encodedSize) && answer.Failed? ==>
      Reported(m.Enter(EncoderEncode(encoder.value, input.value[..inputSize], outputSize as nat)), error,
               answer.error.code.Code(), answer.error.description, r.ret)
    ensures AllNonNull(encoder, input, output, encodedSize) && answer.Panicked? ==>
      Reported(m.Enter(EncoderEncode(encoder.value, input.value[..inputSize], outputSize as nat)), error,
               INTERNAL_FAULT, "Rust panic occurred", r.ret)
    ensures |r.ret.mem.strings| == |m.strings| + (if error.Some? && r.ret.code != 0 then 1 else 0)
  {
    if encoder.None? || input.None? || output.None? || encodedSize.None? then
      Processed(InvalidInputSpec(m, error), encodedSize)
    else
      ProcessSpec(m, EncoderEncode(encoder.value, input.value[..inputSize], outputSize as nat), encodedSize.value, error, answer)
  }

  /** `encode_float`: as `encode`, with float samples as input. */
  function EncodeFloatSpec(m: Mem, encoder: Option<HandleId>, input: Option<seq<Float32>>, inputSize: uint32,
                           output: Option<nat>, outputSize: uint32, encodedSize: Option<nat>,
                           error: Option<Rec>, answer: Outcome<nat>): (r: Processed)
    requires m.Valid()
    requires encoder.Some? ==> encoder.value in m.encoders
    requires input.Some? ==> inputSize as nat <= |input.value|
    requires output.Some? ==> outputSize as nat <= output.value
    ensures r.ret.mem.Valid() && r.ret.mem.decoders == m.decoders && r.ret.mem.encoders == m.encoders
    ensures !AllNonNull(encoder, input, output, encodedSize) ==>
      && r.size == encodedSize && r.ret.mem.calls == m.calls
      && Reported(m, error, INVALID_INPUT, "Invalid input", r.ret)
    ensures AllNonNull(encoder, input, output, encodedSize) ==>
      r.ret.mem.calls == m.calls + [EncoderEncodeFloat(encoder.value, input.value[..inputSize], outputSize as nat)]
    ensures r.size == if AllNonNull(encoder, input, output, encodedSize) && answer.Done? then Some(answer.value) else encodedSize
    ensures r.ret.code == 0 <==> AllNonNull(encoder, input, output, encodedSize) && answer.Done?
    ensures AllNonNull(encoder, input, output, encodedSize) && answer.Done? ==>
      r.ret.err == error && r.ret.mem.strings == m.strings
    ensures AllNonNull(encoder, input, output, encodedSize) && answer.Failed? ==>
      Reported(m.Enter(EncoderEncodeFloat(encoder.value, input.value[..inputSize], outputSize as nat)), error,
               answer.error.code.Code(), answer.error.description, r.ret)
    ensures AllNonNull(encoder, input, output, encodedSize) && answer.Panicked? ==>
      Reported(m.Enter(EncoderEncodeFloat(encoder.value, input.value[..inputSize], outputSize as nat)), error,
               INTERNAL_FAULT, "Rust panic occurred", r.ret)
    ensures |r.ret.mem.strings| == |m.strings| + (if error.Some? && r.ret.code != 0 then 1 else 0)
  {
    if encoder.None? || input.None? || output.None? || encodedSize.None? then
      Processed(InvalidInputSpec(m, error), encodedSize)
    else
      ProcessSpec(m, EncoderEncodeFloat(encoder.value, input.value[..inputSize], outputSize as nat), encodedSize.value, error, answer)
  }

  /** `free_encoder(encoder)`: null is a no-op; a live handle, and nothing else, stops being live. */
  function FreeEncoderSpec(m: Mem, encoder: Option<HandleId>): (r: Mem)
    requires m.Valid() && (encoder.Some? ==> encoder.value in m.encoders)
    ensures r.Valid()
    ensures encoder.None? ==> r == m
    ensures encoder.Some? ==> encoder.value !in r.encoders && r.encoders == m.encoders - {encoder.value}
    ensures |r.encoders| == if encoder.Some? then |m.encoders| - 1 else |m.encoders|
    ensures r.strings == m.strings && r.decoders == m.decoders && r.calls == m.calls
  {
    if encoder.Some? then m.RemoveEncoder(encoder.value) else m
  }

  /** An encoder created and then freed leaves the live encoders as they were: no leak, no double free. */
  lemma CreateThenFreeEncoder(m: Mem, channels: uint32, sampleRate: uint32, application: uint32,
                              result: Option<HandleId>, error: Option<Rec>)
    requires m.Valid()
    ensures var c := NewEncoderSpec(m, channels, sampleRate, application, Some(result), error, Done(()));
      && c.ret.code == 0 && c.result.value.Some?
      && FreeEncoderSpec(c.ret.mem, c.result.value).encoders == m.encoders
  {
  }

  /** The unit test of encoder.rs: with everything null both entry points return what `invalid_input(null)` returns. */
  lemma NullChecksEncoder(m: Mem, created: Outcome<()>, encoded: Outcome<nat>)
    requires m.Valid()
    ensures NewEncoderSpec(m, 1, 48000, 1, None, None, created).ret.code == InvalidInputSpec(m, None).code
    ensures EncodeSpec(m, None, None, 0, None, 0, None, None, encoded).ret.code == InvalidInputSpec(m, None).code
  {
  }

  method NewEncoder(heap: Heap, channels: uint32, sampleRate: uint32, application: uint32,
                    result: Slot?<Option<HandleId>>, error: OpusError?, answer: Outcome<()>) returns (code: int)
    requires heap.Valid()
    modifies heap, result, error
    ensures heap.Valid()
    ensures Created(Returned(heap.State(), ValueOf(error), code), SlotValue(result))
         == NewEncoderSpec(old(heap.State()), channels, sampleRate, application, old(SlotValue(result)),
                           old(ValueOf(error)), answer)
  {
    if result == null {
      code := InvalidInput(heap, error);
      return;
    }
    var layout := ChannelsOf(channels);
    var mode := ApplicationOf(application);
    heap.Enter(EncoderNew(sampleRate, layout, mode));
    if answer.Done? {
      var encoder := heap.BoxEncoder();
      result.value := Some(encoder);
    }
    code := FfiExec(heap, error, answer);
  }

  method Encode(heap: Heap, encoder: Option<HandleId>, input: array?<int16>, inputSize: uint32,
                output: array?<uint8>, outputSize: uint32, encodedSize: Slot?<nat>,
                error: OpusError?, answer: Outcome<nat>) returns (code: int)
    requires heap.Valid()
    requires encoder.Some? ==> encoder.value in heap.encoders
    requires input != null ==> inputSize as nat <= input.Length
    requires output != null ==> outputSize as nat <= output.Length
    modifies heap, encodedSize, error, output
    ensures heap.Valid()
    ensures output != null ==> output[outputSize..] == old(output[outputSize..])
    ensures output != null && (encoder.None? || input == null || encodedSize == null) ==> output[..] == old(output[..])
    ensures Processed(Returned(heap.State(), ValueOf(error), code), SlotValue(encodedSize))
         == EncodeSpec(old(heap.State()), encoder, Contents(input), inputSize, Capacity(output), outputSize,
                       old(SlotValue(encodedSize)), old(ValueOf(error)), answer)
  {
    if encoder.None? || input == null || output == null || encodedSize == null {
      code := InvalidInput(heap, error);
      return;
    }
    var pcm := input[..inputSize];
    code := Process(heap, EncoderEncode(encoder.value, pcm, outputSize as nat), encodedSize, error, answer);
  }

  method EncodeFloat(heap: Heap, encoder: Option<HandleId>, input: array?<Float32>, inputSize: uint32,
                     output: array?<uint8>, outputSize: uint32, result: Slot?<nat>,
                     error: OpusError?, answer: Outcome<nat>) returns (code: int)
    requires heap.Valid()
    requires encoder.Some? ==> encoder.value in heap.encoders
    requires input != null ==> inputSize as nat <= input.Length
    requires output != null ==> outputSize as nat <= output.Length
    modifies heap, result, error, output
    ensures heap.Valid()
    ensures output != null ==> output[outputSize..] == old(output[outputSize..])
    ensures output != null && (encoder.None? || input == null || result == null) ==> output[..] == old(output[..])
    ensures Processed(Returned(heap.State(), ValueOf(error), code), SlotValue(result))
         == EncodeFloatSpec(old(heap.State()), encoder, Contents(input), inputSize, Capacity(output), outputSize,
                            old(SlotValue(result)), old(ValueOf(error)), answer)
  {
    if encoder.None? || input == null || output == null || result == null {
      code := InvalidInput(heap, error);
      return;
    }
    var pcm := input[..inputSize];
    code := Process(heap, EncoderEncodeFloat(encoder.value, pcm, outputSize as nat), result, error, answer);
  }

  method FreeEncoder(heap: Heap, encoder: Option<HandleId>)
    requires heap.Valid() && (encoder.Some? ==> encoder.value in heap.encoders)
    modifies heap
    ensures heap.Valid() && heap.State() == FreeEncoderSpec(old(heap.State()), encoder)
  {
    if encoder.Some? {
      heap.UnboxEncoder(encoder.value);
    }
  }
}
