/**
 * rust/src/decoder.rs: `new_decoder`, `decode`, `decode_float` and
 * `free_decoder`. A handle is the raw pointer of a boxed engine decoder.
 */
module DecoderApi {
  import opened Wrappers
  import opened Engine
  import opened World
  import opened Records
  import opened Guard
  import opened Config
  import opened Adapter

  /**
   * `new_decoder(channels, sample_rate, result, error)`. A null result slot
   * is rejected before the engine is entered. Otherwise the engine is asked
   * for a decoder with the given rate and the mapped channel layout; on
   * success the slot receives a fresh live handle and the call returns 0;
   * on failure the slot is not written and no handle is allocated.
   */
  function NewDecoderSpec(m: Mem, channels: uint32, sampleRate: uint32, result: Option<Option<HandleId>>,
                          error: Option<Rec>, answer: Outcome<()>): (r: Created)
    requires m.Valid()
    ensures r.ret.mem.Valid() && r.ret.mem.encoders == m.encoders
    ensures result.None? ==>
      && r.result.None? && r.ret.mem.calls == m.calls && r.ret.mem.decoders == m.decoders
      && Reported(m, error, INVALID_INPUT, "Invalid input", r.ret)
    ensures result.Some? ==> r.ret.mem.calls == m.calls + [DecoderNew(sampleRate, ChannelsOf(channels))]
    ensures r.ret.code == 0 <==> result.Some? && answer.Done?
    ensures r.ret.code == 0 ==>
      && r.result.Some? && r.result.value.Some?
      && r.result.value.value !in m.decoders && r.result.value.value !in m.encoders
      && r.ret.mem.decoders == m.decoders + {r.result.value.value}
      && r.ret.err == error && r.ret.mem.strings == m.strings
    ensures r.ret.code != 0 ==> r.result == result && r.ret.mem.decoders == m.decoders
    ensures result.Some? && answer.Failed? ==>
      Reported(m.Enter(DecoderNew(sampleRate, ChannelsOf(channels))), error,
               answer.error.code.Code(), answer.error.description, r.ret)
    ensures result.Some? && answer.Panicked? ==>
      Reported(m.Enter(DecoderNew(sampleRate, ChannelsOf(channels))), error,
               INTERNAL_FAULT, "Rust panic occurred", r.ret)
    ensures |r.ret.mem.strings| == |m.strings| + (if error.Some? && r.ret.code != 0 then 1 else 0)
  {
    if result.None? then
      Created(InvalidInputSpec(m, error), result)
    else
      var m1 := m.Enter(DecoderNew(sampleRate, ChannelsOf(channels)));
      if answer.Done? then
        var (m2, h) := m1.AddDecoder();
        Created(FfiExecSpec(m2, error, answer), Some(Some(h)))
      else
        Created(FfiExecSpec(m1, error, answer), result)
  }

  /**
   * `decode` (`float` false) and `decode_float` (`float` true). Any null
   * among decoder, input, output and size slot is rejected before the
   * engine is entered, and then nothing but the error record changes.
   * Otherwise the engine decodes exactly `inputSize` packet bytes into a
   * view of `outputSize` samples with `fec` unchanged, and the size slot
   * receives the engine's count only on success.
   */
  function DecodeSpec(m: Mem, float: bool, decoder: Option<HandleId>, input: Option<seq<uint8>>, inputSize: uint32,
                      output: Option<nat>, outputSize: uint32, fec: bool, decodedSize: Option<nat>,
                      error: Option<Rec>, answer: Outcome<nat>): (r: Processed)
    requires m.Valid()
    requires decoder.Some? ==> decoder.value in m.decoders
    requires input.Some? ==> inputSize as nat <= |input.value|
    requires output.Some? ==> outputSize as nat <= output.value
    ensures r.ret.mem.Valid() && r.ret.mem.decoders == m.decoders && r.ret.mem.encoders == m.encoders
    ensures !AllNonNull(decoder, input, output, decodedSize) ==>
      && r.size == decodedSize && r.ret.mem.calls == m.calls
      && Reported(m, error, INVALID_INPUT, "Invalid input", r.ret)
    ensures AllNonNull(decoder, input, output, decodedSize) ==>
      r.ret.mem.calls == m.calls + [DecodeRequest(float, decoder.value, input.value[..inputSize], outputSize, fec)]
    ensures r.size == if AllNonNull(decoder, input, output, decodedSize) && answer.Done? then Some(answer.value) else decodedSize
    ensures r.ret.code == 0 <==> AllNonNull(decoder, input, output, decodedSize) && answer.Done?
    ensures AllNonNull(decoder, input, output, decodedSize) && answer.Done? ==>
      r.ret.err == error && r.ret.mem.strings == m.strings
    ensures AllNonNull(decoder, input, output, decodedSize) && answer.Failed? ==>
      Reported(m.Enter(DecodeRequest(float, decoder.value, input.value[..inputSize], outputSize, fec)), error,
               answer.error.code.Code(), answer.error.description, r.ret)
    ensures AllNonNull(decoder, input, output, decodedSize) && answer.Panicked? ==>
      Reported(m.Enter(DecodeRequest(float, decoder.value, input.value[..inputSize], outputSize, fec)), error,
               INTERNAL_FAULT, "Rust panic occurred", r.ret)
    ensures |r.ret.mem.strings| == |m.strings| + (if error.Some? && r.ret.code != 0 then 1 else 0)
  {
    if decoder.None? || input.None? || output.None? || decodedSize.None? then
      Processed(InvalidInputSpec(m, error), decodedSize)
    else
      var call := DecodeRequest(float, decoder.value, input.value[..inputSize], outputSize, fec);
      ProcessSpec(m, call, decodedSize.value, error, answer)
  }

  /** The engine call `decode` (`decoder.decode`) or `decode_float` (`decoder.decode_float`) makes on the bound views. */
  function DecodeRequest(float: bool, decoder: HandleId, view: seq<uint8>, outputSize: uint32, fec: bool): EngineCall {
    if float then DecoderDecodeFloat(decoder, view, outputSize as nat, fec)
    else DecoderDecode(decoder, view, outputSize as nat, fec)
  }

  /** `free_decoder(decoder)`: null is a no-op; a live handle, and nothing else, stops being live. */
  function FreeDecoderSpec(m: Mem, decoder: Option<HandleId>): (r: Mem)
    requires m.Valid() && (decoder.Some? ==> decoder.value in m.decoders)
    ensures r.Valid()
    ensures decoder.None? ==> r == m
    ensures decoder.Some? ==> decoder.value !in r.decoders && r.decoders == m.decoders - {decoder.value}
    ensures |r.decoders| == if decoder.Some? then |m.decoders| - 1 else |m.decoders|
    ensures r.strings == m.strings && r.encoders == m.encoders && r.calls == m.calls
  {
    if decoder.Some? then m.RemoveDecoder(decoder.value) else m
  }

  /** A decoder created and then freed leaves the live decoders as they were: no leak, no double free. */
  lemma CreateThenFreeDecoder(m: Mem, channels: uint32, sampleRate: uint32, result: Option<HandleId>,
                              error: Option<Rec>)
    requires m.Valid()
    ensures var c := NewDecoderSpec(m, channels, sampleRate, Some(result), error, Done(()));
      && c.ret.code == 0 && c.result.value.Some?
      && FreeDecoderSpec(c.ret.mem, c.result.value).decoders == m.decoders
  {
  }

  /** The unit test of decoder.rs: with everything null both entry points return what `invalid_input(null)` returns. */
  lemma NullChecksDecoder(m: Mem, created: Outcome<()>, decoded: Outcome<nat>)
    requires m.Valid()
    ensures NewDecoderSpec(m, 1, 48000, None, None, created).ret.code == InvalidInputSpec(m, None).code
    ensures DecodeSpec(m, false, None, None, 0, None, 0, false, None, None, decoded).ret.code == InvalidInputSpec(m, None).code
  {
  }

  /**
   * The session scenario, with one caller record `err` passed to every call:
   * a mono 16 kHz decoder is created and `err` is left alone; a decode with
   * null buffers is rejected without entering the engine, stores the
   * InvalidInput code and a new "Invalid input" string in `err`, and leaves
   * the handle live; freeing the handle leaves the live decoders as before.
   */
  lemma DecoderScenario(m: Mem, slot: Option<HandleId>, size: Option<nat>, err: Rec, answer: Outcome<nat>)
    requires m.Valid()
    ensures var c := NewDecoderSpec(m, 1, 16000, Some(slot), Some(err), Done(()));
      && c.ret.code == 0 && c.result.value.Some? && c.ret.err == Some(err)
      && var h := c.result.value.value;
      && c.ret.mem.calls == m.calls + [DecoderNew(16000, Mono)]
      && var d := DecodeSpec(c.ret.mem, false, Some(h), None, 0, None, 0, false, size, c.ret.err, answer);
      && d.ret.code == INVALID_INPUT && d.size == size
      && d.ret.err.Some? && d.ret.err.value.code == INVALID_INPUT && d.ret.err.value.message.Some?
      && var k := d.ret.err.value.message.value;
      && k !in m.strings && d.ret.mem.strings == m.strings[k := "Invalid input"]
      && d.ret.mem.calls == c.ret.mem.calls && h in d.ret.mem.decoders
      && FreeDecoderSpec(d.ret.mem, Some(h)).decoders == m.decoders
  {
  }

  method NewDecoder(heap: Heap, channels: uint32, sampleRate: uint32, result: Slot?<Option<HandleId>>,
                    error: OpusError?, answer: Outcome<()>) returns (code: int)
    requires heap.Valid()
    modifies heap, result, error
    ensures heap.Valid()
    ensures Created(Returned(heap.State(), ValueOf(error), code), SlotValue(result))
         == NewDecoderSpec(old(heap.State()), channels, sampleRate, old(SlotValue(result)), old(ValueOf(error)), answer)
  {
    if result == null {
      code := InvalidInput(heap, error);
      return;
    }
    var layout := ChannelsOf(channels);
    heap.Enter(DecoderNew(sampleRate, layout));
    if answer.Done? {
      var decoder := heap.BoxDecoder();
      result.value := Some(decoder);
    }
    code := FfiExec(heap, error, answer);
  }

  method Decode(heap: Heap, decoder: Option<HandleId>, input: array?<uint8>, inputSize: uint32,
                output: array?<int16>, outputSize: uint32, fec: bool, decodedSize: Slot?<nat>,
                error: OpusError?, answer: Outcome<nat>) returns (code: int)
    requires heap.Valid()
    requires decoder.Some? ==> decoder.value in heap.decoders
    requires input != null ==> inputSize as nat <= input.Length
    requires output != null ==> outputSize as nat <= output.Length
    modifies heap, decodedSize, error, output
    ensures heap.Valid()
    ensures output != null ==> output[outputSize..] == old(output[outputSize..])
    ensures output != null && (decoder.None? || input == null || decodedSize == null) ==> output[..] == old(output[..])
    ensures Processed(Returned(heap.State(), ValueOf(error), code), SlotValue(decodedSize))
         == DecodeSpec(old(heap.State()), false, decoder, Contents(input), inputSize, Capacity(output), outputSize,
                       fec, old(SlotValue(decodedSize)), old(ValueOf(error)), answer)
  {
    if decoder.None? || input == null || output == null || decodedSize == null {
      code := InvalidInput(heap, error);
      return;
    }
    var packet := input[..inputSize];
    code := Process(heap, DecoderDecode(decoder.value, packet, outputSize as nat, fec), decodedSize, error, answer);
  }

  method DecodeFloat(heap: Heap, decoder: Option<HandleId>, input: array?<uint8>, inputSize: uint32,
                     output: array?<Float32>, outputSize: uint32, fec: bool, result: Slot?<nat>,
                     error: OpusError?, answer: Outcome<nat>) returns (code: int)
    requires heap.Valid()
    requires decoder.Some? ==> decoder.value in heap.decoders
    requires input != null ==> inputSize as nat <= input.Length
    requires output != null ==> outputSize as nat <= output.Length
    modifies heap, result, error, output
    ensures heap.Valid()
    ensures output != null ==> output[outputSize..] == old(output[outputSize..])
    ensures output != null && (decoder.None? || input == null || result == null) ==> output[..] == old(output[..])
    ensures Processed(Returned(heap.State(), ValueOf(error), code), SlotValue(result))
         == DecodeSpec(old(heap.State()), true, decoder, Contents(input), inputSize, Capacity(output), outputSize,
                       fec, old(SlotValue(result)), old(ValueOf(error)), answer)
  {
    if decoder.None? || input == null || output == null || result == null {
      code := InvalidInput(heap, error);
      return;
    }
    var packet := input[..inputSize];
    code := Process(heap, DecoderDecodeFloat(decoder.value, packet, outputSize as nat, fec), result, error, answer);
  }

  method FreeDecoder(heap: Heap, decoder: Option<HandleId>)
    requires heap.Valid() && (decoder.Some? ==> decoder.value in heap.decoders)
    modifies heap
    ensures heap.Valid() && heap.State() == FreeDecoderSpec(old(heap.State()), decoder)
  {
    if decoder.Some? {
      heap.UnboxDecoder(decoder.value);
    }
  }
}
