# opus_ffi: a verified model of the C boundary around the Opus codec

The library exposes an Opus encoder and decoder to C callers. The codec itself
lives in an external engine crate. This library contributes only the boundary:

- **Handle lifecycle.** `new_decoder` and `new_encoder` box an engine session
  and hand the raw pointer to the caller. `free_decoder` and `free_encoder`
  unbox it; a null handle is a no-op.
- **Session adapters.** `decode`, `decode_float`, `encode` and `encode_float`
  reject any null pointer before entering the engine. They bind the caller's
  pointer/length pairs to views and write the produced size only on success.
- **Execution guard.** `ffi_exec` contains a panic. It returns 0 on success,
  the engine's code on a domain error, and `Unknown - 2` on a panic.
  `invalid_input` returns `Unknown - 1`.
- **Error channel.** The `OpusError { code, message }` record receives a code
  and a newly allocated C string on failure. The string has exactly one owner:
  either the caller's record, or a temporary whose `Drop` releases it.
  `free_c_string` and `free_opus_error` are the release paths.

## How it is modelled

- A pointer is an `Option`, with `None` standing for null.
- The process memory the layer touches is `World.Mem`. It holds:
  - the live C strings (`strings`, from id to text);
  - the live boxed decoders and encoders;
  - an allocation counter;
  - the trace of calls made into the engine.
- The engine is an oracle. Each entry point takes the engine's answer as a
  parameter: `Done(v)`, `Failed(error)` or `Panicked`, the three ways
  `catch_unwind` can end.
- Every entry point exists twice:
  - as a pure specification function over `Mem` (`...Spec`);
  - as a method over the mutable `World.Heap`, the `Records.OpusError` record
    class and `World.Slot` out-parameters.
  The method's postcondition equates its new state with its specification
  function. The properties are then proved about the functions.
- `Protocol` composes the entry points into arbitrary call sequences.
  `Protocol.RunAccounting` proves the resulting accounting of handles, messages
  and engine calls over any run.
- The engine's `ErrorCode` values are taken as the libopus constants:
  - `BadArg` -1, `BufferTooSmall` -2, `InternalError` -3, `InvalidPacket` -4,
    `Unimplemented` -5, `InvalidState` -6, `AllocFail` -7;
  - `Unknown` is -8.

  The engine crate is not part of this model. The proofs use only the fact
  that every domain code is negative and no lower than `Unknown`.
- `free_c_string` takes a `char **` slot. The model represents the slot as a
  record whose `message` field is the slot, and whose `code` the release never
  reads or changes (`FreeCStringSpec` leaves `code` as it was). So one
  definition covers both uses:
  - the library's own calls, which pass `&error.message` or `&mut self.message`;
  - a bare `char *` variable, as in the function's own documentation example.

## Model

| member | source | states |
|---|---|---|
| Records.OpusError.constructor | rust/src/error.rs:25-29 | the `#[repr(C)]` record holds exactly the given code and nullable message |
| Records.ValueOf | rust/src/error.rs:25-29 | a null record pointer has no value; a non-null one designates the record's current code and message |
| Guard.ReportSpec | rust/src/utils.rs:77-82 | the shared write of `invalid_input` and of the panic branch of `ffi_exec`: with a record, it stores the code and one new live string holding the text; with null, nothing changes; either way the code is returned |
| Guard.Report | rust/src/utils.rs:101-107 | the pointer writes (code, then a freshly allocated message) have the effect `ReportSpec` describes |
| Engine.ErrorCode.Code | rust/src/utils.rs:76 | every domain code is negative and at least `Unknown`; only `Unknown` equals `Unknown` |
| Guard.SentinelsBelowDomainCodes | rust/src/utils.rs:75-110 | `Unknown-2 < Unknown-1 <` every domain code `< 0`: the two sentinels are distinct from each other, from success and from every engine code |
| CStrings.FreeCStringSpec | rust/src/utils.rs:27-36 | null slot pointer or null slot: nothing changes; otherwise exactly that string stops being live (one fewer live string, the others keep their text) and the slot becomes null; sessions and engine calls untouched |
| CStrings.FreeCStringIdempotent | rust/src/utils.rs:27-36 | releasing the same slot a second time is a no-op, because the first release nulled it |
| CStrings.FreeCString | rust/src/utils.rs:27-36 | the imperative release (free, then null the slot) leaves exactly the state and slot `FreeCStringSpec` describes |
| ErrorChannel.FromErrorSpec | rust/src/error.rs:58-66 | the record carries the engine's code and a new live string (not live before) holding the description; nothing else changes |
| ErrorChannel.FromError | rust/src/error.rs:58-66 | allocates a fresh record whose value and heap effect are those of `FromErrorSpec` |
| ErrorChannel.DropSpec | rust/src/error.rs:31-41 | a non-null message is released exactly once, through `free_c_string`, and nulled; a null message is left alone and nothing changes |
| ErrorChannel.Drop | rust/src/error.rs:36-40 | the imperative drop has the effect `DropSpec` describes |
| ErrorChannel.FillSpec | rust/src/error.rs:44-55 | returns the engine's code whether or not `out` is null; with `out`, `out` gets that code and a new message and exactly one new string stays live; without it no new string stays live |
| ErrorChannel.Fill | rust/src/error.rs:44-55 | convert, move the message into `out` and null the temporary's, then drop the temporary; the result is exactly `FillSpec` |
| Guard.InvalidInputSpec | rust/src/utils.rs:75-85 | always returns `Unknown-1`; with a record it stores that code and a new "Invalid input" string; with null nothing at all changes |
| Guard.InvalidInput | rust/src/utils.rs:75-85 | the pointer writes of `invalid_input` have the effect `InvalidInputSpec` describes |
| Guard.FfiExecSpec | rust/src/utils.rs:87-112 | returns 0 exactly on success, and then leaves state and record alone; on a domain error returns exactly what `fill` returns; on a panic returns `Unknown-2` and reports "Rust panic occurred"; never returns `Unknown-1`; handles and engine trace untouched |
| Guard.FfiExec | rust/src/utils.rs:87-112 | the three-way match on the caught outcome has the effect `FfiExecSpec` describes |
| Guard.FreeOpusErrorSpec | rust/src/utils.rs:64-73 | null is a no-op; otherwise the record's drop releases its non-null message: one fewer live string, the others keep their text |
| Guard.FreeOpusError | rust/src/utils.rs:64-73 | dropping the boxed record has the effect `FreeOpusErrorSpec` describes |
| Guard.ReportThenFreeRestores | rust/src/utils.rs:64-73 | no leak on the error path: an empty record reported into and then freed with `free_opus_error` leaves exactly the strings live before the call |
| Guard.ReportThenFreeCStringRestores | rust/src/error.rs:13-23 | no leak on the error path for a record on the caller's stack: an empty record reported into and then released with `free_c_string` leaves exactly the strings live before the call, and the record keeps its code with a null message |
| Guard.FreeCStringThenFreeOpusError | rust/src/error.rs:36-40 | after `free_c_string` on a record's message, `free_opus_error` of that record releases nothing more: the message is freed exactly once |
| Records.ReportOrphansPrevious | rust/src/error.rs:47-49 | reporting into a record that already held a live message overwrites it without releasing it: the old message stays live but is no longer held by the record |
| Config.ChannelsOf | rust/src/decoder.rs:50-54 | the layout is stereo if and only if the caller passed 2, and mono otherwise; the mapping never fails |
| Config.ApplicationOf | rust/src/encoder.rs:61-66 | Audio if and only if 2, LowDelay if and only if 3, Voip for 1 and every other value |
| Config.DefaultsOnUnrecognised | rust/src/encoder.rs:56-66 | any value outside the recognised ones maps to the default layout and mode instead of failing |
| Adapter.ProcessSpec | rust/src/decoder.rs:118-128 | the closure of every processing call: exactly one engine call with the bound views; the size slot gets the engine's count only on success and keeps its value otherwise; the code is `ffi_exec`'s |
| Adapter.Process | rust/src/encoder.rs:129-139 | the imperative closure (enter engine, write size on success, guard) has the effect `ProcessSpec` describes |
| DecoderApi.NewDecoderSpec | rust/src/decoder.rs:40-64 | a null result slot returns `Unknown-1` with no engine call; otherwise the engine is asked once for a decoder with the mapped layout; returns 0 exactly when it succeeds, and then the slot holds a fresh live handle; on failure the slot and the live decoders are unchanged and the failure is reported |
| DecoderApi.NewDecoder | rust/src/decoder.rs:40-64 | the imperative entry point has the effect `NewDecoderSpec` describes, writing the caller's slot only on success |
| DecoderApi.DecodeSpec | rust/src/decoder.rs:104-129 | any null among decoder, input, output and size slot returns `Unknown-1` with no engine call, and the size and handles are unchanged; otherwise the engine receives exactly `input_size` bytes, an `output_size` view and `fec` unchanged; the size is written only on success; failures are reported |
| DecoderApi.Decode | rust/src/decoder.rs:104-129 | the imperative `decode` has the effect `DecodeSpec` describes for 16-bit output; the engine may write only the first `output_size` samples of the output buffer, and a rejected call leaves the buffer untouched |
| DecoderApi.DecodeFloat | rust/src/decoder.rs:165-190 | the imperative `decode_float` has the effect `DecodeSpec` describes for float output, with the same output-buffer frame |
| DecoderApi.FreeDecoderSpec | rust/src/decoder.rs:213-219 | null is a no-op; a live handle, and nothing else, stops being live |
| DecoderApi.FreeDecoder | rust/src/decoder.rs:213-219 | unboxing has the effect `FreeDecoderSpec` describes |
| DecoderApi.CreateThenFreeDecoder | rust/src/decoder.rs:56-63 | a decoder created and then freed leaves the live decoders exactly as before |
| DecoderApi.NullChecksDecoder | rust/src/decoder.rs:226-243 | with null pointers, `new_decoder` and `decode` return what `invalid_input(null)` returns, whatever the engine would have answered |
| DecoderApi.DecoderScenario | rust/src/decoder.rs:40-129 | with one caller record passed to every call: a mono 16 kHz decoder is created and the record is left alone; a decode with null buffers returns `Unknown-1` without entering the engine, stores that code and a new "Invalid input" string in the record, and leaves the handle live; freeing the handle restores the live decoders |
| EncoderApi.NewEncoderSpec | rust/src/encoder.rs:45-76 | as `new_decoder`, with the mapped application mode passed to the engine |
| EncoderApi.NewEncoder | rust/src/encoder.rs:45-76 | the imperative entry point has the effect `NewEncoderSpec` describes |
| EncoderApi.EncodeSpec | rust/src/encoder.rs:116-140 | null checks before any engine call; otherwise exactly `input_size` samples and an `output_size` view reach the engine; the size is written only on success; failures are reported |
| EncoderApi.Encode | rust/src/encoder.rs:116-140 | the imperative `encode` has the effect `EncodeSpec` describes; the engine may write only the first `output_size` bytes of the packet buffer, and a rejected call leaves the buffer untouched |
| EncoderApi.EncodeFloatSpec | rust/src/encoder.rs:176-200 | as `EncodeSpec`, for float input |
| EncoderApi.EncodeFloat | rust/src/encoder.rs:176-200 | the imperative `encode_float` has the effect `EncodeFloatSpec` describes, with the same packet-buffer frame |
| EncoderApi.FreeEncoderSpec | rust/src/encoder.rs:223-229 | null is a no-op; a live handle, and nothing else, stops being live |
| EncoderApi.FreeEncoder | rust/src/encoder.rs:223-229 | unboxing has the effect `FreeEncoderSpec` describes |
| EncoderApi.CreateThenFreeEncoder | rust/src/encoder.rs:68-75 | an encoder created and then freed leaves the live encoders exactly as before |
| EncoderApi.NullChecksEncoder | rust/src/encoder.rs:237-253 | with null pointers, `new_encoder` and `encode` return what `invalid_input(null)` returns |
| Protocol.Run | rust/src/decoder.rs:40-219 | any sequence of allowed calls keeps the memory well formed and never shrinks the engine trace |
| Protocol.StepAccounting | rust/src/utils.rs:27-112 | one call changes the live decoders, encoders and strings by exactly what it opens, closes, allocates (a failing call given a record) or releases, and enters the engine once exactly when it passes its null checks |
| Protocol.RunAccounting | rust/src/encoder.rs:45-229 | over any run, the live decoders (encoders) equal the initial ones plus the successful creations minus the non-null frees; the live strings grow by one per failing call given a record and shrink by one per release that finds a message; engine calls equal the calls that pass their null checks |

## Left out

- The codec engine (`opus_rs` `Decoder`/`Encoder`, Opus as in RFC 6716). It is a foreign library. Its answer to each call is a parameter, and nothing is said about audio content, frame sizes or FEC semantics.
- What the engine writes into the output buffer. The adapter methods may change the buffer's first `output_size` elements and are proved to leave the rest untouched, but the values written there are not modelled. Only the view the engine is given is recorded: the input's contents and the output's capacity.
- Float sample values. A float sample is an opaque bit pattern (`Engine.Float32`), because the layer never computes with samples.
- The unwinding mechanism of `catch_unwind`. A panic is the explicit outcome `Panicked`.
- `CString::new(...).unwrap()` failing on an interior NUL (rust/src/error.rs:60, rust/src/utils.rs:80, 104). Message construction is taken as infallible.
- Guard.FreeOpusErrorSpec: does not model the release of the record's own allocation, nor check that the record was boxed by this layer. Only its message is tracked.
- Whether caller-declared lengths match the real allocations. The layer cannot check this, so it is a `requires` on the adapters (`Protocol.Allowed`). The same holds for the liveness of a handle passed to a processing call or a free.
- The `usize` width of the size out-parameter. Sizes are unbounded `nat`.
- Thread safety of shared handles. The layer has no concurrency.
- The generated C header, the cbindgen build step, the iOS linker placeholder and the file-based integration tests. None of them is part of the boundary's behaviour.
