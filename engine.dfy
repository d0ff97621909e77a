/** Nullable values: `None` stands for a null pointer. */
module Wrappers {
  datatype Option<+T> = None | Some(value: T)
}

/**
 * The external codec engine (the `opus_rs` crate) as this layer sees it:
 * its error type, the three ways a guarded call into it can end, the
 * enumerations it is configured with, and a record of each call the layer
 * makes into it. What the engine does with audio is not modelled.
 */
module Engine {

  /** Machine integers that cross the C boundary. */
  newtype uint8 = x: int | 0 <= x < 0x100
  newtype int16 = x: int | -0x8000 <= x < 0x8000
  newtype uint32 = x: int | 0 <= x < 0x1_0000_0000

  /** A 32-bit float sample, kept as its bit pattern: the layer never computes with samples. */
  datatype Float32 = Float32(bits: bv32)

  /** Identity of a boxed codec session, i.e. the raw pointer handed to the caller. */
  type HandleId = nat

  /** Numeric value of the engine's `ErrorCode::Unknown`, the lowest code it reports. */
  const UNKNOWN: int := -8

  /** The engine's error codes, the libopus error constants plus `Unknown`. */
  datatype ErrorCode =
    | BadArg | BufferTooSmall | InternalError | InvalidPacket
    | Unimplemented | InvalidState | AllocFail | Unknown
  {
    /** `code as c_int`: every domain code is negative and no lower than `Unknown`. */
    function Code(): (c: int)
      ensures UNKNOWN <= c < 0
      ensures c == UNKNOWN <==> this == Unknown
    {
      match this
      case BadArg => -1
      case BufferTooSmall => -2
      case InternalError => -3
      case InvalidPacket => -4
      case Unimplemented => -5
      case InvalidState => -6
      case AllocFail => -7
      case Unknown => UNKNOWN
    }
  }

  /** `opus_rs::Error`: a code and a human-readable description. */
  datatype EngineError = EngineError(code: ErrorCode, description: string)

  /**
   * How a call into the engine ended, as seen through `catch_unwind`:
   * `Done(v)` is `Ok(Ok(v))`, `Failed(e)` is `Ok(Err(e))`, `Panicked` is `Err(_)`.
   */
  datatype Outcome<T> = Done(value: T) | Failed(error: EngineError) | Panicked

  /** The outcome of the closure handed to `ffi_exec`, which returns `Result<(), Error>`. */
  function Discard<T>(o: Outcome<T>): (r: Outcome<()>)
    ensures r.Done? <==> o.Done?
    ensures r.Failed? <==> o.Failed?
    ensures o.Failed? ==> r.error == o.error
  {
    match o
    case Done(_) => Done(())
    case Failed(e) => Failed(e)
    case Panicked => Panicked
  }

  datatype Channels = Mono | Stereo

  datatype Application = Voip | Audio | LowDelay

  /**
   * One call into the engine with the arguments it received. Buffers are
   * the bound views: the input's contents and the output's capacity.
   */
  datatype EngineCall =
    | DecoderNew(sampleRate: uint32, channels: Channels)
    | DecoderDecode(session: HandleId, packet: seq<uint8>, capacity: nat, fec: bool)
    | DecoderDecodeFloat(session: HandleId, packet: seq<uint8>, capacity: nat, fec: bool)
    | EncoderNew(sampleRate: uint32, channels: Channels, mode: Application)
    | EncoderEncode(session: HandleId, pcm: seq<int16>, capacity: nat)
    | EncoderEncodeFloat(session: HandleId, floatPcm: seq<Float32>, capacity: nat)
}
